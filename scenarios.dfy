/**
 * Concrete records run through the model: the affinity slots of a `Kd` and
 * an `IC50` record, and the paths of record `1abc` in each mode.
 */
module Scenarios {
  import opened Wrappers
  import opened PyStrings
  import opened TypesFormat

  /** Field 3 `8.12` with annotation `Kd=7.5nM` puts `8.12` in the middle
      slot: the annotation only chooses the slot, its number is not used. */
  lemma KdExample()
    ensures MakeTypesLine("p", "l", "8.12", MetricLabel("Kd=7.5nM")) == Ok("-1 8.12 -1 p l\n")
  {
    MetricLabelOfAnnotation("Kd", '=', "7.5nM");
    assert "Kd=7.5nM" == "Kd" + ['='] + "7.5nM";
    assert IndexOf(Metrics, "Kd") == Some(1);
    assert Slots("8.12", 1) == ["-1", "8.12", "-1"];
    assert JoinSpaced(["-1", "8.12", "-1"]) == "-1 8.12 -1" by {
      assert ["-1", "8.12", "-1"][1..] == ["8.12", "-1"];
      assert ["8.12", "-1"][1..] == ["-1"];
    }
    assert "-1 8.12 -1" + " " + "p" + " " + "l" + "\n" == "-1 8.12 -1 p l\n";
  }

  /** Field 3 `95` with annotation `IC50~120uM` puts `95` in the last slot. */
  lemma Ic50Example()
    ensures MakeTypesLine("p", "l", "95", MetricLabel("IC50~120uM")) == Ok("-1 -1 95 p l\n")
  {
    MetricLabelOfAnnotation("IC50", '~', "120uM");
    assert "IC50~120uM" == "IC50" + ['~'] + "120uM";
    assert IndexOf(Metrics, "IC50") == Some(2) by {
      assert Metrics[1..][1..] == ["IC50"];
    }
    assert Slots("95", 2) == ["-1", "-1", "95"];
    assert JoinSpaced(["-1", "-1", "95"]) == "-1 -1 95" by {
      assert ["-1", "-1", "95"][1..] == ["-1", "95"];
      assert ["-1", "95"][1..] == ["95"];
    }
    assert "-1 -1 95" + " " + "p" + " " + "l" + "\n" == "-1 -1 95 p l\n";
  }

  /** An annotation of another kind raises. */
  lemma UnknownKindExample()
    ensures MakeTypesLine("p", "l", "5.2", MetricLabel("Kx=5.2")) == Err(UnknownMetric("Kx"))
  {
    MetricLabelOfAnnotation("Kx", '=', "5.2");
    assert "Kx=5.2" == "Kx" + ['='] + "5.2";
  }

  /** The concrete file names of record `1abc` and of donor `9xyz`. */
  lemma ProteinFileName()
    ensures InDir("1abc", ProteinSuffix) == "1abc/1abc_protein_cleaned.parquet"
  {
    assert "1abc" + "/" + "1abc" == "1abc/1abc";
    assert "1abc/1abc" + "_protein_cleaned" == "1abc/1abc_protein_cleaned";
  }

  lemma DonorProteinFileName()
    ensures InDir("9xyz", ProteinSuffix) == "9xyz/9xyz_protein_cleaned.parquet"
  {
    assert "9xyz" + "/" + "9xyz" == "9xyz/9xyz";
    assert "9xyz/9xyz" + "_protein_cleaned" == "9xyz/9xyz_protein_cleaned";
  }

  lemma DefaultLigandFileName()
    ensures InDir("1abc", LigandSuffix(Default)) == "1abc/1abc_ligand_pymol.parquet"
  {
  }

  lemma RedockingLigandFileName()
    ensures InDir("1abc", LigandSuffix(Redocking)) == "1abc/1abc_redocked_best_pose.parquet"
  {
    assert "1abc" + "/" + "1abc" == "1abc/1abc";
    assert "1abc/1abc" + "_redocked_best_pose" == "1abc/1abc_redocked_best_pose";
  }

  lemma CrossdockingLigandFileName(donorMap: Option<map<string, string>>)
    ensures InDir("1abc", LigandSuffix(Crossdocking(donorMap, Some("test"))))
            == "1abc/1abc_crossdocking_test_similar_best_pose.parquet"
  {
    var suffix := LigandSuffix(Crossdocking(donorMap, Some("test")));
    assert suffix == "_crossdocking_" + "test" + "_similar_best_pose" + Parquet;
    assert InDir("1abc", suffix) == "1abc/1abc" + "_crossdocking_" + "test" + "_similar_best_pose" + Parquet by {
      assert "1abc" + "/" + "1abc" == "1abc/1abc";
    }
    assert "1abc/1abc" + "_crossdocking_" == "1abc/1abc_crossdocking_";
    assert "1abc/1abc_crossdocking_" + "test" == "1abc/1abc_crossdocking_test";
    assert "1abc/1abc_crossdocking_test" + "_similar_best_pose" == "1abc/1abc_crossdocking_test_similar_best_pose";
  }

  lemma DefaultPathsExample()
    ensures Paths(Default, "1abc") == Ok(("1abc/1abc_protein_cleaned.parquet", "1abc/1abc_ligand_pymol.parquet"))
  {
    ProteinFileName();
    DefaultLigandFileName();
  }

  lemma RedockingPathsExample()
    ensures Paths(Redocking, "1abc")
            == Ok(("1abc/1abc_protein_cleaned.parquet", "1abc/1abc_redocked_best_pose.parquet"))
  {
    ProteinFileName();
    RedockingLigandFileName();
  }

  /** With donor `9xyz`, the protein is the donor's and the ligand stays the
      record's, named with the file string. */
  lemma CrossdockingPathsExample()
    ensures Paths(Crossdocking(Some(map["1abc" := "9xyz"]), Some("test")), "1abc")
            == Ok(("9xyz/9xyz_protein_cleaned.parquet", "1abc/1abc_crossdocking_test_similar_best_pose.parquet"))
    ensures Paths(Crossdocking(Some(map["1abc" := "9xyz"]), Some("test")), "2def") == Err(MissingDonor("2def"))
    ensures Paths(Crossdocking(None, Some("test")), "1abc") == Err(MissingCrossdockMap)
  {
    DonorProteinFileName();
    CrossdockingLigandFileName(Some(map["1abc" := "9xyz"]));
  }
}
