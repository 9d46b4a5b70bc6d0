/**
 * One line of a types manifest: the metric label read from an index record's
 * annotation token, the three affinity slots, and the protein and ligand
 * parquet paths that the run mode selects
 * (GenerateTypes.generate_types and GenerateTypes._make_types_line).
 */
module TypesFormat {
  import opened Wrappers
  import opened PyStrings

  /** Why a run of the generator stops. Each stands for an exception or a
      failed assertion that `GenerateTypes` raises. */
  datatype Failure =
    | SeedNotInteger                     // assertion on the random seed
    | IllegalMode                        // assertion on the mode
    | BlankIndexLine                     // `line.split()[0]` on a line with no token
    | MissingCrossdockMap                // `open(None)` when no cross-dock file was given
    | MissingDonor(pdb: string)          // `cross_dock_dict[pdb]` raising KeyError
    | MissingField(pdb: string, field: nat) // `line.split()[3]` or `[4]` raising IndexError
    | UnknownMetric(metric: string)      // `["Ki", "Kd", "IC50"].index(metric)` raising ValueError
    | OutPathNotString                   // `None + "..."` in `write_types` raising TypeError

  /** How ligand (and, for cross-docking, protein) files are named. A
      cross-docking run carries the loaded donor map (None when no map file was
      given) and the file string (None when it was not given). */
  datatype Mode =
    | Default
    | Redocking
    | Crossdocking(donorMap: Option<map<string, string>>, fileString: Option<string>)

  /** The three affinity kinds, in slot order. */
  const Metrics: seq<string> := ["Ki", "Kd", "IC50"]

  /** `xs.index(x)`: the first position of `x`, None where Python raises ValueError. */
  function IndexOf(xs: seq<string>, x: string): (r: Option<nat>)
    ensures r.None? <==> x !in xs
    ensures r.Some? ==> r.value < |xs| && xs[r.value] == x && x !in xs[..r.value]
  {
    if xs == [] then None
    else if xs[0] == x then Some(0)
    else match IndexOf(xs[1..], x)
      case None => None
      case Some(k) =>
        assert xs[..k + 1] == [xs[0]] + xs[1..][..k];
        Some(k + 1)
  }

  predicate IsDelimiter(c: char) {
    c == '~' || c == '=' || c == '>' || c == '<'
  }

  /** `re.split(r"~|=|>|<", token)[0]`: the part of the annotation token before
      its first delimiter, or the whole token when it has none. */
  function MetricLabel(token: string): (r: string)
    ensures |r| <= |token| && r == token[..|r|]
    ensures forall i :: 0 <= i < |r| ==> !IsDelimiter(r[i])
    ensures |r| == |token| || IsDelimiter(token[|r|])
  {
    if token == [] || IsDelimiter(token[0]) then ""
    else [token[0]] + MetricLabel(token[1..])
  }

  /** An annotation `kind op rest` whose kind has no delimiter yields that kind. */
  lemma MetricLabelOfAnnotation(kind: string, op: char, rest: string)
    requires forall i :: 0 <= i < |kind| ==> !IsDelimiter(kind[i])
    requires IsDelimiter(op)
    ensures MetricLabel(kind + [op] + rest) == kind
  {
    var token := kind + [op] + rest;
    var r := MetricLabel(token);
    forall i | 0 <= i < |kind| ensures token[i] == kind[i] && !IsDelimiter(token[i]) { }
    assert token[|kind|] == op;
    forall i | 0 <= i < |r| ensures !IsDelimiter(token[i]) { assert token[i] == r[i]; }
    assert token[..|kind|] == kind;
  }

  /** The three affinity slots with `affinity` at position `k` and `-1` elsewhere. */
  function Slots(affinity: string, k: nat): (r: seq<string>)
    requires k < 3
    ensures |r| == 3 && r[k] == affinity
    ensures forall j :: 0 <= j < 3 && j != k ==> r[j] == "-1"
  {
    seq(3, j => if j == k then affinity else "-1")
  }

  /** `_make_types_line(receptor, ligand, affinity, metric)`. */
  function MakeTypesLine(receptor: string, ligand: string, affinity: string, metric: string)
    : (r: Result<string, Failure>)
    ensures r.Err? <==> metric !in Metrics
    ensures r.Err? ==> r.error == UnknownMetric(metric)
    ensures r.Ok? ==> IndexOf(Metrics, metric).Some? && EndsWith(r.value, ligand + "\n")
    ensures r.Ok? ==>
      r.value == JoinSpaced(Slots(affinity, IndexOf(Metrics, metric).value) + [receptor, ligand]) + "\n"
  {
    match IndexOf(Metrics, metric)
    case None => Err(UnknownMetric(metric))
    case Some(k) =>
      var slots := Slots(affinity, k);
      var affinityStr := JoinSpaced(slots);
      var line := affinityStr + " " + receptor + " " + ligand + "\n";
      assert line[|line| - |ligand + "\n"|..] == ligand + "\n";
      JoinFive(slots[0], slots[1], slots[2], receptor, ligand);
      assert slots == [slots[0], slots[1], slots[2]];
      assert slots + [receptor, ligand] == [slots[0], slots[1], slots[2], receptor, ligand];
      Ok(line)
  }

  /** Read back with `split()`, a types line has exactly five fields: the
      affinity in the slot of its metric, `-1` in the other two, then the
      receptor and ligand paths. */
  lemma {:induction false} TypesLineFields(receptor: string, ligand: string, affinity: string, metric: string)
    requires IsToken(receptor) && IsToken(ligand) && IsToken(affinity)
    requires metric in Metrics
    ensures MakeTypesLine(receptor, ligand, affinity, metric).Ok?
    ensures var k := IndexOf(Metrics, metric).value;
            Split(MakeTypesLine(receptor, ligand, affinity, metric).value)
              == Slots(affinity, k) + [receptor, ligand]
  {
    var k := IndexOf(Metrics, metric).value;
    var slots := Slots(affinity, k);
    var fields := slots + [receptor, ligand];
    assert IsToken("-1") by { assert "-1" == ['-', '1']; }
    forall i | 0 <= i < |fields| ensures IsToken(fields[i]) {
      if i < 3 && i != k { assert fields[i] == "-1"; }
    }
    assert AllSpace("\n");
    SplitJoinSpaced(fields, "\n");
  }

  /** The five fields of a types line, joined as `_make_types_line` formats them. */
  lemma JoinFive(a: string, b: string, c: string, d: string, e: string)
    ensures JoinSpaced([a, b, c, d, e]) == JoinSpaced([a, b, c]) + " " + d + " " + e
  {
    assert [a, b, c, d, e][1..] == [b, c, d, e];
    assert [b, c, d, e][1..] == [c, d, e];
    assert [c, d, e][1..] == [d, e];
    assert [d, e][1..] == [e];
    assert [a, b, c][1..] == [b, c];
    assert [b, c][1..] == [c];
    assert JoinSpaced([e]) == e && JoinSpaced([c]) == c;
    assert JoinSpaced([b, c]) == b + " " + c;
    var de := JoinSpaced([d, e]);
    assert de == d + " " + e;
    var cde := JoinSpaced([c, d, e]);
    assert cde == c + " " + de;
    assert JoinSpaced([b, c, d, e]) == b + " " + cde;
    assert JoinSpaced([a, b, c]) == a + " " + (b + " " + c);
    assert JoinSpaced([a, b, c, d, e]) == a + " " + (b + " " + (c + " " + (d + " " + e)));
  }

  /** Python's `f"{x}"` for a value that may be None. */
  function Render(x: Option<string>): string {
    match x
    case None => "None"
    case Some(s) => s
  }

  /** `f"{d}/{d}{suffix}"`: a file inside the directory named after `d`. */
  function InDir(d: string, suffix: string): string {
    d + "/" + d + suffix
  }

  /** Different identifiers never share a file name with the same suffix. */
  lemma InDirInjective(a: string, b: string, suffix: string)
    requires InDir(a, suffix) == InDir(b, suffix)
    ensures a == b
  {
    assert |a| == |b|;
    assert InDir(a, suffix)[..|a|] == a;
    assert InDir(b, suffix)[..|b|] == b;
  }

  /** A file named after a whitespace-free identifier, with a whitespace-free
      suffix, is one `split()` field. */
  lemma InDirIsToken(d: string, suffix: string)
    requires IsToken(d) && NoSpace(suffix)
    ensures IsToken(InDir(d, suffix))
  {
    assert NoSpace("/");
    NoSpaceConcat(d, "/");
    NoSpaceConcat(d + "/", d);
    NoSpaceConcat(d + "/" + d, suffix);
  }

  /** A file name ends with whatever its suffix ends with. */
  lemma InDirEndsWith(d: string, suffix: string, ending: string)
    requires EndsWith(suffix, ending)
    ensures EndsWith(InDir(d, suffix), ending)
  {
    var f := InDir(d, suffix);
    assert f == (d + "/" + d) + suffix;
    assert f[|f| - |ending|..] == suffix[|suffix| - |ending|..];
  }

  /** Every file the manifests name is a parquet file. */
  const Parquet := ".parquet"

  const ProteinSuffix := "_protein_cleaned" + Parquet

  function LigandSuffix(mode: Mode): string {
    match mode
    case Default => "_ligand_pymol" + Parquet
    case Redocking => "_redocked_best_pose" + Parquet
    case Crossdocking(_, fileString) =>
      "_crossdocking_" + Render(fileString) + "_similar_best_pose" + Parquet
  }

  /** The protein and ligand paths of record `pdb` (lines 87-97): the ligand is
      always under the record's own directory; the protein is too, except in
      cross-docking mode, where it is the donor's cleaned protein. */
  function Paths(mode: Mode, pdb: string): (r: Result<(string, string), Failure>)
    ensures r.Err? <==> mode.Crossdocking? && (mode.donorMap.None? || pdb !in mode.donorMap.value)
    ensures r.Err? ==> r.error == if mode.donorMap.None? then MissingCrossdockMap else MissingDonor(pdb)
  {
    var protein := InDir(pdb, ProteinSuffix);
    var ligand := InDir(pdb, LigandSuffix(mode));
    match mode
    case Default => Ok((protein, ligand))
    case Redocking => Ok((protein, ligand))
    case Crossdocking(donorMap, _) =>
      if donorMap.None? then Err(MissingCrossdockMap)
      else if pdb !in donorMap.value then Err(MissingDonor(pdb))
      else Ok((InDir(donorMap.value[pdb], ProteinSuffix), ligand))
  }

  /** Both paths name parquet files, and the protein path is a cleaned protein. */
  lemma PathsEndings(mode: Mode, pdb: string)
    requires Paths(mode, pdb).Ok?
    ensures EndsWith(Paths(mode, pdb).value.0, ProteinSuffix)
    ensures EndsWith(Paths(mode, pdb).value.1, Parquet)
  {
    var (protein, ligand) := Paths(mode, pdb).value;
    var owner := if mode.Crossdocking? then mode.donorMap.value[pdb] else pdb;
    assert protein == InDir(owner, ProteinSuffix);
    InDirEndsWith(owner, ProteinSuffix, ProteinSuffix);
    var stem := match mode
      case Default => "_ligand_pymol"
      case Redocking => "_redocked_best_pose"
      case Crossdocking(_, fileString) => "_crossdocking_" + Render(fileString) + "_similar_best_pose";
    assert LigandSuffix(mode) == stem + Parquet;
    EndsWithAppend(stem, Parquet, Parquet);
    InDirEndsWith(pdb, LigandSuffix(mode), Parquet);
  }

  lemma ProteinSuffixNoSpace()
    ensures NoSpace(ProteinSuffix)
  {
    assert NoSpace("_protein_cleaned");
    assert NoSpace(Parquet);
    NoSpaceConcat("_protein_cleaned", Parquet);
  }

  lemma CrossdockingSuffixNoSpace(fileString: Option<string>)
    requires NoSpace(Render(fileString))
    ensures NoSpace(LigandSuffix(Crossdocking(None, fileString)))
  {
    assert NoSpace("_crossdocking_");
    assert NoSpace("_similar_best_pose");
    assert NoSpace(Parquet);
    NoSpaceConcat("_crossdocking_", Render(fileString));
    NoSpaceConcat("_crossdocking_" + Render(fileString), "_similar_best_pose");
    NoSpaceConcat("_crossdocking_" + Render(fileString) + "_similar_best_pose", Parquet);
  }

  lemma LigandSuffixNoSpace(mode: Mode)
    requires mode.Crossdocking? ==> NoSpace(Render(mode.fileString))
    ensures NoSpace(LigandSuffix(mode))
  {
    assert NoSpace(Parquet);
    match mode {
      case Default =>
        assert NoSpace("_ligand_pymol");
        NoSpaceConcat("_ligand_pymol", Parquet);
      case Redocking =>
        assert NoSpace("_redocked_best_pose");
        NoSpaceConcat("_redocked_best_pose", Parquet);
      case Crossdocking(_, fileString) =>
        CrossdockingSuffixNoSpace(fileString);
    }
  }

  /** Neither path holds whitespace when the identifier, the donor and the
      cross-docking file string hold none. */
  lemma PathsAreTokens(mode: Mode, pdb: string)
    requires IsToken(pdb) && Paths(mode, pdb).Ok?
    requires mode.Crossdocking? ==> IsToken(mode.donorMap.value[pdb]) && NoSpace(Render(mode.fileString))
    ensures IsToken(Paths(mode, pdb).value.0) && IsToken(Paths(mode, pdb).value.1)
  {
    ProteinSuffixNoSpace();
    LigandSuffixNoSpace(mode);
    InDirIsToken(pdb, LigandSuffix(mode));
    if mode.Crossdocking? {
      InDirIsToken(mode.donorMap.value[pdb], ProteinSuffix);
    } else {
      InDirIsToken(pdb, ProteinSuffix);
    }
  }

  /** Within one mode, two records never share a ligand file. */
  lemma LigandPathInjective(mode: Mode, a: string, b: string)
    requires Paths(mode, a).Ok? && Paths(mode, b).Ok?
    requires Paths(mode, a).value.1 == Paths(mode, b).value.1
    ensures a == b
  {
    InDirInjective(a, b, LigandSuffix(mode));
  }

  /** Two records share a protein file exactly when they have the same protein
      source: themselves outside cross-docking, their donors in cross-docking. */
  lemma ProteinPathShared(mode: Mode, a: string, b: string)
    requires Paths(mode, a).Ok? && Paths(mode, b).Ok?
    ensures Paths(mode, a).value.0 == Paths(mode, b).value.0
        <==> if mode.Crossdocking? then mode.donorMap.value[a] == mode.donorMap.value[b] else a == b
  {
    var pa, pb := Paths(mode, a).value.0, Paths(mode, b).value.0;
    if pa == pb {
      if mode.Crossdocking? {
        InDirInjective(mode.donorMap.value[a], mode.donorMap.value[b], ProteinSuffix);
      } else {
        InDirInjective(a, b, ProteinSuffix);
      }
    }
  }
}
