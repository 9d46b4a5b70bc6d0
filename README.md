# Types-manifest generation for PDBBind, in Dafny

This project models the string-processing core of the `GenerateTypes` class in
`py_scripts/GenerateTypes.py`. The class reads a PDBBind index file and a list
of selected PDB ids, and writes two "types" manifests, one for training and one
for validation. Each manifest line holds three affinity slots (Ki, Kd, IC50),
then the path of a protein parquet file, then the path of a ligand parquet file.

The model has five modules:

- `Wrappers` (`wrappers.dfy`): `Option` for Python's `None`. `Result` for a
  value or the exception that stops the run.
- `PyStrings` (`pystrings.dfy`): the Python string operations the class relies
  on. `Split` is `str.split()` with no argument, over Python's full whitespace
  set. `Strip` is `str.strip()`. `JoinSpaced` is the single-space join that
  `"{0} {1} {2}".format(...)` produces.
- `TypesFormat` (`typesformat.dfy`): one manifest line. It covers the metric
  label cut from the annotation token (`MetricLabel`), `list.index`
  (`IndexOf`), `_make_types_line` (`MakeTypesLine`), the run modes (`Mode`) and
  the path derivation (`Paths`).
- `TypesGenerator` (`typesgenerator.dfy`): the constructor's seed and mode
  checks (`CheckSettings`), `_lines_to_list` (`LinesToList`) and
  `generate_types`. `generate_types` is an imperative loop (`GenerateTypes`)
  that appends to two string accumulators. It is proved equal to the
  functional specification `GeneratedTypes`. That specification folds
  (`Fold`) the per-line results (`Contribution`) of the lines after the
  header. The constructor sequence is `NewGenerateTypes`.
- `Scenarios` (`scenarios.dfy`): concrete records: a `Kd` record, an `IC50`
  record, an unknown kind, and the paths of each mode.

How Python behaviour is rendered:

- An exception stops the whole construction, so no manifest is written. The
  model returns `Err` for the whole run, and `Failure` names the cause:
  - `BlankIndexLine`: `split()[0]` on a blank index line.
  - `MissingCrossdockMap`: `open(None)` in cross-docking mode when no map file
    was given.
  - `MissingDonor`: a `KeyError` on the donor map.
  - `MissingField`: an `IndexError` on field 3 or 4.
  - `UnknownMetric`: a `ValueError` from `list.index`.
  - `OutPathNotString`: the `TypeError` of `None + "..."` in `write_types`.
  - `SeedNotInteger` and `IllegalMode`: the two constructor assertions.

  Inside a listed record, these errors are checked in the source's order:
  paths, then field 3, then field 4, then the metric.
- The seed and mode are `PyValue`s, which are Python's None, bool, int or str.
  The constructor's `mode in [False, 'redocking', 'crossdocking']` uses Python
  `==`, so the int `0` is accepted and then runs as the default mode, because
  `not 0` is true. `isinstance(seed, int)` accepts a bool seed.
  `CheckSettings` states both facts outright.
- `Mode` is `Default | Redocking | Crossdocking(donorMap, fileString)`.
  - The donor map is the unpickled dictionary, or `None` when no map file was
    given.
  - The file string is `None` when it was not given. The f-string then writes
    `None` into the ligand file name.
- The index file and the id file are given as their lines. The training and
  validation id lists are given as inputs. The model does not require them to
  partition the id list, because the code does not rely on that.
  `CoveredRecordsRouted` states what follows when they do cover it.
- The constructed instance is the value `Generator`, which records the fields
  that `generate_types` and `write_types` read: the mode as resolved by
  `CheckSettings`, with the donor map and the file string inside a
  cross-docking mode. The raw `mode` value and `crossdock_dict_file` are not
  kept, and outside cross-docking neither is `file_string`. Nothing mutates
  the instance after construction.

Behaviour of `GenerateTypes` worth noting:

- An unknown metric does not skip just its record. It raises out of
  `generate_types`, so the run produces neither manifest.
- `_lines_to_list` returns `[]` for `None`. The constructor never passes it
  `None`, because `pathlib.Path(None)` in the id-file check raises first.
  `NewGenerateTypes` therefore always passes the id file's lines.
- `out_path` defaults to `None`, and only a non-`None` value is checked. With
  the default, `write_types` raises a `TypeError` on `None + "..."` after
  both manifests have been generated, so construction fails
  (`OutPathNotString`) and nothing is written.
- The accepted "unset" mode is `False`, or anything equal to it under `==`.

## Model

| member | source | states |
|---|---|---|
| `PyStrings.Split` | py_scripts/GenerateTypes.py:84 | every field of `line.split()` is non-empty and holds no whitespace |
| `PyStrings.SplitLeadingSpace` | py_scripts/GenerateTypes.py:84 | leading whitespace of any width does not change `line.split()` |
| `PyStrings.SplitOfLayout` | py_scripts/GenerateTypes.py:84 | a line made of optional leading whitespace, then tokens separated by non-empty whitespace runs of any width, then optional trailing whitespace, splits into exactly those tokens |
| `PyStrings.SplitLayout` | py_scripts/GenerateTypes.py:84 | every line has such a layout for its `split()` fields, so the fields are the maximal whitespace-free runs; with `SplitOfLayout`, this determines `split()` |
| `PyStrings.SplitKeepsText` | py_scripts/GenerateTypes.py:84 | the fields of `line.split()`, concatenated, are exactly the non-whitespace characters of the line, in order |
| `PyStrings.SplitJoinSpaced` | py_scripts/GenerateTypes.py:132-133 | splitting a single-space join of non-empty whitespace-free fields, followed by any all-whitespace tail (such as one newline), gives the fields back |
| `PyStrings.Strip` | py_scripts/GenerateTypes.py:125 | `line.strip()` is an infix of the line with only whitespace cut on either side, and it starts and ends with non-whitespace unless it is empty |
| `PyStrings.StripUnique` | py_scripts/GenerateTypes.py:125 | any infix with whitespace all around it and non-whitespace ends (or the empty infix of an all-whitespace line) is the stripped line |
| `PyStrings.StripIdempotent` | py_scripts/GenerateTypes.py:125 | stripping an already stripped id changes nothing |
| `TypesFormat.IndexOf` | py_scripts/GenerateTypes.py:131 | `list.index` gives the first position holding the value, and it fails exactly when the value is absent |
| `TypesFormat.MetricLabel` | py_scripts/GenerateTypes.py:100 | the label is the prefix of field 4 before the first `~`, `=`, `>` or `<`, or the whole token when none occurs |
| `TypesFormat.MetricLabelOfAnnotation` | py_scripts/GenerateTypes.py:100 | an annotation `kind op value` whose kind has no delimiter yields exactly that kind |
| `TypesFormat.Slots` | py_scripts/GenerateTypes.py:130-131 | the affinity goes in slot `k` and the other two slots hold `-1` |
| `TypesFormat.MakeTypesLine` | py_scripts/GenerateTypes.py:129-133 | the call raises exactly when the metric is not Ki, Kd or IC50, and the error names the metric; otherwise the line is the three slots, the receptor and the ligand joined by single spaces, followed by one newline |
| `TypesFormat.TypesLineFields` | py_scripts/GenerateTypes.py:130-133 | read back with `split()`, a types line is exactly `s0 s1 s2 receptor ligand`, with the affinity at the metric's index and `-1` in the other slots |
| `TypesFormat.Paths` | py_scripts/GenerateTypes.py:87-97 | path derivation fails exactly in cross-docking mode with no map, or with the id missing from the map, with that error |
| `TypesFormat.PathsEndings` | py_scripts/GenerateTypes.py:87-97 | both paths end in `.parquet`, and the protein path ends in `_protein_cleaned.parquet` |
| `TypesFormat.PathsAreTokens` | py_scripts/GenerateTypes.py:87-97 | both paths are single whitespace-free fields when the id, the donor and the file string are |
| `TypesFormat.LigandPathInjective` | py_scripts/GenerateTypes.py:89-96 | within one mode, two different ids never get the same ligand path |
| `TypesFormat.ProteinPathShared` | py_scripts/GenerateTypes.py:87-97 | two ids share a protein path exactly when they are the same id, or in cross-docking mode when they have the same donor |
| `TypesGenerator.CheckSettings` | py_scripts/GenerateTypes.py:54-57 | a non-int seed (bools count as ints) fails first; then `False` or `0` give the default mode, `'redocking'` and `'crossdocking'` give their modes, and every other mode value is rejected |
| `TypesGenerator.LinesToList` | py_scripts/GenerateTypes.py:120-126 | `None` gives `[]`; otherwise the result has one stripped entry per line, in order, with no surrounding whitespace |
| `TypesGenerator.ListedId` | py_scripts/GenerateTypes.py:120-126 | an id written on a line of the id file, with any whitespace around it, is on the id list |
| `TypesGenerator.GenerateTypes` | py_scripts/GenerateTypes.py:76-110 | the loop over the index lines returns exactly the specified pair of manifests, or the first error |
| `TypesGenerator.RecordLine` | py_scripts/GenerateTypes.py:86-104 | a listed record raises exactly when its paths fail, it has fewer than five fields, or field 4's label is not a known metric; the error is the first of these, naming field 3 or 4 as the first one missing; otherwise its line is the slots of field 3 under that metric, then its protein and ligand paths, single-spaced, with one newline |
| `TypesGenerator.AbortsAt` | py_scripts/GenerateTypes.py:83-108 | when every earlier line succeeds, the first line that raises ends the run with its own error, whatever follows it |
| `TypesGenerator.UnknownMetricAborts` | py_scripts/GenerateTypes.py:131 | a listed record with an unknown metric makes the run raise `UnknownMetric`, so neither manifest is produced |
| `TypesGenerator.FoldAppend` | py_scripts/GenerateTypes.py:83-108 | folding the results of `a + b` is folding `a`'s, then `b`'s: each accumulator is `a`'s text followed by `b`'s, and an error in `a` wins |
| `TypesGenerator.FoldOkIff` | py_scripts/GenerateTypes.py:83-108 | a fold of per-line results succeeds exactly when every line's result does |
| `TypesGenerator.FoldAbortsAt` | py_scripts/GenerateTypes.py:83-108 | after a successful prefix, the first failing line's error is the result of the whole fold |
| `TypesGenerator.AccumulateAppend` | py_scripts/GenerateTypes.py:83-108 | running over `a + b` gives `a`'s output followed by `b`'s in each manifest, so index order is kept, and an error in `a` wins |
| `TypesGenerator.SkippedLineIrrelevant` | py_scripts/GenerateTypes.py:84-85 | removing a line whose id is not on the id list changes nothing |
| `TypesGenerator.AccumulateOkIff` | py_scripts/GenerateTypes.py:83-108 | the run succeeds exactly when no line raises |
| `TypesGenerator.ContributionRouting` | py_scripts/GenerateTypes.py:105-108 | a line adds to at most one manifest. It adds to training exactly when its id is listed and in the training list, and to validation exactly when its id is listed, not in the training list and in the validation list. What it adds is its types line |
| `TypesGenerator.CoveredRecordsRouted` | py_scripts/GenerateTypes.py:105-108 | when the training and validation lists cover the id list, each listed record lands in exactly one manifest |
| `TypesGenerator.RecordLineFields` | py_scripts/GenerateTypes.py:99-104 | a listed record's line holds field 3 in the slot of field 4's metric, `-1` elsewhere, then its protein and ligand paths |
| `TypesGenerator.AccumulateShape` | py_scripts/GenerateTypes.py:104-108 | each accumulator is empty or ends with `.parquet` and a newline |
| `TypesGenerator.OutputsHaveNoTrailingNewline` | py_scripts/GenerateTypes.py:110 | the trimmed character is the final newline; each output is empty, or ends with `.parquet` and has no trailing newline |
| `TypesGenerator.HeaderNeverContributes` | py_scripts/GenerateTypes.py:82 | replacing the first six index lines changes nothing |
| `TypesGenerator.ShortIndexIsEmpty` | py_scripts/GenerateTypes.py:82 | an index of at most six lines gives two empty manifests |
| `TypesGenerator.WriteTypes` | py_scripts/GenerateTypes.py:112-116 | with no output path it raises; otherwise it writes the training text, then the validation text, to two different files, named by the output-path string followed by `pdbbind_2020_general_pymol_train.types` and `pdbbind_2020_general_pymol_val.types` (the files land inside the directory only when the path ends in a separator) |
| `TypesGenerator.NewGenerateTypes` | py_scripts/GenerateTypes.py:34-74 | construction fails on a bad seed before a bad mode, both before any data error, and those before a missing output path; otherwise it holds the mode, the output path, the stripped id list, the given split and the generated manifests, and writes them as `write_types` does |
| `Scenarios.KdExample` | py_scripts/GenerateTypes.py:129-133 | field 3 `8.12` with annotation `Kd=7.5nM` gives the slots `-1 8.12 -1`: the annotation picks the slot, field 3 fills it |
| `Scenarios.Ic50Example` | py_scripts/GenerateTypes.py:129-133 | field 3 `95` with annotation `IC50~120uM` gives the slots `-1 -1 95` |
| `Scenarios.UnknownKindExample` | py_scripts/GenerateTypes.py:131 | the annotation `Kx=5.2` raises with the metric `Kx` |
| `Scenarios.ProteinFileName` | py_scripts/GenerateTypes.py:87 | the cleaned protein of `1abc` is `1abc/1abc_protein_cleaned.parquet` |
| `Scenarios.DonorProteinFileName` | py_scripts/GenerateTypes.py:97 | the cleaned protein of donor `9xyz` is `9xyz/9xyz_protein_cleaned.parquet` |
| `Scenarios.DefaultLigandFileName` | py_scripts/GenerateTypes.py:89 | the default ligand of `1abc` is `1abc/1abc_ligand_pymol.parquet` |
| `Scenarios.RedockingLigandFileName` | py_scripts/GenerateTypes.py:91 | the redocked ligand of `1abc` is `1abc/1abc_redocked_best_pose.parquet` |
| `Scenarios.CrossdockingLigandFileName` | py_scripts/GenerateTypes.py:96 | with the file string `test`, the cross-docked ligand of `1abc` is `1abc/1abc_crossdocking_test_similar_best_pose.parquet` |
| `Scenarios.DefaultPathsExample` | py_scripts/GenerateTypes.py:87-89 | in the default mode, `1abc` gets `1abc/1abc_protein_cleaned.parquet` and `1abc/1abc_ligand_pymol.parquet` |
| `Scenarios.RedockingPathsExample` | py_scripts/GenerateTypes.py:87-91 | in redocking mode, the ligand of `1abc` is `1abc/1abc_redocked_best_pose.parquet` |
| `Scenarios.CrossdockingPathsExample` | py_scripts/GenerateTypes.py:92-97 | with `{1abc: 9xyz}` and `test`, the protein is `9xyz/9xyz_protein_cleaned.parquet` and the ligand is `1abc/1abc_crossdocking_test_similar_best_pose.parquet`; an unmapped id or a missing map raises |

## Left out

- The train/validation split (`_train_val_split`, lines 135-140) is left out. It calls scikit-learn's randomised `train_test_split`, a foreign library, so both lists are inputs; the split's own exceptions (for instance on an id list too short to leave a non-empty training set) are not modelled, so `NewGenerateTypes` can return `Ok` where the constructor raises at lines 68-70.
- The existence checks with `pathlib` (lines 45-51) are left out. They query the file system.
- `open`/`readlines` of the index and id files are left out. Each file is given as its sequence of lines, and the model does not split a file into lines.
- The file writes of `write_types` (lines 112-116) are returned as (file name, text) pairs rather than performed. Opening a file inside a directory that does not exist is not modelled.
- `pickle.load` of the cross-dock map (lines 93-95) is left out. It is foreign deserialisation. The map is given as an already loaded `map<string, string>`. Reloading it for every record gives the same map each time, so the model loads it once. Donor values that are not strings are not modelled.
- The `re.split` regex engine is left out. Its effect at line 100 is modelled as a scan for the first delimiter character.
- Float modes and seeds are not modelled. `PyValue` covers only None, bool, int and str, so `0.0` (which equals `False`) and float seeds are missing.
- `py_scripts/pdb_clean.py` is not part of this model. It consists of MDAnalysis parsing, atom selection and writing, `os.path.exists`, `tqdm` and `print`. Its only logic is a missing-file counter that is reset in every iteration.
