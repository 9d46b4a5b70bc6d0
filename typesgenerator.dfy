/**
 * The `GenerateTypes` class: the checks its constructor makes, the id list it
 * reads, and `generate_types`, which turns the lines of a PDBBind index file
 * into the text of a training and a validation types manifest.
 */
module TypesGenerator {
  import opened Wrappers
  import opened PyStrings
  import opened TypesFormat

  /** A Python value passed as the random seed or the mode. */
  datatype PyValue = PyNone | PyBool(b: bool) | PyInt(i: int) | PyStr(s: string)

  function NumericValue(v: PyValue): Option<int> {
    match v
    case PyBool(b) => Some(if b then 1 else 0)
    case PyInt(i) => Some(i)
    case _ => None
  }

  /** Python's `==` on these values; a bool compares equal to the matching int. */
  predicate PyEquals(a: PyValue, b: PyValue) {
    match a
    case PyNone => b.PyNone?
    case PyStr(x) => b.PyStr? && b.s == x
    case _ => NumericValue(a).Some? && NumericValue(a) == NumericValue(b)
  }

  /** Python's truth value. */
  predicate Truthy(v: PyValue) {
    match v
    case PyNone => false
    case PyBool(b) => b
    case PyInt(i) => i != 0
    case PyStr(s) => s != ""
  }

  /** `isinstance(v, int)`; `bool` is a subclass of `int`. */
  predicate IsInstanceInt(v: PyValue) {
    v.PyBool? || v.PyInt?
  }

  /** The constructor's seed and mode assertions, in their order, followed by
      the choice `generate_types` makes on the stored mode (`not self.mode`,
      `== "redocking"`, `== "crossdocking"`). */
  function CheckSettings(seed: PyValue, mode: PyValue,
                         donorMap: Option<map<string, string>>, fileString: Option<string>)
    : (r: Result<Mode, Failure>)
    ensures !(seed.PyBool? || seed.PyInt?) ==> r == Err(SeedNotInteger)
    ensures (seed.PyBool? || seed.PyInt?) ==>
      r == if mode == PyBool(false) || mode == PyInt(0) then Ok(Default)
           else if mode == PyStr("redocking") then Ok(Redocking)
           else if mode == PyStr("crossdocking") then Ok(Crossdocking(donorMap, fileString))
           else Err(IllegalMode)
  {
    if !IsInstanceInt(seed) then Err(SeedNotInteger)
    else if !(PyEquals(mode, PyBool(false)) || PyEquals(mode, PyStr("redocking"))
              || PyEquals(mode, PyStr("crossdocking"))) then Err(IllegalMode)
    else if !Truthy(mode) then Ok(Default)
    else if PyEquals(mode, PyStr("redocking")) then Ok(Redocking)
    else Ok(Crossdocking(donorMap, fileString))
  }

  /** `_lines_to_list(file)`, with the file given as its lines (None for no file). */
  function LinesToList(file: Option<seq<string>>): (r: seq<string>)
    ensures file.None? ==> r == []
    ensures file.Some? ==> |r| == |file.value|
    ensures file.Some? ==> forall i :: 0 <= i < |r| ==> r[i] == Strip(file.value[i])
    ensures forall i :: 0 <= i < |r| ==> r[i] == [] || (!IsSpace(r[i][0]) && !IsSpace(r[i][|r[i]| - 1]))
  {
    match file
    case None => []
    case Some(lines) => seq(|lines|, i requires 0 <= i < |lines| => Strip(lines[i]))
  }

  /** An id written on a line of the id file, with any whitespace around it,
      is on the id list. */
  lemma ListedId(lines: seq<string>, i: nat, before: string, id: string, after: string)
    requires i < |lines| && lines[i] == before + id + after
    requires AllSpace(before) && AllSpace(after) && IsToken(id)
    ensures id in LinesToList(Some(lines))
  {
    var line := lines[i];
    var j := |before| + |id|;
    assert line[..|before|] == before && line[j..] == after && line[|before|..j] == id;
    assert line[|before|] == id[0] && line[j - 1] == id[|id| - 1];
    StripUnique(line, |before|, j);
    assert LinesToList(Some(lines))[i] == id;
  }

  /** Everything `generate_types` reads from the instance. */
  datatype Settings = Settings(mode: Mode, pdbList: seq<string>, trainList: seq<string>, valList: seq<string>)

  /** Which accumulator a kept record's line goes to. */
  datatype Target = Train | Val | Nowhere

  function Route(s: Settings, pdb: string): Target {
    if pdb in s.trainList then Train
    else if pdb in s.valList then Val
    else Nowhere
  }

  /** The types line of a kept record, given its whitespace tokens: paths
      first, then fields 3 and 4, then the metric lookup. */
  function RecordLine(mode: Mode, tokens: seq<string>): (r: Result<string, Failure>)
    requires |tokens| > 0
    ensures r.Err? <==> Paths(mode, tokens[0]).Err? || |tokens| < 5 || MetricLabel(tokens[4]) !in Metrics
    ensures r.Err? ==> r.error == if Paths(mode, tokens[0]).Err? then Paths(mode, tokens[0]).error
                                  else if |tokens| < 5 then MissingField(tokens[0], if |tokens| < 4 then 3 else 4)
                                  else UnknownMetric(MetricLabel(tokens[4]))
    ensures r.Ok? ==>
      var (protein, ligand) := Paths(mode, tokens[0]).value;
      r.value == JoinSpaced(Slots(tokens[3], IndexOf(Metrics, MetricLabel(tokens[4])).value) + [protein, ligand]) + "\n"
  {
    var pdb := tokens[0];
    match Paths(mode, pdb)
    case Err(e) => Err(e)
    case Ok((protein, ligand)) =>
      if |tokens| <= 3 then Err(MissingField(pdb, 3))
      else if |tokens| <= 4 then Err(MissingField(pdb, 4))
      else MakeTypesLine(protein, ligand, tokens[3], MetricLabel(tokens[4]))
  }

  /** What one index line appends to the training and validation
      accumulators, or the error it raises. */
  function Contribution(s: Settings, line: string): Result<(string, string), Failure> {
    var tokens := Split(line);
    if tokens == [] then Err(BlankIndexLine)
    else if tokens[0] !in s.pdbList then Ok(("", ""))
    else match RecordLine(s.mode, tokens)
      case Err(e) => Err(e)
      case Ok(t) =>
        match Route(s, tokens[0])
        case Train => Ok((t, ""))
        case Val => Ok(("", t))
        case Nowhere => Ok(("", ""))
  }

  /** The accumulators of two runs one after the other; the first error wins. */
  function Combine(x: Result<(string, string), Failure>, y: Result<(string, string), Failure>)
    : Result<(string, string), Failure>
  {
    if x.Err? then x
    else if y.Err? then y
    else Ok((x.value.0 + y.value.0, x.value.1 + y.value.1))
  }

  lemma CombineAssociative(x: Result<(string, string), Failure>, y: Result<(string, string), Failure>,
                           z: Result<(string, string), Failure>)
    ensures Combine(Combine(x, y), z) == Combine(x, Combine(y, z))
  {
    if x.Ok? && y.Ok? && z.Ok? {
      assert x.value.0 + y.value.0 + z.value.0 == x.value.0 + (y.value.0 + z.value.0);
      assert x.value.1 + y.value.1 + z.value.1 == x.value.1 + (y.value.1 + z.value.1);
    }
  }

  lemma CombineEmpty(x: Result<(string, string), Failure>)
    ensures Combine(x, Ok(("", ""))) == x
  {
    if x.Ok? {
      assert x.value.0 + "" == x.value.0 && x.value.1 + "" == x.value.1;
    }
  }

  /** The accumulators after a sequence of per-line results, or the first error. */
  function Fold(cs: seq<Result<(string, string), Failure>>): Result<(string, string), Failure>
    decreases |cs|
  {
    if cs == [] then Ok(("", ""))
    else Combine(Fold(cs[..|cs| - 1]), cs[|cs| - 1])
  }

  /** Folding `a + b` is folding `a`, then `b`. */
  lemma {:induction false} FoldAppend(a: seq<Result<(string, string), Failure>>,
                                      b: seq<Result<(string, string), Failure>>)
    ensures Fold(a + b) == Combine(Fold(a), Fold(b))
    decreases |b|
  {
    if b == [] {
      assert a + b == a;
      CombineEmpty(Fold(a));
    } else {
      var b' := b[..|b| - 1];
      assert (a + b)[..|a + b| - 1] == a + b';
      assert (a + b)[|a + b| - 1] == b[|b| - 1];
      FoldAppend(a, b');
      CombineAssociative(Fold(a), Fold(b'), b[|b| - 1]);
    }
  }

  /** A fold succeeds exactly when every step does. */
  lemma {:induction false} FoldOkIff(cs: seq<Result<(string, string), Failure>>)
    ensures Fold(cs).Ok? <==> forall i :: 0 <= i < |cs| ==> cs[i].Ok?
    decreases |cs|
  {
    if cs != [] {
      var init := cs[..|cs| - 1];
      FoldOkIff(init);
      assert forall i :: 0 <= i < |init| ==> init[i] == cs[i];
    }
  }

  lemma FoldEmptyStep()
    ensures Fold([Ok(("", ""))]) == Ok(("", ""))
  {
    var cs: seq<Result<(string, string), Failure>> := [Ok(("", ""))];
    assert cs[..0] == [];
    assert "" + "" == "";
  }

  /** The first failing step decides the fold. */
  lemma FoldAbortsAt(cs: seq<Result<(string, string), Failure>>, i: nat)
    requires i < |cs| && Fold(cs[..i]).Ok? && cs[i].Err?
    ensures Fold(cs) == cs[i]
  {
    assert cs[..i + 1][..i] == cs[..i];
    FoldAppend(cs[..i + 1], cs[i + 1..]);
    assert cs[..i + 1] + cs[i + 1..] == cs;
  }

  /** What each of `lines` contributes, in order. */
  function Contributions(s: Settings, lines: seq<string>): seq<Result<(string, string), Failure>> {
    seq(|lines|, i requires 0 <= i < |lines| => Contribution(s, lines[i]))
  }

  /** The accumulators after the loop has gone over `lines`, or the first error. */
  function Accumulate(s: Settings, lines: seq<string>): Result<(string, string), Failure> {
    Fold(Contributions(s, lines))
  }

  /** `lines[6:]`. */
  function Body(indexLines: seq<string>): seq<string> {
    if |indexLines| <= 6 then [] else indexLines[6..]
  }

  /** `x[:-1]`. */
  function DropLast(x: string): string {
    if x == [] then [] else x[..|x| - 1]
  }

  /** The pair of strings `generate_types` returns, or the error it raises. */
  function GeneratedTypes(s: Settings, indexLines: seq<string>): Result<(string, string), Failure> {
    match Accumulate(s, Body(indexLines))
    case Err(e) => Err(e)
    case Ok((t, v)) => Ok((DropLast(t), DropLast(v)))
  }

  /** `generate_types`: the loop over the index lines after the header. */
  method GenerateTypes(s: Settings, indexLines: seq<string>) returns (r: Result<(string, string), Failure>)
    ensures r == GeneratedTypes(s, indexLines)
  {
    var trainStr, valStr := "", "";
    var lines := Body(indexLines);
    var i := 0;
    while i < |lines|
      invariant 0 <= i <= |lines|
      invariant Accumulate(s, lines[..i]) == Ok((trainStr, valStr))
    {
      var line := lines[i];
      var tokens := Split(line);
      if tokens == [] {
        r := Err(BlankIndexLine);
        RunAbortsAt(s, indexLines, i, r.error);
        return;
      }
      ghost var trainBefore, valBefore := trainStr, valStr;
      ghost var added := ("", "");
      var pdb := tokens[0];
      if pdb in s.pdbList {
        var typesStr := "";
        var typesLine := RecordLine(s.mode, tokens);
        if typesLine.Err? {
          r := Err(typesLine.error);
          RunAbortsAt(s, indexLines, i, r.error);
          return;
        }
        typesStr := typesStr + typesLine.value;
        assert typesStr == typesLine.value;
        if pdb in s.trainList {
          trainStr := trainStr + typesStr;
          added := (typesStr, "");
        } else if pdb in s.valList {
          valStr := valStr + typesStr;
          added := ("", typesStr);
        }
        KeptContribution(s, line, typesStr);
      }
      assert Contribution(s, line) == Ok(added);
      AccumulateStep(s, lines, i, trainBefore, valBefore, added);
      assert trainStr == trainBefore + added.0 && valStr == valBefore + added.1;
      i := i + 1;
    }
    assert lines[..i] == lines;
    r := Ok((DropLast(trainStr), DropLast(valStr)));
  }

  /** What a record on the id list appends, once its line is built. */
  lemma KeptContribution(s: Settings, line: string, t: string)
    requires Split(line) != [] && Split(line)[0] in s.pdbList
    requires RecordLine(s.mode, Split(line)) == Ok(t)
    ensures Contribution(s, line) == match Route(s, Split(line)[0])
                                     case Train => Ok((t, ""))
                                     case Val => Ok(("", t))
                                     case Nowhere => Ok(("", ""))
  {
  }

  /** A line that raises ends `generate_types` with its error. */
  lemma RunAbortsAt(s: Settings, indexLines: seq<string>, i: nat, e: Failure)
    requires i < |Body(indexLines)|
    requires Accumulate(s, Body(indexLines)[..i]).Ok?
    requires Contribution(s, Body(indexLines)[i]) == Err(e)
    ensures GeneratedTypes(s, indexLines) == Err(e)
  {
    AbortsAt(s, Body(indexLines), i);
  }

  /** One more line of the loop appends that line's contribution. */
  lemma AccumulateStep(s: Settings, lines: seq<string>, i: nat, t: string, v: string, added: (string, string))
    requires i < |lines|
    requires Accumulate(s, lines[..i]) == Ok((t, v))
    requires Contribution(s, lines[i]) == Ok(added)
    ensures Accumulate(s, lines[..i + 1]) == Ok((t + added.0, v + added.1))
  {
    var cs := Contributions(s, lines[..i + 1]);
    assert cs[..i] == Contributions(s, lines[..i]);
    assert cs[i] == Contribution(s, lines[i]);
  }

  /** A line that raises ends the run with its error. */
  lemma AbortsAt(s: Settings, lines: seq<string>, i: nat)
    requires i < |lines|
    requires Accumulate(s, lines[..i]).Ok?
    requires Contribution(s, lines[i]).Err?
    ensures Accumulate(s, lines) == Err(Contribution(s, lines[i]).error)
  {
    var cs := Contributions(s, lines);
    assert cs[..i] == Contributions(s, lines[..i]);
    FoldAbortsAt(cs, i);
  }

  /** A listed record whose annotation names no known metric makes the whole
      run raise: neither manifest is produced. */
  lemma UnknownMetricAborts(s: Settings, indexLines: seq<string>, i: nat)
    requires i < |Body(indexLines)|
    requires Accumulate(s, Body(indexLines)[..i]).Ok?
    requires var tokens := Split(Body(indexLines)[i]);
             |tokens| >= 5 && tokens[0] in s.pdbList && Paths(s.mode, tokens[0]).Ok?
             && MetricLabel(tokens[4]) !in Metrics
    ensures GeneratedTypes(s, indexLines) == Err(UnknownMetric(MetricLabel(Split(Body(indexLines)[i])[4])))
  {
    var tokens := Split(Body(indexLines)[i]);
    assert RecordLine(s.mode, tokens) == Err(UnknownMetric(MetricLabel(tokens[4])));
    RunAbortsAt(s, indexLines, i, UnknownMetric(MetricLabel(tokens[4])));
  }

  /** Running over `a + b` is running over `a`, then over `b`: the lines of `a`
      come before those of `b` in each output, and an error in `a` wins. */
  lemma AccumulateAppend(s: Settings, a: seq<string>, b: seq<string>)
    ensures Accumulate(s, a + b) == Combine(Accumulate(s, a), Accumulate(s, b))
  {
    assert Contributions(s, a + b) == Contributions(s, a) + Contributions(s, b);
    FoldAppend(Contributions(s, a), Contributions(s, b));
  }

  /** A line whose id is not on the id list can be taken out without changing the result. */
  lemma SkippedLineIrrelevant(s: Settings, a: seq<string>, line: string, b: seq<string>)
    requires Split(line) != [] && Split(line)[0] !in s.pdbList
    ensures Accumulate(s, a + [line] + b) == Accumulate(s, a + b)
  {
    AccumulateAppend(s, a + [line], b);
    AccumulateAppend(s, a, [line]);
    AccumulateAppend(s, a, b);
    var cs := Contributions(s, [line]);
    assert cs == [Ok(("", ""))];
    FoldEmptyStep();
    assert Accumulate(s, [line]) == Ok(("", ""));
    CombineEmpty(Accumulate(s, a));
    assert Accumulate(s, a + [line]) == Accumulate(s, a);
  }

  /** The run succeeds exactly when no line raises. */
  lemma AccumulateOkIff(s: Settings, lines: seq<string>)
    ensures Accumulate(s, lines).Ok? <==> forall i :: 0 <= i < |lines| ==> Contribution(s, lines[i]).Ok?
  {
    var cs := Contributions(s, lines);
    FoldOkIff(cs);
    assert forall i :: 0 <= i < |lines| ==> cs[i] == Contribution(s, lines[i]);
  }

  /** When the training and validation lists cover the id list, every record
      on the id list goes to exactly one output. */
  lemma CoveredRecordsRouted(s: Settings, line: string)
    requires Contribution(s, line).Ok?
    requires forall id :: id in s.pdbList ==> id in s.trainList || id in s.valList
    requires Split(line)[0] in s.pdbList
    ensures (Contribution(s, line).value.0 == "") != (Contribution(s, line).value.1 == "")
  {
    ContributionRouting(s, line);
  }

  /** A kept record goes to at most one output: to training when its id is on
      the training list, otherwise to validation when it is on the validation
      list; a skipped line and a record on neither list go nowhere. */
  lemma ContributionRouting(s: Settings, line: string)
    requires Contribution(s, line).Ok?
    ensures var (ct, cv) := Contribution(s, line).value;
            var pdb := Split(line)[0];
            (ct == "" || cv == "")
            && (ct != "" <==> pdb in s.pdbList && pdb in s.trainList)
            && (cv != "" <==> pdb in s.pdbList && pdb !in s.trainList && pdb in s.valList)
            && (ct != "" ==> ct == RecordLine(s.mode, Split(line)).value)
            && (cv != "" ==> cv == RecordLine(s.mode, Split(line)).value)
  {
    var tokens := Split(line);
    if tokens[0] in s.pdbList {
      var t := RecordLine(s.mode, tokens).value;
      assert t != "";
    }
  }

  /** Empty, or ending with a ligand path and its newline. */
  predicate LinesShaped(x: string) {
    x == "" || EndsWith(x, Parquet + "\n")
  }

  /** A listed record's types line, read back with `split()`, holds field 3
      in the slot of field 4's metric, `-1` in the other slots, then the
      protein and ligand paths, provided the index fields, the donor and the
      file string hold no whitespace. */
  lemma RecordLineFields(mode: Mode, tokens: seq<string>)
    requires |tokens| > 4 && RecordLine(mode, tokens).Ok?
    requires forall i :: 0 <= i < |tokens| ==> IsToken(tokens[i])
    requires mode.Crossdocking? ==> IsToken(mode.donorMap.value[tokens[0]]) && NoSpace(Render(mode.fileString))
    ensures var (protein, ligand) := Paths(mode, tokens[0]).value;
            var k := IndexOf(Metrics, MetricLabel(tokens[4])).value;
            Split(RecordLine(mode, tokens).value) == Slots(tokens[3], k) + [protein, ligand]
  {
    var (protein, ligand) := Paths(mode, tokens[0]).value;
    PathsAreTokens(mode, tokens[0]);
    TypesLineFields(protein, ligand, tokens[3], MetricLabel(tokens[4]));
  }

  /** A record's types line ends with its ligand's `.parquet` and a newline. */
  lemma RecordLineShape(mode: Mode, tokens: seq<string>)
    requires |tokens| > 0 && RecordLine(mode, tokens).Ok?
    ensures EndsWith(RecordLine(mode, tokens).value, Parquet + "\n")
  {
    var ligand := Paths(mode, tokens[0]).value.1;
    PathsEndings(mode, tokens[0]);
    EndsWithChain(RecordLine(mode, tokens).value, ligand, Parquet, "\n");
  }

  lemma ContributionShape(s: Settings, line: string)
    requires Contribution(s, line).Ok?
    ensures LinesShaped(Contribution(s, line).value.0) && LinesShaped(Contribution(s, line).value.1)
  {
    var tokens := Split(line);
    if tokens[0] in s.pdbList {
      RecordLineShape(s.mode, tokens);
    }
  }

  lemma AppendShaped(x: string, y: string)
    requires LinesShaped(x) && LinesShaped(y)
    ensures LinesShaped(x + y)
  {
    if y != "" {
      EndsWithAppend(x, y, Parquet + "\n");
    }
  }

  /** A fold of shaped steps is shaped. */
  lemma {:induction false} FoldShape(cs: seq<Result<(string, string), Failure>>)
    requires Fold(cs).Ok?
    requires forall i :: 0 <= i < |cs| && cs[i].Ok? ==> LinesShaped(cs[i].value.0) && LinesShaped(cs[i].value.1)
    ensures LinesShaped(Fold(cs).value.0) && LinesShaped(Fold(cs).value.1)
    decreases |cs|
  {
    if cs != [] {
      var init := cs[..|cs| - 1];
      var last := cs[|cs| - 1];
      assert forall i :: 0 <= i < |init| ==> init[i] == cs[i];
      FoldShape(init);
      AppendShaped(Fold(init).value.0, last.value.0);
      AppendShaped(Fold(init).value.1, last.value.1);
    }
  }

  /** Each accumulator is empty or ends with a ligand path and its newline. */
  lemma AccumulateShape(s: Settings, lines: seq<string>)
    requires Accumulate(s, lines).Ok?
    ensures LinesShaped(Accumulate(s, lines).value.0) && LinesShaped(Accumulate(s, lines).value.1)
  {
    var cs := Contributions(s, lines);
    forall i | 0 <= i < |cs| && cs[i].Ok?
      ensures LinesShaped(cs[i].value.0) && LinesShaped(cs[i].value.1)
    {
      ContributionShape(s, lines[i]);
    }
    FoldShape(cs);
  }

  /** Trimming one character from a shaped accumulator removes exactly its final newline. */
  lemma DropLastOfShaped(x: string)
    requires LinesShaped(x)
    ensures x == "" ==> DropLast(x) == ""
    ensures x != "" ==> x == DropLast(x) + "\n" && EndsWith(DropLast(x), Parquet)
  {
    if x != "" {
      var d := DropLast(x);
      assert x[|x| - 1] == '\n';
      assert x == d + "\n";
      assert d[|d| - 8..] == x[|x| - 9..|x| - 1];
    }
  }

  /** The character each output loses is the newline of its last line, so
      neither output ends with a newline: each is empty or ends with the
      `.parquet` of its last ligand path. */
  lemma OutputsHaveNoTrailingNewline(s: Settings, indexLines: seq<string>)
    requires GeneratedTypes(s, indexLines).Ok?
    ensures var acc := Accumulate(s, Body(indexLines)).value;
            var (t, v) := GeneratedTypes(s, indexLines).value;
            (acc.0 == "" ==> t == "") && (acc.0 != "" ==> acc.0 == t + "\n")
            && (acc.1 == "" ==> v == "") && (acc.1 != "" ==> acc.1 == v + "\n")
    ensures var (t, v) := GeneratedTypes(s, indexLines).value;
            (t == "" || EndsWith(t, Parquet)) && (v == "" || EndsWith(v, Parquet))
  {
    AccumulateShape(s, Body(indexLines));
    var acc := Accumulate(s, Body(indexLines)).value;
    DropLastOfShaped(acc.0);
    DropLastOfShaped(acc.1);
  }

  /** The six header lines never matter. */
  lemma HeaderNeverContributes(s: Settings, h1: seq<string>, h2: seq<string>, rest: seq<string>)
    requires |h1| == 6 && |h2| == 6
    ensures GeneratedTypes(s, h1 + rest) == GeneratedTypes(s, h2 + rest)
  {
    if rest == [] {
      assert h1 + rest == h1 && h2 + rest == h2;
    } else {
      assert (h1 + rest)[6..] == rest && (h2 + rest)[6..] == rest;
    }
  }

  /** An index file with no more than its header yields two empty manifests. */
  lemma ShortIndexIsEmpty(s: Settings, indexLines: seq<string>)
    requires |indexLines| <= 6
    ensures GeneratedTypes(s, indexLines) == Ok(("", ""))
  {
  }

  /** The fields of a constructed `GenerateTypes` instance. */
  datatype Generator = Generator(
    indexLines: seq<string>, mode: Mode, outPath: Option<string>, pdbList: seq<string>,
    trainList: seq<string>, valList: seq<string>, trainStr: string, valStr: string)

  const TrainTypesName := "pdbbind_2020_general_pymol_train.types"
  const ValTypesName := "pdbbind_2020_general_pymol_val.types"

  /** `write_types`, as the (file name, text) pairs it writes, in order; with
      no output path, `None + "..."` raises before anything is written. */
  function WriteTypes(g: Generator): (r: Result<seq<(string, string)>, Failure>)
    ensures r.Err? <==> g.outPath.None?
    ensures r.Err? ==> r.error == OutPathNotString
    ensures r.Ok? ==> |r.value| == 2 && r.value[0].1 == g.trainStr && r.value[1].1 == g.valStr
    ensures r.Ok? ==> r.value[0].0 == g.outPath.value + TrainTypesName
                      && r.value[1].0 == g.outPath.value + ValTypesName
  {
    match g.outPath
    case None => Err(OutPathNotString)
    case Some(dir) =>
      var trainFile, valFile := dir + TrainTypesName, dir + ValTypesName;
      assert trainFile[..|dir|] == dir && valFile[..|dir|] == dir;
      assert |trainFile| != |valFile|;
      Ok([(trainFile, g.trainStr), (valFile, g.valStr)])
  }

  /** The constructor: the seed and mode checks, the id list, then
      `generate_types` and `write_types`; the training and validation ids are
      given. Any error aborts construction; `writes` are the files written. */
  method NewGenerateTypes(indexLines: seq<string>, idLines: seq<string>, seed: PyValue, mode: PyValue,
                          donorMap: Option<map<string, string>>, fileString: Option<string>,
                          outPath: Option<string>, trainList: seq<string>, valList: seq<string>)
    returns (r: Result<Generator, Failure>, writes: seq<(string, string)>)
    ensures !IsInstanceInt(seed) ==> r == Err(SeedNotInteger)
    ensures IsInstanceInt(seed) && CheckSettings(seed, mode, donorMap, fileString).Err? ==> r == Err(IllegalMode)
    ensures CheckSettings(seed, mode, donorMap, fileString).Ok? ==>
      var s := Settings(CheckSettings(seed, mode, donorMap, fileString).value,
                        LinesToList(Some(idLines)), trainList, valList);
      match GeneratedTypes(s, indexLines)
      case Err(e) => r == Err(e)
      case Ok((t, v)) =>
        var g := Generator(indexLines, s.mode, outPath, s.pdbList, trainList, valList, t, v);
        r == (if outPath.None? then Err(OutPathNotString) else Ok(g))
    ensures r.Err? ==> writes == []
    ensures r.Ok? ==> WriteTypes(r.value) == Ok(writes)
  {
    writes := [];
    var checked := CheckSettings(seed, mode, donorMap, fileString);
    if checked.Err? {
      return Err(checked.error), writes;
    }
    var pdbList := LinesToList(Some(idLines));
    var settings := Settings(checked.value, pdbList, trainList, valList);
    var generated := GenerateTypes(settings, indexLines);
    if generated.Err? {
      return Err(generated.error), writes;
    }
    var g := Generator(indexLines, checked.value, outPath, pdbList, trainList, valList,
                       generated.value.0, generated.value.1);
    var written := WriteTypes(g);
    if written.Err? {
      return Err(written.error), writes;
    }
    r, writes := Ok(g), written.value;
  }
}
