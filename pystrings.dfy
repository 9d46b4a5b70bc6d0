/**
 * The parts of Python's `str` that the types generator relies on:
 * `str.split()` with no separator, `str.strip()` with no argument, and the
 * single-space join that `"{0} {1} {2}".format(...)` produces.
 */
module PyStrings {

  /** The characters `str.isspace()` accepts, which are the separators of
      `str.split()` and what `str.strip()` removes. */
  predicate IsSpace(c: char) {
    var n := c as int;
    (0x09 <= n <= 0x0D) || (0x1C <= n <= 0x20) || n == 0x85 || n == 0xA0 || n == 0x1680
    || (0x2000 <= n <= 0x200A) || n == 0x2028 || n == 0x2029 || n == 0x202F
    || n == 0x205F || n == 0x3000
  }

  predicate NoSpace(s: string) {
    forall i :: 0 <= i < |s| ==> !IsSpace(s[i])
  }

  predicate AllSpace(s: string) {
    forall i :: 0 <= i < |s| ==> IsSpace(s[i])
  }

  lemma NoSpaceConcat(a: string, b: string)
    requires NoSpace(a) && NoSpace(b)
    ensures NoSpace(a + b)
  {
    forall i | 0 <= i < |a + b| ensures !IsSpace((a + b)[i]) {
      if i >= |a| { assert (a + b)[i] == b[i - |a|]; }
    }
  }

  /** What `str.split()` can yield: a non-empty run without whitespace. */
  predicate IsToken(t: string) {
    t != [] && NoSpace(t)
  }

  predicate EndsWith(s: string, suffix: string) {
    |suffix| <= |s| && s[|s| - |suffix|..] == suffix
  }

  /** Ending with `y + tail`, where `y` ends with `z`, is ending with `z + tail`. */
  lemma EndsWithChain(x: string, y: string, z: string, tail: string)
    requires EndsWith(x, y + tail) && EndsWith(y, z)
    ensures EndsWith(x, z + tail)
  {
    var n := |x| - |y + tail|;
    assert x[n..] == y + tail;
    assert x[|x| - |z + tail|..] == x[n..][|y| - |z|..];
    assert (y + tail)[|y| - |z|..] == y[|y| - |z|..] + tail;
  }

  /** Appending to something that ends with `z` keeps the ending. */
  lemma EndsWithAppend(x: string, y: string, z: string)
    requires EndsWith(y, z)
    ensures EndsWith(x + y, z)
  {
    assert (x + y)[|x + y| - |z|..] == y[|y| - |z|..];
  }

  /** Length of the maximal run of non-whitespace characters at the start of `s`. */
  function TokenLength(s: string): (n: nat)
    ensures n <= |s|
    ensures NoSpace(s[..n])
    ensures n == |s| || IsSpace(s[n])
    ensures s != [] && !IsSpace(s[0]) ==> n > 0
  {
    if s == [] || IsSpace(s[0]) then 0
    else
      var n := 1 + TokenLength(s[1..]);
      assert s[..n] == [s[0]] + s[1..][..n - 1];
      n
  }

  /** `s.split()`: the maximal whitespace-free runs of `s`, in order. */
  function Split(s: string): (r: seq<string>)
    ensures forall i :: 0 <= i < |r| ==> IsToken(r[i])
    decreases |s|
  {
    if s == [] then []
    else if IsSpace(s[0]) then Split(s[1..])
    else
      var n := TokenLength(s);
      [s[..n]] + Split(s[n..])
  }

  /** `" ".join(ts)`. */
  function JoinSpaced(ts: seq<string>): string {
    if |ts| == 0 then ""
    else if |ts| == 1 then ts[0]
    else ts[0] + " " + JoinSpaced(ts[1..])
  }

  /** `s` with every whitespace character removed. */
  function Squeeze(s: string): string {
    if s == [] then ""
    else if IsSpace(s[0]) then Squeeze(s[1..])
    else [s[0]] + Squeeze(s[1..])
  }

  /** The concatenation of a sequence of strings. */
  function Concat(ts: seq<string>): string {
    if ts == [] then "" else ts[0] + Concat(ts[1..])
  }

  lemma {:induction false} SqueezeAppend(a: string, b: string)
    ensures Squeeze(a + b) == Squeeze(a) + Squeeze(b)
    decreases |a|
  {
    if a != [] {
      assert (a + b)[1..] == a[1..] + b;
      SqueezeAppend(a[1..], b);
    } else {
      assert a + b == b;
    }
  }

  lemma {:induction false} SqueezeNoSpace(t: string)
    requires NoSpace(t)
    ensures Squeeze(t) == t
    decreases |t|
  {
    if t != [] {
      SqueezeNoSpace(t[1..]);
      assert t == [t[0]] + t[1..];
    }
  }

  /** The tokens of `s.split()` hold exactly the non-whitespace text of `s`, in order. */
  lemma {:induction false} SplitKeepsText(s: string)
    ensures Concat(Split(s)) == Squeeze(s)
    decreases |s|
  {
    if s == [] {
    } else if IsSpace(s[0]) {
      SplitKeepsText(s[1..]);
    } else {
      var n := TokenLength(s);
      calc {
        Concat(Split(s));
        s[..n] + Concat(Split(s[n..]));
        { SplitKeepsText(s[n..]); }
        s[..n] + Squeeze(s[n..]);
        { SqueezeNoSpace(s[..n]); }
        Squeeze(s[..n]) + Squeeze(s[n..]);
        { SqueezeAppend(s[..n], s[n..]); assert s[..n] + s[n..] == s; }
        Squeeze(s);
      }
    }
  }

  lemma {:induction false} SplitAllSpace(s: string)
    requires AllSpace(s)
    ensures Split(s) == []
    decreases |s|
  {
    if s != [] {
      SplitAllSpace(s[1..]);
    }
  }

  /** A token followed by whitespace (or by nothing) is split off whole. */
  lemma SplitAfterToken(t: string, rest: string)
    requires IsToken(t)
    requires rest == [] || IsSpace(rest[0])
    ensures Split(t + rest) == [t] + Split(rest)
  {
    var s := t + rest;
    var n := TokenLength(s);
    forall x | 0 <= x < n ensures !IsSpace(s[x]) { assert s[..n][x] == s[x]; }
    assert rest != [] ==> s[|t|] == rest[0];
    assert s[..n] == t && s[n..] == rest;
  }

  /** Splitting a single-space join of tokens, followed by any whitespace, gives the tokens back. */
  lemma {:induction false} SplitJoinSpaced(ts: seq<string>, tail: string)
    requires forall i :: 0 <= i < |ts| ==> IsToken(ts[i])
    requires AllSpace(tail)
    ensures Split(JoinSpaced(ts) + tail) == ts
    decreases |ts|
  {
    if |ts| == 0 {
      assert JoinSpaced(ts) + tail == tail;
      SplitAllSpace(tail);
    } else if |ts| == 1 {
      SplitAfterToken(ts[0], tail);
      SplitAllSpace(tail);
    } else {
      var more := ts[1..];
      assert forall i :: 0 <= i < |more| ==> IsToken(more[i]) by {
        forall i | 0 <= i < |more| ensures IsToken(more[i]) { assert more[i] == ts[i + 1]; }
      }
      SplitJoinSpaced(more, tail);
      JoinSpacedTail(ts, tail);
      assert ts == [ts[0]] + more;
    }
  }

  /** The step of `SplitJoinSpaced` past the first token. */
  lemma JoinSpacedTail(ts: seq<string>, tail: string)
    requires |ts| > 1 && IsToken(ts[0])
    ensures Split(JoinSpaced(ts) + tail) == [ts[0]] + Split(JoinSpaced(ts[1..]) + tail)
  {
    var later := JoinSpaced(ts[1..]) + tail;
    var rest := " " + later;
    assert JoinSpaced(ts) + tail == ts[0] + rest;
    SplitAfterToken(ts[0], rest);
    assert rest[1..] == later;
  }

  /** Tokens laid out one after another, each followed by its own separator. */
  function Spaced(ts: seq<string>, seps: seq<string>): string
    requires |seps| == |ts|
    decreases |ts|
  {
    if ts == [] then "" else ts[0] + seps[0] + Spaced(ts[1..], seps[1..])
  }

  /** `s` is `lead`, then the tokens `ts` each followed by its separator in
      `seps`: all separators are whitespace, and only the last may be empty. */
  predicate Layout(s: string, lead: string, ts: seq<string>, seps: seq<string>) {
    && AllSpace(lead)
    && |seps| == |ts|
    && (forall i :: 0 <= i < |ts| ==> IsToken(ts[i]))
    && (forall i :: 0 <= i < |seps| ==> AllSpace(seps[i]))
    && (forall i :: 0 <= i < |seps| - 1 ==> seps[i] != [])
    && s == lead + Spaced(ts, seps)
  }

  /** Leading whitespace does not change what `split()` yields. */
  lemma {:induction false} SplitLeadingSpace(ws: string, s: string)
    requires AllSpace(ws)
    ensures Split(ws + s) == Split(s)
    decreases |ws|
  {
    if ws != [] {
      assert (ws + s)[0] == ws[0];
      assert (ws + s)[1..] == ws[1..] + s;
      SplitLeadingSpace(ws[1..], s);
    } else {
      assert ws + s == s;
    }
  }

  /** Whatever the widths of the whitespace runs around and between the
      tokens, `split()` gives the tokens back. */
  lemma {:induction false} SplitOfLayout(s: string, lead: string, ts: seq<string>, seps: seq<string>)
    requires Layout(s, lead, ts, seps)
    ensures Split(s) == ts
    decreases |ts|
  {
    if ts == [] {
      assert s == lead;
      SplitAllSpace(lead);
    } else {
      var later := Spaced(ts[1..], seps[1..]);
      var rest := seps[0] + later;
      assert s == lead + (ts[0] + rest);
      SplitLeadingSpace(lead, ts[0] + rest);
      if |ts| > 1 {
        assert rest[0] == seps[0][0];
      } else {
        assert rest == seps[0];
      }
      SplitAfterToken(ts[0], rest);
      assert Layout(rest, seps[0], ts[1..], seps[1..]) by {
        forall i | 0 <= i < |ts| - 1 ensures IsToken(ts[1..][i]) && AllSpace(seps[1..][i]) {
          assert ts[1..][i] == ts[i + 1] && seps[1..][i] == seps[i + 1];
        }
        forall i | 0 <= i < |ts| - 2 ensures seps[1..][i] != [] {
          assert seps[1..][i] == seps[i + 1];
        }
      }
      SplitOfLayout(rest, seps[0], ts[1..], seps[1..]);
      assert ts == [ts[0]] + ts[1..];
    }
  }

  /** A layout whose first token is non-empty starts with that token's first character. */
  lemma SpacedStart(ts: seq<string>, seps: seq<string>)
    requires |seps| == |ts| && ts != [] && ts[0] != []
    ensures Spaced(ts, seps) != [] && Spaced(ts, seps)[0] == ts[0][0]
  {
    assert Spaced(ts, seps) == ts[0] + (seps[0] + Spaced(ts[1..], seps[1..]));
  }

  /** A whitespace character in front of a layout joins its leading whitespace. */
  lemma LayoutPrependSpace(c: char, s: string, lead: string, ts: seq<string>, seps: seq<string>)
    requires IsSpace(c) && Layout(s, lead, ts, seps)
    ensures Layout([c] + s, [c] + lead, ts, seps)
  {
    forall i | 0 <= i < |[c] + lead| ensures IsSpace(([c] + lead)[i]) {
      if i > 0 { assert ([c] + lead)[i] == lead[i - 1]; }
    }
  }

  /** A token in front of a layout that starts with whitespace (or is empty)
      becomes its first token, followed by the old leading whitespace. */
  lemma LayoutPrependToken(t: string, s: string, lead: string, ts: seq<string>, seps: seq<string>)
    requires IsToken(t) && Layout(s, lead, ts, seps)
    requires s == [] || IsSpace(s[0])
    ensures Layout(t + s, "", [t] + ts, [lead] + seps)
  {
    var ts', seps' := [t] + ts, [lead] + seps;
    if ts != [] {
      SpacedStart(ts, seps);
    }
    assert ts'[1..] == ts && seps'[1..] == seps;
    assert Spaced(ts', seps') == t + lead + Spaced(ts, seps);
    forall i | 0 <= i < |ts'| ensures IsToken(ts'[i]) && AllSpace(seps'[i]) {
      if i > 0 { assert ts'[i] == ts[i - 1] && seps'[i] == seps[i - 1]; }
    }
    forall i | 0 <= i < |seps'| - 1 ensures seps'[i] != [] {
      if i > 0 { assert seps'[i] == seps[i - 1]; }
    }
  }

  /** Every string is a layout of its `split()` fields: the fields are the
      maximal whitespace-free runs, and together with `SplitOfLayout` this
      determines `split()` completely. */
  lemma SplitLayout(s: string)
    ensures exists lead, seps :: Layout(s, lead, Split(s), seps)
  {
    var lead, seps := LayoutOfSplit(s);
  }

  /** The leading whitespace and the separators of `s` around its `split()` fields. */
  lemma {:induction false} LayoutOfSplit(s: string) returns (lead: string, seps: seq<string>)
    ensures Layout(s, lead, Split(s), seps)
    decreases |s|
  {
    if s == [] {
      lead, seps := "", [];
      assert Split(s) == seps && Spaced(seps, seps) == "";
    } else if IsSpace(s[0]) {
      var lead', seps' := LayoutOfSplit(s[1..]);
      LayoutPrependSpace(s[0], s[1..], lead', Split(s[1..]), seps');
      assert [s[0]] + s[1..] == s;
      lead, seps := [s[0]] + lead', seps';
    } else {
      var n := TokenLength(s);
      var lead', seps' := LayoutOfSplit(s[n..]);
      LayoutPrependToken(s[..n], s[n..], lead', Split(s[n..]), seps');
      assert s[..n] + s[n..] == s;
      lead, seps := "", [lead'] + seps';
    }
  }

  /** How many characters `s.strip()` removes from the front of `s`: its
      leading whitespace, as `s.lstrip()` does. */
  function StripOffset(s: string): (k: nat)
    ensures k <= |s| && AllSpace(s[..k])
    ensures k == |s| || !IsSpace(s[k])
  {
    if s == [] || !IsSpace(s[0]) then 0
    else
      var k := 1 + StripOffset(s[1..]);
      assert s[..k] == [s[0]] + s[1..][..k - 1];
      k
  }

  /** The length of `s.rstrip()`: `s` without its trailing whitespace. */
  function RStripLength(s: string): (m: nat)
    ensures m <= |s| && AllSpace(s[m..])
    ensures m == 0 || !IsSpace(s[m - 1])
  {
    if s == [] || !IsSpace(s[|s| - 1]) then |s|
    else
      var m := RStripLength(s[..|s| - 1]);
      assert s[m..] == s[..|s| - 1][m..] + [s[|s| - 1]];
      m
  }

  /** `s.strip()`: `s` without its leading and trailing whitespace. */
  function Strip(s: string): (r: string)
    ensures StripOffset(s) + |r| <= |s|
    ensures r == s[StripOffset(s)..StripOffset(s) + |r|]
    ensures AllSpace(s[..StripOffset(s)]) && AllSpace(s[StripOffset(s) + |r|..])
    ensures r == [] || (!IsSpace(r[0]) && !IsSpace(r[|r| - 1]))
  {
    var k := StripOffset(s);
    var m := RStripLength(s[k..]);
    InfixBetweenSpaces(s, k, m);
    s[k..k + m]
  }

  /** Cutting the trailing whitespace off the suffix that starts at the first
      non-whitespace character leaves an infix with non-whitespace ends. */
  lemma InfixBetweenSpaces(s: string, k: nat, m: nat)
    requires k + m <= |s|
    requires k == |s| || !IsSpace(s[k])
    requires AllSpace(s[k..][m..]) && (m == 0 || !IsSpace(s[k..][m - 1]))
    ensures AllSpace(s[k + m..])
    ensures m > 0 ==> !IsSpace(s[k..k + m][0]) && !IsSpace(s[k..k + m][m - 1])
  {
    assert s[k..][m..] == s[k + m..];
    if m > 0 {
      assert s[k..k + m][0] == s[k] && s[k..k + m][m - 1] == s[k..][m - 1];
    }
  }

  /** `Strip(s)` is the only infix of `s` that has whitespace all around it and
      starts and ends with a non-whitespace character (or is empty, when `s` is
      all whitespace). */
  lemma StripUnique(s: string, i: nat, j: nat)
    requires i <= j <= |s|
    requires AllSpace(s[..i]) && AllSpace(s[j..])
    requires i < j ==> !IsSpace(s[i]) && !IsSpace(s[j - 1])
    requires i == j ==> AllSpace(s)
    ensures Strip(s) == s[i..j]
  {
    var r := Strip(s);
    var k := StripOffset(s);
    if r == [] {
      SpacesBefore(s, k);
      SpacesAfter(s, k);
    } else {
      assert r[0] == s[k] && r[|r| - 1] == s[k + |r| - 1];
      SameStart(s, k, i);
      SameEnd(s, k + |r|, j);
    }
  }

  /** Two positions that both hold the first non-whitespace character are equal. */
  lemma SameStart(s: string, a: nat, b: nat)
    requires a < |s| && b < |s| && AllSpace(s[..a]) && AllSpace(s[..b])
    requires !IsSpace(s[a]) && !IsSpace(s[b])
    ensures a == b
  {
    SpacesBefore(s, a);
    SpacesBefore(s, b);
  }

  /** Two positions just past the last non-whitespace character are equal. */
  lemma SameEnd(s: string, a: nat, b: nat)
    requires 0 < a <= |s| && 0 < b <= |s| && AllSpace(s[a..]) && AllSpace(s[b..])
    requires !IsSpace(s[a - 1]) && !IsSpace(s[b - 1])
    ensures a == b
  {
    SpacesAfter(s, a);
    SpacesAfter(s, b);
  }

  lemma SpacesBefore(s: string, k: nat)
    requires k <= |s| && AllSpace(s[..k])
    ensures forall x :: 0 <= x < k ==> IsSpace(s[x])
  {
    forall x | 0 <= x < k ensures IsSpace(s[x]) { assert s[..k][x] == s[x]; }
  }

  lemma SpacesAfter(s: string, k: nat)
    requires k <= |s| && AllSpace(s[k..])
    ensures forall x :: k <= x < |s| ==> IsSpace(s[x])
  {
    forall x | k <= x < |s| ensures IsSpace(s[x]) { assert s[k..][x - k] == s[x]; }
  }

  /** Stripping twice is stripping once. */
  lemma StripIdempotent(s: string)
    ensures Strip(Strip(s)) == Strip(s)
  {
    var r := Strip(s);
    if r == [] {
      StripUnique(r, 0, 0);
    } else {
      assert r[..0] == [] && r[|r|..] == [];
      StripUnique(r, 0, |r|);
    }
  }
}
