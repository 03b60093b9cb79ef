/** The .NET string operations the core relies on, each stated by what it
    returns: `char.IsWhiteSpace`, `Trim`/`TrimStart`/`TrimEnd`,
    `IndexOf(char, startIndex)`, `string.Join`, splitting at a separator and
    the ordinal `Replace(string, string)`. */
module Text {

  /** `char.IsWhiteSpace`: the Unicode space separators plus the control
      characters U+0009 to U+000D, U+0085, and the line and paragraph
      separators. */
  predicate IsWhiteSpace(c: char) {
    c == ' ' || ('\t' <= c <= '\r') || c == '\U{85}' || c == '\U{A0}' || c == '\U{1680}'
    || ('\U{2000}' <= c <= '\U{200A}') || c == '\U{2028}' || c == '\U{2029}'
    || c == '\U{202F}' || c == '\U{205F}' || c == '\U{3000}'
  }

  /** `string.IsNullOrWhiteSpace` on a non-null string. */
  predicate IsBlank(s: string) {
    forall k :: 0 <= k < |s| ==> IsWhiteSpace(s[k])
  }

  /** Drops the longest prefix whose characters all satisfy `drop`. */
  function TrimStart(s: string, drop: char -> bool): (r: string)
    ensures |r| <= |s| && r == s[|s| - |r|..]
    ensures forall k :: 0 <= k < |s| - |r| ==> drop(s[k])
    ensures r != [] ==> !drop(r[0])
    decreases |s|
  {
    if s != [] && drop(s[0]) then TrimStart(s[1..], drop) else s
  }

  /** Drops the longest suffix whose characters all satisfy `drop`. */
  function TrimEnd(s: string, drop: char -> bool): (r: string)
    ensures |r| <= |s| && r == s[..|r|]
    ensures forall k :: |r| <= k < |s| ==> drop(s[k])
    ensures r != [] ==> !drop(r[|r| - 1])
    decreases |s|
  {
    if s != [] && drop(s[|s| - 1]) then TrimEnd(s[..|s| - 1], drop) else s
  }

  /** `s.Trim()` when `drop` is IsWhiteSpace, `s.Trim(c)` when it is `x => x == c`. */
  function Trim(s: string, drop: char -> bool): (r: string)
    ensures |r| <= |s|
    ensures r != [] ==> !drop(r[0]) && !drop(r[|r| - 1])
  {
    TrimEnd(TrimStart(s, drop), drop)
  }

  /** What `Trim` keeps is a contiguous part of its input, and what it
      drops at either end is droppable. */
  lemma TrimIsSlice(s: string, drop: char -> bool)
    ensures exists i, j ::
      (0 <= i <= j <= |s| && Trim(s, drop) == s[i..j] &&
       (forall k :: 0 <= k < i ==> drop(s[k])) && (forall k :: j <= k < |s| ==> drop(s[k])))
  {
    var a := TrimStart(s, drop);
    var r := TrimEnd(a, drop);
    var i := |s| - |a|;
    assert r == s[i..i + |r|];
    forall k | i + |r| <= k < |s|
      ensures drop(s[k])
    {
      assert s[k] == a[k - i];
    }
  }

  /** A string that starts and ends with characters `drop` keeps is left
      as it is. */
  lemma TrimKeeps(s: string, drop: char -> bool)
    requires s != [] ==> !drop(s[0]) && !drop(s[|s| - 1])
    ensures Trim(s, drop) == s
  {
  }

  /** Trimming removes one droppable character on each side of a string
      that `Trim` would keep. */
  lemma TrimWrapped(s: string, c: char, drop: char -> bool)
    requires drop(c)
    requires s != [] ==> !drop(s[0]) && !drop(s[|s| - 1])
    ensures Trim([c] + s + [c], drop) == s
  {
    var w := [c] + s + [c];
    assert w[1..] == s + [c];
    assert TrimStart(w, drop) == TrimStart(s + [c], drop);
    if s == [] {
      assert TrimStart([c], drop) == TrimStart([c][1..], drop);
      assert [c][1..] == [];
    } else {
      assert (s + [c])[..|s|] == s;
      assert TrimEnd(s + [c], drop) == TrimEnd(s, drop);
    }
  }

  /** `s.IndexOf(c, from)`: the first position at or after `from` holding
      `c`, or -1. (The source never passes a start beyond the length, where
      .NET throws.) */
  function IndexOf(s: string, c: char, from: nat): (r: int)
    requires from <= |s|
    ensures r != -1 ==> from <= r < |s| && s[r] == c
    decreases |s| - from
  {
    if from == |s| then -1
    else if s[from] == c then from
    else IndexOf(s, c, from + 1)
  }

  /** IndexOf finds the first occurrence: -1 exactly when there is none,
      and no occurrence between `from` and the position found. */
  lemma {:induction false} IndexOfFirst(s: string, c: char, from: nat)
    requires from <= |s|
    ensures IndexOf(s, c, from) == -1 <==> forall k :: from <= k < |s| ==> s[k] != c
    ensures IndexOf(s, c, from) != -1 ==> forall k :: from <= k < IndexOf(s, c, from) ==> s[k] != c
    decreases |s| - from
  {
    if from < |s| && s[from] != c {
      IndexOfFirst(s, c, from + 1);
    }
  }

  /** `string.Join(sep, parts)`. */
  function Join(parts: seq<string>, sep: string): string
    decreases |parts|
  {
    if |parts| == 0 then ""
    else if |parts| == 1 then parts[0]
    else parts[0] + sep + Join(parts[1..], sep)
  }

  /** Joining one more part appends the separator and the part. */
  lemma {:induction false} JoinSnoc(parts: seq<string>, x: string, sep: string)
    requires |parts| >= 1
    ensures Join(parts + [x], sep) == Join(parts, sep) + sep + x
    decreases |parts|
  {
    if |parts| > 1 {
      assert (parts + [x])[1..] == parts[1..] + [x];
      JoinSnoc(parts[1..], x, sep);
    }
  }

  /** Cuts `s` at every occurrence of `sep`. */
  function Split(s: string, sep: char): (r: seq<string>)
    ensures |r| >= 1
    ensures forall k :: 0 <= k < |r| ==> sep !in r[k]
    decreases |s|
  {
    var i := IndexOf(s, sep, 0);
    IndexOfFirst(s, sep, 0);
    if i == -1 then [s] else [s[..i]] + Split(s[i + 1..], sep)
  }

  /** Joining parts that do not contain the separator and splitting again
      gives the parts back: `Join` loses nothing. */
  lemma {:induction false} SplitJoin(parts: seq<string>, sep: char)
    requires |parts| >= 1
    requires forall k :: 0 <= k < |parts| ==> sep !in parts[k]
    ensures Split(Join(parts, [sep]), sep) == parts
    decreases |parts|
  {
    var s := Join(parts, [sep]);
    if |parts| == 1 {
      assert s == parts[0];
    } else {
      var tail := Join(parts[1..], [sep]);
      assert s == parts[0] + [sep] + tail;
      var i := IndexOf(s, sep, 0);
      IndexOfFirst(s, sep, 0);
      assert s[|parts[0]|] == sep;
      assert forall k :: 0 <= k < |parts[0]| ==> s[k] == parts[0][k];
      assert i == |parts[0]|;
      assert s[..i] == parts[0];
      assert s[i + 1..] == tail;
      SplitJoin(parts[1..], sep);
      assert parts == [parts[0]] + parts[1..];
    }
  }

  /** Distinct lists of separator-free parts join to distinct strings. */
  lemma JoinInjective(p: seq<string>, q: seq<string>, sep: char)
    requires |p| >= 1 && |q| >= 1
    requires forall k :: 0 <= k < |p| ==> sep !in p[k]
    requires forall k :: 0 <= k < |q| ==> sep !in q[k]
    requires Join(p, [sep]) == Join(q, [sep])
    ensures p == q
  {
    SplitJoin(p, sep);
    SplitJoin(q, sep);
  }

  /** True when `pat` occurs in `s` starting at position `k`. */
  predicate OccursAt(s: string, pat: string, k: nat) {
    k + |pat| <= |s| && s[k..k + |pat|] == pat
  }

  /** The ordinal `s.Replace(pat, rep)`: every occurrence of `pat`, found
      left to right without overlap, becomes `rep`. (.NET throws for an
      empty `pat`; the source always passes ".json".) */
  function Replace(s: string, pat: string, rep: string): string
    requires pat != []
    decreases |s|
  {
    if |s| < |pat| then s
    else if s[..|pat|] == pat then rep + Replace(s[|pat|..], pat, rep)
    else [s[0]] + Replace(s[1..], pat, rep)
  }

  /** Without an occurrence of `pat`, `Replace` returns its input. */
  lemma {:induction false} ReplaceAbsent(s: string, pat: string, rep: string)
    requires pat != []
    requires forall k :: 0 <= k < |s| ==> !OccursAt(s, pat, k)
    ensures Replace(s, pat, rep) == s
    decreases |s|
  {
    if |s| >= |pat| {
      assert !OccursAt(s, pat, 0);
      assert s[0..|pat|] == s[..|pat|];
      forall k | 0 <= k < |s[1..]|
        ensures !OccursAt(s[1..], pat, k)
      {
        assert !OccursAt(s, pat, k + 1);
        if k + |pat| <= |s[1..]| {
          assert s[1..][k..k + |pat|] == s[k + 1..k + 1 + |pat|];
        }
      }
      ReplaceAbsent(s[1..], pat, rep);
      assert s == [s[0]] + s[1..];
    }
  }

  /** When the only occurrence of `pat` in `pre + pat` is the final one,
      `Replace` rewrites exactly that one. */
  lemma {:induction false} ReplaceOnlyAtEnd(pre: string, pat: string, rep: string)
    requires pat != []
    requires forall k :: 0 <= k < |pre| ==> !OccursAt(pre + pat, pat, k)
    ensures Replace(pre + pat, pat, rep) == pre + rep
    decreases |pre|
  {
    var s := pre + pat;
    if pre == [] {
      assert s == pat && s[..|pat|] == pat && s[|pat|..] == [];
    } else {
      var tail := pre[1..] + pat;
      assert s[1..] == tail;
      assert !OccursAt(s, pat, 0);
      assert s[0..|pat|] == s[..|pat|];
      assert s[..|pat|] != pat;
      assert Replace(s, pat, rep) == [s[0]] + Replace(tail, pat, rep);
      forall k | 0 <= k < |pre[1..]|
        ensures !OccursAt(tail, pat, k)
      {
        ShiftedWindow(s, k, |pat|);
        assert !OccursAt(s, pat, k + 1);
      }
      ReplaceOnlyAtEnd(pre[1..], pat, rep);
      assert pre == [pre[0]] + pre[1..];
    }
  }

  lemma ShiftedWindow(s: string, k: nat, n: nat)
    requires 1 + k + n <= |s|
    ensures s[1..][k..k + n] == s[k + 1..k + 1 + n]
  {
  }
}
