/** Placeholder rewriting (Services/ConsoleOutput.cs): a structured
    logging template such as "Fetched {Count} games" becomes a composite
    format "Fetched {0} games" by replacing the contents of the first
    `argCount` brace pairs, left to right, with their positions.

    `Placeholders` reads a template as its brace pairs and the text around
    them, one character at a time; the method, which searches with
    `IndexOf` as the source does, is proved to print that reading back
    with numbers in place of the names. */
module ConsoleOutput {
  import opened Wrappers
  import opened Numerals
  import Text

  /** One brace pair and the text before it. */
  datatype Hole = Hole(before: string, name: string)

  /** A template cut into its first brace pairs and what follows them. */
  datatype Template = Template(holes: seq<Hole>, rest: string)

  /** The first brace pair of a text and what follows it, if there is one. */
  datatype Cut = NoPair | Pair(hole: Hole, after: string)

  /** Text holding an opening brace with a closing brace somewhere after
      it. */
  predicate HasPair(s: string) {
    exists i, j :: 0 <= i < j < |s| && s[i] == '{' && s[j] == '}'
  }

  /** A hole as the rewriting finds it: no '{' before it, no '}' in it. */
  predicate Plain(h: Hole) {
    '{' !in h.before && '}' !in h.name
  }

  predicate WellFormed(holes: seq<Hole>) {
    forall k :: 0 <= k < |holes| ==> Plain(holes[k])
  }

  /** The text up to the first '}' and what follows that brace. */
  function NameCut(s: string): (r: Option<(string, string)>)
    ensures r.Some? ==> |r.value.1| < |s|
    decreases |s|
  {
    if s == [] then None
    else if s[0] == '}' then Some(([], s[1..]))
    else
      match NameCut(s[1..])
      case None => None
      case Some((name, after)) => Some(([s[0]] + name, after))
  }

  /** The first '{', then the first '}' after it. */
  function FirstCut(s: string): (r: Cut)
    ensures r.Pair? ==> |r.after| < |s|
    decreases |s|
  {
    if s == [] then NoPair
    else if s[0] == '{' then
      match NameCut(s[1..])
      case None => NoPair
      case Some((name, after)) => Pair(Hole([], name), after)
    else
      match FirstCut(s[1..])
      case NoPair => NoPair
      case Pair(h, after) => Pair(Hole([s[0]] + h.before, h.name), after)
  }

  /** The first `n` brace pairs of `s`. */
  function Placeholders(s: string, n: int): Template
    decreases |s|
  {
    if n <= 0 then Template([], s)
    else
      match FirstCut(s)
      case NoPair => Template([], s)
      case Pair(h, after) =>
        var t := Placeholders(after, n - 1);
        Template([h] + t.holes, t.rest)
  }

  /** The holes printed with their names: the template itself. */
  function Named(holes: seq<Hole>): string
    decreases |holes|
  {
    if holes == [] then [] else holes[0].before + "{" + holes[0].name + "}" + Named(holes[1..])
  }

  /** The holes printed with the numbers `k`, `k + 1`, ... as names. */
  function Numbered(holes: seq<Hole>, k: nat): string
    decreases |holes|
  {
    if holes == [] then [] else holes[0].before + "{" + NatToString(k) + "}" + Numbered(holes[1..], k + 1)
  }

  /** Rewriting `s` with numbers from `k` on, at most `n` of them, pair
      by pair. */
  function NumberedFrom(s: string, n: int, k: nat): string
    decreases |s|
  {
    if n <= 0 then s
    else
      match FirstCut(s)
      case NoPair => s
      case Pair(h, after) => h.before + "{" + NatToString(k) + "}" + NumberedFrom(after, n - 1, k + 1)
  }

  /** The text ConvertStructuredLoggingFormat returns. */
  function Converted(message: string, argCount: int): string {
    NumberedFrom(message, argCount, 0)
  }

  // ---------------------------------------------------------------------
  // The first pair

  lemma {:induction false} NameCutSound(s: string)
    ensures NameCut(s).None? ==> '}' !in s
    ensures NameCut(s).Some? ==> s == NameCut(s).value.0 + "}" + NameCut(s).value.1 && '}' !in NameCut(s).value.0
    decreases |s|
  {
    if s != [] && s[0] != '}' {
      NameCutSound(s[1..]);
      assert s == [s[0]] + s[1..];
    }
  }

  lemma {:induction false} NameCutOf(name: string, after: string)
    requires '}' !in name
    ensures NameCut(name + "}" + after) == Some((name, after))
    decreases |name|
  {
    var s := name + "}" + after;
    if name == [] {
      assert s == "}" + after;
    } else {
      assert s[1..] == name[1..] + "}" + after;
      NameCutOf(name[1..], after);
      assert [name[0]] + name[1..] == name;
    }
  }

  /** What FirstCut finds is a plain hole: the text cuts there. */
  lemma {:induction false} FirstCutPair(s: string)
    requires FirstCut(s).Pair?
    ensures var h := FirstCut(s).hole;
      s == h.before + "{" + h.name + "}" + FirstCut(s).after && Plain(h)
    decreases |s|
  {
    if s[0] == '{' {
      NameCutSound(s[1..]);
      assert s == "{" + s[1..];
    } else {
      FirstCutPair(s[1..]);
      var h := FirstCut(s[1..]).hole;
      assert s == [s[0]] + s[1..];
      assert '{' !in [s[0]] + h.before;
    }
  }

  /** FirstCut finds nothing only where there is no pair. */
  lemma {:induction false} FirstCutNone(s: string)
    requires FirstCut(s).NoPair?
    ensures !HasPair(s)
    decreases |s|
  {
    if s != [] {
      if s[0] == '{' {
        NameCutSound(s[1..]);
        forall i, j | 0 <= i < j < |s| && s[i] == '{'
          ensures s[j] != '}'
        {
          assert s[j] == s[1..][j - 1];
        }
      } else {
        FirstCutNone(s[1..]);
        forall i, j | 0 <= i < j < |s| && s[i] == '{'
          ensures s[j] != '}'
        {
          assert s[i] == s[1..][i - 1] && s[j] == s[1..][j - 1];
        }
      }
    }
  }

  /** A plain hole written out first is the first pair found. */
  lemma {:induction false} FirstCutOf(h: Hole, after: string)
    requires Plain(h)
    ensures FirstCut(h.before + "{" + h.name + "}" + after) == Pair(h, after)
    decreases |h.before|
  {
    var s := h.before + "{" + h.name + "}" + after;
    if h.before == [] {
      assert s[1..] == h.name + "}" + after;
      NameCutOf(h.name, after);
    } else {
      var h' := Hole(h.before[1..], h.name);
      assert s[1..] == h'.before + "{" + h'.name + "}" + after;
      FirstCutOf(h', after);
      assert [h.before[0]] + h.before[1..] == h.before;
    }
  }

  lemma PairCut(h: Hole, after: string)
    ensures HasPair(h.before + "{" + h.name + "}" + after)
  {
    var s := h.before + "{" + h.name + "}" + after;
    assert s[|h.before|] == '{' && s[|h.before| + 1 + |h.name|] == '}';
  }

  /** A pair is found exactly when the text has one. */
  lemma FirstCutFinds(s: string)
    ensures FirstCut(s).Pair? <==> HasPair(s)
  {
    if FirstCut(s).Pair? {
      FirstCutPair(s);
      PairCut(FirstCut(s).hole, FirstCut(s).after);
    } else {
      FirstCutNone(s);
    }
  }

  // ---------------------------------------------------------------------
  // The reading

  lemma NamedCons(h: Hole, holes: seq<Hole>)
    ensures Named([h] + holes) == h.before + "{" + h.name + "}" + Named(holes)
  {
    assert ([h] + holes)[1..] == holes;
  }

  lemma WellFormedCons(h: Hole, holes: seq<Hole>)
    ensures WellFormed([h] + holes) <==> Plain(h) && WellFormed(holes)
  {
    var all := [h] + holes;
    assert all[0] == h;
    assert forall k :: 0 <= k < |holes| ==> all[k + 1] == holes[k];
  }

  /** Reading the placeholders loses nothing: printing them with their
      names gives the template back; at most `n` are read, each plain;
      fewer than `n` only when what is left holds no further pair. */
  lemma {:induction false} PlaceholdersSound(s: string, n: int)
    ensures var t := Placeholders(s, n);
      Named(t.holes) + t.rest == s &&
      WellFormed(t.holes) &&
      |t.holes| <= (if n > 0 then n else 0) &&
      (|t.holes| < n ==> !HasPair(t.rest))
    decreases |s|
  {
    if n > 0 {
      var cut := FirstCut(s);
      if cut.NoPair? {
        FirstCutNone(s);
      } else {
        PlaceholdersSound(cut.after, n - 1);
        FirstCutPair(s);
        SoundStep(s, cut.hole, cut.after, Placeholders(cut.after, n - 1));
      }
    }
  }

  lemma SoundStep(s: string, h: Hole, after: string, t: Template)
    requires s == h.before + "{" + h.name + "}" + after && Plain(h)
    requires Named(t.holes) + t.rest == after && WellFormed(t.holes)
    ensures Named([h] + t.holes) + t.rest == s && WellFormed([h] + t.holes)
  {
    NamedCons(h, t.holes);
    WellFormedCons(h, t.holes);
  }

  /** The reading is the only one: any cut of `s` into at most `n` plain
      holes that stops early only when no pair is left is the one
      Placeholders makes. */
  lemma {:induction false} PlaceholdersUnique(s: string, n: int, holes: seq<Hole>, rest: string)
    requires Named(holes) + rest == s && WellFormed(holes)
    requires |holes| <= (if n > 0 then n else 0)
    requires |holes| < n ==> !HasPair(rest)
    ensures Placeholders(s, n) == Template(holes, rest)
    decreases |holes|
  {
    if holes == [] {
      FirstCutFinds(s);
    } else {
      var h := holes[0];
      assert [h] + holes[1..] == holes;
      NamedCons(h, holes[1..]);
      WellFormedCons(h, holes[1..]);
      var tail := Named(holes[1..]) + rest;
      assert s == h.before + "{" + h.name + "}" + tail;
      FirstCutOf(h, tail);
      PlaceholdersUnique(tail, n - 1, holes[1..], rest);
    }
  }

  /** Rewriting pair by pair prints the reading with numbers for names. */
  lemma {:induction false} NumberedFromReading(s: string, n: int, k: nat)
    ensures var t := Placeholders(s, n);
      NumberedFrom(s, n, k) == Numbered(t.holes, k) + t.rest
    decreases |s|
  {
    if n > 0 && FirstCut(s).Pair? {
      var h := FirstCut(s).hole;
      var after := FirstCut(s).after;
      var t := Placeholders(after, n - 1);
      NumberedFromReading(after, n - 1, k + 1);
      NumberedCons(h, t, k, NumberedFrom(after, n - 1, k + 1));
    }
  }

  lemma NumberedCons(h: Hole, t: Template, k: nat, later: string)
    requires later == Numbered(t.holes, k + 1) + t.rest
    ensures h.before + "{" + NatToString(k) + "}" + later == Numbered([h] + t.holes, k) + t.rest
  {
    assert ([h] + t.holes)[1..] == t.holes;
  }

  /** Rewriting keeps everything but the names: the k-th pair read from the
      message holds the numeral k in the result, and the text before each
      pair and after the last one is unchanged. */
  lemma ConvertedShape(message: string, argCount: int)
    ensures var t := Placeholders(message, argCount);
      message == Named(t.holes) + t.rest && Converted(message, argCount) == Numbered(t.holes, 0) + t.rest
  {
    PlaceholdersSound(message, argCount);
    NumberedFromReading(message, argCount, 0);
  }

  /** With no arguments, or a template without a complete pair, the message
      is returned unchanged. */
  lemma ConvertedUnchanged(message: string, argCount: int)
    requires argCount <= 0 || !HasPair(message)
    ensures Converted(message, argCount) == message
  {
    NumberedFromUnchanged(message, argCount, 0);
  }

  lemma NumberedFromUnchanged(s: string, n: int, k: nat)
    requires n <= 0 || !HasPair(s)
    ensures NumberedFrom(s, n, k) == s
  {
    FirstCutFinds(s);
  }

  /** One placeholder gives "{0}", whatever its name. */
  lemma ConvertedSingle(before: string, name: string, after: string, argCount: int)
    requires '{' !in before && '}' !in name && !HasPair(after) && argCount >= 1
    ensures Converted(before + "{" + name + "}" + after, argCount) == before + "{0}" + after
  {
    FirstCutOf(Hole(before, name), after);
    NumberedFromUnchanged(after, argCount - 1, 1);
    assert NatToString(0) == "0";
  }

  // ---------------------------------------------------------------------
  // The search the method performs

  /** Searching from a point before which, up to the end of `done`, the
      character does not occur is searching `rem`, shifted. */
  lemma IndexOfPast(done: string, rem: string, c: char, from: nat, start: nat)
    requires from <= |done| && start <= |rem|
    requires start == 0 || from == |done|
    requires forall k :: from <= k < |done| ==> done[k] != c
    ensures var r := Text.IndexOf(rem, c, start);
      Text.IndexOf(done + rem, c, from + start) == if r == -1 then -1 else |done| + r
  {
    var s := done + rem;
    var r := Text.IndexOf(rem, c, start);
    Text.IndexOfFirst(s, c, from + start);
    Text.IndexOfFirst(rem, c, start);
    if r == -1 {
      forall k | from + start <= k < |s|
        ensures s[k] != c
      {
        if k >= |done| {
          assert s[k] == rem[k - |done|];
        }
      }
    } else {
      assert s[|done| + r] == c;
      forall k | from + start <= k < |done| + r
        ensures s[k] != c
      {
        if k >= |done| {
          assert s[k] == rem[k - |done|];
        }
      }
    }
  }

  /** When either `IndexOf` call fails there is no pair to read. */
  lemma FirstCutMissing(s: string)
    requires var o := Text.IndexOf(s, '{', 0); o == -1 || Text.IndexOf(s, '}', o) == -1
    ensures FirstCut(s).NoPair?
  {
    var o := Text.IndexOf(s, '{', 0);
    Text.IndexOfFirst(s, '{', 0);
    if o != -1 {
      Text.IndexOfFirst(s, '}', o);
      forall i, j | 0 <= i < j < |s| && s[i] == '{'
        ensures s[j] != '}'
      {
      }
    }
    FirstCutFinds(s);
  }

  /** When both `IndexOf` calls succeed they find the pair FirstCut reads. */
  lemma FirstCutFound(s: string, o: int, c: int)
    requires o == Text.IndexOf(s, '{', 0) && o != -1
    requires c == Text.IndexOf(s, '}', o) && c != -1
    ensures 0 <= o < c < |s| && s[o] == '{' && s[c] == '}'
    ensures FirstCut(s) == Pair(Hole(s[..o], s[o + 1..c]), s[c + 1..])
  {
    Text.IndexOfFirst(s, '{', 0);
    Text.IndexOfFirst(s, '}', o);
    FirstCutAt(s, o, c);
  }

  /** The first '}' at `j` is where NameCut cuts. */
  lemma {:induction false} NameCutAt(t: string, j: nat)
    requires j < |t| && t[j] == '}' && forall k :: 0 <= k < j ==> t[k] != '}'
    ensures NameCut(t) == Some((t[..j], t[j + 1..]))
    decreases j
  {
    if j > 0 {
      NameCutAt(t[1..], j - 1);
      assert [t[0]] + t[1..][..j - 1] == t[..j];
      assert t[1..][j..] == t[j + 1..];
    }
  }

  /** The first '{' at `o` and the first '}' after it at `c` are where
      FirstCut cuts. */
  lemma {:induction false} FirstCutAt(s: string, o: nat, c: nat)
    requires o < c < |s| && s[o] == '{' && s[c] == '}'
    requires forall k :: 0 <= k < o ==> s[k] != '{'
    requires forall k :: o < k < c ==> s[k] != '}'
    ensures FirstCut(s) == Pair(Hole(s[..o], s[o + 1..c]), s[c + 1..])
    decreases o
  {
    if o == 0 {
      NameCutAt(s[1..], c - 1);
      assert s[1..][..c - 1] == s[1..c];
      assert s[1..][c..] == s[c + 1..];
    } else {
      FirstCutAt(s[1..], o - 1, c - 1);
      assert [s[0]] + s[1..][..o - 1] == s[..o];
      assert s[1..][o..c - 1] == s[o + 1..c];
      assert s[1..][c..] == s[c + 1..];
    }
  }

  /** The splice of the loop body on `done + rem`. */
  lemma Spliced(done: string, rem: string, openBrace: int, closeBrace: int, numeral: string)
    requires |done| <= openBrace < closeBrace < |done| + |rem|
    requires rem[openBrace - |done|] == '{' && rem[closeBrace - |done|] == '}'
    ensures var result := done + rem;
      result[..openBrace + 1] + numeral + result[closeBrace..] ==
      (done + rem[..openBrace - |done|] + "{" + numeral + "}") + rem[closeBrace - |done| + 1..]
  {
    var result := done + rem;
    var o := openBrace - |done|;
    var c := closeBrace - |done|;
    assert result[..openBrace + 1] == done + rem[..o + 1];
    assert result[closeBrace..] == "}" + rem[c + 1..];
    assert rem[..o + 1] == rem[..o] + [rem[o]];
  }

  /** The two searches of one iteration, made on `done + rem` from a
      position past which `done` holds no '{', are searches of `rem`. */
  lemma Search(done: string, rem: string, pos: nat)
    requires pos <= |done| && forall j :: pos <= j < |done| ==> done[j] != '{'
    ensures var o := Text.IndexOf(rem, '{', 0);
      Text.IndexOf(done + rem, '{', pos) == (if o == -1 then -1 else |done| + o) &&
      (o != -1 ==>
         var c := Text.IndexOf(rem, '}', o);
         Text.IndexOf(done + rem, '}', |done| + o) == if c == -1 then -1 else |done| + c)
  {
    IndexOfPast(done, rem, '{', pos, 0);
    var o := Text.IndexOf(rem, '{', 0);
    if o != -1 {
      IndexOfPast(done, rem, '}', |done|, o);
    }
  }

  /** The searches of one pass find no pair in `rem`. */
  lemma Stop(result: string, done: string, rem: string, pos: nat)
    requires result == done + rem
    requires pos <= |done| && forall j :: pos <= j < |done| ==> done[j] != '{'
    requires var o := Text.IndexOf(result, '{', pos); o == -1 || Text.IndexOf(result, '}', o) == -1
    ensures FirstCut(rem).NoPair?
  {
    Search(done, rem, pos);
    FirstCutMissing(rem);
  }

  /** The searches of one pass find a pair: positions in `rem`. */
  lemma Located(result: string, done: string, rem: string, pos: nat, openBrace: int, closeBrace: int)
    requires result == done + rem
    requires pos <= |done| && forall j :: pos <= j < |done| ==> done[j] != '{'
    requires openBrace == Text.IndexOf(result, '{', pos) && openBrace != -1
    requires closeBrace == Text.IndexOf(result, '}', openBrace) && closeBrace != -1
    ensures |done| <= openBrace
    ensures openBrace - |done| == Text.IndexOf(rem, '{', 0)
    ensures closeBrace - |done| == Text.IndexOf(rem, '}', openBrace - |done|)
  {
    Search(done, rem, pos);
  }

  /** Where the first pair of `rem` is read, its name becomes the numeral
      `k` and the rest of `rem` is what is left to rewrite. */
  lemma Advance(target: string, done: string, rem: string, n: int, k: nat)
    requires n > 0 && FirstCut(rem).Pair? && target == done + NumberedFrom(rem, n, k)
    ensures var h := FirstCut(rem).hole;
      target == (done + h.before + "{" + NatToString(k) + "}") + NumberedFrom(FirstCut(rem).after, n - 1, k + 1)
  {
    var h := FirstCut(rem).hole;
    var later := NumberedFrom(FirstCut(rem).after, n - 1, k + 1);
    assert done + (h.before + "{" + NatToString(k) + "}" + later) == (done + h.before + "{" + NatToString(k) + "}") + later;
  }

  /** The next search starts on the closing brace just written or past
      it, so it sees no '{' of `done`. */
  lemma Behind(done: string, pos: nat)
    requires |done| >= 1 && done[|done| - 1] == '}' && |done| - 1 <= pos <= |done|
    ensures forall j :: pos <= j < |done| ==> done[j] != '{'
  {
  }

  /** One pass of the loop of ConvertStructuredLoggingFormat, from `pos`
      with index `argIndex`: the first '{' at or after `pos`, the first '}'
      after it, and their splice. `result` is `done + rem`, the part
      already rewritten and the part still to read; the pass reads the
      first pair of `rem`, or reports (`more` false) that there is none. */
  method Rewrite(result: string, pos: nat, argIndex: nat, ghost done: string, ghost rem: string)
    returns (more: bool, result': string, pos': nat, ghost done': string, ghost rem': string)
    requires result == done + rem
    requires pos <= |done| && forall j :: pos <= j < |done| ==> done[j] != '{'
    ensures more <==> FirstCut(rem).Pair?
    ensures !more ==> result' == result
    ensures more ==> done' == done + FirstCut(rem).hole.before + "{" + NatToString(argIndex) + "}" && rem' == FirstCut(rem).after
    ensures more ==> result' == done' + rem'
    ensures more ==> pos' <= |done'| && forall j :: pos' <= j < |done'| ==> done'[j] != '{'
  {
    var openBrace := Text.IndexOf(result, '{', pos);
    if openBrace == -1 {
      Stop(result, done, rem, pos);
      return false, result, pos, done, rem;
    }
    var closeBrace := Text.IndexOf(result, '}', openBrace);
    if closeBrace == -1 {
      Stop(result, done, rem, pos);
      return false, result, pos, done, rem;
    }
    Located(result, done, rem, pos, openBrace, closeBrace);
    FirstCutFound(rem, openBrace - |done|, closeBrace - |done|);
    Spliced(done, rem, openBrace, closeBrace, NatToString(argIndex));
    more := true;
    result' := result[..openBrace + 1] + NatToString(argIndex) + result[closeBrace..];
    done' := done + rem[..openBrace - |done|] + "{" + NatToString(argIndex) + "}";
    rem' := rem[closeBrace - |done| + 1..];
    NatToStringLengthStep(argIndex);
    pos' := openBrace + |NatToString(argIndex + 1)| + 1;
    Behind(done', pos');
  }

  /** ConvertStructuredLoggingFormat: a scan with a position that, after
      each rewriting, is put on the closing brace just written (or one past
      it, when the next index has one more digit). */
  method ConvertStructuredLoggingFormat(message: string, argCount: int) returns (result: string)
    ensures result == Converted(message, argCount)
  {
    result := message;
    var argIndex: nat := 0;
    var pos: nat := 0;
    ghost var target := Converted(message, argCount);
    ghost var done: string := [];
    ghost var rem: string := message;
    while pos < |result| && argIndex < argCount
      invariant result == done + rem
      invariant pos <= |done| && forall j :: pos <= j < |done| ==> done[j] != '{'
      invariant target == done + NumberedFrom(rem, argCount - argIndex, argIndex)
      decreases argCount - argIndex
    {
      var more;
      ghost var before := done;
      ghost var reading := rem;
      more, result, pos, done, rem := Rewrite(result, pos, argIndex, done, rem);
      if !more {
        return;
      }
      Advance(target, before, reading, argCount - argIndex, argIndex);
      argIndex := argIndex + 1;
    }
    if argIndex < argCount {
      assert rem == [];
    }
  }
}
