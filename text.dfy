/**
 * The Python string operations the memory records are built from:
 * `str.split(d)`, `d.join(fields)`, `file.readlines()` and `str.rstrip()`.
 */
module Text {

  /** Python's `s.split(d)`: the pieces between occurrences of `d`; never an empty list. */
  function Split(s: string, d: char): (r: seq<string>)
    ensures |r| == multiset(s)[d] + 1
    ensures forall k :: 0 <= k < |r| ==> d !in r[k]
    decreases |s|
  {
    if s == [] then [[]]
    else
      var rest := Split(s[1..], d);
      assert s == [s[0]] + s[1..];
      if s[0] == d then [[]] + rest else [[s[0]] + rest[0]] + rest[1..]
  }

  /** Python's `d.join(fs)`. */
  function Join(fs: seq<string>, d: char): (r: string)
    ensures |fs| >= 1 ==> fs[0] <= r
    ensures |fs| >= 2 ==> |r| > |fs[0]| && r[|fs[0]|] == d
  {
    if |fs| == 0 then []
    else if |fs| == 1 then fs[0]
    else fs[0] + [d] + Join(fs[1..], d)
  }

  /** Joining the pieces of a split gives back the string. */
  lemma {:induction false} JoinSplit(s: string, d: char)
    ensures Join(Split(s, d), d) == s
    decreases |s|
  {
    if s != [] {
      JoinSplit(s[1..], d);
      var rest := Split(s[1..], d);
      if s[0] == d {
        JoinEmptyFront(rest, d);
      } else {
        JoinExtendFront(rest, s[0], d);
      }
      assert s == [s[0]] + s[1..];
    }
  }

  /** A join whose first piece is empty starts with the delimiter. */
  lemma JoinEmptyFront(rest: seq<string>, d: char)
    requires |rest| >= 1
    ensures Join([[]] + rest, d) == [d] + Join(rest, d)
  {
    assert ([[]] + rest)[1..] == rest;
  }

  /** Putting a character in front of the first piece puts it in front of the join. */
  lemma JoinExtendFront(rest: seq<string>, c: char, d: char)
    requires |rest| >= 1
    ensures Join([[c] + rest[0]] + rest[1..], d) == [c] + Join(rest, d)
  {
    var parts := [[c] + rest[0]] + rest[1..];
    assert parts[1..] == rest[1..];
  }

  /** Splitting a string that starts with a piece free of `d` keeps that piece at the front. */
  lemma {:induction false} SplitFreePrefix(f: string, t: string, d: char)
    requires d !in f
    ensures Split(f + t, d) == [f + Split(t, d)[0]] + Split(t, d)[1..]
    decreases |f|
  {
    if f != [] {
      assert (f + t)[1..] == f[1..] + t;
      SplitFreePrefix(f[1..], t, d);
      assert [f[0]] + (f[1..] + Split(t, d)[0]) == f + Split(t, d)[0];
    } else {
      assert f + t == t;
      assert f + Split(t, d)[0] == Split(t, d)[0];
      assert Split(t, d) == [Split(t, d)[0]] + Split(t, d)[1..];
    }
  }

  /** Splitting a join of pieces free of `d` gives back the pieces. */
  lemma {:induction false} SplitJoin(fs: seq<string>, d: char)
    requires |fs| >= 1
    requires forall i :: 0 <= i < |fs| ==> d !in fs[i]
    ensures Split(Join(fs, d), d) == fs
    decreases |fs|
  {
    if |fs| == 1 {
      SplitFreePrefix(fs[0], [], d);
      assert fs[0] + [] == fs[0];
    } else {
      var tail := Join(fs[1..], d);
      SplitJoin(fs[1..], d);
      assert Join(fs, d) == fs[0] + ([d] + tail);
      SplitFreePrefix(fs[0], [d] + tail, d);
      assert ([d] + tail)[1..] == tail;
      assert Split([d] + tail, d) == [[]] + fs[1..];
      assert fs[0] + [] == fs[0];
      assert fs == [fs[0]] + fs[1..];
    }
  }

  /** Appending one more piece to a non-empty join adds the delimiter and the piece. */
  lemma {:induction false} JoinSnoc(fs: seq<string>, x: string, d: char)
    requires |fs| >= 1
    ensures Join(fs + [x], d) == Join(fs, d) + [d] + x
    decreases |fs|
  {
    if |fs| > 1 {
      assert (fs + [x])[1..] == fs[1..] + [x];
      JoinSnoc(fs[1..], x, d);
    }
  }

  /** Position of the first `c` in `s`, or `|s|` when there is none. */
  function IndexOf(s: string, c: char): (i: nat)
    ensures i <= |s|
    ensures i < |s| ==> s[i] == c
    ensures forall j :: 0 <= j < i ==> s[j] != c
    decreases |s|
  {
    if s == [] then 0 else if s[0] == c then 0 else 1 + IndexOf(s[1..], c)
  }

  /**
   * Python's `readlines()` on the text of a file: each line keeps its '\n',
   * the last line may lack one, and an empty file has no lines.
   */
  function Lines(s: string): (r: seq<string>)
    ensures r == [] <==> s == []
    ensures s != [] ==> r[0] == if IndexOf(s, '\n') < |s| then s[..IndexOf(s, '\n') + 1] else s
    ensures forall k :: 0 <= k < |r| ==> r[k] != [] && '\n' !in r[k][..|r[k]| - 1]
    ensures forall k :: 0 <= k < |r| - 1 ==> r[k][|r[k]| - 1] == '\n'
  {
    LinesShape(s);
    SplitLines(s)
  }

  /** The recursion behind `Lines`: cut after the first line break, then read the rest. */
  function SplitLines(s: string): seq<string>
    decreases |s|
  {
    if s == [] then []
    else
      var i := IndexOf(s, '\n');
      if i == |s| then [s] else [s[..i + 1]] + SplitLines(s[i + 1..])
  }

  /** Every line is non-empty and holds no inner line break, and all but the last end in one. */
  predicate LineShaped(r: seq<string>)
  {
    && (forall k :: 0 <= k < |r| ==> r[k] != [] && '\n' !in r[k][..|r[k]| - 1])
    && (forall k :: 0 <= k < |r| - 1 ==> r[k][|r[k]| - 1] == '\n')
  }

  /** The lines read by `SplitLines` have the shape `readlines()` promises. */
  lemma {:induction false} LinesShape(s: string)
    ensures SplitLines(s) == [] <==> s == []
    ensures s != [] ==> SplitLines(s)[0] == if IndexOf(s, '\n') < |s| then s[..IndexOf(s, '\n') + 1] else s
    ensures LineShaped(SplitLines(s))
    decreases |s|
  {
    if s != [] {
      var i := IndexOf(s, '\n');
      if i < |s| {
        var first, rest := s[..i + 1], s[i + 1..];
        LinesShape(rest);
        LinesUnfold(s, i);
        assert '\n' !in first[..|first| - 1] by {
          assert forall j :: 0 <= j < |first| - 1 ==> first[..|first| - 1][j] == s[j];
        }
        ConsLine(first, SplitLines(rest));
      } else {
        assert SplitLines(s) == [s];
      }
    }
  }

  /** A line ending in its only line break, put in front of well-shaped lines, keeps them well shaped. */
  lemma ConsLine(first: string, t: seq<string>)
    requires first != [] && '\n' !in first[..|first| - 1] && first[|first| - 1] == '\n'
    requires LineShaped(t)
    ensures LineShaped([first] + t)
  {
    var r := [first] + t;
    forall k | 0 <= k < |r|
      ensures r[k] != [] && '\n' !in r[k][..|r[k]| - 1]
    {
      if k > 0 {
        assert r[k] == t[k - 1];
      }
    }
    forall k | 0 <= k < |r| - 1
      ensures r[k][|r[k]| - 1] == '\n'
    {
      if k > 0 {
        assert r[k] == t[k - 1];
      }
    }
  }

  /** Cutting a text at a line break: the text before it, the break, and the text after it. */
  lemma CutAtBreak(s: string, i: nat)
    requires i < |s| && s[i] == '\n'
    ensures s[..i + 1] == s[..i] + ['\n']
    ensures s == s[..i] + (['\n'] + s[i + 1..])
  {
    assert s == s[..i] + s[i..];
    assert s[i..] == ['\n'] + s[i + 1..];
  }

  /** A text with a line break reads as the line up to and including it, then the lines after it. */
  lemma LinesUnfold(s: string, i: nat)
    requires s != [] && i == IndexOf(s, '\n') && i < |s|
    ensures SplitLines(s) == [s[..i + 1]] + SplitLines(s[i + 1..])
  {
  }

  /** The concatenation of a list of strings. */
  function Concat(ls: seq<string>): string
  {
    if ls == [] then [] else ls[0] + Concat(ls[1..])
  }

  /** `readlines()` loses nothing: its lines concatenate to the whole text. */
  lemma {:induction false} LinesConcat(s: string)
    ensures Concat(Lines(s)) == s
    decreases |s|
  {
    if s != [] {
      var i := IndexOf(s, '\n');
      if i == |s| {
        assert Concat([s]) == s + Concat([]);
      } else {
        LinesConcat(s[i + 1..]);
        var ls := [s[..i + 1]] + SplitLines(s[i + 1..]);
        assert ls[1..] == Lines(s[i + 1..]);
        assert s == s[..i + 1] + s[i + 1..];
      }
    }
  }

  /** A non-empty text without a line break is read back as one line. */
  lemma OneLine(s: string)
    requires s != [] && '\n' !in s
    ensures Lines(s) == [s]
  {
  }

  /** The whitespace characters of Python's `str.isspace`, which `rstrip()` removes. */
  predicate IsSpace(c: char): (r: bool)
    ensures c == ' ' || c == '\t' || c == '\n' || c == '\r' ==> r
    ensures '!' <= c <= '~' ==> !r
  {
    || ('\t' <= c <= '\r')
    || ('\U{1C}' <= c <= ' ')
    || c == '\U{85}' || c == '\U{A0}' || c == '\U{1680}'
    || ('\U{2000}' <= c <= '\U{200A}')
    || c == '\U{2028}' || c == '\U{2029}' || c == '\U{202F}' || c == '\U{205F}'
    || c == '\U{3000}'
  }

  /** Python's `s.rstrip()`: the longest prefix of `s` that does not end in whitespace. */
  function RStrip(s: string): (r: string)
    ensures r <= s
    ensures r == [] || !IsSpace(r[|r| - 1])
    ensures forall j :: |r| <= j < |s| ==> IsSpace(s[j])
    decreases |s|
  {
    if s != [] && IsSpace(s[|s| - 1]) then RStrip(s[..|s| - 1]) else s
  }

  /** Python's `s.endswith(suffix)`: `s` is some text followed by `suffix`. */
  predicate EndsWith(s: string, suffix: string): (r: bool)
    ensures r <==> exists p :: s == p + suffix
  {
    SuffixSplit(s, suffix);
    |suffix| <= |s| && s[|s| - |suffix|..] == suffix
  }

  /** The last `|suffix|` characters are `suffix` exactly when `s` splits as some text then `suffix`. */
  lemma SuffixSplit(s: string, suffix: string)
    ensures (|suffix| <= |s| && s[|s| - |suffix|..] == suffix) <==> exists p :: s == p + suffix
  {
    if |suffix| <= |s| && s[|s| - |suffix|..] == suffix {
      assert s == s[..|s| - |suffix|] + suffix;
    }
    if p :| s == p + suffix {
      assert s[|s| - |suffix|..] == suffix;
    }
  }
}
