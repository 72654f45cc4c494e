/**
 * The record format of short-term and long-term memory: one text file per tier
 * in which every entry is written followed by '|'.
 */
module Records {
  import opened Base
  import opened Text

  /** The separator written after every entry of a memory record. */
  const Delim: char := '|'

  /** The text the write loops produce: each entry in order, each followed by '|'. */
  function Encode(ms: seq<string>): (r: string)
    ensures r == [] <==> ms == []
    ensures r != [] ==> r[|r| - 1] == Delim
  {
    if ms == [] then [] else ms[0] + [Delim] + Encode(ms[1..])
  }

  /** Writing one more entry adds it and its separator at the end. */
  lemma {:induction false} EncodeSnoc(ms: seq<string>, m: string)
    ensures Encode(ms + [m]) == Encode(ms) + m + [Delim]
    decreases |ms|
  {
    if ms != [] {
      assert (ms + [m])[1..] == ms[1..] + [m];
      EncodeSnoc(ms[1..], m);
    } else {
      assert [m][1..] == [];
    }
  }

  /** Entries that a record can hold and give back: no '|' and no line break in any of them. */
  predicate Clean(ms: seq<string>)
  {
    forall i :: 0 <= i < |ms| ==> Delim !in ms[i] && '\n' !in ms[i]
  }

  /** The written form is the '|'-join of the entries plus one trailing empty field. */
  lemma {:induction false} EncodeAsJoin(ms: seq<string>)
    ensures Encode(ms) == Join(ms + [[]], Delim)
    decreases |ms|
  {
    if ms != [] {
      EncodeAsJoin(ms[1..]);
      assert (ms + [[]])[1..] == ms[1..] + [[]];
    }
  }

  /** Clean entries write no line break. */
  lemma {:induction false} EncodeOneLine(ms: seq<string>)
    requires Clean(ms)
    ensures '\n' !in Encode(ms)
    decreases |ms|
  {
    if ms != [] {
      assert Clean(ms[1..]) by {
        forall i | 0 <= i < |ms[1..]| ensures Delim !in ms[1..][i] && '\n' !in ms[1..][i] {
          assert ms[1..][i] == ms[i + 1];
        }
      }
      EncodeOneLine(ms[1..]);
      assert Encode(ms) == ms[0] + [Delim] + Encode(ms[1..]);
    }
  }

  /** The entries of an append that are not None, in order; empty strings are kept. */
  function Present(entries: seq<Option<string>>): (r: seq<string>)
    ensures |r| <= |entries|
    ensures forall m :: m in r <==> Some(m) in entries
  {
    if entries == [] then []
    else
      var rest := Present(entries[1..]);
      assert entries == [entries[0]] + entries[1..];
      if entries[0].Some? then [entries[0].value] + rest else rest
  }

  /** Filtering out None distributes over concatenation, so the order of entries is kept. */
  lemma {:induction false} PresentConcat(a: seq<Option<string>>, b: seq<Option<string>>)
    ensures Present(a + b) == Present(a) + Present(b)
    decreases |a|
  {
    if a != [] {
      assert (a + b)[1..] == a[1..] + b;
      PresentConcat(a[1..], b);
    } else {
      assert a + b == b;
    }
  }

  /** One more entry in an append adds its value when it is not None. */
  lemma PresentSnoc(entries: seq<Option<string>>, i: nat)
    requires i < |entries|
    ensures Present(entries[..i + 1])
            == Present(entries[..i]) + if entries[i].Some? then [entries[i].value] else []
  {
    assert entries[..i + 1] == entries[..i] + [entries[i]];
    PresentConcat(entries[..i], [entries[i]]);
    assert [entries[i]][1..] == [];
  }

  /**
   * One step of the append loop after a record `prefix`: the entry and a '|' are
   * written unless it is None.
   */
  lemma AppendStep(prefix: string, entries: seq<Option<string>>, i: nat)
    requires i < |entries|
    ensures entries[i].Some? ==>
              prefix + Encode(Present(entries[..i + 1]))
              == prefix + Encode(Present(entries[..i])) + entries[i].value + [Delim]
    ensures entries[i].None? ==>
              prefix + Encode(Present(entries[..i + 1])) == prefix + Encode(Present(entries[..i]))
  {
    PresentSnoc(entries, i);
    if entries[i].Some? {
      EncodeSnoc(Present(entries[..i]), entries[i].value);
    } else {
      assert Present(entries[..i]) + [] == Present(entries[..i]);
    }
  }

  /**
   * `readlines()[0].split('|')`: the fields of a record's first line.
   * An empty record has no first line, and indexing it raises IndexError.
   */
  function FirstLineFields(record: string): (r: Result<seq<string>>)
    ensures r.Err? <==> record == []
    ensures r.Err? ==> r.error == IndexError
    ensures r.Ok? ==> |r.value| >= 1 && Join(r.value, Delim) == Lines(record)[0]
    ensures r.Ok? ==> |r.value| == multiset(Lines(record)[0])[Delim] + 1
    ensures r.Ok? ==> forall k :: 0 <= k < |r.value| ==> Delim !in r.value[k]
  {
    var ls := Lines(record);
    if ls == [] then Err(IndexError)
    else
      JoinSplit(ls[0], Delim);
      Ok(Split(ls[0], Delim))
  }

  /**
   * The record with a '|' inserted after every line break that has more text after it,
   * written character by character.
   */
  function BarAfterInnerBreaks(s: string): string
    decreases |s|
  {
    if s == [] then []
    else if s[0] == '\n' && |s| > 1 then ['\n', Delim] + BarAfterInnerBreaks(s[1..])
    else [s[0]] + BarAfterInnerBreaks(s[1..])
  }

  /** Text without a line break passes through unchanged in front of the rest. */
  lemma {:induction false} BarAfterFreePrefix(a: string, b: string)
    requires '\n' !in a
    ensures BarAfterInnerBreaks(a + b) == a + BarAfterInnerBreaks(b)
    decreases |a|
  {
    if a != [] {
      var t := a[1..];
      assert '\n' !in t by {
        assert forall k :: 0 <= k < |t| ==> t[k] == a[k + 1];
      }
      BarAfterFreePrefix(t, b);
      assert BarAfterInnerBreaks(a + b) == [a[0]] + BarAfterInnerBreaks(t + b) by {
        assert (a + b)[0] == a[0] != '\n' && (a + b)[1..] == t + b;
      }
      assert [a[0]] + (t + BarAfterInnerBreaks(b)) == a + BarAfterInnerBreaks(b);
    } else {
      assert a + b == b;
    }
  }

  /** Text without a line break gains no '|'. */
  lemma NoBreakUnchanged(s: string)
    ensures '\n' !in s ==> BarAfterInnerBreaks(s) == s
  {
    if '\n' !in s {
      BarAfterFreePrefix(s, []);
      assert s + [] == s;
    }
  }

  /** A line break with more text after it gains a '|' after it. */
  lemma BarAfterInnerBreak(a: string, rest: string)
    requires '\n' !in a && rest != []
    ensures BarAfterInnerBreaks(a + (['\n'] + rest)) == a + ['\n'] + [Delim] + BarAfterInnerBreaks(rest)
  {
    BarAfterFreePrefix(a, ['\n'] + rest);
    var t := ['\n'] + rest;
    assert t[0] == '\n' && |t| > 1 && t[1..] == rest;
    assert BarAfterInnerBreaks(t) == ['\n', Delim] + BarAfterInnerBreaks(rest);
    assert a + (['\n', Delim] + BarAfterInnerBreaks(rest)) == a + ['\n'] + [Delim] + BarAfterInnerBreaks(rest);
  }

  /** Reading a record with an inner line break: the first line, then '|', then the rest joined. */
  lemma JoinedLinesStep(s: string, i: nat)
    requires i == IndexOf(s, '\n') && i + 1 < |s|
    ensures Join(SplitLines(s), Delim) == s[..i] + ['\n'] + [Delim] + Join(SplitLines(s[i + 1..]), Delim)
  {
    var first, rest := s[..i + 1], s[i + 1..];
    CutAtBreak(s, i);
    assert SplitLines(s) == [first] + SplitLines(rest) by {
      LinesUnfold(s, i);
    }
    assert SplitLines(rest) != [] by {
      LinesShape(rest);
    }
    JoinCons(first, SplitLines(rest), Delim);
  }

  /** A join whose first part is followed by at least one more part puts the separator after it. */
  lemma JoinCons(x: string, rest: seq<string>, d: char)
    requires rest != []
    ensures Join([x] + rest, d) == x + [d] + Join(rest, d)
  {
    assert ([x] + rest)[1..] == rest;
  }

  /**
   * `'|'.join(readlines())` inserts exactly one '|' after every line break that is not
   * the last character of the record.
   */
  lemma {:induction false} JoinedInsertsBars(s: string)
    ensures Join(SplitLines(s), Delim) == BarAfterInnerBreaks(s)
    decreases |s|
  {
    if s != [] {
      var i := IndexOf(s, '\n');
      var a := s[..i];
      assert '\n' !in a by {
        assert forall k :: 0 <= k < |a| ==> a[k] == s[k];
      }
      if i == |s| {
        assert BarAfterInnerBreaks(s) == s by {
          assert a == s;
          NoBreakUnchanged(s);
        }
      } else if i + 1 == |s| {
        assert SplitLines(s) == [s] by {
          LinesUnfold(s, i);
          assert s[i + 1..] == [] && s[..i + 1] == s;
        }
        assert BarAfterInnerBreaks(s) == s by {
          assert s == a + ['\n'];
          BarAfterFreePrefix(a, ['\n']);
        }
      } else {
        var rest := s[i + 1..];
        var bars := BarAfterInnerBreaks(rest);
        JoinedLinesStep(s, i);
        assert BarAfterInnerBreaks(s) == a + ['\n'] + [Delim] + bars by {
          CutAtBreak(s, i);
          BarAfterInnerBreak(a, rest);
        }
        JoinedInsertsBars(rest);
      }
    }
  }

  /**
   * `'|'.join(readlines())`: the whole record as one string, as the agent reads it for its
   * digest; a one-line record reads as itself, and each inner line break gains a '|'.
   */
  function Joined(record: string): (r: string)
    ensures r == BarAfterInnerBreaks(record)
    ensures '\n' !in record ==> r == record
  {
    JoinedInsertsBars(record);
    NoBreakUnchanged(record);
    Join(Lines(record), Delim)
  }

  /** What `read_long_term_memory` returns: the fields of the first line, or [] for an empty record. */
  function LtmFields(record: string): (r: seq<string>)
    ensures r == [] <==> record == []
    ensures r != [] ==> Join(r, Delim) == Lines(record)[0]
    ensures r != [] ==> |r| == multiset(Lines(record)[0])[Delim] + 1
    ensures forall k :: 0 <= k < |r| ==> Delim !in r[k]
  {
    var ls := Lines(record);
    if ls == [] then []
    else
      JoinSplit(ls[0], Delim);
      Split(ls[0], Delim)
  }

  /**
   * Writing clean entries and reading the first line back gives the entries plus
   * the empty field after the last '|'; an empty record cannot be read.
   */
  lemma RecordRoundTrip(ms: seq<string>)
    requires Clean(ms)
    ensures ms == [] ==> FirstLineFields(Encode(ms)) == Err(IndexError)
    ensures ms != [] ==> FirstLineFields(Encode(ms)) == Ok(ms + [[]])
  {
    if ms != [] {
      EncodeOneLine(ms);
      OneLine(Encode(ms));
      EncodeAsJoin(ms);
      SplitJoin(ms + [[]], Delim);
    }
  }

  /**
   * `rewrite_memory(s)` writes each field of `s.split('|')` followed by '|', which is
   * `s` plus one '|'; reading that record back gives the fields of `s` and one empty field.
   */
  lemma RewriteMemoryRecord(s: string)
    ensures Encode(Split(s, Delim)) == s + [Delim]
    ensures '\n' !in s ==> LtmFields(s + [Delim]) == Split(s, Delim) + [[]]
  {
    var fs := Split(s, Delim);
    EncodeAsJoin(fs);
    JoinSnoc(fs, [], Delim);
    JoinSplit(s, Delim);
    if '\n' !in s {
      OneLine(s + [Delim]);
      JoinSnoc([s], [], Delim);
      assert Join([s] + [[]], Delim) == s + [Delim];
      assert Split(s + [Delim], Delim) == fs + [[]] by {
        SplitDelimSuffix(s, Delim);
      }
    }
  }

  /** Splitting `s + [d]` gives the pieces of `s` and one empty piece. */
  lemma {:induction false} SplitDelimSuffix(s: string, d: char)
    ensures Split(s + [d], d) == Split(s, d) + [[]]
    decreases |s|
  {
    if s == [] {
      assert [d][1..] == [];
    } else {
      assert (s + [d])[1..] == s[1..] + [d];
      SplitDelimSuffix(s[1..], d);
    }
  }
}
