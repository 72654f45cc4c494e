/**
 * The overflow policy: when short-term memory is full, how much of it moves to
 * long-term memory, and how many turns leave a chat window that is too long.
 */
module Overflow {
  import opened Base
  import opened Text
  import opened Records

  /** A ratio `num / den` between 0 and 1, standing for the source's float ratios. */
  datatype Ratio = Ratio(num: nat, den: nat)
  {
    predicate Valid()
    {
      0 < den && num <= den
    }
  }

  /** The four class constants that parameterise the memory behaviour of an agent. */
  datatype Config = Config(stmLimit: nat, stmRatio: Ratio, maxConvoLength: nat, chatRatio: Ratio)
  {
    predicate Valid()
    {
      stmRatio.Valid() && chatRatio.Valid()
    }
  }

  /**
   * The defaults: a short-term limit of 10, a short-term compression ratio of 0.8,
   * a maximum conversation length of 10 and a chat compression ratio of 0.8.
   */
  function DefaultConfig(): (c: Config)
    ensures c.Valid()
    ensures c.stmLimit == 10 && c.maxConvoLength == 10
    ensures c.stmRatio.num * 10 == c.stmRatio.den * 8 && c.chatRatio.num * 10 == c.chatRatio.den * 8
  {
    Config(10, Ratio(4, 5), 10, Ratio(4, 5))
  }

  /** `int(n * ratio)`: for a non-negative product, truncation is the floor. */
  function TrimCount(n: nat, ratio: Ratio): (t: nat)
    requires ratio.Valid()
    ensures t <= n
    ensures t * ratio.den <= n * ratio.num < (t + 1) * ratio.den
  {
    var t := n * ratio.num / ratio.den;
    assert n * ratio.num <= n * ratio.den by {
      assert n * (ratio.den - ratio.num) >= 0;
    }
    FloorBelow(t, n, n * ratio.num, ratio.den);
    t
  }

  /** The floor of `x / d` is at most `n` when `x <= n * d`. */
  lemma FloorBelow(t: nat, n: nat, x: nat, d: nat)
    requires 0 < d && t == x / d && x <= n * d
    ensures t <= n && t * d <= x < (t + 1) * d
  {
    assert t * d + x % d == x;
  }

  /**
   * `short_term_memory_full`: reads the first line of the record and compares its
   * number of '|'-fields, the separators plus one, with the limit; equality is not full.
   * An empty record has no first line.
   */
  function StmFull(record: string, limit: nat): (r: Result<bool>)
    ensures r.Err? <==> record == []
    ensures r.Err? ==> r.error == IndexError
    ensures r.Ok? ==> (r.value <==> multiset(Lines(record)[0])[Delim] >= limit)
  {
    match FirstLineFields(record)
    case Err(e) => Err(e)
    case Ok(fields) =>
      assert fields == Split(Lines(record)[0], Delim);
      Ok(|fields| > limit)
  }

  /** The two parts `short_to_long` makes of the short-term fields. */
  datatype Partition = Partition(toStore: seq<string>, toLeave: seq<string>)

  /** The oldest `int(n * ratio)` fields are stored in long-term memory, the rest are left. */
  function SplitForStorage(fields: seq<string>, ratio: Ratio): (p: Partition)
    requires ratio.Valid()
    ensures p.toStore + p.toLeave == fields
    ensures |p.toStore| == TrimCount(|fields|, ratio)
  {
    var t := TrimCount(|fields|, ratio);
    assert fields[..t] + fields[t..] == fields;
    Partition(fields[..t], fields[t..])
  }

  /**
   * `range(trim_num - 1)` with `trim_num = int(n * ratio)`: the number of turns that leave
   * a window of `n` messages. It is one less than `trim_num`, never negative, and leaves slot 0.
   */
  function EvictionCount(n: nat, ratio: Ratio): (k: nat)
    requires ratio.Valid()
    ensures n > 0 ==> k < n
    ensures k == 0 <==> TrimCount(n, ratio) <= 1
    ensures k > 0 ==> k + 1 == TrimCount(n, ratio)
  {
    var t := TrimCount(n, ratio);
    if t >= 1 then t - 1 else 0
  }

  /**
   * Because every entry is followed by '|', a record of clean entries has one more field
   * than entries: it is full as soon as it holds `limit` entries, not `limit + 1`.
   */
  lemma FullIffLimitEntries(ms: seq<string>, limit: nat)
    requires Clean(ms) && ms != []
    ensures StmFull(Encode(ms), limit) == Ok(|ms| >= limit)
  {
    RecordRoundTrip(ms);
  }

  /**
   * A consolidation cycle on a record of clean entries splits the entries plus the trailing
   * empty field. When that field stays, the rewritten record ends in "||" and reads back
   * with two empty fields, so the field count drops by one less than the number stored.
   */
  lemma CycleKeepsTrailingField(ms: seq<string>, ratio: Ratio)
    requires Clean(ms) && ms != [] && ratio.Valid()
    ensures FirstLineFields(Encode(ms)) == Ok(ms + [[]])
    ensures var p := SplitForStorage(ms + [[]], ratio);
            var t := |p.toStore|;
            t <= |ms| ==>
              && p.toLeave == ms[t..] + [[]]
              && Encode(p.toLeave) == Encode(ms[t..]) + [Delim]
              && FirstLineFields(Encode(p.toLeave)) == Ok(ms[t..] + [[], []])
  {
    RecordRoundTrip(ms);
    var p := SplitForStorage(ms + [[]], ratio);
    var t := |p.toStore|;
    if t <= |ms| {
      assert p.toLeave == (ms + [[]])[t..];
      assert (ms + [[]])[t..] == ms[t..] + [[]];
      KeptPart(ms, t);
    }
  }

  /** The kept entries with the trailing empty field are written with "||" at the end. */
  lemma KeptPart(ms: seq<string>, t: nat)
    requires Clean(ms) && t <= |ms|
    ensures Encode(ms[t..] + [[]]) == Encode(ms[t..]) + [Delim]
    ensures FirstLineFields(Encode(ms[t..] + [[]])) == Ok(ms[t..] + [[], []])
  {
    EmptyFieldWritten(ms[t..]);
    KeptReadBack(ms, t);
  }

  /** Writing an empty field after some entries adds just a '|'. */
  lemma EmptyFieldWritten(kept: seq<string>)
    ensures Encode(kept + [[]]) == Encode(kept) + [Delim]
  {
    EncodeSnoc(kept, []);
    assert Encode(kept) + [] + [Delim] == Encode(kept) + [Delim];
  }

  /** The kept entries with the trailing empty field read back with two empty fields. */
  lemma KeptReadBack(ms: seq<string>, t: nat)
    requires Clean(ms) && t <= |ms|
    ensures FirstLineFields(Encode(ms[t..] + [[]])) == Ok(ms[t..] + [[], []])
  {
    var leave := ms[t..] + [[]];
    CleanWithEmpty(ms, t);
    RecordRoundTrip(leave);
    assert leave + [[]] == ms[t..] + [[], []];
  }

  /** A suffix of clean entries with an empty field added is still clean. */
  lemma CleanWithEmpty(ms: seq<string>, t: nat)
    requires Clean(ms) && t <= |ms|
    ensures Clean(ms[t..] + [[]])
  {
    var leave := ms[t..] + [[]];
    forall i | 0 <= i < |leave| ensures Delim !in leave[i] && '\n' !in leave[i] {
      if i < |leave| - 1 {
        assert leave[i] == ms[t + i];
      } else {
        assert leave[i] == [];
      }
    }
  }

  /** With the defaults, nine clean entries do not fill short-term memory and ten do. */
  lemma DefaultFullAtTen(ms: seq<string>)
    requires Clean(ms) && 9 <= |ms| <= 10
    ensures StmFull(Encode(ms), DefaultConfig().stmLimit) == Ok(|ms| == 10)
  {
    FullIffLimitEntries(ms, 10);
  }

  /**
   * With the defaults, the cycle on ten entries stores the oldest eight and leaves
   * the last two followed by an empty field.
   */
  lemma DefaultCycle(ms: seq<string>)
    requires |ms| == 10
    ensures SplitForStorage(ms + [[]], DefaultConfig().stmRatio) == Partition(ms[..8], [ms[8], ms[9], []])
  {
    var fields := ms + [[]];
    assert SplitForStorage(fields, Ratio(4, 5)) == Partition(fields[..8], fields[8..]) by {
      assert TrimCount(11, Ratio(4, 5)) == 8;
    }
    assert fields[..8] == ms[..8];
    assert fields[8..] == [ms[8], ms[9], []];
  }
}
