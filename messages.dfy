/**
 * Chat messages and the pure parts of the chat window guard: the filter of
 * `chat_too_long`, the memory digest placed in slot 0, the eviction of the
 * oldest turns, and the memory manager's termination test.
 */
module Messages {
  import opened Base
  import opened Text
  import opened Overflow

  /** The role of a message. */
  datatype Role = User | Assistant | Function

  /**
   * A chat message as an agent stores it: its content, which may be None,
   * its role, and whether it carries a `function_call` key.
   */
  datatype Message = Message(content: Option<string>, role: Role, hasFunctionCall: bool)

  /** The agent at the other end of a conversation; `id` stands for its object identity. */
  datatype Peer = Peer(id: nat, name: string)

  /** The list comprehension of `chat_too_long`: drops every message with a `function_call` key. */
  function FilterFunctionCalls(w: seq<Message>): (r: seq<Message>)
    ensures |r| <= |w|
    ensures forall m :: m in r <==> m in w && !m.hasFunctionCall
  {
    if w == [] then []
    else
      var rest := FilterFunctionCalls(w[1..]);
      assert w == [w[0]] + w[1..];
      if w[0].hasFunctionCall then rest else [w[0]] + rest
  }

  /** The filter keeps the survivors in their original order: it distributes over concatenation. */
  lemma {:induction false} FilterConcat(a: seq<Message>, b: seq<Message>)
    ensures FilterFunctionCalls(a + b) == FilterFunctionCalls(a) + FilterFunctionCalls(b)
    decreases |a|
  {
    if a != [] {
      assert (a + b)[1..] == a[1..] + b;
      FilterConcat(a[1..], b);
    } else {
      assert a + b == b;
    }
  }

  /** A window without function calls is left as it is, so filtering twice is filtering once. */
  lemma {:induction false} FilterIdempotent(w: seq<Message>)
    ensures FilterFunctionCalls(FilterFunctionCalls(w)) == FilterFunctionCalls(w)
    decreases |w|
  {
    if w != [] {
      FilterIdempotent(w[1..]);
      var rest := FilterFunctionCalls(w[1..]);
      if !w[0].hasFunctionCall {
        assert ([w[0]] + rest)[1..] == rest;
      }
    }
  }

  /** The digest of `receive`: "Things you remember about {name}: {memories}|", spoken by the assistant. */
  function Digest(name: string, memories: string): (m: Message)
    ensures m.role == Assistant && !m.hasFunctionCall
    ensures m.content.Some? && EndsWith(m.content.value, memories + "|")
    ensures "Things you remember about " + name + ": " <= m.content.value
    ensures |m.content.value| == |"Things you remember about " + name + ": "| + |memories| + 1
  {
    var text := "Things you remember about " + name + ": " + memories + "|";
    assert text[|text| - |memories + "|"|..] == memories + "|";
    Message(Some(text), Assistant, false)
  }

  /** What the eviction of `receive` leaves in the window and what it hands on. */
  datatype Trim = Trim(kept: seq<Message>, lost: seq<Message>)

  /**
   * `for i in range(trim_num - 1): lost_messages.append(window.pop(1))`: slot 0 stays,
   * and the oldest real turns leave the window, oldest first.
   */
  function TrimWindow(w: seq<Message>, ratio: Ratio): (t: Trim)
    requires ratio.Valid()
    ensures |t.lost| == EvictionCount(|w|, ratio)
    ensures |t.kept| == |w| - |t.lost|
    ensures w != [] ==> t.kept != [] && t.kept[0] == w[0] && [w[0]] + t.lost + t.kept[1..] == w
    ensures w == [] ==> t.kept == []
  {
    var k := EvictionCount(|w|, ratio);
    if w == [] then Trim([], [])
    else
      assert [w[0]] + w[1..k + 1] + w[k + 1..] == w;
      Trim([w[0]] + w[k + 1..], w[1..k + 1])
  }

  /**
   * With the default ratio of 0.8, a window of eleven messages loses seven turns,
   * `int(11 * 0.8) - 1`, and keeps four: the digest and the three newest turns.
   */
  lemma DefaultEviction(w: seq<Message>)
    requires |w| == 11
    ensures var t := TrimWindow(w, DefaultConfig().chatRatio);
            |t.lost| == 7 && |t.kept| == 4 && t.kept == [w[0], w[8], w[9], w[10]]
  {
    var t := TrimWindow(w, Ratio(4, 5));
    assert TrimCount(11, Ratio(4, 5)) == 8;
    assert t.kept == [w[0]] + w[8..];
  }

  /** `is_mem_termination_msg`: the content is not None and, right-stripped, ends with "TERMINATE". */
  predicate IsMemTerminationMsg(msg: Message): (r: bool)
    ensures r ==> msg.content.Some? && |msg.content.value| >= 9
    ensures r ==> |RStrip(msg.content.value)| >= 9 && msg.content.value[|RStrip(msg.content.value)| - 1] == 'E'
  {
    msg.content.Some? && EndsWith(RStrip(msg.content.value), "TERMINATE")
  }

  /** "TERMINATE" starts at position `i` of `c` and only whitespace follows it. */
  predicate TerminateAt(c: string, i: int)
  {
    0 <= i && i + 9 <= |c| && c[i..i + 9] == "TERMINATE"
    && forall j :: i + 9 <= j < |c| ==> IsSpace(c[j])
  }

  /**
   * A message ends a memory manager conversation exactly when it has content
   * in which "TERMINATE" is followed by nothing but whitespace.
   */
  lemma TerminationIff(msg: Message)
    ensures IsMemTerminationMsg(msg) <==> msg.content.Some? && exists i :: TerminateAt(msg.content.value, i)
  {
    if msg.content.Some? {
      var c := msg.content.value;
      var r := RStrip(c);
      if IsMemTerminationMsg(msg) {
        var i := |r| - 9;
        assert r == c[..|r|];
        assert c[i..i + 9] == r[i..];
        assert TerminateAt(c, i);
      }
      if i :| TerminateAt(c, i) {
        assert c[i + 8] == 'E';
        assert !IsSpace('E');
        assert |r| == i + 9;
        assert r == c[..i + 9];
        assert r[|r| - 9..] == c[i..i + 9];
      }
    }
  }
}
