/**
 * The memory-enabled agent and its memory manager. The agent owns the two memory
 * records and its chat windows; the manager works on its parent's records and
 * hands material to language-model conversations, which are modelled as hooks
 * that record what they were given.
 */
module Agents {
  import opened Base
  import opened Text
  import opened Records
  import opened Overflow
  import opened Messages

  /** The bound methods an agent offers to its conversation partners by name. */
  datatype Callable = LookupFromLongTermMemoryFn | RewriteMemoryFn | AppendToShortTermMemoryFn

  /** The records found on disk for an agent whose memory directory already exists. */
  datatype StoredRecords = StoredRecords(shortTerm: string, longTerm: string)

  /** What `process_chat_section` hands to the summarising conversation. */
  datatype ChatSection = ChatSection(lostMessages: seq<Message>, senderName: string)

  /** What `incorporate_memories` hands to the merging conversation: the long-term fields and the '|'-joined new memories. */
  datatype MergeRequest = MergeRequest(longTermMemory: seq<string>, newMemories: string)

  /** What `lookup_from_long` hands to the answering conversation. */
  datatype LookupRequest = LookupRequest(longTermMemory: seq<string>, hint: string, senderName: string)

  /** `chat_messages[p]` of a `defaultdict(list)`: a peer without a window has an empty one. */
  function WindowOf(cm: map<Peer, seq<Message>>, p: Peer): (w: seq<Message>)
    ensures p in cm ==> w == cm[p]
    ensures p !in cm ==> w == []
  {
    if p in cm then cm[p] else []
  }

  /**
   * The windows after `_process_received_message` has appended `message` to the sender's
   * window and, on every turn after the first, slot 0 has been overwritten with the
   * digest of `memories` about the recorded partner `partner`.
   */
  function WithMessage(cm: map<Peer, seq<Message>>, sender: Peer, message: Message,
                       partner: Peer, memories: string): (r: map<Peer, seq<Message>>)
    ensures sender in r && |r[sender]| == |WindowOf(cm, sender)| + 1
    ensures r[sender][|r[sender]| - 1] == message
    ensures WindowOf(cm, sender) != [] ==> r[sender][0] == Digest(partner.name, memories)
    ensures WindowOf(cm, sender) != [] ==> r[sender][1..] == WindowOf(cm, sender)[1..] + [message]
    ensures r.Keys == cm.Keys + {sender}
    ensures forall p :: p in cm && p != sender ==> r[p] == cm[p]
  {
    var w1 := WindowOf(cm, sender) + [message];
    cm[sender := if |w1| > 1 then w1[0 := Digest(partner.name, memories)] else w1]
  }

  /** The windows after `chat_too_long` has filtered the function calls out of `partner`'s window. */
  function WithoutFunctionCalls(cm: map<Peer, seq<Message>>, partner: Peer): (r: map<Peer, seq<Message>>)
    ensures r.Keys == cm.Keys + {partner}
    ensures r[partner] == FilterFunctionCalls(WindowOf(cm, partner))
    ensures forall m :: m in r[partner] <==> m in WindowOf(cm, partner) && !m.hasFunctionCall
    ensures forall p :: p in cm && p != partner ==> r[p] == cm[p]
  {
    cm[partner := FilterFunctionCalls(WindowOf(cm, partner))]
  }

  /**
   * On every turn after the first, the digest stays in slot 0 of the sender's window:
   * the filter keeps it, since it carries no function call, and the eviction never pops slot 0.
   */
  lemma DigestStaysFirst(cm: map<Peer, seq<Message>>, sender: Peer, message: Message,
                         partner: Peer, memories: string, ratio: Ratio)
    requires ratio.Valid() && WindowOf(cm, sender) != []
    ensures var cm3 := WithoutFunctionCalls(WithMessage(cm, sender, message, partner, memories), partner);
            && WindowOf(cm3, sender) != []
            && WindowOf(cm3, sender)[0] == Digest(partner.name, memories)
            && TrimWindow(WindowOf(cm3, sender), ratio).kept[0] == Digest(partner.name, memories)
  {
    var cm2 := WithMessage(cm, sender, message, partner, memories);
    var w := cm2[sender];
    if partner == sender {
      assert w == [w[0]] + w[1..];
      assert FilterFunctionCalls(w) == [w[0]] + FilterFunctionCalls(w[1..]);
    }
  }

  /**
   * The dictionary `get_function_map` builds: `names[i]` mapped to `fns[i]`, one
   * assignment after the other, so a later duplicate name overwrites an earlier one.
   */
  function FunctionMap(names: seq<string>, fns: seq<Callable>): (r: map<string, Callable>)
    requires |names| <= |fns|
    ensures |r| <= |names|
  {
    if names == [] then map[]
    else FunctionMap(names[..|names| - 1], fns)[names[|names| - 1] := fns[|names| - 1]]
  }

  /** The function map has exactly the configured names as keys. */
  lemma {:induction false} FunctionMapKeys(names: seq<string>, fns: seq<Callable>)
    requires |names| <= |fns|
    ensures forall f :: f in FunctionMap(names, fns) <==> f in names
    decreases |names|
  {
    if names != [] {
      var n := |names| - 1;
      FunctionMapKeys(names[..n], fns);
      assert names == names[..n] + [names[n]];
    }
  }

  /** Each configured name is bound to the method at the position of its last occurrence. */
  lemma {:induction false} FunctionMapLastWins(names: seq<string>, fns: seq<Callable>, i: nat)
    requires |names| <= |fns|
    requires i < |names| && names[i] !in names[i + 1..]
    ensures names[i] in FunctionMap(names, fns) && FunctionMap(names, fns)[names[i]] == fns[i]
    decreases |names|
  {
    var n := |names| - 1;
    if i < n {
      var front := names[..n];
      assert names[n] in names[i + 1..] by {
        assert names[i + 1..][n - i - 1] == names[n];
      }
      assert front[i + 1..] <= names[i + 1..];
      FunctionMapLastWins(front, fns, i);
    }
  }

  class MemoryEnabledAgent {
    const name: string
    const config: Config
    /** The names in the "functions" list of the agent's model configuration. */
    const functionNames: seq<string>
    /** `functions_for_map`: the methods bound to those names, position by position. */
    const functionsForMap: seq<Callable>

    /** The text of short_term_memory.txt. */
    var stm: string
    /** The text of long_term_memory.txt. */
    var ltm: string
    /** `self.memories`: the short-term memory as last read, or None for a fresh agent. */
    var memories: Option<string>
    /** `self.chat_messages`: one window of messages per conversation partner. */
    var chatMessages: map<Peer, seq<Message>>
    /** `self.sender_agent`: the partner recorded at the first message of a conversation. */
    var senderAgent: Option<Peer>
    var manager: MemoryEnabledAgentManager?

    ghost predicate Valid()
      reads this
    {
      manager != null && manager.parent == this && config.Valid()
    }

    /** Builds an agent; `stored` is what its memory directory holds, None when there is none yet. */
    constructor (name: string, config: Config, stored: Option<StoredRecords>)
      requires config.Valid()
      ensures Valid() && fresh(manager)
      ensures this.name == name && this.config == config
      ensures stored.None? ==> stm == [] && ltm == [] && memories == None
      ensures stored.Some? ==> stm == stored.value.shortTerm && ltm == stored.value.longTerm
      ensures stored.Some? ==> memories == Some(Joined(stored.value.shortTerm))
      ensures chatMessages == map[] && senderAgent == None
      ensures manager.chatSections == [] && manager.mergeRequests == [] && manager.lookups == []
      ensures functionNames == ["lookup_from_long_term_memory"]
      ensures functionsForMap == [LookupFromLongTermMemoryFn]
    {
      this.name := name;
      this.config := config;
      functionNames := ["lookup_from_long_term_memory"];
      functionsForMap := [LookupFromLongTermMemoryFn];
      stm, ltm := [], [];
      chatMessages := map[];
      senderAgent := None;
      manager := null;
      new;
      memories := InitializeMemories(stored);
      manager := new MemoryEnabledAgentManager(this);
    }

    /**
     * `initialize_memories`: an agent seen before keeps its records and reads its
     * short-term memory; a fresh agent gets two empty records and no memories.
     */
    method InitializeMemories(stored: Option<StoredRecords>) returns (m: Option<string>)
      modifies this`stm, this`ltm
      ensures stored.None? ==> stm == [] && ltm == [] && m == None
      ensures stored.Some? ==> stm == stored.value.shortTerm && ltm == stored.value.longTerm
      ensures stored.Some? ==> m == Some(Joined(stm))
    {
      match stored
      case None =>
        stm, ltm := [], [];
        m := None;
      case Some(records) =>
        stm, ltm := records.shortTerm, records.longTerm;
        m := Some(ReadShortTermMemory());
    }

    /** `read_short_term_memory()`: the lines of the record joined by '|'. */
    function ReadShortTermMemory(): (r: string)
      reads this
      ensures r == BarAfterInnerBreaks(stm)
      ensures '\n' !in stm ==> r == stm
    {
      Joined(stm)
    }

    /** `read_short_term_memory(list_mode=True)`: the fields of the first line. */
    function ReadShortTermMemoryList(): (r: Result<seq<string>>)
      reads this
      ensures r.Err? <==> stm == []
      ensures r.Err? ==> r.error == IndexError
      ensures r.Ok? ==> Join(r.value, Delim) == Lines(stm)[0]
      ensures r.Ok? ==> forall k :: 0 <= k < |r.value| ==> Delim !in r.value[k]
    {
      FirstLineFields(stm)
    }

    /** `short_term_memory_full()`. */
    function ShortTermMemoryFull(): (r: Result<bool>)
      reads this
      ensures r.Err? <==> stm == []
      ensures r.Err? ==> r.error == IndexError
      ensures r.Ok? ==> (r.value <==> |ReadShortTermMemoryList().value| > config.stmLimit)
    {
      StmFull(stm, config.stmLimit)
    }

    /** `rewrite_short_term_memory`: the record becomes each entry followed by '|', none skipped. */
    method RewriteShortTermMemory(ms: seq<string>)
      modifies this`stm
      ensures stm == Encode(ms)
    {
      stm := [];
      for i := 0 to |ms|
        invariant stm == Encode(ms[..i])
      {
        assert ms[..i + 1] == ms[..i] + [ms[i]];
        EncodeSnoc(ms[..i], ms[i]);
        stm := stm + ms[i] + [Delim];
      }
      assert ms[..|ms|] == ms;
    }

    /** The write loop of `append_to_short_term_memory`: each entry that is not None, followed by '|'. */
    method WriteEntries(entries: seq<Option<string>>)
      modifies this`stm
      ensures stm == old(stm) + Encode(Present(entries))
    {
      for i := 0 to |entries|
        invariant stm == old(stm) + Encode(Present(entries[..i]))
      {
        AppendStep(old(stm), entries, i);
        if entries[i].Some? {
          stm := stm + entries[i].value + [Delim];
        }
      }
      assert entries[..|entries|] == entries;
    }

    /**
     * `append_to_short_term_memory`: writes every entry that is not None, followed by '|',
     * after the existing record; then, if the record is full, runs one consolidation cycle.
     * Reading an empty record to test fullness raises IndexError after the writes.
     */
    method AppendToShortTermMemory(entries: seq<Option<string>>) returns (r: Result<bool>)
      requires Valid()
      modifies this`stm, manager`mergeRequests
      ensures Valid()
      ensures var written := old(stm) + Encode(Present(entries));
              StmFull(written, config.stmLimit).Err? ==>
                && r == Err(IndexError)
                && stm == written
                && manager.mergeRequests == old(manager.mergeRequests)
      ensures var written := old(stm) + Encode(Present(entries));
              StmFull(written, config.stmLimit) == Ok(false) ==>
                && r == Ok(true)
                && stm == written
                && manager.mergeRequests == old(manager.mergeRequests)
      ensures var written := old(stm) + Encode(Present(entries));
              StmFull(written, config.stmLimit) == Ok(true) ==>
                var p := SplitForStorage(FirstLineFields(written).value, config.stmRatio);
                && r == Ok(true)
                && stm == Encode(p.toLeave)
                && manager.mergeRequests
                   == old(manager.mergeRequests) + [MergeRequest(LtmFields(ltm), Join(p.toStore, Delim))]
    {
      WriteEntries(entries);
      var full := ShortTermMemoryFull();
      if full.Err? {
        return Err(full.error);
      }
      if full.value {
        var _ := ShortTermToLongTerm();
      }
      r := Ok(true);
    }

    /** `short_term_to_long_term`: hands the cycle to the memory manager. */
    method ShortTermToLongTerm() returns (r: Result<bool>)
      requires Valid()
      modifies this`stm, manager`mergeRequests
      ensures Valid()
      ensures FirstLineFields(old(stm)).Err? ==>
                && r == Err(IndexError)
                && stm == old(stm)
                && manager.mergeRequests == old(manager.mergeRequests)
      ensures FirstLineFields(old(stm)).Ok? ==>
                var p := SplitForStorage(FirstLineFields(old(stm)).value, config.stmRatio);
                && r == Ok(true)
                && stm == Encode(p.toLeave)
                && manager.mergeRequests
                   == old(manager.mergeRequests) + [MergeRequest(LtmFields(ltm), Join(p.toStore, Delim))]
    {
      r := manager.ShortToLong();
    }

    /** `lookup_from_long_term_memory`: hands the hint to the memory manager. */
    method LookupFromLongTermMemory(hint: string) returns (r: Result<()>)
      requires Valid()
      modifies manager`lookups
      ensures senderAgent.None? ==> r == Err(AttributeError) && manager.lookups == old(manager.lookups)
      ensures senderAgent.Some? ==>
                && r == Ok(())
                && manager.lookups
                   == old(manager.lookups) + [LookupRequest(LtmFields(ltm), hint, senderAgent.value.name)]
    {
      r := manager.LookupFromLong(hint);
    }

    /**
     * `chat_too_long`: drops the messages that carry a `function_call` key from the
     * recorded partner's window and tells whether the rest is longer than the maximum.
     */
    method ChatTooLong() returns (tooLong: bool)
      modifies this`chatMessages
      ensures senderAgent.None? ==> chatMessages == old(chatMessages) && !tooLong
      ensures senderAgent.Some? ==>
                var w := FilterFunctionCalls(WindowOf(old(chatMessages), senderAgent.value));
                && chatMessages == old(chatMessages)[senderAgent.value := w]
                && (tooLong <==> |w| > config.maxConvoLength)
    {
      if senderAgent.None? {
        return false;
      }
      var filteredChats := FilterFunctionCalls(WindowOf(chatMessages, senderAgent.value));
      chatMessages := chatMessages[senderAgent.value := filteredChats];
      tooLong := |chatMessages[senderAgent.value]| > config.maxConvoLength;
    }

    /**
     * The memory logic of `receive`: stores the message; on every turn after the first,
     * overwrites slot 0 with the digest of short-term memory, and on the first records
     * the sender; filters function calls; and when the window is too long, pops the
     * oldest turns after slot 0 and hands them, oldest first, to the memory manager.
     */
    method Receive(message: Message, sender: Peer) returns (r: Result<()>)
      requires Valid()
      modifies this`memories, this`chatMessages, this`senderAgent, manager`chatSections
      ensures Valid()
      ensures memories == Some(Joined(stm))
      ensures |WindowOf(old(chatMessages), sender)| >= 1 && old(senderAgent).None? ==>
                && r == Err(AttributeError)
                && chatMessages == old(chatMessages)[sender := WindowOf(old(chatMessages), sender) + [message]]
                && senderAgent == None
                && manager.chatSections == old(manager.chatSections)
      ensures !(|WindowOf(old(chatMessages), sender)| >= 1 && old(senderAgent).None?) ==>
                var sa := if |WindowOf(old(chatMessages), sender)| >= 1 then old(senderAgent).value else sender;
                var cm3 := WithoutFunctionCalls(WithMessage(old(chatMessages), sender, message, sa, Joined(stm)), sa);
                var t := TrimWindow(WindowOf(cm3, sender), config.chatRatio);
                && r == Ok(())
                && senderAgent == Some(sa)
                && (|WindowOf(cm3, sa)| > config.maxConvoLength ==>
                      && chatMessages == cm3[sender := t.kept]
                      && manager.chatSections == old(manager.chatSections) + [ChatSection(t.lost, sa.name)])
                && (|WindowOf(cm3, sa)| <= config.maxConvoLength ==>
                      && chatMessages == cm3
                      && manager.chatSections == old(manager.chatSections))
    {
      var mem := ReadShortTermMemory();
      memories := Some(mem);
      chatMessages := chatMessages[sender := WindowOf(chatMessages, sender) + [message]];
      if |chatMessages[sender]| > 1 {
        if senderAgent.None? {
          return Err(AttributeError);
        }
        var m0 := Digest(senderAgent.value.name, mem);
        chatMessages := chatMessages[sender := chatMessages[sender][0 := m0]];
      } else {
        senderAgent := Some(sender);
      }
      ghost var sa := senderAgent.value;
      ghost var cm2: map<Peer, seq<Message>> := chatMessages;
      assert cm2 == WithMessage(old(chatMessages), sender, message, sa, mem);
      var tooLong := ChatTooLong();
      ghost var cm3: map<Peer, seq<Message>> := chatMessages;
      assert cm3 == WithoutFunctionCalls(cm2, sa);
      if tooLong {
        assert sender in cm3 && cm3[sender] != [] by {
          if sa == sender {
            assert |WindowOf(cm3, sa)| > config.maxConvoLength;
          }
        }
        var lostMessages := EvictOldest(sender);
        assert chatMessages == cm3[sender := TrimWindow(WindowOf(cm3, sender), config.chatRatio).kept];
        var _ := manager.ProcessChatSection(lostMessages);
      }
      r := Ok(());
    }

    /**
     * The eviction loop of `receive`: `trim_num - 1` times, pops the message after slot 0
     * of the sender's window and collects it, so the oldest turns leave first.
     */
    method EvictOldest(sender: Peer) returns (lostMessages: seq<Message>)
      requires config.Valid()
      requires sender in chatMessages && chatMessages[sender] != []
      modifies this`chatMessages
      ensures var t := TrimWindow(old(chatMessages)[sender], config.chatRatio);
              chatMessages == old(chatMessages)[sender := t.kept] && lostMessages == t.lost
    {
      ghost var w := chatMessages[sender];
      ghost var k := EvictionCount(|w|, config.chatRatio);
      var trimNum: int := TrimCount(|chatMessages[sender]|, config.chatRatio);
      lostMessages := [];
      var i: int := 0;
      assert [w[0]] + w[1..] == w;
      assert chatMessages == chatMessages[sender := w];
      while i < trimNum - 1
        invariant 0 <= i <= k
        invariant chatMessages == old(chatMessages)[sender := [w[0]] + w[i + 1..]]
        invariant lostMessages == w[1..i + 1]
      {
        ghost var cur := [w[0]] + w[i + 1..];
        assert cur[1] == w[i + 1] && cur[..1] + cur[2..] == [w[0]] + w[i + 2..];
        assert w[1..i + 2] == w[1..i + 1] + [w[i + 1]];
        lostMessages := lostMessages + [chatMessages[sender][1]];
        chatMessages := chatMessages[sender := chatMessages[sender][..1] + chatMessages[sender][2..]];
        i := i + 1;
      }
    }

    /**
     * `get_function_map`: maps each configured function name to the method at the same
     * position of `functions_for_map`; a method missing for a name raises IndexError.
     */
    method GetFunctionMap() returns (r: Result<map<string, Callable>>)
      ensures |functionNames| <= |functionsForMap| ==> r == Ok(FunctionMap(functionNames, functionsForMap))
      ensures |functionNames| > |functionsForMap| ==> r == Err(IndexError)
    {
      var fMap: map<string, Callable> := map[];
      for i := 0 to |functionNames|
        invariant i <= |functionsForMap|
        invariant fMap == FunctionMap(functionNames[..i], functionsForMap)
      {
        if i >= |functionsForMap| {
          return Err(IndexError);
        }
        assert functionNames[..i + 1][..i] == functionNames[..i];
        fMap := fMap[functionNames[i] := functionsForMap[i]];
      }
      assert functionNames[..|functionNames|] == functionNames;
      return Ok(fMap);
    }
  }

  class MemoryEnabledAgentManager {
    const parent: MemoryEnabledAgent
    /** The conversation sections handed to the summarising conversation, in order. */
    var chatSections: seq<ChatSection>
    /** The merge requests handed to the long-term conversation, in order. */
    var mergeRequests: seq<MergeRequest>
    /** The lookups handed to the long-term conversation, in order. */
    var lookups: seq<LookupRequest>

    constructor (parent: MemoryEnabledAgent)
      ensures this.parent == parent
      ensures chatSections == [] && mergeRequests == [] && lookups == []
    {
      this.parent := parent;
      chatSections, mergeRequests, lookups := [], [], [];
    }

    /** `read_long_term_memory()`. */
    function ReadLongTermMemory(): (r: seq<string>)
      reads parent
      ensures r == [] <==> parent.ltm == []
      ensures r != [] ==> Join(r, Delim) == Lines(parent.ltm)[0]
      ensures forall k :: 0 <= k < |r| ==> Delim !in r[k]
    {
      LtmFields(parent.ltm)
    }

    /** `process_chat_section`: hands the lost messages and the partner's name to the summariser. */
    method ProcessChatSection(lostMessages: seq<Message>) returns (r: Result<()>)
      modifies this`chatSections
      ensures parent.senderAgent.None? ==> r == Err(AttributeError) && chatSections == old(chatSections)
      ensures parent.senderAgent.Some? ==>
                && r == Ok(())
                && chatSections == old(chatSections) + [ChatSection(lostMessages, parent.senderAgent.value.name)]
    {
      if parent.senderAgent.None? {
        return Err(AttributeError);
      }
      chatSections := chatSections + [ChatSection(lostMessages, parent.senderAgent.value.name)];
      r := Ok(());
    }

    /**
     * `short_to_long`: reads the short-term fields, rewrites short-term memory with the
     * newest ones first, then asks for the oldest `int(n * ratio)` to be merged into
     * long-term memory. An empty short-term record raises IndexError before anything changes.
     */
    method ShortToLong() returns (r: Result<bool>)
      requires parent.config.Valid()
      modifies parent`stm, this`mergeRequests
      ensures FirstLineFields(old(parent.stm)).Err? ==>
                && r == Err(IndexError)
                && parent.stm == old(parent.stm)
                && mergeRequests == old(mergeRequests)
      ensures FirstLineFields(old(parent.stm)).Ok? ==>
                var p := SplitForStorage(FirstLineFields(old(parent.stm)).value, parent.config.stmRatio);
                && r == Ok(true)
                && parent.stm == Encode(p.toLeave)
                && mergeRequests == old(mergeRequests) + [MergeRequest(LtmFields(parent.ltm), Join(p.toStore, Delim))]
    {
      var mems := parent.ReadShortTermMemoryList();
      if mems.Err? {
        return Err(mems.error);
      }
      var trimNum := TrimCount(|mems.value|, parent.config.stmRatio);
      var memsToLeave := mems.value[trimNum..];
      var memsToStore := mems.value[..trimNum];
      parent.RewriteShortTermMemory(memsToLeave);
      var incorporated := IncorporateMemories(memsToStore);
      r := Ok(incorporated);
    }

    /** `incorporate_memories`: hands the long-term fields and the '|'-joined new memories to the merger. */
    method IncorporateMemories(newMemories: seq<string>) returns (ok: bool)
      modifies this`mergeRequests
      ensures ok
      ensures mergeRequests == old(mergeRequests) + [MergeRequest(ReadLongTermMemory(), Join(newMemories, Delim))]
    {
      mergeRequests := mergeRequests + [MergeRequest(ReadLongTermMemory(), Join(newMemories, Delim))];
      ok := true;
    }

    /**
     * `rewrite_memory`: replaces the long-term record with each '|'-field of `memories`
     * followed by '|', which is `memories` plus one '|'.
     */
    method RewriteMemory(memories: string) returns (ok: bool)
      modifies parent`ltm
      ensures ok
      ensures parent.ltm == memories + [Delim]
      ensures '\n' !in memories ==> ReadLongTermMemory() == Split(memories, Delim) + [[]]
    {
      var memoryList := Split(memories, Delim);
      parent.ltm := [];
      for i := 0 to |memoryList|
        invariant parent.ltm == Encode(memoryList[..i])
      {
        assert memoryList[..i + 1] == memoryList[..i] + [memoryList[i]];
        EncodeSnoc(memoryList[..i], memoryList[i]);
        parent.ltm := parent.ltm + memoryList[i] + [Delim];
      }
      assert memoryList[..|memoryList|] == memoryList;
      RewriteMemoryRecord(memories);
      ok := true;
    }

    /** `lookup_from_long`: hands the long-term fields, the hint and the partner's name to the answerer. */
    method LookupFromLong(hint: string) returns (r: Result<()>)
      modifies this`lookups
      ensures parent.senderAgent.None? ==> r == Err(AttributeError) && lookups == old(lookups)
      ensures parent.senderAgent.Some? ==>
                && r == Ok(())
                && lookups == old(lookups) + [LookupRequest(ReadLongTermMemory(), hint, parent.senderAgent.value.name)]
    {
      var longTermMemory := ReadLongTermMemory();
      if parent.senderAgent.None? {
        return Err(AttributeError);
      }
      lookups := lookups + [LookupRequest(longTermMemory, hint, parent.senderAgent.value.name)];
      r := Ok(());
    }
  }
}
