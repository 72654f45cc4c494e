# Memory of the memory-enabled agent

This project models the memory subsystem of `EnhancedAgents.py`, an agent built on
autogen that keeps a two-tier text memory and a bounded chat window, and proves
properties of that model in Dafny.

- **Records.** Short-term memory (STM) and long-term memory (LTM) are each one text
  record. Every entry is written followed by `|`. The agent reads STM either as the
  `|`-join of its lines, the digest shown in the chat, or as the `|`-fields of its
  first line. LTM is read as the fields of its first line, or `[]` when it is empty
  (`Records`, `Text`).
- **Overflow policy.** STM is full when its first line has more `|`-fields than the
  limit. A consolidation cycle stores the oldest `int(n * ratio)` fields in LTM
  through the memory manager and rewrites STM with the rest (`Overflow`,
  `Agents.MemoryEnabledAgentManager.ShortToLong`).
- **Chat window guard.** On every turn after the first, `receive` overwrites slot 0
  with a digest of STM. `chat_too_long` drops messages that carry a function call. On
  overflow, `int(len * ratio) - 1` turns are popped from slot 1 and handed to the
  manager, oldest first (`Messages`, `Agents.MemoryEnabledAgent.Receive`).
- **Termination test.** `is_mem_termination_msg` is a string predicate
  (`Messages.IsMemTerminationMsg`).

The two memory files are string fields of the agent class (`stm`, `ltm`). Python's
`str.split`, `str.join`, `readlines` and `rstrip` are modelled exactly in `Text`, apart
from the newline translation of `readlines`. The float ratios are rationals
(`Overflow.Ratio`): `int(n * 0.8)` is the floor of `n * 4 / 5` for every window or
record size the agent can reach. The three
language-model conversations (`process_chat_section`, `incorporate_memories` and
`lookup_from_long`) are hooks on the manager class. Each appends what it was handed
to a sequence field (`chatSections`, `mergeRequests`, `lookups`). Python exceptions
that escape are `Base.PyError` values in a `Result`:

- `IndexError` from `readlines()[0]` on an empty record;
- `AttributeError` from `self.sender_agent.name` while no partner is recorded.

Quirks of the code that the model keeps:

- Every entry is written followed by `|` (EnhancedAgents.py:236, 280, 468), and the field
  count of `readlines()[0].split('|')` includes the empty field after the last `|`
  (EnhancedAgents.py:229, 257). A record of `n` entries therefore has `n + 1` fields, so
  with the limit of 10 short-term memory is full once it holds 10 entries
  (`Overflow.FullIffLimitEntries`, `Overflow.DefaultFullAtTen`).
- The consolidation cycle carries that trailing empty field into the kept part
  (EnhancedAgents.py:445) and rewrites it followed by `|` (EnhancedAgents.py:279-280).
  The rewritten record ends in `||` and reads back with two empty fields
  (`Overflow.CycleKeepsTrailingField`).
- Reading an empty short-term record in list mode indexes `readlines()[0]` and raises
  `IndexError` (EnhancedAgents.py:229, 257).
- Only `None` entries are skipped on append; empty strings are written
  (EnhancedAgents.py:235).
- The digest ends with `|` and names the recorded partner, `self.sender_agent`, not the
  sender of the current message (EnhancedAgents.py:134).

## Model

| member | source | states |
|---|---|---|
| Text.Split | EnhancedAgents.py:229 | `str.split('\|')` returns one more field than there are separators, never an empty list, and no field holds the separator |
| Text.Join | EnhancedAgents.py:221 | `'\|'.join(fs)` starts with the first field, followed by the separator when there are more |
| Text.JoinSplit | EnhancedAgents.py:229 | joining the fields of a split with the separator gives back the line |
| Text.SplitJoin | EnhancedAgents.py:465-468 | splitting a join of separator-free fields gives back the fields |
| Text.JoinSnoc | EnhancedAgents.py:459 | joining one more field adds the separator and the field |
| Text.IndexOf | EnhancedAgents.py:229 | the first line break of a record, or its end when there is none |
| Text.Lines | EnhancedAgents.py:221 | `readlines()` yields no lines exactly for an empty file; the first line runs to the first line break or the end; every line is non-empty and every line but the last ends in its only line break |
| Text.LinesShape | EnhancedAgents.py:221 | the cut-after-each-line-break recursion gives non-empty lines with no inner line break, all but the last ending in one |
| Text.ConsLine | EnhancedAgents.py:221 | a line ending in its only line break, in front of such lines, keeps that shape |
| Text.LinesUnfold | EnhancedAgents.py:221 | a text with a line break reads as the line up to and including it, then the lines of the rest |
| Text.LinesConcat | EnhancedAgents.py:221 | the lines of `readlines()` concatenate to the whole file |
| Text.RStrip | EnhancedAgents.py:414 | `rstrip()` keeps a prefix that does not end in whitespace and removes only whitespace |
| Text.IsSpace | EnhancedAgents.py:414 | `rstrip()` removes spaces, tabs and line breaks, and never a printable ASCII character |
| Text.EndsWith | EnhancedAgents.py:414 | `endswith(suffix)` holds exactly when the text is some text followed by the suffix |
| Text.SuffixSplit | EnhancedAgents.py:414 | comparing the last characters with the suffix is the same as splitting the text into a front and the suffix |
| Text.SplitFreePrefix | EnhancedAgents.py:229 | a separator-free prefix stays glued to the first field of the split |
| Text.JoinEmptyFront | EnhancedAgents.py:229 | a join whose first field is empty starts with the separator |
| Text.JoinExtendFront | EnhancedAgents.py:229 | a character in front of the first field is in front of the join |
| Records.Encode | EnhancedAgents.py:279-280 | the write loops leave an empty record exactly for no entries, and a non-empty record ends in `\|` |
| Records.AppendStep | EnhancedAgents.py:234-236 | one iteration of the append loop writes the entry and `\|` exactly when the entry is not None |
| Records.EncodeSnoc | EnhancedAgents.py:234-236 | writing one more entry adds it and a `\|` at the end of the record |
| Records.EncodeAsJoin | EnhancedAgents.py:279-280 | the written record is the `\|`-join of the entries plus a trailing empty field |
| Records.EncodeOneLine | EnhancedAgents.py:279-280 | entries without line breaks are written on one line |
| Records.Present | EnhancedAgents.py:234-235 | the appended entries are exactly those that are not None, none added |
| Records.PresentConcat | EnhancedAgents.py:234-235 | skipping None preserves the order of the entries across an append |
| Records.PresentSnoc | EnhancedAgents.py:234-236 | each further entry of the loop adds its value unless it is None |
| Records.FirstLineFields | EnhancedAgents.py:226-229 | list-mode read: IndexError exactly for an empty record, otherwise one more field than the first line has `\|`, no field holds a `\|`, and the fields join to the first line |
| Records.Joined | EnhancedAgents.py:218-223 | the digest text is the record with a `\|` after every line break that is not its last character; a one-line record is read as itself |
| Records.NoBreakUnchanged | EnhancedAgents.py:221 | text without a line break gains no `\|` |
| Records.JoinedInsertsBars | EnhancedAgents.py:221 | `'\|'.join(readlines())` inserts exactly one `\|` after every line break that is not the last character, and changes nothing else |
| Records.JoinedLinesStep | EnhancedAgents.py:221 | joining the lines of a record with an inner line break gives its first line, a `\|`, then the joined lines of the rest |
| Records.JoinCons | EnhancedAgents.py:221 | a join with more than one part puts the separator after the first part |
| Records.BarAfterFreePrefix | EnhancedAgents.py:221 | text before the first line break comes through the `\|` insertion unchanged |
| Records.BarAfterInnerBreak | EnhancedAgents.py:221 | a line break followed by more text gains a `\|` after it |
| Records.LtmFields | EnhancedAgents.py:427-435 | `read_long_term_memory` is `[]` exactly for an empty record, otherwise one more field than the first line has `\|`, none holding a `\|`, joining to the first line |
| Records.RecordRoundTrip | EnhancedAgents.py:226-229 | reading back clean written entries gives the entries plus one empty field; an empty record raises IndexError |
| Records.RewriteMemoryRecord | EnhancedAgents.py:464-470 | `rewrite_memory(s)` writes `s` plus one `\|`, which reads back as the fields of `s` plus one empty field |
| Records.SplitDelimSuffix | EnhancedAgents.py:427-435 | a trailing `\|` reads as one more empty field |
| Overflow.TrimCount | EnhancedAgents.py:443 | `int(n * ratio)` is the floor of `n * num / den`, at most `n` |
| Overflow.FloorBelow | EnhancedAgents.py:443 | the floor of a quotient lies within one divisor of it |
| Overflow.StmFull | EnhancedAgents.py:255-262 | IndexError exactly for an empty record, otherwise full iff separators in the first line reach the limit, that is fields strictly above it |
| Overflow.SplitForStorage | EnhancedAgents.py:439-446 | the stored and left parts concatenate to the fields, and the stored part has `int(n * ratio)` fields |
| Overflow.EvictionCount | EnhancedAgents.py:157-163 | `range(trim_num - 1)` pops `max(trim_num - 1, 0)` turns, fewer than the window holds |
| Overflow.FullIffLimitEntries | EnhancedAgents.py:255-262 | a record of clean entries is full iff it holds at least `limit` entries |
| Overflow.CycleKeepsTrailingField | EnhancedAgents.py:439-451 | after a cycle the kept part ends with the trailing empty field, STM ends in `\|\|` and reads back with two empty fields |
| Overflow.KeptPart | EnhancedAgents.py:277-280 | rewriting the kept entries with the empty field appends `\|` and reads back with two empty fields |
| Overflow.EmptyFieldWritten | EnhancedAgents.py:279-280 | writing an empty field after the entries adds just a `\|` |
| Overflow.KeptReadBack | EnhancedAgents.py:226-229 | the kept entries with the empty field read back with two empty fields |
| Overflow.CleanWithEmpty | EnhancedAgents.py:445 | the kept suffix with the empty field has no separator or line break |
| Overflow.DefaultConfig | EnhancedAgents.py:25-34 | the class defaults: limit 10, STM ratio 0.8, maximum window 10, chat ratio 0.8, all valid |
| Overflow.DefaultFullAtTen | EnhancedAgents.py:25 | with the default limit, nine entries are not full and ten are |
| Overflow.DefaultCycle | EnhancedAgents.py:28 | with the default ratio, the cycle on ten entries stores eight and leaves two plus an empty field |
| Messages.FilterFunctionCalls | EnhancedAgents.py:206-208 | the filter keeps exactly the messages without a function call |
| Messages.FilterConcat | EnhancedAgents.py:207 | the filter keeps the survivors in their original order |
| Messages.FilterIdempotent | EnhancedAgents.py:207 | filtering an already filtered window changes nothing |
| Messages.Digest | EnhancedAgents.py:133-135 | the digest is an assistant message without a function call whose text is "Things you remember about ", the partner's name, ": ", the memories and `\|` |
| Messages.TrimWindow | EnhancedAgents.py:157-163 | the window keeps slot 0, loses `EvictionCount` turns oldest first, and slot 0, lost and kept turns make up the old window |
| Messages.DefaultEviction | EnhancedAgents.py:34 | with the default ratio, a window of eleven loses seven turns and keeps the digest and the three newest |
| Messages.IsMemTerminationMsg | EnhancedAgents.py:412-416 | a terminating message has content whose right-stripped text ends in the `E` of "TERMINATE" (characterised fully by TerminationIff) |
| Messages.TerminationIff | EnhancedAgents.py:412-416 | a message terminates iff it has content in which "TERMINATE" is followed only by whitespace |
| Agents.WithMessage | EnhancedAgents.py:127-138 | the sender's window gains the message at the end, on later turns slot 0 becomes the digest while the other slots stay, and every other partner's window is unchanged |
| Agents.WindowOf | EnhancedAgents.py:131 | the defaultdict gives a known partner's window, and an empty one for a partner not seen yet |
| Agents.WithoutFunctionCalls | EnhancedAgents.py:206-208 | the partner's window becomes exactly the filter of its old window (its messages without a function call, in order), and every other window is unchanged |
| Agents.DigestStaysFirst | EnhancedAgents.py:130-163 | after the filter and the eviction, the digest is still in slot 0 of the sender's window |
| Agents.FunctionMap | EnhancedAgents.py:284-287 | the map built by the loop has at most one key per configured name |
| Agents.FunctionMapKeys | EnhancedAgents.py:283-289 | the function map's keys are exactly the configured function names |
| Agents.FunctionMapLastWins | EnhancedAgents.py:283-289 | each name is bound to the method at the position of its last occurrence |
| Agents.MemoryEnabledAgent.constructor | EnhancedAgents.py:81-91 | a new agent has its records, empty windows, no partner, a fresh manager tied to it, and one callable |
| Agents.MemoryEnabledAgent.InitializeMemories | EnhancedAgents.py:179-197 | a fresh agent gets two empty records and None; a known agent keeps its records and reads its digest |
| Agents.MemoryEnabledAgent.ReadShortTermMemory | EnhancedAgents.py:217-223 | the string-mode read is STM with a `\|` after every inner line break; a one-line record is read as itself |
| Agents.MemoryEnabledAgent.ReadShortTermMemoryList | EnhancedAgents.py:226-229 | the list-mode read raises IndexError exactly on an empty record, otherwise gives `\|`-free fields that join to the first line |
| Agents.MemoryEnabledAgent.ShortTermMemoryFull | EnhancedAgents.py:255-262 | an error exactly on an empty record, and that error is IndexError; otherwise full iff the list-mode read has more fields than the limit |
| Agents.MemoryEnabledAgent.RewriteShortTermMemory | EnhancedAgents.py:277-280 | STM becomes each entry followed by `\|`, none skipped |
| Agents.MemoryEnabledAgent.WriteEntries | EnhancedAgents.py:233-236 | STM becomes the old record followed by each entry that is not None and a `\|` |
| Agents.MemoryEnabledAgent.AppendToShortTermMemory | EnhancedAgents.py:232-251 | the writes happen first; then IndexError on an empty record, or True with one cycle exactly when STM is full |
| Agents.MemoryEnabledAgent.ShortTermToLongTerm | EnhancedAgents.py:265-269 | hands the cycle to the manager with the same outcome |
| Agents.MemoryEnabledAgent.LookupFromLongTermMemory | EnhancedAgents.py:272-274 | hands the hint to the manager with the same outcome |
| Agents.MemoryEnabledAgent.ChatTooLong | EnhancedAgents.py:204-214 | the partner's window loses its function calls, and the result is true iff the rest is longer than the maximum |
| Agents.MemoryEnabledAgent.Receive | EnhancedAgents.py:123-166 | memories re-read; AttributeError on a later turn with no partner; otherwise digest or partner recorded, filter, and on overflow eviction and hand-off of the lost turns |
| Agents.MemoryEnabledAgent.EvictOldest | EnhancedAgents.py:157-163 | the pop loop leaves the trimmed window and returns the popped turns in order |
| Agents.MemoryEnabledAgent.GetFunctionMap | EnhancedAgents.py:283-289 | the map of names to callables, or IndexError when a callable is missing for a name |
| Agents.MemoryEnabledAgentManager.constructor | EnhancedAgents.py:337 | a new manager belongs to its parent and has handed nothing on |
| Agents.MemoryEnabledAgentManager.ReadLongTermMemory | EnhancedAgents.py:427-435 | `[]` exactly for an empty LTM record, otherwise `\|`-free fields joining to the first line |
| Agents.MemoryEnabledAgentManager.ProcessChatSection | EnhancedAgents.py:420-424 | the lost turns and the partner's name are handed on, or AttributeError with no partner |
| Agents.MemoryEnabledAgentManager.ShortToLong | EnhancedAgents.py:439-451 | IndexError on empty STM with nothing changed; otherwise STM rewritten to the left part and the stored part handed on for merging |
| Agents.MemoryEnabledAgentManager.IncorporateMemories | EnhancedAgents.py:456-461 | the LTM fields and the `\|`-join of the new memories are handed on, and the result is True |
| Agents.MemoryEnabledAgentManager.RewriteMemory | EnhancedAgents.py:464-470 | LTM becomes `s` plus `\|` and reads back as the fields of `s` plus one empty field; the result is True |
| Agents.MemoryEnabledAgentManager.LookupFromLong | EnhancedAgents.py:474-480 | the LTM fields, the hint and the partner's name are handed on, or AttributeError with no partner |

## Left out

- Construction of the autogen agents and their model configurations (EnhancedAgents.py:36-71, 337-409) is framework plumbing over a library that is not part of this model. The constructor keeps only the records, the windows, the manager and the function names.
- The language-model conversations behind `process_chat_section`, `incorporate_memories` and `lookup_from_long` are not modelled. The model records what each is handed; what a model writes back is not modelled, including the memories it appends or rewrites through the function map.
- Agents.MemoryEnabledAgentManager.LookupFromLong: does not return the last chat message, because that message comes from the external conversation.
- Agents.MemoryEnabledAgentManager.IncorporateMemories: records the LTM field list and the joined memories, not the rendered prompt text around them.
- Agents.MemoryEnabledAgentManager.ProcessChatSection: records the lost turns and the partner's name, not the rendered prompt text.
- `generate_reply`, `send` and the reply-request branch of `receive` (EnhancedAgents.py:168-176) are framework behaviour.
- Agents.MemoryEnabledAgent.Receive: the message is appended as it is. The conversion that autogen's `_process_received_message` applies to strings and dictionaries is not modelled.
- The debug `print` calls are output only.
- Directory creation and the `os.path` handling of the memory files are replaced by two string fields. Whether a memory directory exists is a constructor parameter.
- `readlines` is modelled without the universal-newline translation of `\r` and `\r\n`.
- `self.system_message.format(...)` (EnhancedAgents.py:144) discards its result and has no effect.
- `main.py` only wires up a conversation and holds no memory logic.
- Agents.MemoryEnabledAgent.ChatTooLong: with no recorded partner, the defaultdict would gain an empty window under the key None. The model leaves the windows unchanged; `receive` never reaches this case.
- Floating-point ratios are rationals `num / den` with `num <= den`. `int(n * 0.8)` agrees with the floor of `4n / 5` for the sizes the agent reaches, but the model does not represent binary floating point.
- The proxy agents' own function maps for `rewrite_memory` and `append_to_short_term_memory` are autogen wiring. The methods they call are modelled.
