# packetsonde engines, modelled and proved in Dafny

packetsonde is a network auditing toolkit. Around its sockets and TLS calls it has a number of
self-contained engines whose behaviour is decided by their own logic. This project models these
engines and proves what they are for, over all inputs, all runs or all reachable states. The
sockets, the clock, the TLS backend, the resolver and the regular expressions are parameters:
unknown functions that may answer anything, and whose answers may depend on everything before.

| modules | what they model |
|---|---|
| `Sequences`, `JsonTree`, `JsonWriter`, `JsonExtract`, `JsonArrays` | the streaming JSON writer in its bounded buffer, the substring reader that looks keys up without parsing, and the copying of objects out of an array |
| `ActivityRecord` | activity records as JSON and back |
| `ProcProfile`, `ProfileDelta`, `ProfileTable`, `Replication` | process profiles: folding events into entities, keyframes and sequence-numbered deltas as text, and the protocol between a producer and a replica |
| `RecipeTemplate`, `RecipeCheck`, `RecipeRun`, `RecipeSound`, `RecipePeel`, `RecipeEngine` | recipes: templates, the static binding table, the meaning of a run, its soundness, cipher peeling, and the interpreter with its table updated in place |
| `TypeScanner` | reading the top-level `type` of a frame without parsing it |
| `FrameCodec` | the local socket's frames: encoder and byte-at-a-time reader |
| `ReplayCache` | the replay cache of discovery |
| `FlowTypes`, `FlowParse`, `FlowBuild`, `FlowTable` | frames to flow keys, frames built from their fields, and the flow table |
| `Bytes`, `NetFlowWire`, `NetFlowPacket`, `NetFlowCollector`, `NetFlowExport` | NetFlow v9 and IPFIX messages, a collector that learns templates from them, and the exporter |
| `PtrCache` | the reverse-name cache as concurrent steps |
| `BaselineSet` | baseline path sets and their roll-up |
| `Ulid` | identifiers: encoding, order and the generator |

Code that computes is modelled by functions. Code that changes things step by step is modelled by
classes and loops, each proved to compute a function on values; the theorems are about these
functions. Integers are unbounded unless a width matters, and then the width is written out.
Strings are sequences of characters without NUL, and a C pointer into a text is the text from
there to its end.

## Findings

The following came out of the proofs. Each is a property that does not hold of every input, with
an input that breaks it and the exact condition under which it holds.

- The readers of arrays search for the quoted array name without the colon, so a string value that
  equals the name, or ends in a quotation mark followed by the name, is taken for it
  (`JsonArrays.MemberFoundIff`). The reader goes on from there to the next bracket and brace, and so
  still finds the array if and only if no brace and no closing bracket follows a bracket on the way
  (`JsonArrays.ArrayReachedIff`). `ActivityRecord.AncestryLost` is a record that loses its
  ancestors. Deltas are always read, whatever the epoch (`ProfileDelta.DeltaReached`).
- A keyframe resets the replica to sequence number 0 but not the producer, so a keyframe taken
  after the first delta is followed by rejected deltas (`Replication.KeyframeThenDelta`), and with
  a repetition of delta 1 it can put a replica into a state the producer never had there
  (`Replication.LateKeyframeRun`). Sending a keyframe is safe for all continuations if and only if
  it is taken before delta 1, or does not fit, or delta 1 is not in the channel, or since delta 1 no
  entity was added and none changed but those delta 1 carries (`Replication.KeyframeExact`).
- An eviction from the full entity table cannot be replicated by a delta, only by another keyframe.
  Folding an activity is safe for all continuations if and only if no entity that a replica may
  have is evicted (`Replication.ObserveExact`); a single update leaves a replica that shows the table
  in step if and only if it evicts nothing (`Replication.EvictionIff`).
- Roll-up keeps coverage if and only if every entry has a slash or at most one character, or lies in
  a directory with fewer entries than the threshold, or is itself a directory with enough
  (`BaselineSet.CoverageKeptIff`). Any other entry is lost (`BaselineSet.UnanchoredLost`), the
  smallest case being a name alone at threshold 1 (`BaselineSet.NameAloneLost`).
- The reverse-name cache stores 63 characters of an address but looks up the whole, so every longer
  address is resolved again and again (`PtrCache.LongAddressTwice`). In all interleavings of all
  callers an address reaches the resolver at most once if and only if it does not have exactly 63
  characters (`PtrCache.OnceIff`).
- A v9 batch without IPv6 flows sends only the IPv4 template and restarts the template timer, so the
  IPv6 records of a following batch may come without a template (`NetFlowExport.TwoBatches`). A
  collector understands the IPv6 records it hears if and only if it knows the template from before,
  or templates are due by the first message that has such records (`NetFlowExport.Inet6Iff`). IPFIX
  always sends both templates, and is always understood (`NetFlowExport.Exporter.ExportIpfix`).

## Model

| member | source | states |
|---|---|---|
| JsonWriter.Writer.Emit | src/lib/json.c:5-13 | the buffer holds the whole text emitted so far, or the error flag is set and stays set, exactly when that text overflows |
| JsonWriter.Writer.MaybeComma | src/lib/json.c:15-19 | a comma goes out exactly between elements |
| JsonWriter.Writer.EmitQuoted | src/lib/json.c:21-42 | the loop over the characters emits the escaped string between quotation marks |
| JsonWriter.Writer.constructor | src/lib/json.c:44-48 | a fresh writer has emitted nothing and has no error |
| JsonWriter.Writer.ObjectBegin | src/lib/json.c:50 | opens an object: its text, depth and comma state |
| JsonWriter.Writer.ObjectEnd | src/lib/json.c:51 | closes an object |
| JsonWriter.Writer.KeyObjectBegin | src/lib/json.c:52 | opens an object under a key |
| JsonWriter.Writer.ArrayBegin | src/lib/json.c:53 | opens an array under a key |
| JsonWriter.Writer.ArrayEnd | src/lib/json.c:54 | closes an array |
| JsonWriter.Writer.KeyString | src/lib/json.c:56-59 | appends a string member |
| JsonWriter.Writer.KeyInt | src/lib/json.c:61-66 | appends an integer member in decimal |
| JsonWriter.Writer.KeyDouble | src/lib/json.c:68-73 | appends a member with a given numeral |
| JsonWriter.Writer.KeyBool | src/lib/json.c:75-79 | appends a boolean member |
| JsonWriter.Writer.KeyNull | src/lib/json.c:81-85 | appends a null member |
| JsonWriter.Writer.ArrayString | src/lib/json.c:87-90 | appends a string element |
| JsonWriter.Writer.ArrayDouble | src/lib/json.c:92-97 | appends a numeral element |
| JsonWriter.Writer.WriteObject | src/lib/json.c:50-97 | the calls for a whole tree emit exactly the rendering of the tree |
| JsonWriter.Writer.Finish | src/lib/json.c:99-104 | the length and the terminated text when everything fit, -1 otherwise |
| JsonExtract.ExtractStringAgrees | src/lib/json_extract.c:30-84 | on every document the writer can produce, extracting a string gives the unescaped value of the first such key in document order if it is a string that fits, and fails otherwise: no string can imitate a key |
| JsonExtract.ExtractIntAgrees | src/lib/json_extract.c:12-28 | the same for integers; a numeral that overflows the accumulator is told apart |
| JsonExtract.LocatedAgrees | src/lib/json_extract.c:14-20 | the search for the key stops just before the value of its first occurrence in the tree |
| JsonExtract.StringHidesNoKey | src/lib/json_extract.c:14-19 | no quoted string, whatever it contains, holds the searched key pattern |
| JsonExtract.DecodeEscape | src/lib/json_extract.c:48-74 | decoding undoes escaping, for every string |
| JsonExtract.DecodeInto | src/lib/json_extract.c:41-83 | the decoding loop fills the output buffer with the decoded string, or reports that it does not fit or does not end |
| JsonExtract.ReadString | src/lib/json_extract.c:30-84 | the whole string extraction computes `ExtractString` |
| JsonExtract.ReadInt | src/lib/json_extract.c:12-28 | the whole integer extraction computes `ExtractInt` |
| JsonExtract.ReadDigits | src/lib/json_extract.c:23-26 | the digit loop computes the value or the overflow |
| JsonArrays.MemberFoundIff | src/lib/activity_record.c:103-117 | the search for a quoted member name finds that member if and only if nothing before it is, contains or imitates the name |
| JsonArrays.ArrayReachedIff | src/lib/activity_record.c:103-107 | the reader lands on the opening bracket of the array if and only if no bracket lies between the first place where the quoted name is found and the array, and finds the objects of the array if and only if no brace and no closing bracket follows such a bracket |
| JsonArrays.UnhiddenReached | src/lib/activity_record.c:103-105 | this holds when nothing before the array is, contains or imitates its name |
| JsonArrays.ReachedObjects | src/lib/activity_record.c:103-114 | from an array that is reached, all objects that fit are copied in order, up to the first that does not and up to the limit |
| JsonArrays.ScanObject | src/lib/activity_record.c:66-77 | brace counting with strings skipped measures exactly one object, for every tree |
| JsonArrays.ObjectsOfArray | src/lib/proc_profile_delta.c:113-127 | the copying loop yields the elements of the array in order: all that fit, up to the first that does not and up to the caller's limit |
| JsonArrays.ReadNextObject | src/lib/activity_record.c:63-81 | one object is copied out, or none is left or it does not fit |
| JsonArrays.FindClose | src/lib/activity_record.c:67-76 | the depth loop computes the length of the object |
| JsonArrays.CollectArray | src/lib/activity_record.c:103-130 | the loop over an array collects these objects |
| ActivityRecord.RoundTrip | src/lib/activity_record.c:6-132 | if both arrays are reached, reading a written record restores every field except `partial`, with all ancestors and sockets in order as far as they fit the reader's buffers |
| ActivityRecord.UnambiguousReached | src/lib/activity_record.c:103-117 | both arrays are reached when no string before them imitates their names |
| ActivityRecord.RoundTripIff | src/lib/activity_record.c:83-132 | of a record whose arrays are reached, the whole comes back if and only if every ancestor and socket object fits its buffer |
| ActivityRecord.AncestryLost | src/lib/activity_record.c:103-105 | a process named `ancestry` with executable `[]` loses its ancestors |
| ActivityRecord.WriteRecord | src/lib/activity_record.c:6-59 | the writer calls produce the record's JSON, or -1 when it does not fit |
| ActivityRecord.ReadRecord | src/lib/activity_record.c:83-132 | the reader computes `FromJson` |
| ProcProfile.TouchKeeps | src/lib/proc_profile.c:38-55 | touching an entity, with or without an eviction, keeps ids distinct and marks what it changes as dirty |
| ProcProfile.InPlaceIff | src/lib/proc_profile.c:46-48 | the entities of an earlier view stay in place if and only if nothing is evicted, or an entity the view does not have |
| ProcProfile.TouchAllKeeps | src/lib/proc_profile.c:80-120 | folding an activity marks whatever it changes: non-dirty means unchanged |
| ProcProfile.SpareInPlace | src/lib/proc_profile.c:80-120 | an activity whose updates evict none of the first entities leaves them in place |
| ProfileTable.Table.EntGet | src/lib/proc_profile.c:38-55 | finds, appends or evicts in the fixed array, as the table on values does |
| ProfileTable.Table.TouchOne | src/lib/proc_profile.c:74-78 | one entity's count, times, verdict and dirty flag |
| ProfileTable.Table.FoldActivity | src/lib/proc_profile.c:80-120 | the fold over an activity in place is the fold on values |
| ProfileTable.Table.KeyframeJson | src/lib/proc_profile_delta.c:19-59 | the keyframe text of the table, or -1 |
| ProfileTable.Table.TakeDirty | src/lib/proc_profile_delta.c:73-88 | collects the dirty entities in order and clears their flags |
| ProfileTable.Table.DeltaJson | src/lib/proc_profile_delta.c:61-92 | 0 and no change without dirty entities; otherwise the next sequence number, the delta text of exactly the dirty entities, and clean flags, even when the text does not fit |
| ProfileTable.Table.UpsertObject | src/lib/proc_profile_delta.c:94-111 | one object sets or appends its entity |
| ProfileTable.Table.ApplyJson | src/lib/proc_profile_delta.c:129-150 | applying a frame's text in place is `Apply` |
| ProfileDelta.EntityRead | src/lib/proc_profile_delta.c:103-110 | reading a written entity gives it back, field by field |
| ProfileDelta.UpsertSets | src/lib/proc_profile_delta.c:94-111 | applying the text of an entity sets that entity in the replica, or appends it while there is room |
| ProfileDelta.FrameObjectsAre | src/lib/proc_profile_delta.c:138-148 | the objects copied out of a frame are its entities, all of them |
| ProfileDelta.DeltaReached | src/lib/proc_profile_delta.c:146-147 | a replica finds the entities of every delta, whatever its epoch |
| ProfileDelta.ClearReadable | src/lib/proc_profile_delta.c:138-139 | a replica finds the entities of a keyframe when no string of its header imitates the array name |
| ProfileDelta.ApplyKeyframe | src/lib/proc_profile_delta.c:134-142 | the text of a keyframe whose entities are found makes any replica an exact copy at sequence number 0 |
| ProfileDelta.ApplyDelta | src/lib/proc_profile_delta.c:143-149 | the text of a delta is applied exactly when it has the replica's epoch and the next number; otherwise DESYNC and nothing changes |
| Replication.DeltaCatchesUp | src/lib/proc_profile_delta.c:61-92 | the dirty entities, applied to any tracked earlier view, give the current table |
| Replication.StepKeeps | src/lib/proc_profile_delta.c:61-150 | every step of producer, channel and replica that meets the exact conditions keeps the invariant |
| Replication.ReplicationSafe | src/lib/proc_profile_delta.c:61-150 | after any run with any loss, repetition and reordering, a replica at sequence number k of the producer's epoch shows exactly the producer's table as of delta k |
| Replication.GapRejected | src/lib/proc_profile_delta.c:143-144 | a delta that does not follow directly is rejected with the state unchanged |
| Replication.StartKeeps | src/cli/inspect/render_stream.c:9-15 | starting a stream with a keyframe and clearing the dirty flags keeps the invariant |
| Replication.KeyframeThenDelta | src/lib/proc_profile_delta.c:26 | after a keyframe the producer's next delta is accepted if and only if the keyframe was taken before any delta |
| Replication.ResumableIff | src/lib/proc_profile_delta.c:61-92 | delta 1 takes the current table back to what it was at delta 1 if and only if no entity was added since and none changed but those delta 1 carries |
| Replication.LateKeyframe | src/lib/proc_profile_delta.c:134-149 | after a keyframe taken later and a repetition of delta 1, the replica is at sequence number 1 and shows the producer's table of delta 1 if and only if that is so |
| Replication.KeyframeExact | src/lib/proc_profile_delta.c:136 | a keyframe leaves every continuation safe if and only if it is harmless: not sent, before delta 1, without delta 1 in the channel, or taken back by delta 1 |
| Replication.LateKeyframeRun | src/lib/proc_profile_delta.c:136 | from every start: a file is opened, delta 1 is sent, another file is opened, a keyframe is sent and arrives, delta 1 arrives again; the replica at sequence number 1 then shows what the producer did not |
| Replication.ObserveExact | src/lib/proc_profile.c:46-48 | folding an activity leaves every continuation safe if and only if it evicts no entity a replica in step, or one made by a keyframe, may have |
| Replication.EvictionIff | src/lib/proc_profile.c:46-48 | a replica that shows the table shows the updated table after the entity's text if and only if nothing was evicted |
| RecipeTemplate.ValidateRefs | src/lib/recipe_parse.c:391-424 | the scanning loop accepts exactly the templates whose references are all well formed and declared |
| RecipeTemplate.ExpandTemplate | src/lib/recipe_engine.c:240-284 | the expansion loop, with its own splitting, concatenates the rendered pieces or gives the first failure |
| RecipeTemplate.TemplatesAgree | src/lib/recipe_engine.c:197-284 | an accepted template expands if and only if no reference is unbound or a connection; it never meets a lone dollar sign or an over-long name; its value is the concatenation of literals and rendered values |
| RecipeCheck.BindingTable.Declare | src/lib/recipe_parse.c:359-376 | declares a new name, unless it is taken or the table is full |
| RecipeCheck.BindingTable.CheckRefs | src/lib/recipe_parse.c:391-438 | checks the references of a step |
| RecipeCheck.BindingTable.CheckStep | src/lib/recipe_parse.c:543-910 | accepts exactly the well-formed steps and declares what they bind |
| RecipeCheck.BindingTable.CheckSteps | src/lib/recipe_parse.c:517-541 | accepts exactly the well-formed programs; the table then holds all declarations, those of branches included |
| RecipeCheck.StepsKeepTable | src/lib/recipe_parse.c:517-541 | the static table of an accepted program has distinct names and at most 64 entries |
| RecipeSound.RecipeSoundness | src/lib/recipe_engine.c:726-775 | for every accepted recipe and every backend the runtime table is a duplicate-free, type-correct part of the static one with at most 64 entries; no run stops for a full table, a wrong type, a lone dollar sign or an over-long name, and an unbound connection is one of a branch not taken |
| RecipeSound.HandlesConserved | src/lib/recipe_engine.c:749-775 | however a run ends, every handle was closed exactly as often as it was opened, and was used only while open |
| RecipeSound.BudgetsKept | src/lib/recipe_engine.c:139-161 | executed steps, kept bytes and handshakes stay within their budgets, for every backend; the run terminates |
| RecipeSound.StepsSound | src/lib/recipe_engine.c:726-747 | running steps keeps the soundness invariant, whatever the outcome |
| RecipeSound.TypedLookup | src/lib/recipe_engine.c:117-123 | a name that is bound is bound to its declared type |
| RecipeSound.ConnResolves | src/lib/recipe_engine.c:438-440 | a connection name that type-checks is bound to a held handle, or its declaration was skipped |
| RecipeSound.CloseAllBalances | src/lib/recipe_engine.c:764-770 | the final loop closes exactly the handles still held |
| RecipeRun.EvidenceExact | src/lib/recipe_engine.c:365-413 | evidence is built if and only if every value has a text and the whole object fits the buffer, and then it is that object |
| RecipePeel.EnumHonest | src/lib/recipe_engine.c:700-723 | for any backend, every reported cipher was negotiated in a handshake of this very step, with its server and with the protocol it is reported for |
| RecipePeel.PeelExact | src/lib/recipe_engine.c:704-719 | against a server that picks any accepted, not excluded cipher, peeling one protocol finds exactly the accepted ciphers, each once, with one handshake for each and one more, if and only if the budget allows these |
| RecipePeel.PeelAllExact | src/lib/recipe_engine.c:700-720 | the same for a list of protocols |
| RecipePeel.EnumExact | src/lib/recipe_engine.c:685-724 | the same for the whole step: the two bound lists and the handshakes spent |
| RecipeEngine.Engine.constructor | src/lib/recipe_engine.c:757-760 | a new engine is in the start state |
| RecipeEngine.Engine.LookUp | src/lib/recipe_engine.c:117-123 | the search loop finds the first binding of a name |
| RecipeEngine.Engine.Bind | src/lib/recipe_engine.c:125-135 | appends to the table, or reports that it is full |
| RecipeEngine.Engine.CountStep | src/lib/recipe_engine.c:139-151 | the step and time budgets |
| RecipeEngine.Engine.CountTls | src/lib/recipe_engine.c:154-161 | the handshake budget |
| RecipeEngine.Engine.Connect | src/lib/recipe_engine.c:417-436 | computes the state and outcome of the semantics |
| RecipeEngine.Engine.SendBytes | src/lib/recipe_engine.c:438-457 | computes the state and outcome of the semantics |
| RecipeEngine.Engine.Fill | src/lib/recipe_engine.c:475-494 | the reading loop, with its stop conditions |
| RecipeEngine.Engine.Receive | src/lib/recipe_engine.c:459-502 | computes the state and outcome of the semantics |
| RecipeEngine.Engine.CloseConn | src/lib/recipe_engine.c:504-510 | computes the state and outcome of the semantics |
| RecipeEngine.Engine.MatchList | src/lib/recipe_engine.c:515-528 | the first matching element is bound |
| RecipeEngine.Engine.Capture | src/lib/recipe_engine.c:555-573 | the capture loop binds the groups in order |
| RecipeEngine.Engine.MatchText | src/lib/recipe_engine.c:530-575 | computes the state and outcome of the semantics |
| RecipeEngine.Engine.BuildEvidence | src/lib/recipe_engine.c:365-413 | the loop over the fields in the fixed buffer |
| RecipeEngine.Engine.EmitFinding | src/lib/recipe_engine.c:577-591 | computes the state and outcome of the semantics |
| RecipeEngine.Engine.Upgrade | src/lib/recipe_engine.c:653-680 | computes the state and outcome of the semantics |
| RecipeEngine.Engine.PeelOne | src/lib/recipe_engine.c:702-719 | the peeling loop of one protocol; it terminates because each round takes a handshake |
| RecipeEngine.Engine.Enumerate | src/lib/recipe_engine.c:685-724 | computes the state and outcome of the semantics |
| RecipeEngine.Engine.Decide | src/lib/recipe_engine.c:593-646 | whether a branch is taken, for the five kinds of condition |
| RecipeEngine.Engine.RunSteps | src/lib/recipe_engine.c:726-747 | the step loop, through nested branches |
| RecipeEngine.Engine.CloseOpen | src/lib/recipe_engine.c:764-770 | closes the handles still open, in table order |
| RecipeEngine.Engine.Execute | src/lib/recipe_engine.c:749-775 | a whole run of the interpreter is the run of the semantics, so the theorems above hold of it |
| TypeScanner.TypeOfObject | src/lib/agent_proto.c:125-166 | on every text of a JSON object, whatever its white space, nesting and strings, the scanner returns the raw value of the first top-level member named `type` if that is a string, and fails otherwise |
| TypeScanner.ValueSkipped | src/lib/agent_proto.c:105-123 | skipping a value skips exactly one value, for every tree |
| TypeScanner.ValueNested | src/lib/agent_proto.c:109-119 | walking over any value leaves the bracket depth as it was |
| TypeScanner.SkipWsLoop | src/lib/agent_proto.c:79-82 | the loop over white space |
| TypeScanner.SkipStringLoop | src/lib/agent_proto.c:84-100 | the loop over a string with escapes |
| TypeScanner.SkipNestedLoop | src/lib/agent_proto.c:109-119 | the bracket-depth loop |
| TypeScanner.SkipValueLoop | src/lib/agent_proto.c:105-123 | one value |
| TypeScanner.ReadType | src/lib/agent_proto.c:125-166 | the whole scan, with the value cut to the caller's buffer |
| FrameCodec.EncodeFrame | src/agent/src/ipc_server.c:155-193 | writes exactly the encoding and nothing behind it, or -1 and no change when the buffer is too small |
| FrameCodec.ReaderInvertsEncoder | src/agent/src/ipc_server.c:234-332 | feeding any concatenation of encoded frames byte by byte yields exactly those frames in order and leaves nothing over |
| FrameCodec.OnlyEncodingsAccepted | src/agent/src/ipc_server.c:234-332 | conversely, all bytes accepted without an error are the encodings of the frames delivered and the beginning of another |
| FrameCodec.FrameReader.constructor | src/agent/src/ipc_server.c:199-203 | a new reader has received nothing |
| FrameCodec.FrameReader.FeedChannelLength | src/agent/src/ipc_server.c:239-255 | the first length and its limits |
| FrameCodec.FrameReader.FeedChannel | src/agent/src/ipc_server.c:258-265 | the channel name and its terminator, inside the buffer |
| FrameCodec.FrameReader.Reserve | src/agent/src/ipc_server.c:282-292 | the payload buffer grows when needed and has room for the terminator |
| FrameCodec.FrameReader.StartPayload | src/agent/src/ipc_server.c:277-312 | the payload length: an error, an empty payload delivered at once, or a payload to come |
| FrameCodec.FrameReader.FeedPayloadLength | src/agent/src/ipc_server.c:268-312 | the second length |
| FrameCodec.FrameReader.FeedPayload | src/agent/src/ipc_server.c:315-327 | the payload bytes and the terminator, inside the buffer |
| FrameCodec.FrameReader.Feed | src/agent/src/ipc_server.c:234-332 | each byte gives the verdict that the bytes of the frame call for; a delivered frame is in the buffers with both terminators; no write leaves its buffer in any reachable state |
| FrameCodec.FrameReader.FeedAll | src/agent/src/ipc_server.c:234-332 | a stream of bytes yields the frames of the whole stream |
| ReplayCache.ReplaysReported | src/lib/discovery.c:222-266 | over every run with a clock that does not go back, an accepted pair is reported as a replay at every later check before its expiry, as long as fewer than 256 evictions followed any eviction of its own |
| ReplayCache.ReplaysAccepted | src/lib/discovery.c:222-266 | a replay verdict is given only for a pair accepted earlier in the run that has not expired or is among the last 256 evictions |
| ReplayCache.VerdictExact | src/lib/discovery.c:222-266 | the verdict is a replay if and only if the pair was accepted, has not expired and was not evicted since, or is among the last 256 evictions |
| ReplayCache.StepKeeps | src/lib/discovery.c:222-266 | every check keeps the invariant: accepted pairs are expired, stored or evicted since |
| ReplayCache.RingExact | src/lib/discovery.c:202-220 | the ring holds a pair if and only if it is among the last 256 evictions |
| ReplayCache.InsertLoses | src/lib/discovery.c:240-264 | storing a pair loses only expired entries and the one recorded as evicted |
| ReplayCache.Table.constructor | src/lib/discovery.c:187-189 | an empty cache |
| ReplayCache.Table.Purge | src/lib/discovery.c:191-200 | compaction in place keeps exactly the unexpired entries, in order |
| ReplayCache.Table.RecordEviction | src/lib/discovery.c:202-209 | the ring's slot, head and count |
| ReplayCache.Table.SeenInEvicted | src/lib/discovery.c:211-220 | the scan of the ring |
| ReplayCache.Table.SeenLive | src/lib/discovery.c:228-234 | the scan of the unexpired entries |
| ReplayCache.Table.FindOldest | src/lib/discovery.c:253-258 | the first entry with the smallest expiry |
| ReplayCache.Table.Store | src/lib/discovery.c:240-264 | purging, appending or replacing the oldest |
| ReplayCache.Table.Check | src/lib/discovery.c:222-266 | the verdict, and the cache after a step of a run |
| FlowParse.WalkExtensions | src/agent/src/flow_tracker.c:227-243 | the bounded walk over extension headers |
| FlowBuild.Inet4Parsed | src/agent/src/flow_tracker.c:163-197 | parsing any IPv4 packet built from its fields, whatever its options and the fields not looked at, finds these fields |
| FlowBuild.Inet6Parsed | src/agent/src/flow_tracker.c:199-260 | parsing any IPv6 packet finds its fields through up to ten extension headers |
| FlowBuild.ChainWalked | src/agent/src/flow_tracker.c:227-243 | the walk passes over a chain of extension headers and stops at what it carries |
| FlowBuild.FrameParsed | src/agent/src/flow_tracker.c:262-289 | the frame around a packet does not matter, except for the VLAN number of its tag |
| FlowBuild.AnswerOnTheWire | src/agent/src/flow_tracker.c:300-338 | on the bytes of whole frames, an IPv4 packet with addresses and ports exchanged belongs to the same flow, in the other direction unless the endpoints are equal |
| FlowBuild.AnswerOnTheWire6 | src/agent/src/flow_tracker.c:199-338 | the same for IPv6 frames, each with its own chain of extension headers |
| FlowParse.KeySymmetric | src/agent/src/flow_tracker.c:300-338 | exchanging a packet's endpoints gives the same key and the opposite direction, unless the endpoints are equal |
| FlowParse.KeyExact | src/agent/src/flow_tracker.c:300-338 | two packets have the same key if and only if the track level does not tell them apart and their endpoints are the same in either order |
| FlowTable.PacketsConserved | src/agent/src/flow_tracker.c:408-496 | over every run, all packets = unparseable + dropped + lost to allocation + in live flows + in expired flows, and live flows have distinct keys |
| FlowTable.StepKeeps | src/agent/src/flow_tracker.c:408-496 | every operation keeps this |
| FlowTable.ExpireExact | src/agent/src/flow_tracker.c:465-496 | expiry removes only overdue flows, keeps all others unchanged, and leaves no overdue flow when it returns fewer than `max_out` |
| FlowTable.AnswerSameFlow | src/agent/src/flow_tracker.c:423-440 | an answer is counted in its request's flow, on the other side unless the endpoints are equal |
| FlowTable.AddressesKept | src/agent/src/flow_tracker.c:447-460 | every kept or expired flow has the addresses the exporter reads |
| FlowTable.Table.constructor | src/agent/src/flow_tracker.c:374-392 | an empty table with its limit |
| FlowTable.Table.ProcessPacket | src/agent/src/flow_tracker.c:408-463 | one frame: the state of the semantics, fully accounted for |
| FlowTable.Table.Tally | src/agent/src/flow_tracker.c:423-463 | the flow of a packet is updated or made, or the packet is dropped or lost |
| FlowTable.Table.ExpireFlows | src/agent/src/flow_tracker.c:465-496 | the expiring walk |
| NetFlowWire.SetsRead | src/agent/src/netflow_export.c:473-478 | sets written one after the other are read back one for one by their length fields |
| NetFlowWire.TemplateRead | src/agent/src/netflow_export.c:316-346 | a template is read back as it was written |
| NetFlowWire.RecordsRead | src/agent/src/netflow_export.c:348-382 | records are read back one for one by the template's lengths, whatever padding follows |
| NetFlowPacket.LengthsAgree | src/agent/src/netflow_export.c:255-300 | the record lengths of the packing loops are those the templates announce, for all four layouts |
| NetFlowPacket.ValuesMatch | src/agent/src/netflow_export.c:348-382 | every written value has the length its template announces |
| NetFlowPacket.ElementsInPlace | src/agent/src/netflow_export.c:255-382 | every record writer puts at each place the information element its template announces there, for all four layouts |
| NetFlowPacket.V9Means | src/agent/src/netflow_export.c:348-382 | a v9 collector computes ports, counters modulo 2^32 and uptimes |
| NetFlowPacket.IpfixCounters | src/agent/src/netflow_export.c:610-640 | an IPFIX collector computes the whole 64-bit counters |
| NetFlowPacket.IpfixTimes | src/agent/src/netflow_export.c:610-640 | and the times in milliseconds |
| NetFlowPacket.TemplateAnnounced | src/agent/src/netflow_export.c:593-608 | a template set tells a collector the layout of the records |
| NetFlowPacket.DataRead | src/agent/src/netflow_export.c:454-481 | the body of a data set is read back, for all four layouts and whatever its padding |
| NetFlowCollector.MessageTaken | src/agent/src/netflow_export.c:421-515 | a collector learns the templates a message starts with, and reads the records of a family if and only if it then knows its template |
| NetFlowCollector.StreamTaken | src/agent/src/netflow_export.c:421-522 | what a collector that hears the messages the socket took knows and understands after them, exactly |
| NetFlowCollector.UnderstoodIff | src/agent/src/netflow_export.c:421-522 | it understands all records of a family that it hears if and only if the template was known or comes in time |
| NetFlowCollector.InTimeIff | src/agent/src/netflow_export.c:425-451 | this depends on the first message with such records alone: the template is in that message or was heard before |
| NetFlowPacket.Packet.PutTemplate | src/agent/src/netflow_export.c:316-346 | a template set in the buffer |
| NetFlowPacket.Packet.PutRecords | src/agent/src/netflow_export.c:458-464 | as many records as fit, and no more |
| NetFlowPacket.Packet.PutData | src/agent/src/netflow_export.c:454-481 | a data set with the right length field, padded in v9, or nothing when no record fits |
| NetFlowExport.Select | src/agent/src/netflow_export.c:643-651 | the flows of each family in order, up to a limit |
| NetFlowExport.V9HeadRead | src/agent/src/netflow_export.c:302-314 | version, count, uptime, time, sequence and source are where a collector reads them |
| NetFlowExport.IpfixHeadRead | src/agent/src/netflow_export.c:710-716 | version, length, time, sequence and domain are where a collector reads them |
| NetFlowExport.PutDataV9 | src/agent/src/netflow_export.c:453-509 | at least one record goes into every message, and padding never leaves the buffer |
| NetFlowExport.BuildV9 | src/agent/src/netflow_export.c:421-515 | a whole v9 message within 1400 bytes, with the number of its sets in the header |
| NetFlowExport.PutDataIpfix | src/agent/src/netflow_export.c:671-708 | the IPv6 set header always fits where the IPv4 records can end |
| NetFlowExport.BuildIpfix | src/agent/src/netflow_export.c:656-716 | a whole IPFIX message within 1400 bytes, with its length in the header |
| NetFlowExport.Exporter.constructor | src/agent/src/netflow_export.c:734-750 | a new exporter has not sent templates, and any new collector has heard all it sent |
| NetFlowExport.Exporter.NeedTemplate | src/agent/src/netflow_export.c:384-397 | templates are due exactly at the start, after twenty packets, or after 300 seconds on the 32-bit clock |
| NetFlowExport.Exporter.StartMessage | src/agent/src/netflow_export.c:425-451 | how many templates a message starts with, and the template bookkeeping |
| NetFlowExport.Exporter.NextV9 | src/agent/src/netflow_export.c:421-522 | one message: exactly its sets, with the templates that are due, its header, the template timer, and the sequence number that advances only if the socket took it |
| NetFlowExport.Exporter.NextIpfix | src/agent/src/netflow_export.c:656-725 | one message: exactly its sets, with both templates if they are due; templates count as sent only if the socket took it |
| NetFlowExport.Exporter.ExportV9 | src/agent/src/netflow_export.c:399-526 | every message is well formed and within 1400 bytes; together they carry each IPv4 and IPv6 flow exactly once, in order per family, each message with the templates due; the loop terminates |
| NetFlowExport.Exporter.ExportIpfix | src/agent/src/netflow_export.c:642-729 | a collector that has heard everything since the exporter was new understands each of the first 960 flows exactly once, in order per family, or a beginning of each family when the socket fails |
| NetFlowExport.Inet6Iff | src/agent/src/netflow_export.c:425-451 | the IPv6 records of a v9 batch are understood if and only if there are none, the template is known from an earlier batch, or templates are due by the first message with such records |
| NetFlowExport.TwoBatches | src/agent/src/netflow_export.c:438-451 | a new v9 exporter with an IPv4 flow and, within 300 seconds, an IPv6 flow: the IPv6 record is not understood although every message arrives |
| PtrCache.RunKeeps | src/lib/ptr_cache.c:55-172 | in every interleaving the pending count is the number of pending entries, and every returned name is the resolver's answer for the address (empty on failure), as far as the buffers hold it |
| PtrCache.PickKeeps | src/lib/ptr_cache.c:68-71 | the branch for a count without an entry is never taken |
| PtrCache.EntriesStay | src/lib/ptr_cache.c:55-172 | entries never move, change their address, go back to pending or change their answer |
| PtrCache.ResolvedOnce | src/lib/ptr_cache.c:61-86 | in every interleaving an address reaches the resolver at most once as long as nobody asks for a longer address that is stored as this one |
| PtrCache.OnceIff | src/lib/ptr_cache.c:61-133 | an address reaches the resolver at most once in all runs, whatever the callers ask for, if and only if it does not have exactly 63 characters |
| PtrCache.LongAddressTwice | src/lib/ptr_cache.c:122-133 | every address of 64 or more characters can reach it twice, cut to the same 63 |
| PtrCache.Cache.FindIp | src/lib/ptr_cache.c:55-59 | the search loop |
| PtrCache.Cache.EnsureIp | src/lib/ptr_cache.c:122-133 | an entry is found or made, unless the table is full |
| PtrCache.Cache.LookupIp | src/lib/ptr_cache.c:135-147 | the name if resolved, else the address is scheduled |
| PtrCache.Cache.ScanPending | src/lib/ptr_cache.c:69-70 | the worker's scan |
| PtrCache.Cache.Store | src/lib/ptr_cache.c:79-81 | the worker stores an answer |
| BaselineSet.UnderTrans | src/lib/baseline_set.c:12-17 | lying under a path is transitive |
| BaselineSet.RolledFits | src/lib/baseline_set.c:89-96 | the rolled-up set never has more entries than the set: each kept directory absorbs one |
| BaselineSet.RolledUpExact | src/lib/baseline_set.c:79-98 | its members are exactly the directories with enough entries and the entries of the others, without empty paths |
| BaselineSet.RollupCovers | src/lib/baseline_set.c:79-98 | for every set and threshold, a path is covered afterwards if and only if it lies under a directory with enough entries or under an entry of another directory |
| BaselineSet.CoverageKeptIff | src/lib/baseline_set.c:71-98 | roll-up keeps all coverage if and only if every entry has a slash or at most one character, or lies in a directory with too few entries, or is itself a directory with enough |
| BaselineSet.RollupExact | src/lib/baseline_set.c:79-98 | under the same condition and no other, a path is covered afterwards exactly when it was covered before or lies under a directory with at least `threshold` entries |
| BaselineSet.UnanchoredLost | src/lib/baseline_set.c:71-77 | every entry outside the condition is itself no longer covered |
| BaselineSet.NameAloneLost | src/lib/baseline_set.c:71-77 | the smallest such input: a name alone at threshold 1 |
| BaselineSet.CoveredBy | src/lib/baseline_set.c:28-31 | the covering loop |
| BaselineSet.Baseline.Add | src/lib/baseline_set.c:19-26 | adds a path once, while there is room |
| BaselineSet.CountDirs | src/lib/baseline_set.c:81-88 | the directory table: distinct directories and their tallies |
| BaselineSet.Baseline.Rollup | src/lib/baseline_set.c:79-98 | the roll-up in place |
| Ulid.UlidOrder | src/lib/ulid.c:59-79 | string order is the order of time, then randomness |
| Ulid.DigitsOrdered | src/lib/ulid.c:59-64 | fixed-width base-32 strings sort as the numbers do |
| Ulid.NextGreater | src/lib/ulid.c:44-57 | under a clock that does not go back, the next identifier is greater if and only if the 80-bit counter does not wrap |
| Ulid.Increasing | src/lib/ulid.c:37-82 | all identifiers of a run increase while no counter wraps |
| Ulid.IncrementedValue | src/lib/ulid.c:31-35 | the byte-wise increment adds one modulo 2^80 |
| Ulid.ShiftDivides | src/lib/ulid.c:73-78 | the two-word shift with carry divides the 80-bit number by 32 |
| Ulid.Inc80 | src/lib/ulid.c:31-35 | the increment loop |
| Ulid.WriteTime | src/lib/ulid.c:59-64 | the ten time digits |
| Ulid.WriteRandom | src/lib/ulid.c:66-79 | the shifting loop writes exactly the sixteen base-32 digits of the 80-bit value |
| Ulid.Generator.New | src/lib/ulid.c:37-82 | one call: the next state and its encoding, or failure and no change |

## Left out

- Sockets, TLS handshakes, packet capture, files and environment: foreign calls; where an engine uses them they are oracles.
- Ed25519, SHA-256, base64 and the matching of POSIX regular expressions: unknown functions.
- The recipe file's JSON parser and the elaboration of its objects into steps: recipes start as steps; the recipe checker and all theorems are about any steps.
- Memory allocation of the recipe arenas always succeeds; the frame reader and the flow table keep allocation failure as an outcome.
- Error message texts: a failure is a reason from a fixed list.
- Rates and the subject of a profile beyond what a keyframe writes, and the `present` flag, which is always set.
- ProfileTable.Table.UpsertObject: does not model the bytes a failed extraction leaves in an entity's buffer; all frames a producer sends extract.
- JsonExtract.ExtractIntAgrees: a numeral beyond 2^63-1 in absolute value overflows the accumulator, which C leaves undefined; the model reports `Overflow` and says no more.
- ProfileTable.Table.ApplyJson: a failed extraction of the epoch is read as the empty string, while the code compares or copies a buffer it did not initialise; all frames a producer sends have an epoch.
- JsonWriter.Writer.KeyDouble: the printed form of a double is given.
- JsonWriter.Writer.ArrayDouble: the printed form of a double is given.
- Replication.ReplicationSafe: keyframes and evictions under the exact conditions of `KeyframeExact` and `ObserveExact`; keyframes whose entities are found (`KeyframeReadable`, for which `ClearReadable` is enough); the streaming start comes before any other frame; entities fit their buffers and the sequence number stays below 2^63.
- Replication.ObserveExact: after the first delta it is about a replica that is in step; a replica that a lost delta keeps behind is never brought to the disturbed view.
- ActivityRecord.RoundTrip: for records whose arrays are reached, which is decided exactly by `JsonArrays.ArrayReachedIff`; a record outside it can still come back by coincidence, such as one without ancestors.
- RecipePeel.EnumExact: with room in the lists, the exclusion buffer and the binding table; cipher names are non-empty, shorter than 64 characters and without a colon.
- FrameCodec.EncodeFrame: does not model the conversion of the total to a signed integer above 2 GiB.
- NetFlow v5: fixed-size records in fixed-size batches; it would only add easy members.
- NetFlowCollector.UnderstoodIff: loss and reordering after the socket took a message; a collector hears what the socket took, in order.
- The meaning RFC 3954 gives to the v9 header count and RFC 7011 to sequence numbers within a batch: the code counts sets and advances once per batch.
- FlowTable.PacketsConserved: 64-bit counters do not wrap; the order of the search tree is an unknown function.
- ReplayCache.ReplaysReported: keys and nonces are compared as wholes; their fixed sizes do not matter.
- PtrCache.RunKeeps: deadlines of waits are a free choice to time out at any wake-up; freeing the cache is the shutdown flag and the worker's exit.
- Ulid.Generator.New: the clock and the random bytes are arguments; the or of the carry into the low word is an addition, since the shifted word has those bits clear.
- Baseline files on disk, process attribution, host and observation tables, policies, honeypots and the command-line tools.
