# Verification of the Matter controller

This project models, in Dafny, the parts of the controller where a mistake stays silent
longest, and proves what they promise. `dafny verify dfyconfig.toml` checks all of it. Lemmas
with a proof turn automatic induction off: what is proved is proved by the steps written. Where
results speak through a definition - a comparison of names, a key, a deadline, a table - a result
of its own says in other terms what that definition means.

## What is modelled

**The codec** (`Json`, `Decimal`, `Ascii`, `Base64`, `Base64Standard`, `Idl`, `BaseTypes`,
`Tlv`, `TlvDecode`, `TlvEncode`, `TlvWriter`, `TlvFraming`, and the theorems in `CodecLaws`,
`Spelling`, `ReadById`, `ReadByName`, `RoundTrip`, `Canonical`, `Rewriting`, `NamedDecode`,
`AttributePath`, with `Instances` for concrete inputs). TLV is a tree on the reading side and a
sequence of writer calls on the writing side. The generated field tables are an input: ids and
names (ignoring case) are distinct, no name reads as a field id, no struct is called like a
base type. The decoders and writers are methods with the loops of the code; each is proved
equal to a function, and the round trips are theorems about those functions.

**Report reassembly** (`Reports`, `Chunking`, `Reassembly`). `AttrAccumulator` and
`PendingReports` are classes. Chunking is transparent, and per-node reassembly holds for every
interleaving.

**The subscription lifecycle** (`StackContext`, `RequestLoop`, `Supervision`, `Deliveries`,
`NoOverlap`, `Leftovers`, `Priming`, `LastHeard`, `EventDedup`, `Liveness`, `WatchRuns`). On
the single stack thread everything between two awaits is one atomic step. `StackCtx` and
`Runtime` are classes whose methods are those steps; `Supervision` is the machine whose runs
interleave them, and `Runtime.Execute` performs any of its runs. Dropping a task only marks it:
its guard is released by a later step. A subscribe attempt succeeds or fails as it may.
`NoOverlap` is about the runs in which a task is destroyed before its successor first runs, and
gives two runs with overlap in which its conclusions fail; `LastHeard` does the same for the
liveness entries, and `WatchRuns` puts them together with the watchdog. `Leftovers` says when
an unfinished report outlives its subscription.

**Availability and the cache** (`Registry.dfy`, `NodeManager.dfy`, `Availability`,
`Broadcasts`, `BroadcastRuns`, `EndToEnd`). The consumer of stack events with its grace timers,
for any expiry signals. `Broadcasts` is about what clients make of the messages: command
handlers run beside the consumer, so there each operation on the registry and each send is a
step of its own. `EndToEnd` joins the consumer to the protocol.

**Log replay** (`WalReplay`, `WalOps`, `WalLaws`, `WalFiles`). The reader of a matter.js store,
from parsed lines.

**Configuration** (`Config`, `ConfigLock`, `AtomicWrite`). Allocation and commissioning as
methods; the lock and the writing through temporary files as machines whose every interleaving
is covered.

**Migration planning and the serial test** (`Migration`, `Serial`).

## What turned out otherwise

- The contract for stopping a supervisor (crates/stack/src/ctx.rs:78-82) and the function that
  carries it out (crates/stack/src/runtime.rs:505-507) hold that clearing the caches keeps a
  half-sent report from sitting forever. The dropped task's guard still matches until the
  executor destroys the task: a first chunk that comes in between is kept, until the node is
  started or stopped again (`StoppedNodeLeaks`; `StoppedNodeKeepsAReport` and `OutlivesExactly`
  say exactly when).
- The registry holds that its availability and the event stream can never disagree
  (crates/controller/src/registry.rs:1-3). A handler that has read the node can send after
  another has changed it and told so (`InterviewTellsThePast`, `RemovedNodeComesBack`);
  `ClientsMirrorTheRegistry` has the exact condition.
- Lists of epochs do not round trip: the writer shifts every element, the readers shift
  scalars only (`TypedRoundTrip` and `AttributeRoundTrip` say exactly when; `ListedEpochIsLost`
  is an instance). An attribute with an epoch below its top does not round trip either.
- An appended list element of an epoch type is shifted when it comes alone and not when the
  list comes whole, so chunking of such a list is not transparent; `ChunkingIsTransparent` has
  the exact condition, `ChunkedEpochIsShifted` an instance. No attribute and no field of the
  IDL that comes with the repository is a list of an epoch type, so these two failures about
  lists need another table.
- A decoded payload that mixes known and unknown fields in a nested struct cannot be written
  back (`RespelledEncoding`, with `MixedStructIsRefused` as an instance).
- The comment on `disown` (crates/stack/src/supervisor.rs:313-318) holds that an entry cannot
  have been replaced by another establishment. In this model it can, while a displaced task
  awaits its destruction; whether it does depends on how long the executor puts that off. So
  the comparison is needed (`OverlapNeedsTheComparison`).
- The comment on segment names promises that `.gz` wins whatever the order
  (crates/migrate/src/jsdb.rs:250); so it does against a plain twin, but two packed names that
  differ only in case, or two plain ones without a packed file, are told apart by the order
  alone (`CaseTwinsMatter`; `ListingIgnoresOrder` has the exact condition).

## Model

| member | source | states |
|---|---|---|
| `TlvDecode.TlvToJsonAt` | crates/stack/src/tlv_json.rs:121-159 | the recursive decoder with its loops computes exactly the specification `Decode`, depth cap and failures included |
| `TlvDecode.TlvToJsonNamedAt` | crates/stack/src/tlv_json.rs:193-219 | the decoder by name computes exactly `DecodeNamed` |
| `TlvDecode.NamedFieldToJson` | crates/stack/src/tlv_json.rs:221-240 | a known field: text first, struct types through one list level, epochs shifted |
| `CodecLaws.MembersRead` | crates/stack/src/tlv_json.rs:143-152 | a struct is read exactly when each member under a context tag is; other members are passed over, whatever they are |
| `CodecLaws.LastMemberRead` | crates/stack/src/tlv_json.rs:143-152 | its keys are the tags in usual decimal form, and of members under one tag the last counts |
| `CodecLaws.NoOtherKeys` | crates/stack/src/tlv_json.rs:143-152 | ... and there are no other keys |
| `CodecLaws.NamedMembersRead` | crates/stack/src/tlv_json.rs:205-217 | by name a struct is read exactly when each member under a context tag is, as the field its tag names |
| `CodecLaws.EpochsRead` | crates/stack/src/tlv_json.rs:242-254 | a number in an epoch slot is moved by the 946684800 seconds before 2000, or refused when that does not fit 64 bits; everything else is read as it is |
| `TlvWriter.WriteJson` | crates/stack/src/tlv_json.rs:259-275 | on success the writer has appended exactly the calls that emit the tree `Encode(v, hint)`; it succeeds exactly when that tree exists |
| `TlvWriter.EmitStruct` | crates/stack/src/tlv_json.rs:289-311 | collects members by tag and emits them in tag order; two keys with one tag or a key with none make it fail |
| `TlvWriter.CollectByTag` | crates/stack/src/tlv_json.rs:293-303 | the ordered map holds exactly the payload's entries under their tags, and exists exactly when every key names a tag of its own |
| `TlvWriter.WriteHinted` | crates/stack/src/tlv_json.rs:313-327 | dispatch on base type, struct type or shape emits the typed tree |
| `TlvWriter.WriteBase` | crates/stack/src/tlv_json.rs:329-357 | width checks, epoch shifts and base64 of the base types |
| `TlvWriter.WriteHeuristic` | crates/stack/src/tlv_json.rs:371-391 | a value without a usable hint is written by its JSON shape |
| `CodecLaws.TypedLeaves` | crates/stack/src/tlv_json.rs:329-357 | a value of a base type is written as an element of that type, times moved back, octets as the bytes whose base64 they are |
| `CodecLaws.UntypedShapes` | crates/stack/src/tlv_json.rs:371-391 | a value without a type by its shape: numbers unsigned unless negative, lists as arrays, objects as structs |
| `CodecLaws.TypedShapes` | crates/stack/src/tlv_json.rs:259-327 | a list as an array of as many elements, a value of a struct type as a struct |
| `TlvFraming.ReadTokens` | crates/stack/src/tlv_json.rs:289-391 | the writer's calls for an element, whatever follows them, parse back to that element and leave the rest |
| `Base64.DecodeEncode` | crates/stack/src/tlv_json.rs:137-137 | decoding inverts encoding (section 4 of RFC 4648) on every byte string |
| `Base64.EncodeDecode` | crates/stack/src/tlv_json.rs:345-347 | text that decodes at all is the encoding of what it decodes to: padding and fill bits are checked |
| `Base64Standard.EncodingIsStandard` | crates/stack/src/tlv_json.rs:137-137 | the encoding is the one section 4 of RFC 4648 describes: three bytes make four symbols of its alphabet, what is left is filled with zero bits and padded |
| `Decimal.ParseShow` | crates/stack/src/tlv_json.rs:393-404 | every field id prints to a key that parses to it |
| `Idl.LookupsAgree` | crates/stack/src/tlv_json.rs:193-219 | in a well-formed table the lookup by id and the lookup by name in any case find the same field |
| `Ascii.IgnoringCaseIs` | crates/stack/src/tlv_json.rs:91-93 | two names are the same exactly when they agree letter by letter, or one letter is a capital and the other its small letter, 32 codes above |
| `Idl.FoundInAnyCase` | crates/stack/src/tlv_json.rs:277-287 | a well-formed table finds a field by name under exactly the spellings of its name that differ in the case of letters |
| `TlvEncode.KeysOfNames` | crates/stack/src/tlv_json.rs:277-287 | by name a key names the tag and type of the field spelled like it, unless its id is above 255; a key like no name names nothing |
| `TlvEncode.KeysOfIds` | crates/stack/src/tlv_json.rs:393-404 | by id a key names the tag it is the number of, with the type of the field that has it |
| `Idl.CapitalsAreBaseTypes` | crates/stack/src/tlv_json.rs:82-93 | spellings that differ in case only are the same base type |
| `BaseTypes.FiveInCapitals` | crates/stack/src/tlv_json.rs:82-93 | the five names the IDL spells in capitals are the base types meant |
| `BaseTypes.IntegerTypes` | crates/stack/src/tlv_json.rs:51-82 | `int8u` to `int64s`, in any letters, are the integers of the bytes and sign their names say |
| `BaseTypes.SmallTypes` | crates/stack/src/tlv_json.rs:51-82 | the derived types of one and two bytes, name by name; `FourByteTypes`, `EightByteTypes`, `SignedTypes` and `PlainTypes` have the others |
| `BaseTypes.EntryInAnyCase` | crates/stack/src/tlv_json.rs:82-93 | every entry of the table is found under any spelling of its name: no two entries are one name |
| `BaseTypes.NoOthers` | crates/stack/src/tlv_json.rs:82-93 | nothing that is not spelled like an entry is a base type |
| `RoundTrip.BaseFits` | crates/stack/src/tlv_json.rs:329-357 | a base-typed value is accepted exactly when it fits the declared width, range or alphabet, stated with powers of 256 and the image of base64 |
| `RoundTrip.WriterTakesWhatFits` | crates/stack/src/tlv_json.rs:259-357 | a payload is accepted exactly when every key names its own slot and every value fits, at every depth |
| `RoundTrip.UntypedRoundTrip` | crates/stack/src/tlv_json.rs:121-159 | writing without a hint and reading back is the identity for exactly the values keyed by canonical decimals up to 255 and nested no deeper than 32 levels |
| `Instances.LeavesRead` | crates/stack/src/tlv_json.rs:121-159 | what each leaf of TLV is in JSON, at any depth down to 32 and no deeper |
| `RoundTrip.TypedRoundTrip` | crates/stack/src/tlv_json.rs:189-254 | every name-keyed payload that fits its table is written; it comes back exactly when the reader gets to the bottom of it, as every payload nested within the cap does (text and an empty list of structs may sit one level below the cap); and it comes back in the table's spelling exactly when it holds no list of epochs |
| `RoundTrip.TypedRoundTripSpelled` | crates/stack/src/tlv_json.rs:277-357 | ... and comes back unchanged exactly when, besides, its keys already are in the table's spelling |
| `RoundTrip.TypedRoundTripOnTheWire` | crates/stack/src/tlv_json.rs:277-446 | the same through the emitted calls: they parse back to one element, which decodes by name to the payload under the same condition |
| `RoundTrip.RespellIsIdentity` | crates/stack/src/tlv_json.rs:359-404 | the spelling a payload comes back in is its own exactly when every key is the table's |
| `ReadById.DecodeUntyped` | crates/stack/src/tlv_json.rs:121-159 | what the reader makes of an untyped encoding from any starting depth: the respelled value, or an error exactly when it nests too deep |
| `Canonical.EncodingAscends` | crates/stack/src/tlv_json.rs:289-311 | members of an encoding strictly ascend by tag at every level |
| `Canonical.SameEncoding` | crates/stack/src/tlv_json.rs:277-311 | two payloads encode alike exactly when they are the same payload up to the spelling of keys: name or id, any case, any key order |
| `Canonical.SameStructEncoding` | crates/stack/src/tlv_json.rs:359-369 | the same across the two keyings of one table: by name and by field id with hints |
| `Rewriting.RespelledEncoding` | crates/stack/src/tlv_json.rs:359-404 | writing a decoded payload again gives the same encoding exactly when no nested struct mixes known and unknown fields |
| `NamedDecode.NamedRefines` | crates/stack/src/tlv_json.rs:193-254 | when both decoders succeed the named result is the tag result with known keys renamed and scalar epochs shifted, no member lost or added |
| `AttributePath.AttributeRoundTrip` | crates/stack/src/tlv_json.rs:161-187 | an attribute written with its type reads back as it was, keyed by id, exactly when it nests within the depth limit and is a base-typed scalar (epochs included) or holds no epoch anywhere: a nested epoch is written shifted and read unshifted |
| `Instances.ListedEpochIsLost` | crates/stack/src/tlv_json.rs:242-254 | a concrete list of epochs that does not come back |
| `Instances.MixedStructIsRefused` | crates/stack/src/tlv_json.rs:359-369 | a concrete payload with a known and an unknown member in a nested struct that is written, read back, and cannot be written again |
| `Reports.AttrAccumulator.Absorb` | crates/stack/src/reports.rs:84-137 | the loop over a chunk's reports changes the pairs as `ApplyAll` of their changes does; from nothing its keys are exactly those that read as the paths of the reports that convert; the skipped reports are counted, statuses are not; `index` stays exact |
| `Reports.KeyReadsBack` | crates/stack/src/reports.rs:126-126 | a key is a path's exactly when it is three ids in usual decimal form, endpoint, cluster and attribute in that order, divided by the only two slashes in it |
| `Reports.ReportLands` | crates/stack/src/reports.rs:84-231 | what one report leaves under the key that reads as its path, by its list index: the value, the value at the end of the array, or at the index named with nulls in the gap; every other key keeps what it had |
| `Instances.LightKey` | crates/stack/src/reports.rs:126-126 | the key of endpoint 1, cluster 6, attribute 0 is 1/6/0 |
| `Reports.AttrAccumulator.Put` | crates/stack/src/reports.rs:142-154 | a whole value replaces in place or is appended last |
| `Reports.AttrAccumulator.AppendElement` | crates/stack/src/reports.rs:163-196 | one list element goes to the end of its array, restarts a value that is no array, or opens a new one |
| `Reports.AttrAccumulator.SetElement` | crates/stack/src/reports.rs:202-231 | one element by index, padding a gap with null |
| `Reports.AttrAccumulator.IndexFinds` | crates/stack/src/reports.rs:74-81 | in every valid state `index` maps exactly the keys of `out`, each to its position |
| `Reports.AttrAccumulator.KeysAreDistinct` | crates/stack/src/reports.rs:74-81 | no key stands twice in `out` |
| `Chunking.PathByPath` | crates/stack/src/reports.rs:84-231 | what a run of changes leaves at a path depends on that path's changes only, and keys keep the order of first appearance |
| `Chunking.PathKeyInjective` | crates/stack/src/reports.rs:126-126 | distinct endpoint, cluster and attribute ids give distinct keys |
| `Chunking.ChunkingIsTransparent` | crates/stack/src/reports.rs:84-231 | a list sent as an opening prefix and one append per further element, over any messages and among any other reports, gives the same pairs in the same order as the list sent whole, exactly when no appended element is an unsigned integer of an epoch type |
| `Instances.ChunkedEpochIsShifted` | crates/stack/src/reports.rs:84-196 | a concrete list of an epoch type that ends up shifted when sent in chunks and unshifted when sent whole |
| `Reassembly.PendingReports.AbsorbMessage` | crates/stack/src/reports.rs:273-290 | takes the node's accumulator or a new one, absorbs, and keeps it or, unless the message says that more follow, releases its pairs; other nodes' accumulators are untouched |
| `Reassembly.PendingReports.Forget` | crates/stack/src/reports.rs:292-294 | drops the node's unfinished report and nothing else |
| `Reassembly.ReassemblyPerNode` | crates/stack/src/reports.rs:268-295 | over any interleaving, what is pending or released for a node is the accumulation of exactly its own reports since its last release or forget |
| `Reassembly.NodesAreIndependent` | crates/stack/src/reports.rs:255-267 | what is released for a node is the same with every other node's messages left out |
| `StackContext.StackCtx.NoteEvent` | crates/stack/src/ctx.rs:137-145 | the dedupe decision and the new mark |
| `StackContext.StackCtx.HandleReport` | crates/stack/src/reports.rs:341-391 | a report is accepted exactly when it came on our fabric and names the id the table holds for its node; an unaccepted one changes nothing, an accepted one stamps liveness, reassembles, sends changes if any, then forwards the new events in order |
| `StackContext.StackCtx.ClearNode` | crates/stack/src/supervisor.rs:137-140 | mark and unfinished report of the node are gone, everything else stays |
| `StackContext.StackCtx.DropGuard` | crates/stack/src/supervisor.rs:270-275 | the guard's drop: compare-then-remove, and the liveness entry goes |
| `StackContext.StackCtx.Established` | crates/stack/src/supervisor.rs:201-223 | entry, liveness stamp, then `Connected` and the snapshot, adjacent |
| `RequestLoop.Runtime.Run` | crates/stack/src/runtime.rs:392-455 | requests are read in order until a shutdown; the state is theirs applied one by one, and each handle always stands for a task of its node that may run |
| `RequestLoop.Runtime.PrimeChunk` | crates/stack/src/supervisor.rs:179-193 | a chunk of the priming report adds to what the attempt accumulated and seeds the event mark, and forwards nothing |
| `RequestLoop.Runtime.Poll` | crates/stack/src/supervisor.rs:78-93 | a look at a silent subscription drops the guard, announces the loss and begins the next attempt, in that order; any other look only counts |
| `RequestLoop.Runtime.Execute` | crates/stack/src/supervisor.rs:60-108 | any run of the protocol, performed on the class step by step, leaves exactly the state the machine reaches, so what is proved of its runs holds of the class |
| `Supervision.ReachableInv` | crates/stack/src/supervisor.rs:202-204 | in every reachable state, deferred destruction included, each subscription entry is held by the guard of a task not yet destroyed, and the handles are those of the tasks that may run |
| `Supervision.StoppedNodeIsDisowned` | crates/stack/src/reports.rs:358-370 | once no task of a node is left, each of its reports is refused and changes nothing |
| `Deliveries.ReportCounts` | crates/stack/src/reports.rs:358-370 | a delivery changes the state exactly when it came on our fabric and names the id the table holds for its node: stragglers of a superseded subscription, other fabrics and reports without id change nothing |
| `Deliveries.CountedIsGuarded` | crates/stack/src/reports.rs:358-370 | in every reachable state a report that changes anything names an id that the guard of an undestroyed task of its node holds |
| `Deliveries.GuardedCounts` | crates/stack/src/reports.rs:358-370 | ... and without overlap exactly those reports do |
| `Deliveries.StepsAnnounce` | crates/stack/src/supervisor.rs:60-223 | what each step announces: an established subscription, then its state; each failed attempt and each subscription given up as a loss; of a report its changes first and then one event for each new number; no other step anything |
| `NoOverlap.WithoutOverlap` | crates/stack/src/supervisor.rs:60-223 | in runs where a task is destroyed before its successor begins: released batches hold messages of one subscription only, an unfinished report holds messages of the node's last subscription only, and every change or event follows an adjacent `Connected` and snapshot with no `Reconnecting` between |
| `NoOverlap.AttemptsAreNumbered` | crates/stack/src/supervisor.rs:133-140 | attempts to establish are told apart in the history those statements speak of |
| `Leftovers.OutlivesExactly` | crates/stack/src/ctx.rs:72-82 | without overlap an unfinished report outlives its subscription exactly when a message with more to follow was accepted, the task that held the subscription was destroyed after it, and no final message, attempt or stop of the node came since |
| `Leftovers.StoppedNodeKeepsAReport` | crates/stack/src/runtime.rs:486-509 | while the request loop reads, a node without handle and subscription still has an unfinished report exactly when such a message was accepted between a stop and the destruction of its task |
| `Leftovers.StoppedNodeLeaks` | crates/stack/src/ctx.rs:81-82 | a run without overlap at whose end every task is destroyed and a stopped node still has an unfinished report |
| `NoOverlap.OverlapMixesABatch` | crates/stack/src/runtime.rs:374-390 | a run with overlap that releases a batch accepted under two subscriptions |
| `NoOverlap.OverlapSendsAfterLoss` | crates/stack/src/runtime.rs:374-390 | a run with overlap that forwards an event after the node was announced as lost |
| `NoOverlap.OverlapNeedsTheComparison` | crates/stack/src/supervisor.rs:311-324 | a run in which an old guard is destroyed while the entry is a newer subscription's |
| `Priming.AttemptsAccumulate` | crates/stack/src/supervisor.rs:176-199 | in every reachable state an attempt has accumulated exactly the chunks primed in it |
| `Priming.SnapshotIsPriming` | crates/stack/src/supervisor.rs:201-223 | establishing announces the node and then exactly what this attempt's chunks add up to, whatever came between |
| `Priming.SnapshotHolds` | crates/stack/src/supervisor.rs:211-211 | the snapshot holds each accumulated path with its value and nothing else |
| `LastHeard.EntryIsLastHeard` | crates/stack/src/supervisor.rs:203-203 | without overlap each subscribed node has a liveness entry: the time of its last accepted report, or of its establishment |
| `LastHeard.OverlapTakesTheEntry` | crates/stack/src/supervisor.rs:292-304 | a run with overlap in which the old guard's drop removes the new subscription's entry |
| `EventDedup.ForwardedExactly` | crates/stack/src/ctx.rs:128-145 | over every run a reported event is forwarded exactly when it is above every number seen since the mark was cleared, primed or reported; the first counts even when it is 0 |
| `EventDedup.FreshIncreases` | crates/stack/src/ctx.rs:128-145 | between two clearings the forwarded numbers strictly increase |
| `EventDedup.MarksPerNode` | crates/stack/src/ctx.rs:128-145 | other nodes make no difference |
| `EventDedup.EventsOfARun` | crates/stack/src/reports.rs:386-391 | the same of the events sent in every reachable state of the whole protocol, overlap or not |
| `Liveness.WatchLiveness` | crates/stack/src/supervisor.rs:278-330 | it looks every five seconds and ends at the first look that finds the node silent for the seconds it was granted and 15 more |
| `Liveness.WatchTiming` | crates/stack/src/supervisor.rs:278-330 | it ends less than five seconds after the seconds granted and 15 more have passed in silence, and only after the last report when no silence is longer than that |
| `WatchRuns.WatchEnds` | crates/stack/src/supervisor.rs:278-330 | in every run without overlap on an ideal clock, the poll of a watching task begins a new attempt exactly when its node was last heard of as long ago as the seconds granted and 15 more, and comes less than five seconds after that |
| `Liveness.ReportsKeepItAlive` | crates/stack/src/supervisor.rs:297-330 | a device heard of at least as often as granted, however often up to 15 seconds late, is never found silent |
| `Liveness.Delays` | crates/stack/src/supervisor.rs:60-108 | the delay after each failed attempt is 2, 5, 10, 30 or from then on 60 seconds by the number of failures in a row before it |
| `WalReplay.JsDb.ApplyOp` | crates/migrate/src/jsdb.rs:370-424 | applies exactly the op the value stands for, or refuses it and changes nothing; a deletion without fields takes exactly the contexts whose dotted names begin with the components of its key, and all under the empty key |
| `WalReplay.SubtreeDelete` | crates/migrate/src/jsdb.rs:408-417 | which contexts a subtree delete takes, by the components of their names; the others keep their fields |
| `WalOps.PeerTenStays` | crates/migrate/src/jsdb.rs:408-417 | deleting nodes.peer1 leaves nodes.peer10 |
| `WalOps.OpsThatAreRead` | crates/migrate/src/jsdb.rs:370-424 | which JSON values are read as ops, exactly |
| `WalOps.UpdateWrites` | crates/migrate/src/jsdb.rs:386-396 | an update writes its values over its context's fields and touches no other |
| `WalOps.NamedDelete` | crates/migrate/src/jsdb.rs:397-407 | a deletion with names removes those fields and nothing else |
| `WalOps.CommitForms` | crates/migrate/src/jsdb.rs:330-367 | a commit is a list of ops or an object with one under `ops`, and nothing else is |
| `WalOps.LaterExactly` | crates/migrate/src/jsdb.rs:294-327 | after a snapshot there remain the commits of later segments and those of its own segment with a higher offset |
| `WalReplay.JsDb.ApplyLine` | crates/migrate/src/jsdb.rs:330-367 | applies the ops of a commit in either form, or fails on the first bad one |
| `WalReplay.JsDb.ReplaySegment` | crates/migrate/src/jsdb.rs:294-327 | applies the lines above the snapshot's id, blank lines counted but skipped |
| `WalReplay.JsDb.ReplayWal` | crates/migrate/src/jsdb.rs:273-291 | the segment skip and the line skip together apply exactly the commits lexicographically above the snapshot's id, and only files that are not skipped have to be readable |
| `WalLaws.LastWriterWins` | crates/migrate/src/jsdb.rs:363-424 | the final value of every field, and whether a context exists, is what the last op that writes it wrote; a subtree delete writes the context and those whose dotted names begin with its components only |
| `WalLaws.ReplayTwice` | crates/migrate/src/jsdb.rs:363-424 | replaying any log twice equals replaying it once |
| `WalLaws.CommitsAscend` | crates/migrate/src/jsdb.rs:67-71 | the commits of a log strictly ascend lexicographically |
| `WalLaws.SnapshotIndependence` | crates/migrate/src/jsdb.rs:273-327 | a snapshot that is the replay of the commits up to any id yields the replay of the whole log from nothing, errors included |
| `WalLaws.RestartFromEarlier` | crates/migrate/src/jsdb.rs:273-327 | so does restarting from an earlier id than the snapshot holds |
| `WalFiles.ListWalSegments` | crates/migrate/src/jsdb.rs:227-259 | the directory loop computes the listing |
| `WalFiles.ListedStandsFor` | crates/migrate/src/jsdb.rs:225-259 | each segment with a file is listed under its packed file, or its plain one when it has no packed one |
| `WalFiles.ListingIgnoresOrder` | crates/migrate/src/jsdb.rs:225-269 | the listing is the same for every order of the directory exactly when at most one name can stand for each segment: no two packed files, and no two plain ones without a packed one |
| `WalFiles.DistinctNamesAreEnough` | crates/migrate/src/jsdb.rs:225-269 | ... so whenever no two names differ only in case |
| `WalFiles.CaseTwinsMatter` | crates/migrate/src/jsdb.rs:250-256 | two plain files whose names differ in case: the listing depends on their order |
| `WalFiles.OneNameEach` | crates/migrate/src/jsdb.rs:261-270 | a segment has one plain and one packed name, up to case |
| `WalFiles.NamesOfSegment` | crates/migrate/src/jsdb.rs:261-270 | a file is segment n exactly when its name is, in any letters, the eight digits of n in base sixteen and one of the two endings; the ending says whether it is packed |
| `WalFiles.OpenNamespace` | crates/migrate/src/jsdb.rs:139-160 | opening lists, orders and replays; it fails exactly when a file that has to be read cannot be or a line that has to be applied is bad |
| `WalFiles.StoreIsItsLog` | crates/migrate/src/jsdb.rs:139-160 | a store opened with a snapshot that is the log up to its id is the replay of its whole log from nothing |
| `NodeManagement.NodeManager.HandleEvent` | crates/controller/src/node_manager.rs:92-170 | the whole new state for each event: registry, timers, history and what is broadcast |
| `NodeManagement.NodeManager.HandleGraceExpiry` | crates/controller/src/node_manager.rs:77-90 | a signal without a timer entry changes nothing |
| `Availability.AvailabilityInvariant` | crates/controller/src/node_manager.rs:104-126 | over any run, nodes added, interviewed and removed and stale signals included: an available node last handled as lost has a timer, and a timer means last handled as lost |
| `Availability.AvailabilityChanges` | crates/controller/src/node_manager.rs:77-126 | an expiry makes a node unavailable only if it was last handled as lost, never after `Connected`; what else changes availability |
| `Availability.OneUpdateForEachChange` | crates/controller/src/node_manager.rs:77-126 | each change sends exactly one `node_updated` with the new value |
| `Broadcasts.ClientsMirrorTheRegistry` | crates/controller/src/registry.rs:1-3 | with every lock of the registry and every send a step of its own and handlers interleaving as they may: whenever nobody is between a change of a node and telling of it, a client that applies the broadcasts in order holds exactly the registry's availability and attributes of the node if and only if, for each of them, the last message that spoke of it was true when sent |
| `Broadcasts.UndisturbedMirror` | crates/controller/src/node_manager.rs:186-199 | ... which is so in every run in which no step writes to the node while another actor holds something it has read or done and not yet told |
| `BroadcastRuns.UninterruptedIsAtomic` | crates/controller/src/node_manager.rs:92-170 | an operation nobody interrupts does to the registry and the broadcasts what the handlers are proved to do |
| `BroadcastRuns.InterviewTellsThePast` | crates/controller/src/commands/nodes.rs:54-65 | a run in which an interview sends an older picture of the node after a newer change was told: clients keep the old value |
| `BroadcastRuns.RemovedNodeComesBack` | crates/controller/src/node_manager.rs:192-199 | a run in which a node is removed between the consumer's read and its send: clients get it back |
| `Availability.HistoryIsTheNewest` | crates/controller/src/node_manager.rs:162-166 | the history is the newest 25 of all node events broadcast |
| `EndToEnd.BatchesOfARun` | crates/stack/src/reports.rs:367-384 | the batches sent are exactly the non-empty releases of the accepted messages |
| `EndToEnd.CacheAt` | crates/controller/src/node_manager.rs:127-154 | path by path the cache holds the last word said of the path |
| `EndToEnd.RegistryIsTheCache` | crates/controller/src/node_manager.rs:127-154 | a node's registry attributes are the last snapshot overwritten by the later changes, whatever comes between |
| `EndToEnd.RegistryHoldsTheLastWord` | crates/controller/src/node_manager.rs:92-170 | over every run, interviews, commissionings and removals included, the registry holds the nodes that are known and of each of their paths the last word said of it |
| `EndToEnd.CacheRefinement` | crates/controller/src/node_manager.rs:92-170 | end to end, without overlap: everything the consumer took is in order, and the registry is the last snapshot overwritten by later changes with nothing of the stored record left |
| `Config.AllocateNodeId` | crates/controller/src/storage.rs:282-292 | the least id from the next id, or 1, on that is not in use; the next allocation starts above it |
| `Config.Controller.DoCommission` | crates/controller/src/commands/commissioning.rs:43-100 | an id is used up even on failure; only success adds a node, under an id no node had and not our own |
| `Config.ReserveSkipsNone` | crates/controller/src/storage.rs:282-292 | no id is skipped that is neither registered nor our own |
| `Config.IdsOnlyGrow` | crates/controller/src/commands/commissioning.rs:53-55 | over a run the ids handed out strictly increase, none is the controller's, and each stays out of the registry until its own commissioning registers it |
| `ConfigLock.UpdatesAreLinear` | crates/controller/src/real.rs:84-122 | for any interleaving memory is the mutations in lock order even when saves fail, and the disk is what memory held after some of them |
| `ConfigLock.DiskIsTheLastSave` | crates/controller/src/real.rs:84-122 | the disk is what the last save that succeeded was made of: all mutations in lock order up to its own |
| `AtomicWrite.TmpNamesDiffer` | crates/controller/src/storage.rs:213-229 | two temporary names are the same only for one target, one process and one writer; the form of the name, at an instance |
| `AtomicWrite.FilesAreWhole` | crates/controller/src/storage.rs:228-271 | in every interleaving, failures, restarts and leftovers included, each file is the one complete document last renamed into place |
| `AtomicWrite.OnlyRenamesShow` | crates/controller/src/storage.rs:228-271 | a file once there stays, and changes only to a writer's whole document |
| `AtomicWrite.RenameShows` | crates/controller/src/storage.rs:228-271 | a rename shows the writer's whole document under its target, and the temporary file is gone |
| `Migration.FabricIndexByNodeId` | crates/migrate/src/convert.rs:215-277 | the nested scan computes the resolution of all claims |
| `Migration.ClaimsAreGiven` | crates/migrate/src/convert.rs:215-245 | the claims are exactly what the fabric tables of peers give under our root key, by the names of their contexts |
| `Migration.NeverGuesses` | crates/migrate/src/convert.rs:196-277 | a node resolves to an index exactly when it has a claim under our root key and all its claims are that index, within 1 to 254 |
| `Migration.OrderIsNoMatter` | crates/migrate/src/convert.rs:215-277 | the resolution depends only on which claims there are |
| `Migration.PlanNodes` | crates/migrate/src/convert.rs:282-349 | the plans in order of id, or an error exactly when an entry does not decode |
| `Migration.EntriesArePlanned` | crates/migrate/src/convert.rs:282-349 | the entries are planned one by one, each with its own id, time and address and the index its claims agree on or 0, or not at all when one cannot be |
| `Migration.SortSorts` | crates/migrate/src/convert.rs:347-348 | the plans ascend by id, none lost or added |
| `Migration.NextIdIsLeast` | crates/migrate/src/convert.rs:353-362 | the next node id is the least that passes check 4 |
| `Migration.FabricIndexSanity` | crates/migrate/src/checks.rs:115-148 | check 5 passes exactly when matched and non-zero agree for every plan; what is inconsistent and what falls back is listed, exactly |
| `Migration.PlansPassTheChecks` | crates/migrate/src/checks.rs:90-149 | the plans pass checks 4 and 5 with the configuration made from them, and each non-zero index is agreed by all claims |
| `Serial.CanonicalExactly` | crates/stack/src/identity.rs:368-378 | the test holds exactly when the octets are the minimal INTEGER (section 8.3 of ITU-T X.690) of their unsigned value, and exactly when re-encoding that value returns them |
| `Serial.EncoderIsRight` | crates/stack/src/identity.rs:356-367 | the re-encoding meets the standard's two's-complement and minimality rules |
| `Serial.GenerateUsableRcac` | crates/stack/src/identity.rs:290-323 | of up to 32 draws every serial returned is canonical and is the first drawn that is; otherwise the error is the unreadable certificate's or the generator's last |
| `Serial.TruncateToBytes` | crates/stack/src/identity.rs:205-214 | the longest prefix within the limit that ends between characters |
| `Serial.BoundariesAreChars` | crates/stack/src/identity.rs:200-214 | the boundaries of a text are exactly the ends of its first so many characters |
| `Serial.Utf8IsAChar` | crates/stack/src/identity.rs:200-214 | what section 3 of RFC 3629 writes of a character is one character |

## Left out

- Floating-point values, and the repair of text that is not UTF-8: JSON numbers are integers and strings are valid.
- The bytes of TLV elements: rs-matter chooses tag and length octets; integers carry no wire width of their own.
- The extraction of the field tables from the IDL: the tables are an input, with the distinctness the generator provides.
- TlvWriter.WriteBase: values of type single and double, which the code writes when they are finite, are always refused here.
- Broadcasts.UndisturbedMirror: one direction only, because a disturbed run need not end wrong; the exact condition is that of `ClientsMirrorTheRegistry`.
- What a node event carries besides its number.
- The `addrs` cache, tasks that panic, and log output.
- `NoOverlap.WithoutOverlap`: one direction only, because a run with overlap need not go wrong; the two counterexample runs show that it can.
- The supervisor's loop in `Supervision` is a set of steps, not one method, because other tasks run between its awaits.
- `HandleEvent`, `AvailabilityInvariant`, `AvailabilityChanges`, `OneUpdateForEachChange` and the end-to-end results are about handlers nobody interrupts: operations of command handlers fall between two steps of the consumer. `Broadcasts` has the interleaving, for what clients hold.
- A client of `Broadcasts` starts with the registry's nodes and misses no message; a lagging receiver is not modelled.
- The saving of node records after each change, and the dates in them.
- Liveness.WatchTiming: about one watch whose entry only reports write, in order of time; the clock is ideal and timers fire when due. `WatchEnds` has the bound for the runs of the protocol, where that order is proved.
- The choice between two snapshot files by modification time, gzip and the parsing of JSON text in the log reader; a directory that cannot be listed.
- Overflow of node ids at the limit of u64: ids are unbounded here, and so is `max + 1` in `config_from`.
- File permissions and the effect of `fsync` when the machine fails: a failure is a stop after any step.
- Tagged-value decoding and `ip_of` in the migration: entries arrive decoded; checks 1 to 3, which are cryptographic.
- Where the certificate's serial number sits in the certificate, and drawing keys: a draw's outcome is an input.
- Command handlers other than commissioning, the web server, command line, network discovery and cryptography.
