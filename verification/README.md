# Gravwell ingest: a verified model

A Dafny model of the parts of Gravwell that move data without losing it, and
proofs of what those parts are for. `dafny verify dfyconfig.toml` checks
everything.

## What is modelled

**Delivery.** An ingester numbers each entry, sends it, and parks it in a ring of
unconfirmed entries; an indexer reads entries and batches acknowledgements onto
the return stream; the muxer feeds entries to one relay per destination,
translates tags per connection, and takes everything back when a connection dies.

- `AckCodec.dfy`: the acknowledgement stream byte by byte, and the routine that
  packs it into a buffer.
- `ConfBuffer.dfy`: the ring of unconfirmed entries, with wrap-around.
- `Link.dfy`: one connection as a step system over two FIFO channels, with its
  invariant. Every event is a step of one end; events that are not enabled
  change nothing, so a run is any list of events.
- `LinkReplies.dfy`: what the other end still owes the writer, and what a reply tells
  it about the run so far. `LinkProgress.dfy`: what the two ends can always get done.
- `EntryWriter.dfy`: the writer's methods as loops over that system. A ghost
  trace makes every object a run of `Link`, so the invariant holds of it; what
  the peer is going to do is a finite script, which is what makes the waiting
  loops terminate, and how often sockets and contexts will still fail is a number,
  so that every error can be traced to its cause.
- `Tags.dfy`: the tag registry: bit mask, id assignment, translators.
- `Muxer.dfy`: the muxer as a step system: feeder channels, emergency queue, one
  relay and one connection routine per destination, every connection ever made.
  Entries are pointers, and `tags` is the tag field each has at the moment. A run
  ends where the process dies of a nil dereference (`Muxers.Crashes`).
- `MuxerDelivery.dfy`, `MuxerLive.dfy`: no run loses an entry.
- `MuxerCount.dfy`, `MuxerTags.dfy`, `MuxerWhole.dfy`, `MuxerTagRuns.dfy`: tags keep
  their names and the process lives, unless a flush of the emergency queue breaks off.
- `MuxerNewTags.dfy`, `MuxerDelivers.dfy` (and `MuxerReach.dfy`): tags that appear
  while connections are up, and what a destination can always deliver.
- `MuxerBreakOff.dfy`, `MuxerCrash.dfy`: what happens if a flush does break off, as runs of a muxer
  with two tags and one destination, event by event from its start.

**Caching.** `ChanCacher.dfy`: two goroutines, a consumer, CacheStart, CacheStop
and Commit over a bounded channel and two files that swap roles, one shared
access per step. Flags that the code reads without the lock are read in steps of
their own. `ChanCacherPause.dfy`: what CacheStart and CacheStop achieve.
`ChanCacherFinish.dfy`: the cache never gets stuck.

**Tailing.** `LineReader.dfy`, `LineSplits.dfy`, `Follower.dfy`: lines from a file
that is still being written, and the offsets saved while they are handled.

**Smaller parts.** `IpCodec.dfy` and `IpExist.dfy` (the IPv4 bitmap set and its
file form), `EntryBuffer.dfy` (the overwriting ring behind WriteLog),
`TimeGrinder.dfy` (the rotating search for a timestamp format), `Restarter.dfy`
(the limit on process restarts).

## Main results

- Every admitted entry has been read by an indexer or is held by a channel, the
  emergency queue, a relay, a connection routine, or the ring of the connection
  its destination holds: `MuxerLive.AtLeastOnce`, over every run, as far as the
  process lives. It does live through every run in which no flush of the emergency
  queue breaks off: `MuxerTagRuns.CleanRunsSurvive`.
- In every run of a connection the ring is a prefix of what is under way, and all of it
  until a send fails, so a confirmation always names its oldest entry:
  `Link.RingIsEverythingUnderWay`, `Link.ConfirmsAlwaysHitHead`. A successful sync means
  that everything written has been read, whatever failed meanwhile, unless entries were
  ejected: `EntryWriters.EntryWriter.ForceAck`, `Link.EmptyRingMeansAllRead`.
- On every run in which no flush breaks off, every entry an indexer reads carries that
  indexer's own id for the name of the tag it was admitted with, however often it was
  ejected and sent elsewhere: `MuxerTagRuns.EveryIndexerReadsTheRightTag`. It asks of
  the indexers only that each tells the muxer's own tags apart, which some do for
  every list of tags (`MuxerTags.ServersExist`).
- New tags need no new connection: an installed connection learns of every tag, and its
  relay negotiates and goes on, under every interleaving, as long as exchanges succeed
  (`MuxerNewTags.InstalledLearnsTags`, `NewTagsNeedNoReconnect`).
- What is held can be delivered: from every state of a clean run a relay that is ready
  gets any waiting load read to its end under the right ids, a destination without a
  connection can make one and flush the emergency queue, and what was under way when a
  connection is lost can be sent again and read (`MuxerDelivers.HealthyConnectionDelivers`,
  `ReadyRelayFlushes`, `NewConnectionFlushes`, `LostEntriesAreResent`).
- Whatever a connection is doing, a sync can succeed, a request can be answered and a
  ditto block can be judged (`LinkProgress.SyncCanSucceed`, `AnswerArrives`,
  `VerdictArrives`).
- In every interleaving of the cache nothing is lost or invented, Out is closed
  only when all is drained, and what Commit leaves behind is what the next
  instance finds: `ChanCacher.NothingLostOrInvented`, `DrainedBeforeClose`,
  `CommitThenRecover`. The flags that CacheHasData reads can both be seen clear
  while the file just swapped in is full; that is harmless because cacheHandler
  drains it before it acknowledges, so cacheModified alone decides. And nobody waits for
  ever: once In is closed everything can be consumed and Out closed, and a Commit can
  return without a consumer (`ChanCacherFinish.EverythingCanBeConsumed`,
  `CommitCanReturn`).
- A stopped cache takes nothing but what was already on its way, and a running one holds
  no input up (`ChanCacherPause.StoppedCacheTakesNothing`, `StartedCacheTakesAll`).
- However a text is cut into reads, the lines returned are its lines, exactly if
  every carriage return belongs to a line end: `LineSplits.SplitInvariantIff`.

## Where the code departs from what it is meant to do

The model follows the code. In each case a lemma names an input and another, or
the method's own contract, says exactly when the code is right.

- A confirmation of an entry behind the head of the ring is removed correctly
  exactly if the window starts at slot 0, or at slot 1 and the entry is not the
  newest (`ConfBuffer.EntryConfBuffer.Confirm`, `ConfBuffer.MissedConfirmation`). On a
  connection the case never arises (`Link.ConfirmsAlwaysHitHead`).
- `emergencyQueue.clear` reverses the tags of a whole batch of which a part was
  already written. The tag of a written entry stays right exactly if the indexer
  happens to use the muxer's own id for it (`MuxerTagRuns.BreakingOffKeepsTag`,
  `MuxerBreakOff.BreakingOffSpoilsRing`). Ejected and sent again, such an entry can
  reach the indexer under another tag's name (`MuxerBreakOff.ReadUnderAnotherName`).
  Tag results are therefore about runs in which no flush breaks off after its first
  entry.
- The same flush leaves the entry in two places. Sent from one, it has a remote tag
  when it comes from the other; no local tag is known by that id, so it is dropped and
  leaves a nil slot in its batch, which kills the process when it is written
  (`MuxerCrash.BreakingOffCanCrash`). The comment in the code calls the slot safe.
  Where no flush breaks off no batch ever has an empty slot, so there is no crash
  (`MuxerTagRuns.CleanRunsSurvive`); not every flush that breaks off leads to one.
- After entries were ejected, a sync can succeed although entries were not read; it
  means all were read exactly if the ejected ones were (`Link.EjectedUnread`,
  `Link.EjectingMeansAllReadIff`).
- The reader keeps a ditto block of no entries as nil, which AckDittoBlock and
  NackDittoBlock take for no block, so no verdict is ever sent: WriteDittoBlock
  succeeds, or is refused, only on a block with entries
  (`EntryWriters.EntryWriter.WriteDittoBlock`).
- NegotiateTag gives up when a throttle arrives first, which other exchanges obey
  (`EntryWriters.EntryWriter.NegotiateTag`).
- `newTagTrans` lets an id equal to the number of tags through its check and then
  indexes past the end; `Tags.NewTagTrans` models that as an error of its own.
- NegotiateTag on an empty map hands out id 1; ids stay dense exactly if there
  is a tag already (`Tags.NextIdKeepsDense`).
- Clearing an address toggles its bit, so removing an absent address adds it if
  its network has a bitmap (`IpExist.IpBitMap.RemoveIP`).
- A carriage return at the end of a read is trimmed even if text follows it
  (`LineSplits.LoneCarriageReturn`).

## Model

| member | source | states |
|---|---|---|
| `AckCodec.Encode` | ingest/entryReader.go:926-982 | writes exactly the bytes of the command at the offset and nothing before it; fails exactly on unknown commands; asks for a flush for all but confirmations that carry an id |
| `AckCodec.DecodeBytes` | ingest/entryReader.go:984-1039 | decoding the bytes of a command, with anything behind them, yields that command with the value it carries and leaves the rest |
| `AckCodec.ValueArrives` | ingest/entryReader.go:895-1039 | a throttle, a tag, ingest-ok or ditto confirmation and a confirmation of an entry take twelve bytes and come back with command and value |
| `AckCodec.BareArrives` | ingest/entryReader.go:895-1039 | a pong, a tag error and the id, version and state confirmations take four bytes and come back without a value |
| `AckCodec.NothingElseArrives` | ingest/entryReader.go:895-924 | exactly a confirmation of id zero and commands other than those ten leave nothing on the wire |
| `AckCodec.OtherBytes` | ingest/entryReader.go:984-1039 | a forced ack is decoded without a value, fewer than four bytes ask for more, any other identifier is refused |
| `AckCodec.LittleEndian` | ingest/entryReader.go:926-1039 | integers are four or eight bytes, least significant first |
| `AckCodec.StreamRoundTrip` | ingest/entryReader.go:895-1039 | any list of commands decodes to itself, in order, without the zero-length ones (a forced ack, a confirmation of id 0) |
| `AckCodec.CutStream` | ingest/entryReader.go:984-1039 | a stream cut anywhere decodes to a prefix of what was sent, never to something else |
| `AckCodec.AckRoutine.WriteAll` | ingest/entryReader.go:877-893 | a write that fails, which it does only if the connection does, has put a prefix of the buffer on the wire, one that succeeds all of it |
| `AckCodec.AckRoutine.PackNext` | ingest/entryReader.go:784-848 | the next command is taken, the buffer never overruns, and wire plus buffer are the encodings of all commands taken |
| `AckCodec.AckRoutine.FillAndSend` | ingest/entryReader.go:784-848 | on success all bytes of the commands taken are on the wire in order; on failure a prefix of them, and the connection has failed or the last command is unknown |
| `AckCodec.AckRoutine.KeepAlive` | ingest/entryReader.go:733-782 | one keepalive is inserted, without disturbing the other commands |
| `AckCodec.AckRoutine.Round` | ingest/entryReader.go:749-781 | a round takes a command or makes a keepalive up, or ends because the channel is closed and empty |
| `AckCodec.AckRoutine.Run` | ingest/entryReader.go:733-782 | however the commands are split into buffers, the wire is the concatenation of their encodings; only keepalives are added; it ends by itself only when everything was taken and written |
| `ConfBuffer.EntryConfBuffer.constructor` | ingest/entryConfBuffer.go:46-58 | an empty ring of the size asked for, capped |
| `ConfBuffer.EntryConfBuffer.OutstandingEntries` | ingest/entryConfBuffer.go:60-77 | the unconfirmed entries, oldest first, across the wrap |
| `ConfBuffer.EntryConfBuffer.EjectAll` | ingest/entryConfBuffer.go:79-103 | hands back the unconfirmed entries in order and leaves the ring empty |
| `ConfBuffer.EntryConfBuffer.Add` | ingest/entryConfBuffer.go:232-242 | appends; refuses exactly when capacity - 1 entries are held, changing nothing |
| `ConfBuffer.EntryConfBuffer.PopHead` | ingest/entryConfBuffer.go:168-186 | removes and returns the oldest entry |
| `ConfBuffer.EntryConfBuffer.Confirm` | ingest/entryConfBuffer.go:134-148 | removes the oldest entry if the id is its; for an id further back removes exactly that one, in order, if and only if the window is alignable, and misses it if and only if it lies beyond the scan; every error changes nothing |
| `ConfBuffer.EntryConfBuffer.PopUnaligned` | ingest/entryConfBuffer.go:188-230 | what the scan finds or misses and how it closes the gap, slot by slot |
| `ConfBuffer.EntryConfBuffer.ConfirmCases` | ingest/entryConfBuffer.go:188-230 | over a ring without holes the scan finds the id exactly if it covers it, and keeps the ring intact exactly on alignable windows |
| `ConfBuffer.MissedConfirmation` | ingest/entryConfBuffer.go:134-242 | a ring of five to which four entries were added, two confirmed and one more added: confirming an id that is there reports it as not found and leaves it |
| `Link.OnWireKeepsConfirms` | ingest/entryReader.go:784-848 | what the ack routine drops from the stream is never a confirmation |
| `Link.WireIsWhatDecodes` | ingest/entryReader.go:784-848 | the commands kept on the modelled wire are, one by one, those the writer decodes from the bytes |
| `Link.SendKeepsInv` | ingest/entryWriter.go:376-464 | sending an entry keeps the connection invariant |
| `Link.SendFailedKeepsInv` | ingest/entryWriter.go:398-464 | so does a send that fails, whether or not the entry reached the wire |
| `Link.SendDittoKeepsInv` | ingest/entryWriter.go:494-534 | so does a ditto block, complete or cut short: its entries are not confirmed one by one |
| `Link.PeerKeepsInv` | ingest/entryReader.go:341-553 | so does every step of the reader and its ack routine |
| `Link.TakeAckKeepsInv` | ingest/entryWriter.go:950-1011 | so does processing an acknowledgement |
| `Link.ConfirmHitsHead` | ingest/entryWriter.go:950-1011 | a confirmation at the front of the wire is that of the oldest entry in the ring, and the reader has taken that entry in |
| `Link.StepKeepsInv` | ingest/entryWriter.go:376-464 | every step of either end keeps the invariant |
| `Link.RunKeepsInv` | ingest/entryWriter.go:921-1011 | every run keeps the invariant |
| `Link.RingIsEverythingUnderWay` | ingest/entryReader.go:860-866 | in every run whose sends succeed, ids in the ring are, in order, confirmations on the wire, confirmations queued, entries not yet read |
| `Link.ConfirmsAlwaysHitHead` | ingest/entryConfBuffer.go:134-148 | in every run an arriving confirmation names the head of the ring, unless that is empty, which it is not if all sends succeeded |
| `Link.RunKeepsBooked` | ingest/entryWriter.go:376-464 | in every run without ejection, failed sends or not, entries written are in order those read and then those on the wire, and the ring holds exactly those not settled |
| `Link.EmptyRingMeansAllRead` | ingest/entryWriter.go:271-289 | in every run without ejection an empty ring means the other end has read, in order, everything written |
| `Link.EjectingMeansAllReadIff` | ingest/entryWriter.go:236-240 | after ejecting, everything written has been read if and only if the other end has taken in as many entries as were ejected |
| `Link.EjectedUnread` | ingest/entryWriter.go:236-240 | an entry sent and ejected: the ring is empty, nothing has been read |
| `Link.LeavesRingOnlyWhenRead` | ingest/entryConfBuffer.go:134-148 | whatever happens, an entry that leaves the ring without being ejected has been read |
| `LinkReplies.PeerOwesNoMore` | ingest/entryReader.go:392-553 | no step of the reader makes it owe more replies than it was asked for |
| `LinkReplies.TakesTheAnswer` | ingest/entryWriter.go:1015-1055 | however the two ends interleave after a request that travels alone, the reply taken in is the answer to it |
| `LinkReplies.TakesTheVerdict` | ingest/entryReader.go:182-208 | however they interleave after a ditto block, the reply taken in is a verdict given since, and by then everything sent has been read |
| `EntryWriters.EntryWriter.NextCommand` | ingest/entryWriter.go:1015-1055 | serves one command from the stream, the one at its front, confirming entries as it goes; the ring only shrinks and nothing written is forgotten |
| `EntryWriters.EntryWriter.ReadAcks` | ingest/entryWriter.go:950-1011 | serves the acknowledgements at hand, in any mix with throttles and keepalives; blocking, success means one was taken; an error means a failure or silence |
| `EntryWriters.EntryWriter.ServiceAcks` | ingest/entryWriter.go:921-948 | blocking, it returns without error only once there is room in the ring; a sync is asked for if the ring stays full or nothing came, and never without blocking on a ring with room |
| `EntryWriters.EntryWriter.ThrowAckSync` | ingest/entryWriter.go:242-250 | success puts the sync request at the end of the wire and changes nothing else; failure changes nothing |
| `EntryWriters.EntryWriter.ForceAck` | ingest/entryWriter.go:271-289 | sync barrier: no error means the ring is empty and, unless entries were ejected before, everything written on the connection was read, in order, even if sends have failed; an error means a failure or silence, and on an empty ring a failure |
| `EntryWriters.EntryWriter.EncodeAndSend` | ingest/entryWriter.go:398-464 | refuses exactly entries that are too long, with nothing sent; puts any other on the wire under the next id, or fails and leaves the connection marked as broken |
| `EntryWriters.EntryWriter.WriteEntry` | ingest/entryWriter.go:376-396 | success means the entry is in the ring and among those written under the next id; an entry is refused for its length exactly if it is too long and never because the ring is full; any other error means a broken connection, a failure or silence |
| `EntryWriters.EntryWriter.Write` | ingest/entryWriter.go:305-326 | waits for room when the ring is full, then writes; errors as for writeEntry |
| `EntryWriters.EntryWriter.WriteBatch` | ingest/entryWriter.go:361-374 | writes a prefix of the batch, says how long it is, and numbers it consecutively; no entry that is too long is in it, and it stops for length only at one that is |
| `EntryWriters.EntryWriter.EjectOutstanding` | ingest/entryWriter.go:236-240 | hands back every unconfirmed entry in order |
| `EntryWriters.EntryWriter.ReadCommandsUntil` | ingest/entryWriter.go:1015-1055 | serves everything up to the awaited command and returns the value that command was sent with |
| `EntryWriters.EntryWriter.Exchange` | ingest/entryWriter.go:597-640 | success means the answer to this very request arrived, with its value, on an empty ring; an error on a working connection means a failure or silence |
| `EntryWriters.EntryWriter.NegotiateTag` | ingest/entryWriter.go:817-905 | a tag is returned only if the indexer confirmed it, and is the low 16 bits of the value sent; refusal is reported only if it refused; any other error is an old server, a throttle, a failure or silence |
| `EntryWriters.EntryWriter.WriteDittoBlock` | ingest/entryWriter.go:494-534 | a block uses up one id per entry and leaves the ring alone; success means the indexer has read all of it and accepted it since, refusal that it gave another verdict since; an empty block is neither accepted nor refused |
| `LinkProgress.SyncCanSucceed` | ingest/entryWriter.go:271-289 | from every state of a connection whose sends have succeeded there is a way on, with the writer only listening, to an empty ring and everything read |
| `LinkProgress.AnswerArrives` | ingest/entryWriter.go:1015-1055 | whatever is under way, a request with an encodable reply can be answered: the writer can take that reply in by listening |
| `LinkProgress.VerdictArrives` | ingest/entryReader.go:501-528 | a ditto block with entries, sent when no reply is owed, can be read to its end and judged, whatever the verdict |
| `Tags.TagMask.Add` | ingest/utils.go:181-184 | marks that tag and no other |
| `Tags.TagMask.Clear` | ingest/utils.go:186-192 | unmarks that tag and no other |
| `Tags.ListingIds` | ingest/muxer.go:387-409 | a listing means ids are exactly 0 to n-1 and names are distinct |
| `Tags.LargestId` | ingest/muxer.go:848-854 | the largest id in use, zero if there is none |
| `Tags.NextId` | ingest/muxer.go:848-854 | on dense ids, the number of tags |
| `Tags.NextIdKeepsDense` | ingest/muxer.go:848-854 | one more than the largest id keeps ids dense if and only if there is a tag already |
| `Tags.AssignIds` | ingest/muxer.go:387-409 | cached ids are kept, all local tags get one, and ids are dense if and only if 16 bits suffice |
| `Tags.ReverseTag` | ingest/muxer.go:2413-2424 | the loop finds the first local id with that remote id |
| `Tags.ReverseTranslate` | ingest/muxer.go:2340-2424 | with distinct remote ids reversing undoes translating, and translating undoes reversing exactly on ids in the table |
| `Tags.FollowsExtend` | ingest/muxer.go:2395-2408 | a translator that follows the registry still does after a new tag, and stays in sync if it was |
| `Tags.NewTagTrans` | ingest/muxer.go:2101-2119 | succeeds exactly if every id is below the number of tags and every name is known; then each entry of the table is the server's id for the name |
| `Tags.TagRegistry.constructor` | ingest/muxer.go:387-451 | from a dense or absent cached map: dense ids with distinct names, the mask true exactly on them |
| `Tags.TagRegistry.NegotiateTag` | ingest/muxer.go:825-880 | returns the known id or the next one; ids stay dense, the mask exact, every translator in step |
| `Tags.TagRegistry.RegisterEverywhere` | ingest/muxer.go:855-876 | every installed translator learns of the new tag; those installed throughout stay in sync |
| `Tags.TagRegistry.Install` | ingest/muxer.go:1837-1840 | a new translator follows the registry, and is in sync if it knows every tag |
| `Tags.TagRegistry.Uninstall` | ingest/muxer.go:1793-1796 | the others are untouched |
| `Tags.TagRegistry.NegotiatePending` | ingest/muxer.go:2299-2337 | the oldest pending tag becomes active exactly if its id is next, and nothing else changes; that is always so on a translator installed throughout |
| `MuxerDelivery.ReverseLoadKnown` | ingest/muxer.go:2413-2424 | reversal never leaves an entry with a tag the muxer does not know |
| `MuxerDelivery.ReceiveSafe` | ingest/muxer.go:1598-1607 | taking a load from a channel loses nothing |
| `MuxerDelivery.PopQueueSafe` | ingest/muxer.go:2204-2225 | nor does popping the emergency queue |
| `MuxerDelivery.TranslateSafe` | ingest/muxer.go:1610-1650 | nor does translating a load, entry by entry |
| `MuxerDelivery.UntranslatableSafe` | ingest/muxer.go:1613-1650 | an entry dropped for an unknown tag is held elsewhere or was read |
| `MuxerDelivery.NegotiateSafe` | ingest/muxer.go:2299-2337 | nor does negotiating pending tags, successful or not |
| `MuxerDelivery.WriteSafe` | ingest/muxer.go:1655-1668 | nor does writing, however many entries of a batch went out before it failed, an empty slot among them or not |
| `MuxerDelivery.WriteFailedFromQueue` | ingest/muxer.go:2227-2290 | nor does a flush of the emergency queue that breaks off anywhere |
| `MuxerDelivery.RecycleSafe` | ingest/muxer.go:1852-1890 | nor does recycling into a channel or, when none takes it, the emergency queue |
| `MuxerDelivery.EjectSafe` | ingest/muxer.go:1734-1742 | nor does ejecting a ring from the relay |
| `MuxerDelivery.ReapSafe` | ingest/muxer.go:1781-1797 | nor from the connection routine |
| `MuxerDelivery.OnLinkSafe` | ingest/muxer.go:1459-1742 | nor does any step of a connection or its indexer |
| `MuxerDelivery.AdmitSafe` | ingest/muxer.go:1145-1272 | an admitted entry is held from the start |
| `MuxerDelivery.StepSafe` | ingest/muxer.go:1459-1742 | every step of the muxer keeps every admitted entry |
| `MuxerDelivery.RunSafe` | ingest/muxer.go:1459-1890 | every run keeps every admitted entry |
| `MuxerLive.StepLive` | ingest/muxer.go:1404-1435 | every step keeps a non-empty ring with a connection its destination holds |
| `MuxerLive.RunLive` | ingest/muxer.go:1749-1850 | and so does every run |
| `MuxerLive.AtLeastOnce` | ingest/muxer.go:1459-1890 | in every run, as far as the process lives, each admitted entry has been read, waits in a channel or the emergency queue, is in a relay's or connection routine's hand, or is in the ring of a held connection |
| `MuxerCount.OnePlace` | ingest/muxer.go:1459-1742 | an entry the muxer holds at most once is in one place only |
| `MuxerTags.ServersExist` | ingest/muxer.go:2101-2119 | for every list of distinct tags there are indexers that tell them apart, as the tag results ask |
| `MuxerTags.ReversedHome` | ingest/muxer.go:1734-1742 | reversing a run of entries gives each its own tag back and leaves the others alone |
| `MuxerTags.TranslatedClean` | ingest/muxer.go:1610-1650 | translating an entry gives it the connection's id for its own tag and disturbs no other |
| `MuxerTags.NothingDropped` | ingest/muxer.go:1550-1578 | on clean runs the branch that drops an entry is never taken |
| `MuxerTags.UntranslatableClean` | ingest/muxer.go:1613-1650 | a load given up half translated has all its own tags again |
| `MuxerTags.WriteOkClean` | ingest/muxer.go:1655-1668 | a written entry is in the ring under the connection's tag and nowhere else |
| `MuxerTags.WriteFailedFeederClean` | ingest/muxer.go:1655-1668 | a failed batch gives back exactly the unwritten entries, under their own tags |
| `MuxerTags.WriteFailedQueueClean` | ingest/muxer.go:2227-2290 | so does a flush that fails on the first entry of a batch |
| `MuxerTags.EjectedClean` | ingest/muxer.go:1734-1742 | ejected entries have their own tags again |
| `MuxerTags.AdmitClean` | ingest/muxer.go:1145-1272 | an admitted entry is held once, under its own tag |
| `MuxerTagRuns.TravelledSend` | ingest/entryWriter.go:398-464 | a send adds to what a connection carries at most its entry, with the tag it has at that moment |
| `MuxerTagRuns.NegotiateTable` | ingest/muxer.go:2299-2337 | translators hold the indexer's ids for the first local tags, in order |
| `MuxerWhole.WholeSurvives` | ingest/muxer.go:1610-1668 | the process crashes on no step as long as no load has an empty slot |
| `MuxerWhole.GivingUpCrashes` | ingest/muxer.go:1613-1650 | translating a load crashes if and only if the relay gives it up with an empty slot among those passed |
| `MuxerWhole.CleanStepWhole` | ingest/muxer.go:1613-1650 | no step empties a slot while tags are right |
| `MuxerTagRuns.NamesGrow` | ingest/muxer.go:825-880 | over every run tags are only added, and keep their ids |
| `MuxerTagRuns.StepClean` | ingest/muxer.go:1459-1742 | every step that does not break off a flush keeps all tags right |
| `MuxerTagRuns.RunClean` | ingest/muxer.go:1459-1742 | and so does every such run, to whose end the process lives |
| `MuxerTagRuns.CleanRunsSurvive` | ingest/muxer.go:1624-1630 | over every such run from the start no load anywhere ever has an empty slot, and the process does not crash |
| `MuxerTagRuns.TagsFollowPlaces` | ingest/muxer.go:1550-1668 | on clean runs an entry is held once, under its own tag in channels, the emergency queue and the connection routine's hand, under the indexer's id for the same name in a ring |
| `MuxerTagRuns.EveryIndexerReadsTheRightTag` | ingest/muxer.go:2340-2424 | on clean runs everything a connection ever carries has that indexer's id for the name it was admitted under |
| `MuxerTagRuns.BreakingOffKeepsTag` | ingest/muxer.go:2276-2283 | when a flush breaks off, the tag of a written entry stays right in the ring if and only if the indexer uses the muxer's own id for it |
| `MuxerNewTags.InstalledLearnsTags` | ingest/muxer.go:855-876 | in every run a connection installed with all tags known then has, while it is installed, every later tag negotiated or pending, in order and under its own id |
| `MuxerNewTags.NewTagsNeedNoReconnect` | ingest/muxer.go:2299-2337 | on clean runs a relay on such a connection never gives a load from a channel up while exchanges succeed, and always has a move that gets it ahead |
| `MuxerDelivers.HealthyConnectionDelivers` | ingest/muxer.go:1598-1668 | on clean runs a relay ready on such a connection can get any waiting load read to its end, each entry under the indexer's id for its own tag, whatever tags appeared since, and is ready again |
| `MuxerDelivers.ReadyRelayFlushes` | ingest/muxer.go:2227-2290 | it can do so for the front of the emergency queue, if no tag is left to negotiate |
| `MuxerDelivers.NewConnectionFlushes` | ingest/muxer.go:1781-1850 | on clean runs a destination without a connection can make one and get the front of the emergency queue read |
| `MuxerDelivers.LostEntriesAreResent` | ingest/muxer.go:1728-1742 | on clean runs, when a connection is lost, everything in its ring can be read on the next one under the right ids |
| `MuxerDelivers.FailedExchangeGivesUp` | ingest/muxer.go:2299-2329 | an exchange that fails makes the relay put the load back as it was and close the connection |
| `MuxerBreakOff.BreakingOffSpoilsRing` | ingest/muxer.go:2276-2283 | a run from the start, for every pair of indexer's ids of which the first is not 0: the flush breaks off after one of two entries, and the first is left in the ring with the wrong tag |
| `MuxerBreakOff.ResentAndRead` | ingest/muxer.go:2227-2283 | the same run before it breaks off meets all that the tag results ask: a connection has failed and the entry sent again is read under the right id |
| `MuxerBreakOff.ReadUnderAnotherName` | ingest/muxer.go:1785-1792 | the run goes on: the entry is ejected, reversed, sent again, and read by the indexer under its id for the other tag |
| `MuxerCrash.BreakingOffCanCrash` | ingest/muxer.go:1613-1656 | another continuation: the entry is dropped from a batch, the nil slot is passed on, and the process crashes on writing it |
| `ChanCacher.Merge` | chancacher/chancacher.go:469-537 | the values of both files in order, as one stream |
| `ChanCacher.ShuffleFiles` | chancacher/chancacher.go:177-206 | whichever of the three branches start-up takes, the read file then holds the values of both files, in order, as one stream if both were, and the write file is empty |
| `ChanCacher.RecoverGathers` | chancacher/chancacher.go:177-206 | the recovery that the runs start from gathers the values of both files in the read file, as one stream, and leaves the write file empty |
| `ChanCacher.StepConserves` | chancacher/chancacher.go:230-349 | no step of any goroutine changes how often a value is accounted for |
| `ChanCacher.SwapKeepsBooks` | chancacher/chancacher.go:297-331 | swapping the files keeps the invariant between cacheModified, the lock and what the files hold |
| `ChanCacher.StepKeepsBooks` | chancacher/chancacher.go:230-349 | every step of every goroutine keeps it |
| `ChanCacher.RunKeepsInv` | chancacher/chancacher.go:230-449 | every interleaving keeps it |
| `ChanCacher.NothingLostOrInvented` | chancacher/chancacher.go:230-349 | accepted plus recovered values are, as multisets, consumed plus Out plus unread plus written plus in hand, in every interleaving |
| `ChanCacher.DrainedBeforeClose` | chancacher/chancacher.go:253-274 | without Commit, Out is closed only after every value was put on it, whenever the files are swapped while the flags are read |
| `ChanCacher.NoSendAfterClose` | chancacher/chancacher.go:270-286 | nobody sends on Out once it is closed |
| `ChanCacher.CommitLeavesAllInFile` | chancacher/chancacher.go:419-449 | when Commit has returned the write file holds exactly what was not consumed and the read file is empty |
| `ChanCacher.CommitThenRecover` | chancacher/chancacher.go:177-218 | a new instance then finds exactly those values in its read file, as one stream, and an empty write file |
| `ChanCacherPause.StoppedCacheTakesNothing` | chancacher/chancacher.go:375-389 | from CacheStop to the next CacheStart, in every interleaving, the files gain no value but those Commit puts back and the one already on its way |
| `ChanCacherPause.StoppedCacheBlocks` | chancacher/chancacher.go:229-250 | if none was on its way, run never comes near the file |
| `ChanCacherPause.StartedCacheTakesAll` | chancacher/chancacher.go:359-373 | from CacheStart to the next CacheStop, in every interleaving, a value that run cannot put on Out can go to the file |
| `ChanCacherPause.NewCacheTakesAll` | chancacher/chancacher.go:108-122 | and so it can in a new cache |
| `ChanCacherFinish.EverythingCanBeConsumed` | chancacher/chancacher.go:229-349 | from every state without Commit in which In is closed, there is a way on to Out closed and every value that ever came in consumed |
| `ChanCacherFinish.CommitCanReturn` | chancacher/chancacher.go:419-449 | from every state in which Commit was called and In is closed, Commit can return without a consumer, and the write file then holds exactly what was not consumed |
| `LineReaders.LineReader.constructor` | filewatch/liner.go:23-32 | starts at the given offset with no line begun |
| `LineReaders.LineReader.ReadEntry` | filewatch/liner.go:34-84 | returns the next line its reads make, at most one; without one it has seen the end of the file and read all there is |
| `LineReaders.LineReader.ReadRemaining` | filewatch/liner.go:86-96 | returns a line or, at the end of the file, the unfinished one |
| `LineReaders.AnySplitAgrees` | filewatch/liner.go:34-84 | however a settled text is cut, the reader has returned its lines and holds the rest, or has returned a line one line end early |
| `LineReaders.LinesWhateverTheSplit` | filewatch/liner.go:34-84 | however a text is cut into reads, the lines returned are its non-empty lines in order, if its carriage returns belong to line ends |
| `LineReaders.NothingSkipped` | filewatch/liner.go:34-96 | lines returned and line at hand are the bytes read without line ends, also when unfinished lines were demanded |
| `LineReaders.Resumes` | filewatch/liner.go:34-84 | a new reader started where no line is at hand returns exactly the remaining lines, even within a line end |
| `LineSplits.SplitInvariantIff` | filewatch/liner.go:53-64 | for a complete text, every way of cutting it gives its lines if and only if each carriage return is followed by another or a newline |
| `LineSplits.LoneCarriageReturn` | filewatch/liner.go:53-53 | one text, two ways of reading it, different lines |
| `Followers.Follower.Handle` | filewatch/followers.go:339-344 | the offset moves past a line exactly if the handler accepts it |
| `Followers.Follower.ProcessLines` | filewatch/followers.go:298-350 | what was handled is what the reader made of the bytes before the saved offset, whatever fails or is forced; success means the file was read to its end, with no unfinished line left if it is being removed or idle, and none forced otherwise; failure means the handler refused |
| `Followers.Follower.ForcePartial` | filewatch/followers.go:319-336 | the same for an unfinished line |
| `Followers.Follower.Sync` | filewatch/followers.go:176-224 | the same for the catch-up pass: it ends at the signal to quit, or has read what there was when it began and at most one line begun before that size |
| `Followers.NothingLeftBehind` | filewatch/followers.go:319-336 | while the follower lives with no line begun, lines handled, joined, are all bytes read without line ends |
| `Followers.HandledUpToOffset` | filewatch/followers.go:298-350 | lines handled, joined, are the bytes from the start to the saved offset without line ends |
| `Followers.RestartAtOffset` | filewatch/followers.go:298-350 | with nothing forced, a reader at the saved offset returns exactly the lines not handled, of whatever the file comes to hold |
| `IpCodec.EncodeThenParse` | ipexist/ipexist.go:206-298 | decoding gives back the table and bitmaps that were encoded, byte for byte |
| `IpCodec.FileLayout` | ipexist/ipexist.go:206-225 | header, number of bitmaps in eight bytes, then two little-endian bytes per network |
| `IpCodec.BitmapLayout` | ipexist/ipexist.go:226-234 | then the words of each bitmap in order, eight little-endian bytes each, and nothing else |
| `IpCodec.ParseAccepts` | ipexist/ipexist.go:258-298 | a file is accepted if and only if header, count and length are right |
| `IpExist.QuadIs` | ipexist/ipexist.go:102-133 | a.b.c.d is kept as the number its four bytes make, most significant first |
| `IpExist.QuadsDiffer` | ipexist/ipexist.go:102-133 | different four-byte addresses stay different |
| `IpExist.WrappedIs` | ipexist/ipexist.go:102-113 | a sixteen-byte address counts as the four bytes it wraps, and nothing but these two forms is an address |
| `IpExist.BitWeight` | ipexist/ipexist.go:348-362 | setting and toggling bit k change a word by 2 to the k |
| `IpExist.WordIs` | ipexist/ipexist.go:348-362 | address v is bit v mod 64 of word v div 64; the other words stay |
| `IpExist.SetIs` | ipexist/ipexist.go:348-354 | setting a bit adds that address and no other |
| `IpExist.ToggleIs` | ipexist/ipexist.go:356-362 | clearing a bit changes whether that address is there, and no other |
| `IpExist.AddedBitmap` | ipexist/ipexist.go:188-204 | a new bitmap keeps offsets injective within the bitmaps and the set unchanged |
| `IpExist.ChangedBitmap` | ipexist/ipexist.go:102-161 | changing one network's bitmap changes the set there only |
| `IpExist.IpBitMap.AddNewBitmap` | ipexist/ipexist.go:188-204 | refuses exactly at the limit; the set is unchanged |
| `IpExist.IpBitMap.AddIP` | ipexist/ipexist.go:102-133 | the plain set gains the address; invalid addresses and a full table are errors that change nothing; 255.255.0.0/16 is ignored |
| `IpExist.IpBitMap.RemoveIP` | ipexist/ipexist.go:135-161 | the plain set loses an address that is in it; afterwards the address is absent if and only if it was present, its network has no bitmap, or it is ignored |
| `IpExist.IpBitMap.IPExists` | ipexist/ipexist.go:163-186 | equals membership in the plain set |
| `IpExist.IpBitMap.Encode` | ipexist/ipexist.go:206-240 | the encoded form, which parses back to this table and these bitmaps |
| `IpExist.IpBitMap.Decode` | ipexist/ipexist.go:258-298 | takes over exactly what the file holds, or reports why not |
| `IpExist.LoadIPBitMap` | ipexist/ipexist.go:61-67 | a new set with exactly the members the file stands for, or the error |
| `EntryBuffers.CircularIndex.Pop` | ingest/entry_buff.go:173-187 | gives the slot of the oldest; the others keep theirs, one place closer |
| `EntryBuffers.CircularIndex.Add` | ingest/entry_buff.go:189-206 | gives the slot after the newest; when full, that of the oldest |
| `EntryBuffers.EntryBuffer.Pop` | ingest/entry_buff.go:63-73 | takes the oldest entry, if any |
| `EntryBuffers.EntryBuffer.Add` | ingest/entry_buff.go:115-124 | keeps the last max entries |
| `EntryBuffers.EntryBuffer.AddBlock` | ingest/entry_buff.go:126-137 | keeps the last max entries of contents and block together |
| `EntryBuffers.EntryBuffer.PopBlock` | ingest/entry_buff.go:75-94 | takes as many of the oldest as asked for and there are |
| `EntryBuffers.EntryBuffer.Drain` | ingest/entry_buff.go:96-113 | takes everything, in order |
| `EntryBuffers.EntryBuffer.WriteLog` | ingest/gravwell_log.go:104-128 | as many are sent as there is room for, none without a connection; what was sent followed by what waits is what there was, in order; one entry is dropped, the oldest, exactly if the ring was full and nothing was sent |
| `EntryBuffers.NewEntryBuffer` | ingest/entry_buff.go:30-40 | fails exactly on size zero |
| `EntryBuffers.RingKeepsOrder` | ingest/entry_buff.go:63-137 | over every run the contents are the end of what was added, and what was taken came out in order, each entry at most once, before anything still held |
| `TimeGrinders.FirstFromUnique` | timegrinder/timeGrinder.go:313-343 | a search around the ring stops at one place only |
| `TimeGrinders.TimeGrinder.SetFormatOverride` | timegrinder/timeGrinder.go:207-221 | succeeds exactly if a processor has that name |
| `TimeGrinders.TimeGrinder.AddProcessor` | timegrinder/timeGrinder.go:250-265 | goes in front, or is refused if the name is taken; the remembered position stays in range |
| `TimeGrinders.TimeGrinder.SetSeed` | timegrinder/timeGrinder.go:282-309 | finds the first processor of minimal offset, if any accepts |
| `TimeGrinders.TimeGrinder.Search` | timegrinder/timeGrinder.go:328-343 | stops at the first acceptor from the remembered position, and finds one if and only if there is one |
| `TimeGrinders.TimeGrinder.Extract` | timegrinder/timeGrinder.go:313-343 | succeeds if and only if some processor accepts; with a single acceptor gives its answer whatever happened before; with leftmost seeding the first hit is the first processor of minimal offset |
| `Restarters.StartsInInterval` | manager/process.go:176-228 | an interval shorter than k gaps holds at most k times MaxRestarts starts |
| `Restarters.Restarter.ShouldSleep` | manager/process.go:213-228 | the cooldown exactly if MaxRestarts starts are on record and the oldest is less than a restart period ago |
| `Restarters.Restarter.Shift` | manager/process.go:206-211 | the record is that of the latest starts, newest first |
| `Restarters.Restarter.RequestStart` | manager/process.go:184-195 | start i + MaxRestarts is at least min(RestartPeriod, CooldownPeriod) after start i, over every run; a start is given up only while cooling down |

## Left out

- Muxers: relays, recycling, connection routines and the emergency queue are interleaved steps over values rather than loops over a shared list, because it is their interleaving that the results are about; aliasing of entries is kept, as tags live in a map from pointers.
- Muxers: a loop that reverses the tags of a run of entries is one step, and both feeder channels are one list from which any load may be received.
- Muxers: shutdown (Close), the muxer's own cache of its channels, scheduling of tail destinations and hot-connection counting.
- Muxers: DittoWriteContext is not part of the conservation result; its errors go back to the caller and nothing is recycled.
- Muxers: a single entry that is dropped leaves a load with one empty slot behind in the model, where the code leaves nothing; a run in which no relay picks it up is what the code does.
- Muxers: what is lost when the process crashes, and its restart.
- Muxers: a second connection offered to a relay that did not ask for one, which the connection routine never does.
- Tags: GravwellTagId and MaxTagId come from the entry package, which is not part of this model; both are taken as 0xFFFF.
- EntryWriters.EntryWriter.WriteEntry: entry ids are 64 bit and assumed not to run out; wrap-around is not modelled.
- EntryWriters.EntryWriter.NegotiateTag: checking the tag's name before anything is sent.
- EntryWriters.EntryWriter.ReadAcks: throttling, timeouts and flush intervals are arbitrary choices, so how long a call waits is not modelled.
- MuxerDelivers.HealthyConnectionDelivers: says that there is a way on, not that every schedule takes it; the same goes for the other results of its kind.
- Link: compression, TCP buffering and the entry header are identities; a failing send may or may not have reached the wire as a whole entry.
- ConfBuffer: GetEntry, IsHead and the size queries.
- ChanCacher: values are never nil, encoding and decoding succeed, and the size limit is an arbitrary wait; quarantine of damaged files and a crash within merge are not modelled, and Commit is called at most once.
- ChanCacher: the byte counter in filecounter.go, which only feeds the size limit.
- LineReaders: read errors other than the end of the file, and the maximum line length.
- Followers.Follower.ProcessLines: truncation of the file, file events and tickers; a follower whose handler failed is not used again, as its routine ends.
- filewatch filters and the regular-expression engine.
- IpExist: memory mapping and the flate stream; a word's single-bit operations are defined on its number.
- IpExist.IpBitMap.AddIP: requires a map that was not loaded from a damaged file, where the code would index out of range.
- TimeGrinders: Match, DebugExtract and DebugMatch repeat the same search; regular expressions and date parsing are an arbitrary function per processor, and there is at least one processor.
- Restarters: MaxRestarts of zero, on which the code indexes an empty slice; log output; the process itself.
- Authentication, configuration, REST clients, netflow and migration tools.
