# whatevr, verified in part

Dafny models of five parts of whatevr, each with proofs about all inputs and whole runs. Check the project with
`dafny verify dfyconfig.toml`.

| part | source | files |
|---|---|---|
| the macOS notification broker | `native/macos/Notifications.swift` | `BrokerModel`, `BrokerInvariants`, `BrokerQueues`, `BrokerNotes`, `BrokerRuns`, `BrokerHistory`, `BrokerWire`, `BrokerTheorems`, `BrokerReceipts`, `BrokerActs`, `BrokerTimes`, `BrokerEdges`, `BrokerRetry`, `Broker` |
| the wallpaper layout | `scripts/gen_doodle.py` | `Torus`, `Placement`, `Relaxation`, `Repulsion`, `Overlaps`, `Seamless`, `Layout` |
| the reference frontend | `examples/frontend.py` | `Varint`, `Frames`, `Replica` |
| the release-note printer | `scripts/release.py` | `Xml`, `AppStream`, `ReleaseNotes`, `ReleaseUrls`, `ReleaseText`, `ReleaseBlank`, `ReleaseCode`, `ReleaseShape` |
| the line reader of the feature check | `scripts/verify_features.py` | `LineReader` |

`Options`, `Lines` and `StableSort` are shared.

**The broker** is a transition system. `BrokerModel` has the state of its peers, queues and notifications and one
function for each thing its serial queue runs: accept, read a chunk, handle a message, answer a settings query, deliver,
post, retry, close a descriptor. What the kernel, the clock, the notification centre and the write calls decide comes in
as arguments, so a theorem about every run is a theorem about every such decision. `BrokerRuns` proves one invariant of
every reachable state, `BrokerHistory` that later steps never rewrite earlier history, `BrokerWire` what any chunking of
the byte stream does, `BrokerTheorems`, `BrokerReceipts`, `BrokerActs` and `BrokerTimes` the guarantees, `BrokerEdges` what the calls to the system decide, and `BrokerRetry` a run that breaks one. `Broker` has the two classes as the program has them, with
their dictionaries, buffers and loops; each method is proved to move the state exactly as the function of `BrokerModel` does.

**The layout** uses real coordinates, and compares squares where the code compares `hypot`. Its random source is an
argument of each method, bound only by the ranges the code asks for. `Layout.Build` runs the passes one after another.

**The frontend** has the varint head with its `|`, `&` and shifts as operations on binary digits, the frame stream, the
wait for a response, and the keyed rows as a dictionary in insertion order. The meaning of a history of resets, upserts
and removes is defined without a dictionary (`Replica.Decided`, `Replica.Birth`).

**The printer** lowers a syntax tree to lines. `Xml.Parse` is an independent reader of the result, a stack machine that
accepts only the allowed elements where they are allowed; printing then parsing gives back what the tree says.

**The line reader** takes its input as a list of what each `recv` gives, chunks and timeouts in any order.

What the proofs show that a reader may not expect:

- A peer that is stopped by a line goes on to handle the complete lines behind it in its buffer
  (`native/macos/Notifications.swift:156-161`), up to one that cannot be read. So the lines handled depend on how the
  stream was cut into chunks: they end with the first line that stops the peer exactly if that line or the next one
  cannot be read, or there is no next one, or the chunk that completes the one does not complete the other
  (`BrokerWire.ChunkingShows`). A hello left in the buffer empties its namespace's queue without sending anything
  (`BrokerTheorems.RejectThenHello`).
- The retry of a rejected attachment does not look at the generation again, so it can put a superseded notification over
  its successor. `BrokerRetry.StaleRun` is a run of the broker in which it does, from the start and for any peer that
  says hello and shows a notice twice; `BrokerNotes.RetryCurrent` says that the missing guard is exactly what decides.
- `read` of the frontend hands on a shortened body without an error exactly when the stream ends between a length and
  the end of its body (`Frames.CutStream`).
- The comment at `scripts/release.py:224-226` says that no information is dropped. Dropped are quotes and HTML blocks
  directly in a list item, the schemes and titles of links, and the info strings of code fences; the parentheses around
  an address are added, and there is no other difference in the characters of the text (`ReleaseText.TextConserved`,
  `ReleaseText.NothingDropped`). A list is left without items exactly when no item has a child to take text from
  (`ReleaseBlank.ItemlessExactly`).
- The check at `scripts/release.py:242-243` is meant to refuse notes without text, but it refuses only notes of blank
  code, blank HTML and other blocks (`ReleaseBlank.FailsExactly`). An empty paragraph or a list of quotes passes it and
  gives a description with nothing to see; `ReleaseBlank.BlankDescription` says exactly which notes do.
- The docstring at `scripts/release.py:349-356` wants no `scheme://` in the description. A link keeps one if a second
  follows the first (`ReleaseUrls.SchemeLeft`), and text keeps its own; `ReleaseUrls.SchemeShown` says exactly which
  descriptions have one anywhere.

## Model

| member | source | states |
|---|---|---|
| `BrokerTheorems.Conservation` | native/macos/Notifications.swift:184-192 | in every reachable state each delivered message has one fate; it waits exactly if it is in its namespace's queue, was flushed only to a peer that got it, and a peer got it only directly or by that flush |
| `BrokerTheorems.FateIsFinal` | native/macos/Notifications.swift:302-328 | over any run from any reachable state, a message that no longer waits keeps its fate, so it leaves its queue once |
| `BrokerTheorems.InDeliveryOrder` | native/macos/Notifications.swift:302-306 | what a peer receives of one namespace is in the order of delivery, no message twice, each the delivered one and of that namespace |
| `BrokerReceipts.HandleSendsOwn` | native/macos/Notifications.swift:182-238 | handling a message sends only its peer, and only messages of the namespace this peer then has; only a valid hello changes that |
| `BrokerReceipts.StepSendsOwn` | native/macos/Notifications.swift:302-306 | any event but a read sends a peer only messages of the namespace it has before and after |
| `BrokerReceipts.SentAsNamed` | native/macos/Notifications.swift:184-192 | after any run a peer has the namespace of the last hello it sent, and all it was delivered is of a namespace it had named last at some time |
| `BrokerTheorems.DeliverReaches` | native/macos/Notifications.swift:302-306 | with recipients connected, exactly they get the message, once, unless their write fails and stops them; no other peer changes |
| `BrokerTheorems.QueueingFates` | native/macos/Notifications.swift:307-328 | with nobody connected, the fate of every message old and new: overflow of 64 queues, eviction of the oldest of sixteen, refusal when nothing listens, or waiting |
| `BrokerTimes.DeliverHolds` | native/macos/Notifications.swift:309-310 | a message nobody takes is held at the end of its queue with the time of its delivery, behind what was there but for the oldest of sixteen; other queues stay, or go when there are 64 |
| `BrokerTimes.RunSame` | native/macos/Notifications.swift:302-328 | no run changes an item that stays in a queue |
| `BrokerTimes.ExpiresByDelivery` | native/macos/Notifications.swift:190-192 | after any run in which a message still waits, the hello for it lets it expire exactly if thirty seconds or more have passed since its delivery |
| `BrokerEdges.RefusedExactly` | native/macos/Notifications.swift:315-328 | a message is refused exactly if its daemon's socket is known and nobody listens there |
| `BrokerEdges.WakeRefusedIs` | native/macos/Notifications.swift:315-328 | that socket is the one of its hello, or else the default one if its digest is the namespace, and its UTF-8 fits an address |
| `BrokerTheorems.EvictedIs` | native/macos/Notifications.swift:310 | the suffix of sixteen leaves out only the oldest, and only when the queue was full |
| `BrokerTheorems.RestIs` | native/macos/Notifications.swift:310 | everything else of the queue and the newcomer stay |
| `BrokerTheorems.HelloSettles` | native/macos/Notifications.swift:184-192 | a hello settles its namespace's queue: expired items expire, the others are flushed in order up to the first whose write is short and lost from it on (all of them for a closed peer); the peer is then closed exactly if there is such an item; it gets the flushed ones, and no other queue, fate or peer changes |
| `BrokerTheorems.NothingMissed` | native/macos/Notifications.swift:302-306 | over any run after which a peer is open and during which it kept its namespace, it got every message of that namespace delivered since |
| `BrokerTheorems.RepeatedHello` | native/macos/Notifications.swift:184-192 | a connected peer that repeats its hello gets nothing and changes no queue |
| `BrokerTheorems.StoppedHelloDrains` | native/macos/Notifications.swift:156-192 | a hello handled for a stopped peer empties the queue and writes nothing: every item expires or is lost |
| `BrokerTheorems.RejectThenHello` | native/macos/Notifications.swift:156-161 | a rejected line and a hello read in one chunk empty the queue unsent, read in two chunks they do not |
| `BrokerTheorems.QueueBounds` | native/macos/Notifications.swift:302-311 | in every reachable state no connected peer's namespace has a queue, queues hold 1 to 16 messages and are at most 64 |
| `BrokerTheorems.DescriptorSafety` | native/macos/Notifications.swift:273-285 | although descriptors are reused, the table maps each to its one open peer, has every open peer, and never more than 64 |
| `BrokerTheorems.LateStop` | native/macos/Notifications.swift:144-149 | over any later run, another stop of a stopped peer changes nothing and evicts nobody |
| `BrokerTheorems.ActsOfItsNamespace` | native/macos/Notifications.swift:204-235 | a message of a peer changes what is current only for identifiers of the namespace the peer has |
| `BrokerTheorems.Isolation` | native/macos/Notifications.swift:206-208 | the generation kept for a namespace and id is unchanged by any run that handles no show or close of them |
| `BrokerTheorems.NamespaceIsolated` | native/macos/Notifications.swift:204-235 | over any run in which no peer that has a namespace has a show or close handled, no generation under it changes, whatever all other peers send |
| `BrokerTheorems.Supersession` | native/macos/Notifications.swift:204-229 | under any interleaving of callbacks each first post is of the latest show with no close since, posts of one identifier rise in show order, and no show is posted twice |
| `BrokerActs.NoPostAfterClose` | native/macos/Notifications.swift:220-235 | from any reachable state, after a close of an identifier is read, no run posts under it before another show of it is handled |
| `BrokerActs.CurrentIsPosted` | native/macos/Notifications.swift:209-229 | a show is posted whatever happens in between, if nothing concerns its identifier and the peer lives, and may be retried if it has an attachment |
| `BrokerActs.BlockPosts` | native/macos/Notifications.swift:220-228 | the queued block posts exactly if the peer is alive and its show is the latest of the identifier in the history |
| `BrokerActs.SettingsDecide` | native/macos/Notifications.swift:209-220 | the settings drop a show or queue its block with what was attached, and nothing else |
| `BrokerActs.HandleActs` | native/macos/Notifications.swift:204-235 | told from the message: a close of the own namespace is recorded and leaves nothing current for `ns:id`, a show is recorded, current and waits for the settings, and no other message touches a notification |
| `BrokerActs.HandleStops` | native/macos/Notifications.swift:182-238 | which messages stop their peer, and that they do nothing else |
| `BrokerActs.HandleWaits` | native/macos/Notifications.swift:194-203 | a question about the status or for permission changes nothing until it is answered |
| `BrokerActs.HandleQuits` | native/macos/Notifications.swift:195-201 | what the request to quit does when it is handled |
| `BrokerActs.SocketKept` | native/macos/Notifications.swift:187-189 | a valid hello keeps an absolute socket path of less than 104 bytes for its namespace, and nothing else changes what is kept |
| `BrokerTheorems.WireIsWhatWasSent` | native/macos/Notifications.swift:163-175 | for any partial writes, the bytes written to a peer split into exactly the messages sent to it, and an open peer has nothing besides |
| `BrokerReceipts.SentIsHandled` | native/macos/Notifications.swift:150-175 | both ends together: bytes written under any schedule and read in any chunks, by a reader that decodes what was encoded, are handled as the messages sent, all of them or up to the chunk that completes the one that stops the reader |
| `BrokerTheorems.HandledAreLines` | native/macos/Notifications.swift:155 | after any run every line ever handled is shorter than 2^20 bytes |
| `BrokerTheorems.QuitsOnlyIdle` | native/macos/Notifications.swift:195-201 | whoever asks, stopped or not, it terminates exactly if no open peer has a namespace, and an open peer is told which, or stopped |
| `BrokerTheorems.WakeIsTried` | native/macos/Notifications.swift:315-318 | a socket path kept from a hello fits an address, so waking that daemon is always tried |
| `BrokerRuns.Reachable` | native/macos/Notifications.swift:125-339 | the invariant of table, wires, queues, receipts, notes and sockets holds after every run |
| `BrokerRuns.StepKeeps` | native/macos/Notifications.swift:125-339 | every single step keeps that invariant |
| `BrokerRuns.HandleKeeps` | native/macos/Notifications.swift:182-238 | so does handling any message, for any peer, stopped or not |
| `BrokerRuns.DrainKeeps` | native/macos/Notifications.swift:156-161 | so does the line loop on any buffer |
| `BrokerRuns.QueuedKeeps` | native/macos/Notifications.swift:307-328 | so do queueing and waking |
| `BrokerRuns.AcceptKeeps` | native/macos/Notifications.swift:273-285 | so does accepting a descriptor the kernel has free |
| `BrokerRuns.CancelKeeps` | native/macos/Notifications.swift:141 | so does closing a stopped peer's descriptor |
| `BrokerRuns.SendAllAttempts` | native/macos/Notifications.swift:305 | the recipients are attempted once each whatever the order, nobody else is touched |
| `BrokerHistory.RunFollows` | native/macos/Notifications.swift:125-339 | runs only extend wires, receipts, handled lines and history; stopped peers stay stopped and are written nothing; fates stay |
| `BrokerNotes.PostsAreCurrent` | native/macos/Notifications.swift:204-229 | from the invariant of the notes alone: posts are current, rising and unique |
| `BrokerNotes.LatestMeans` | native/macos/Notifications.swift:208-233 | a show is the latest of its identifier exactly if it was handled and nothing concerning the identifier after it |
| `BrokerNotes.IdentInjective` | native/macos/Notifications.swift:206 | for namespaces of 32 hexadecimal digits, `ns:id` names one pair only |
| `BrokerNotes.RepostCurrent` | native/macos/Notifications.swift:112-123 | the bare retry shows the current notification exactly if no show or close of its identifier was handled since the first post |
| `BrokerNotes.StaleRepost` | native/macos/Notifications.swift:112-123 | whatever may still be retried can be superseded and then put back |
| `BrokerNotes.RetryCurrent` | native/macos/Notifications.swift:112-123 | a retry shows the current notification exactly if, when it fires, the generation kept for its identifier is still its own |
| `BrokerRetry.StaleRun` | native/macos/Notifications.swift:112-123 | a possible run from the start, of one peer that says hello and shows a notice twice, ends with the first notification put back over the second |
| `BrokerWire.AnyChunking` | native/macos/Notifications.swift:150-162 | for every chunking of a stream of short enough lines, the state is that of handling one by one the lines that have arrived when reading ends, and for an open peer these are all and the rest is buffered |
| `BrokerWire.HandledInChunks` | native/macos/Notifications.swift:150-162 | the lines recorded as handled are then those arrived lines up to the first that cannot be read |
| `BrokerWire.HandledAre` | native/macos/Notifications.swift:156-161 | one pass of the loop appends exactly the lines in front of the first unreadable one, whether or not the peer is stopped among them |
| `BrokerWire.ChunkingShows` | native/macos/Notifications.swift:156-161 | the lines handled, and the whole state, are those of the lines up to the first that stops the peer if and only if it is the last, or it or the next is unreadable, or the chunk that completes it does not complete the next |
| `BrokerWire.ArrivedUntilStop` | native/macos/Notifications.swift:156-161 | the lines that have arrived when reading ends are those complete at the end of the chunk that completes the stopping one |
| `BrokerWire.ChunksDoNotMatter` | native/macos/Notifications.swift:150-162 | if no line but perhaps the last stops the peer, every chunking gives the state of handling every line |
| `BrokerWire.LongLineStops` | native/macos/Notifications.swift:155 | a line of 2^20 bytes or more stops its peer unhandled, whatever the chunks |
| `BrokerInvariants.SendWire` | native/macos/Notifications.swift:163-175 | one send under any write schedule leaves whole messages on the wire, or stops the peer with at most part of one line |
| `BrokerEdges.PushIs` | native/macos/Notifications.swift:163-175 | written are the bytes of all writes in front of the first error or empty write; an interrupted one takes none and ends nothing |
| `BrokerEdges.ReadStops` | native/macos/Notifications.swift:152-155 | the end of the stream or more than 2^20 bytes stop the peer and nothing else changes |
| `BrokerEdges.ReadHandles` | native/macos/Notifications.swift:150-162 | anything up to exactly 2^20 bytes is handled line by line |
| `BrokerEdges.AcceptedIs` | native/macos/Notifications.swift:159 | a line counts exactly if it decodes to a message of version 2 |
| `BrokerEdges.ReplySends` | native/macos/Notifications.swift:176-181 | the answer about the status reaches its peer or stops it |
| `BrokerEdges.AcceptIs` | native/macos/Notifications.swift:273-285 | a connection of another user or the 65th is forgotten, any other is a new open peer found by its descriptor |
| `BrokerEdges.CancelFrees` | native/macos/Notifications.swift:141-147 | a descriptor can be handed out again only once it was closed |
| `Broker.Peer.Stop` | native/macos/Notifications.swift:144-149 | marks the peer closed and removes its descriptor, once |
| `Broker.Peer.Send` | native/macos/Notifications.swift:163-175 | the write loop with its offset: the bytes that reach the wire, and a stop if not all do |
| `Broker.Peer.Read` | native/macos/Notifications.swift:150-162 | one read event moves the broker as `BrokerModel.Read` does |
| `Broker.Peer.ReadLines` | native/macos/Notifications.swift:156-161 | the line loop over the mutable buffer |
| `Broker.Peer.Handle` | native/macos/Notifications.swift:182-238 | dispatch on the message kind, with unknown kinds stopping the peer |
| `Broker.Peer.Hello` | native/macos/Notifications.swift:184-192 | namespace check, socket, queue removed before it is sent |
| `Broker.Peer.QuitIfIdle` | native/macos/Notifications.swift:195-201 | busy exactly if some connected peer has a namespace; terminates otherwise |
| `Broker.Peer.ShowNotice` | native/macos/Notifications.swift:204-208 | a fresh generation for the identifier, or a stop |
| `Broker.Peer.CloseNotice` | native/macos/Notifications.swift:230-233 | the generation removed, or a stop |
| `Broker.Server.AcceptPeers` | native/macos/Notifications.swift:273-285 | the accept loop over any arrivals |
| `Broker.Server.Deliver` | native/macos/Notifications.swift:302-312 | the recipients collected first and sent to in dictionary order, or the queue and a wake |
| `Broker.Server.Hold` | native/macos/Notifications.swift:307-310 | overflow and suffix on the dictionary of queues |
| `Broker.Server.Wake` | native/macos/Notifications.swift:315-328 | the queue is dropped exactly if the path exists, fits and nothing listens there |
| `Broker.Server.PostShow` | native/macos/Notifications.swift:220-228 | posts only under the current generation and a living peer |
| `Varint.AndLow` | examples/frontend.py:60 | the mask 0x7F keeps the remainder by 128 |
| `Varint.OrAdds` | examples/frontend.py:69 | or with a number shifted past all of the other is addition |
| `Varint.EncodeIsVarint` | examples/frontend.py:58-61 | the head is a varint of its number, and not padded |
| `Varint.PrefixFree` | examples/frontend.py:67-71 | no varint is the start of another |
| `Varint.Canonical` | examples/frontend.py:58-61 | it is the shortest varint of its number, and the only one without padding |
| `Varint.EncodeLength` | examples/frontend.py:58-61 | k bytes exactly for 128^(k-1) <= n < 128^k, one byte for 0 |
| `Varint.WriteLength` | examples/frontend.py:58-61 | the loop with `&`, `\|` and `>>` builds that head for any length |
| `Varint.ReadLength` | examples/frontend.py:66-71 | the or-and-shift loop gives the sum of the groups, or fails exactly if the stream ends first |
| `Frames.FrameRoundTrip` | examples/frontend.py:55-72 | reading a frame in front of anything gives its body and leaves the rest |
| `Frames.AnyHead` | examples/frontend.py:65-72 | so does reading a body behind any varint of its length, padded or not |
| `Frames.StreamRoundTrip` | examples/frontend.py:55-72 | for all bodies, reading what was sent gives exactly them with nothing left over |
| `Frames.StreamInjective` | examples/frontend.py:54-61 | different bodies never make the same stream |
| `Frames.CutStream` | examples/frontend.py:65-72 | what is read from any part of a stream: the complete bodies, and a short one exactly if the cut is inside a body |
| `Frames.CutIs` | examples/frontend.py:65-72 | where that cut is |
| `Frames.AwaitFinds` | examples/frontend.py:78-79 | the loop returns the first response with the id and uses no byte after it |
| `Frames.AwaitFails` | examples/frontend.py:78-79 | it fails at the first body that cannot be parsed, or at the end of the stream |
| `Frames.Outgoing.Send` | examples/frontend.py:51-62 | ids count from 1, the frame is appended, and after any run of sends reading gives every body in turn |
| `Frames.Incoming.Read` | examples/frontend.py:65-72 | one frame off the stream, or the failure when it has ended |
| `Frames.Incoming.AwaitResponse` | examples/frontend.py:78-79 | the loop is the wait defined on streams |
| `Replica.RowIsDecided` | examples/frontend.py:84-96 | after any history an id has a row exactly if its last operation since the last reset was an upsert, and it is that one |
| `Replica.KeysByBirth` | examples/frontend.py:90-96 | iteration goes by the start of each id's current run: kept on overwrite, lost on removal |
| `Replica.BirthIs` | examples/frontend.py:92-96 | that start is an upsert of an id without a row, which has one from then on |
| `Replica.ResetForgets` | proto/whatevr/v2/frame.pb.go:7331-7332 | two replicas fed the same operations from a reset on hold equal dicts, order included |
| `Replica.SameDecisions` | examples/frontend.py:84-96 | histories that decide every id alike give equal maps |
| `Replica.ShownIs` | examples/frontend.py:99 | the list shown has each decided row once, by the bytes of `sort` and then by birth |
| `Replica.ShownUnique` | examples/frontend.py:97-99 | no other list does |
| `Replica.BySortIsPreorder` | examples/frontend.py:97-99 | comparing bytes is a total preorder |
| `Replica.View.Take` | examples/frontend.py:85-96 | one frame updates the dict as the changes by their places say, reset first; a change without an arm removes the id "" and other frames do nothing |
| `Replica.FrameUpdates` | examples/frontend.py:85-96 | that update for every history: an id's row after a frame is that of the last change about it, else the one from before unless the frame resets; ids that stay keep their order, and those that enter follow in the order of the changes |
| `Replica.View.Show` | examples/frontend.py:98-102 | what is printed shows the whole history |
| `StableSort.SortRanks` | examples/frontend.py:99 | sorting keeps the input order of equals |
| `StableSort.SortKeeps` | examples/frontend.py:99 | sorting permutes |
| `StableSort.RankedUnique` | examples/frontend.py:99 | there is only one such order |
| `Lines.UnlinesInjective` | native/macos/Notifications.swift:156-158 | a newline-framed stream splits in one way |
| `LineReader.NextSplits` | scripts/verify_features.py:82-100 | for any chunks and timeouts, buffer and bytes received are the lines taken and the buffer left |
| `LineReader.NextGives` | scripts/verify_features.py:86-100 | a turn gives the first line that is not blank, or ends with only part of a line waiting |
| `LineReader.ReadGives` | scripts/verify_features.py:82-100 | frames given so far are the non-blank lines in order, and a timeout leaves no complete line behind |
| `LineReader.WaitSplits` | scripts/verify_features.py:107-110 | nothing is lost over a whole wait either |
| `LineReader.WaitGives` | scripts/verify_features.py:107-110 | the answer is the first frame with the id and all before it were for others; a line that is no JSON or no object ends the wait and is gone |
| `LineReader.AnswerIsTheStreams` | scripts/verify_features.py:103-110 | two cuts of one stream with different stalls give the same answer and stop at the same line |
| `LineReader.Context.ReadFrame` | scripts/verify_features.py:82-100 | the loop does that, and over any run lines and buffer are everything received |
| `LineReader.Context.Cmd` | scripts/verify_features.py:103-110 | ids count from 101, each sent once, and the reply is that of the wait |
| `Xml.ScanAppend` | scripts/release.py:344-345 | pieces that parse can be put together |
| `Xml.EscapeFirst` | scripts/release.py:359-360 | the three replacements are one pass: no replacement is replaced again |
| `Xml.ScanEscaped` | scripts/release.py:359-360 | escaped text reads back as the text, none of it as markup |
| `AppStream.SilentIs` | scripts/release.py:298-333 | which inline content prints as nothing |
| `AppStream.InlineShows` | scripts/release.py:313-345 | every inline element reads back as its content, with `em` and `code` where they were |
| `AppStream.PartsShow` | scripts/release.py:284-298 | so does what the children of an item add to its text |
| `AppStream.ItemLists` | scripts/release.py:282-304 | an item with any nesting reads as a flat run of items, its own text first |
| `AppStream.BlockYields` | scripts/release.py:247-279 | every block reads back as its paragraphs and lists |
| `AppStream.PrintedParses` | scripts/release.py:237-345 | for every tree the output is balanced, uses only the allowed elements where they may stand, has no raw markup characters, and says exactly what the tree says |
| `ReleaseShape.HeadingReads` | scripts/release.py:252-255 | a heading's lines read as an emphasised paragraph |
| `ReleaseShape.InlineReads` | scripts/release.py:314-323 | emphasis, code and breaks stand where they stood |
| `ReleaseShape.LinkReads` | scripts/release.py:325-334 | a link reads as its text and then its address without the scheme |
| `ReleaseShape.QuoteReads` | scripts/release.py:264-268 | a quote reads as what it holds, in its place |
| `ReleaseShape.ItemReads` | scripts/release.py:282-304 | an item's own texts come first, then the items of the list between them, in the outer list |
| `ReleaseNotes.Describe` | scripts/release.py:237-244 | the lines of the document, which parse, or the failure when there are none |
| `ReleaseNotes.PrintBlock` | scripts/release.py:247-279 | the loops over list items and quoted blocks |
| `ReleaseNotes.PrintItem` | scripts/release.py:282-304 | parts and nested lists gathered first, then printed |
| `ReleaseBlank.FailsExactly` | scripts/release.py:237-244 | it fails exactly on notes of nothing but blank code, blank HTML and blocks that are never printed, in quotes or not |
| `ReleaseBlank.ItemlessExactly` | scripts/release.py:282-304 | a list is printed without items exactly if at no depth there is a paragraph or heading that is not silent, or code that is not blank |
| `ReleaseBlank.EmptyListExactly` | scripts/release.py:256-263 | the description has such a list exactly if the notes do, in quotes or not |
| `ReleaseBlank.NothingSeen` | scripts/release.py:237-345 | the description has no visible character exactly if no printed part of the notes has one |
| `ReleaseBlank.BlankDescription` | scripts/release.py:242-243 | notes pass the check and give nothing to see exactly if no printed part has a visible character and there is a paragraph, a heading or a list |
| `ReleaseBlank.BlankExamples` | scripts/release.py:242-263 | an empty paragraph and a list of a quote do |
| `ReleaseBlank.CollapseBlank` | scripts/release.py:307-310 | code collapses to nothing exactly if it is white space |
| `ReleaseCode.CodeIs` | scripts/release.py:307-310 | for every cut of a text at its line breaks, the code printed is the lines that are not blank, unchanged, in order, with exactly one blank between neighbours |
| `ReleaseCode.CodeOnOneLine` | scripts/release.py:307-310 | no line break is ever printed in code |
| `ReleaseCode.CutExists` | scripts/release.py:310 | every text has such a cut, with a carriage return and its line feed as one break |
| `ReleaseBlank.StripIs` | scripts/release.py:275 | stripping cuts off the white space at both ends, all of it and nothing else |
| `ReleaseUrls.UrlShown` | scripts/release.py:348-356 | a leading scheme is dropped from a URL and nothing else |
| `ReleaseUrls.SchemeLeft` | scripts/release.py:349-356 | what is shown of a URL starts with a scheme exactly if a second one follows the first |
| `ReleaseUrls.SchemeLeftExample` | scripts/release.py:349-356 | a URL for which one is left |
| `ReleaseUrls.SchemeApart` | scripts/release.py:298-333 | blanks and parentheses put between two texts never join them to a scheme |
| `ReleaseUrls.InlineWoven` | scripts/release.py:313-341 | printed inline content is its runs, texts with nothing in between, with blanks and parentheses between the runs |
| `ReleaseUrls.SchemeShown` | scripts/release.py:351-352 | the description has a scheme at any position exactly if one run of the tree has |
| `ReleaseUrls.SchemeInText` | scripts/release.py:314-323 | a URL written as text keeps its scheme, even with markup in the middle |
| `ReleaseText.InlineKeeps` | scripts/release.py:313-345 | visible characters printed for an inline element and those it loses are those of its text, address and title and the parentheses it gains |
| `ReleaseText.TextConserved` | scripts/release.py:221-228 | for any tree, the visible characters printed, those skipped in list items and those lost of addresses, titles and fences are together all of the tree's and the parentheses added |
| `ReleaseText.NothingDropped` | scripts/release.py:224-226 | the characters printed are those of the text and the added parentheses exactly if no list item has a quote or HTML block with text, no printed link has a scheme or a title, and no printed fence an info string |
| `ReleaseText.SchemeDropped` | scripts/release.py:335-356 | an autolink loses its scheme although nothing is skipped |
| `ReleaseText.QuoteInItemDropped` | scripts/release.py:286-295 | the smallest case in which text is lost, and a list is printed without items |
| `ReleaseText.InkCollapse` | scripts/release.py:307-310 | flattening a code block loses only white space |
| `Torus.WrapDelta` | scripts/gen_doodle.py:634-646 | the two differences, adjusted in place |
| `Torus.WrapMinimal` | scripts/gen_doodle.py:634-646 | on the tile no translate by whole periods is shorter, and it is at most half a period |
| `Torus.NearIs` | scripts/gen_doodle.py:728-729 | comparing squares decides as comparing the distance does |
| `Torus.ApartInPlane` | scripts/gen_doodle.py:726-731 | the test on the shortest difference decides for all copies in the tiled plane |
| `Torus.OwnCopies` | scripts/gen_doodle.py:634-646 | the copies of one motif keep any distance up to the tile's width |
| `Placement.Pick` | scripts/gen_doodle.py:663-670 | for any pool and k each number is drawn k/m times rounded down or up; an empty pool fails |
| `Placement.CountedIsFair` | scripts/gen_doodle.py:663-670 | the open bag decides between the two |
| `Placement.Side` | scripts/gen_doodle.py:677 | the grid has room for every motif and is the smallest that has |
| `Placement.Cells` | scripts/gen_doodle.py:679 | the cells row by row |
| `Placement.Spread` | scripts/gen_doodle.py:676-687 | each motif is put into the cell the shuffle gives it, none is dropped, no two share a cell, and each point is strictly inside its own |
| `Placement.SpotShare` | scripts/gen_doodle.py:683-686 | a jitter is the share of the cell's width and height at which the point lies |
| `Relaxation.Balance` | scripts/gen_doodle.py:696-715 | actions and reactions between all pairs cancel, for any forces |
| `Relaxation.PushIs` | scripts/gen_doodle.py:701-713 | two motifs too close are pushed apart along their line by half of what is missing each; others are not pushed |
| `Relaxation.SumsKept` | scripts/gen_doodle.py:695-718 | over any number of passes the sums of x and of y change by whole tiles only |
| `Repulsion.PassMoves` | scripts/gen_doodle.py:695-718 | one more pass moves each motif by the sum of what the others give it, the first components to x and the second to y, but for whole tiles |
| `Repulsion.GivenIs` | scripts/gen_doodle.py:699-715 | what one motif gives another: nothing if they are far enough, else half of what is missing along their line and away, and the drawn direction if they coincide |
| `Repulsion.LonePair` | scripts/gen_doodle.py:695-718 | a motif that only one other is near moves by half of what is missing, along their line and away from it |
| `Relaxation.StaysInside` | scripts/gen_doodle.py:716-718 | positions stay on the tile |
| `Relaxation.Moves` | scripts/gen_doodle.py:696-715 | the nested loops give each motif the net force of all others |
| `Relaxation.Pass` | scripts/gen_doodle.py:695-718 | one pass in place |
| `Relaxation.Relax` | scripts/gen_doodle.py:694-718 | all passes |
| `Overlaps.BiggerWins` | scripts/gen_doodle.py:720-733 | a motif is dropped exactly if it clashes with a kept one that is bigger, or as big and earlier |
| `Overlaps.NothingFits` | scripts/gen_doodle.py:720-733 | no dropped motif could be put back, and one that nothing outranks is kept |
| `Overlaps.KeptApart` | scripts/gen_doodle.py:720-733 | kept motifs are pairwise separated |
| `Overlaps.GreedySelects` | scripts/gen_doodle.py:723-733 | kept are exactly those that no earlier kept one clashes with |
| `Overlaps.SelectionUnique` | scripts/gen_doodle.py:723-733 | no other selection is |
| `Overlaps.DropOverlaps` | scripts/gen_doodle.py:721-733 | the loop is that selection in the stable order by falling radius |
| `Overlaps.FilledIs` | scripts/gen_doodle.py:737-756 | at most as many fillers as wanted, each a draw, each clear of all before it |
| `Overlaps.FillersAre` | scripts/gen_doodle.py:740-756 | each placement after the kept motifs stands where one of the 60000 attempts drew it, with its radius scaled |
| `Overlaps.FilledTried` | scripts/gen_doodle.py:740-756 | if fewer fit, all 60000 attempts were made and no rejected draw has room |
| `Overlaps.AddFillers` | scripts/gen_doodle.py:737-756 | the loop with its two counters |
| `Overlaps.NoOverlap` | scripts/gen_doodle.py:720-756 | any copies of any two final placements are at least their radii and the smaller gap apart |
| `Layout.SettledIs` | scripts/gen_doodle.py:672-718 | before the overlap pass no motif is lost, each has its scaled radius, and all are on the tile |
| `Layout.StartedAt` | scripts/gen_doodle.py:681-690 | each motif begins in the cell its shuffle gives it, at the share of the cell that its jitter is |
| `Layout.FinalIsFull` | scripts/gen_doodle.py:720-756 | a motif is left out exactly if a kept one that outranks it clashes with it, some motif is kept, and too few fillers means that no rejected draw has room |
| `Layout.Build` | scripts/gen_doodle.py:649-758 | the whole pipeline: the result is the selection and the fillers made from the relaxed spread of all given radii, counted right, full in that sense, on the tile and free of overlap |
| `Seamless.InRendered` | scripts/gen_doodle.py:766-778 | the copies drawn are those of the nine whose box meets the tile |
| `Seamless.NearCopiesSuffice` | scripts/gen_doodle.py:771-776 | with a reach below the tile's width no other copy meets it |
| `Seamless.NineSuffice` | scripts/gen_doodle.py:771-776 | nine copies are enough for every centre on the tile exactly with such a reach |
| `Seamless.TileIsPlane` | scripts/gen_doodle.py:762-778 | on the tile, edges included, the picture is the endless pattern |
| `Seamless.NoSeam` | scripts/gen_doodle.py:762-778 | opposite edges agree at every point |
| `Seamless.ProgramTile` | scripts/gen_doodle.py:743-778 | for the tile of 880 and every scale that is drawn both hold |
| `Seamless.Render` | scripts/gen_doodle.py:766-778 | the loops over motifs and shifts |

## Left out

- The daemon, its frontends in Go and Qt, and the protocol between them: not part of this model, apart from the view updates the example frontend applies.
- AppKit, the notification centre, thumbnails, directory and lock set-up in `native/macos/Notifications.swift`: user interface and system calls. A settings query may be answered at any later time with any status (`BrokerModel.ReplyEvent`), which allows more than the system does.
- The JSON and protocol buffer codecs are arguments. JSON output is taken to have no newline; that encoding never fails is taken as given.
- Swift compares strings by canonical equivalence and counts grapheme clusters; the model compares and counts Unicode scalars. The two agree on namespaces of hexadecimal digits, the fullwidth ones included.
- `BrokerModel.Show`: a generation is a fresh UUID in the program and the number of the show in the model.
- `Broker.Server.Deliver`: the order of a Swift dictionary is any order. The fields `issued`, `delivered` and `lines` number the history and are not in the program.
- Cutting titles to 200 characters and filling in the notification's content in `native/macos/Notifications.swift:211-219`: straight copying.
- The parser of Markdown: the tree is any tree. HTML comments, the text of dates and versions, and the git and editor steps of `scripts/release.py` are not modelled.
- `ReleaseText.TextConserved`: white space is not counted. A link reference definition has no text in the tree; its address and title count where it is used.
- `ReleaseText.NothingDropped`: list numbers are not counted. The number a list starts at is dropped, and so are the numbers of a nested list, because `scripts/release.py:256-262` never reads them.
- `AppStream.PrintedParses`: control characters, which XML 1.0 does not allow in any form, are printed as they come and are ordinary characters to the model's parser.
- `Xml.Parse`: accepts a list without items, which the printer can produce.
- Rounding in `scripts/gen_doodle.py`: coordinates are reals, and centres are drawn as they are and not to two decimals. `ceil(sqrt(n))` is the smallest square that holds n.
- `Relaxation.PushIs`: coincident motifs are pushed in a random direction, which the model takes from its arguments; the direction's length is not fixed.
- `Layout.Build`: the motifs' drawings, rotation and the tiers they are picked from only label the placements and are left out there; `Placement.Pick` has the drawing from a tier.
- `Seamless.NoSeam`: that a motif stays within 60 times its scale is assumed of its drawing, as the code does.
- `Replica.View.Show`: the text of a printed row is left out; it pads and cuts three fields.
- `LineReader.Context.Cmd`: sending always succeeds, and a failed `recv` is a timeout. `subscribe_collect` and the checks built on it are left out.
