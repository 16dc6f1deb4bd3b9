# Verification of the POP3 server and its protocol libraries

A Dafny model of the repository's server core (`src/server`, `src/shared`) and of the protocol
libraries kept beside it (`src/ignore`, `src/stash`). The code is modelled as it is written, with
its own branches, constants and error paths. Where it does not do what its comments, tests or
RFC 1939 suggest, the model keeps the code's behaviour, a lemma shows an input where the two part,
and another lemma says exactly when they agree.

Each component has a specification as plain functions over values, and, where the source changes
state in place, a class whose methods are proved to compute those functions. The main theorems are
about all runs of those functions.

| file | models |
|---|---|
| `Bytes.dfy` | bytes and C strings |
| `Buffer.dfy` | `buffer.c`: the two-offset buffer against a bounded queue |
| `Parser.dfy`, `ParserUtils.dfy` | `parser.c`, `parser_utils.c`: the table-driven parser and the generator of comparing automata |
| `ByteMachine.dfy`, `Hello.dfy`, `Request.dfy` | the consuming loop and the two SOCKS5 parsers, `hello.c` and `request.c` |
| `Stm.dfy` | `stm.c`: the state-machine engine |
| `SelectorTable.dfy`, `SelectorDispatch.dfy`, `SelectorBlock.dfy`, `SelectorHandoff.dfy` | `selector.c`: the table, one dispatch pass, the list of finished blocking jobs, and the hand-off from worker threads |
| `Modes.dfy`, `Connections.dfy`, `PollTurns.dfy`, `PollLoop.dfy` | `main.c`: session modes, the parallel arrays of clients, the poll pass as a function and as a loop over the arrays |
| `Framing.dfy` | how `handle_client` cuts received bytes into lines |
| `MailList.dfy`, `Mailbox.dfy` | the three linked lists of a maildir and the commands over them |
| `Session.dfy`, `Client.dfy` | a session as a function from lines to states and replies, and the objects that compute it |
| `SessionRuns.dfy`, `SessionStream.dfy` | theorems over whole runs of a session, and from received bytes to such runs |
| `Commands.dfy` | each command line by its bytes: what it is answered and what it changes |
| `ServerRuns.dfy` | the table of connections with the sessions in it: theorems over whole runs of the server |

## The main results

* Files are removed only by a QUIT in a transaction, and that QUIT removes exactly the messages whose
  numbers DELE lines named in range and that no later login or RSET undid, each once, by ascending
  number (`SessionRuns.OnlyQuitRemoves`); the line "DELE " with the digits of n names message n
  (`Commands.DeleOfDigits`).
* Each setting is the text of the last manager's line that set it, or what another session left later
  (`SessionRuns.SettingIsLastSet`); only a pass with a call at the second listener lets in a manager
  (`PollTurns.PassAdmits`, `ServerRuns.PassOfUsersConfiguresNothing`).
* A session is in its transaction if and only if a PASS was accepted and nothing left it since; the
  account and the messages are then still the ones of that PASS (`SessionRuns.InTransactionIff`,
  `SessionRuns.TransactionIsEarned`).
* Whatever `recv` returns, successive `handle_client` calls are a run over the extracted lines; if
  every call is smooth, the session does what one does that reads byte by byte and handles each line
  when its line feed comes (`SessionStream.CallsAreARun`, `SessionStream.StreamIsHandledLineByLine`),
  and smoothness is exactly when one call treats its bytes as the stream does
  (`Framing.CallIsFaithfulIff`).
* In the whole server, with clients coming, sending and leaving in any order and sharing settings and
  counters, every session is a run of its own (`ServerRuns.EverySessionIsARun`), so files go only by
  a QUIT (`ServerRuns.ServerRemovesByQuit`); METR's figures are what all clients together were sent
  (`ServerRuns.CountersAreWhatWasSent`); without a manager no setting and no listener moves
  (`ServerRuns.UsersConfigureNothing`).
* In every interleaving of workers and selector, a queued job's wake-up is pending or coming if and
  only if not all listed jobs were signalled before the selector's first call; every job is drained
  once, as the loop of `handle_block_notifications` does it (`SelectorHandoff.NoLostWakeupIff`,
  `SelectorHandoff.ExactlyOnce`).
* A poll pass terminates although it grows and shrinks the table it walks over; it serves nobody
  twice, exactly the clients whose flag was up unless a removal moved them, and whoever leaves had
  ended (`PollTurns.PassGuarantees`, computed on the arrays by `PollLoop.PollPass`).
* The selector refines a map, through growth; a dispatch pass calls back in order, at most once per
  descriptor and kind, and exactly when it should (`SelectorDispatch.CallsAreOrderly`,
  `SelectorDispatch.CalledIff`), for any callbacks, those that grow the table included; it leaves
  the table behind exactly under the condition of `SelectorDispatch.PassIsStaleIff`.
* The generated automaton decides case-insensitive equality (`ParserUtils.LastEventDecides`).
* The request parser agrees with an independent reading of section 4 of RFC 1928 on every input, and
  encodings come back unchanged (`Request.ConsumeAgreesWithDecode`, `Request.RoundTripIff`).

## Where code and intention part

* `buffer_compact` wipes the whole array at its end, so an explicit compaction keeps how many bytes
  are unread but not the bytes (`ByteBuffer.CompactKeepsUnreadIff`). The one in `buffer_read_adv`
  runs on an empty buffer and is harmless.
* `parser_reset` keeps the last event, which a byte without a transition reports again
  (`Parser.ResetIsFreshIff`). The generated automata have no such byte.
* A parser that is done still swallows one byte when it is asked to consume more
  (`ByteMachine.ChunkingIff`, `Hello.DoneParserSwallowsAByte`).
* A domain of length 0 in a request writes in front of the address array, and the parser then takes
  the next byte for the address (`Request.RoundTripIff`, `Request.EmptyDomainNeverDone`).
* `selector_register` does not make room for a descriptor equal to the table size
  (`SelectorTable.SlotExistsIff`).
* `handle_iteration` keeps a pointer into the table over the read callback, which can move the table.
  It goes through that pointer if and only if it reaches a descriptor selected for writing whose read
  callback registers a descriptor behind the table (`SelectorDispatch.PassIsStaleIff`,
  `SelectorDispatch.PassCanBeStale`); a table of full size is safe (`SelectorDispatch.FullTableIsSafe`).
  `handle_block_notifications` looks its slot up for every node, so growth is harmless there
  (`SelectorBlock.HandleBlockNotifications`).
* A write callback gets the attachment fetched before the read callback ran
  (`SelectorDispatch.WriteCanGetAStaleAttachment`); it is the current one exactly when what the read
  callback did leaves the descriptor with the attachment it had (`SelectorDispatch.TurnDataIsCurrentIff`).
* A worker that signals before `selector_select` has stored its thread signals nobody, and the
  selector sleeps on the job (`SelectorHandoff.WakeupCanBeLost`, `SelectorHandoff.NoLostWakeupIff`).
* A second close of a state machine reports the same departure again (`Stm.SecondCloseIsSilentIff`,
  `Stm.SecondCloseCanDepartAgain`).
* `add_client` lets one client more through than the arrays hold (`Connections.Client1023IsLetThrough`);
  the model ends the pass there, which it comes to exactly when a flagged listener's accept succeeds
  on a full table (`PollTurns.PassOverrunsIff`).
* No one resets the partial line of a client slot, so a new client can begin in the middle of an
  old one's line: exactly when the last removal that freed its slot moved out of it a client in the
  middle of a line (`Connections.NewClientStartsMidLineIff`, and for sessions
  `ServerRuns.NewSessionStartsMidLineIff`). It then runs a command that is not its own exactly when the
  first thing it receives ends that line (`SessionStream.OwnCommandsIff`).
* No one lowers the flag of a poll entry that a removal frees, so a newcomer can be served in the
  pass that accepts it without poll having reported it (`PollTurns.NewcomerCanBeServedUnasked`);
  of those no removal moved, exactly the ones in flagged slots are served (`PollTurns.PassGuarantees`).
* A received chunk without a line feed replaces an older partial line instead of extending it, and
  a carriage return at the very end of a chunk stays in the line (`Framing.CallIsFaithfulIff`,
  `Framing.SplitWordIsLost`, `Framing.SplitCrStays`).
* RETR looks its number up in one list after the other without subtracting their lengths
  (`Mailbox.RetrieveIsMessageIff`).
* `delete_marked` moves the head of a list but never unlinks behind it
  (`MailList.ChainIsUnmarkedIff`).
* LIST with a number outside the messages is not answered (`SessionRuns.UnansweredIff`,
  `SessionRuns.ListCanBeSilent`).
* USER takes the first account whose name starts with the given text
  (`SessionRuns.UserPicksItsNameIff`).
* A changed base directory makes QUIT remove files PASS never listed
  (`SessionRuns.RemovedIsListedIff`, `SessionRuns.MovedBaseDirRemovesElsewhere`).
* A line shorter than four bytes fails the assertion in `buffer_read_adv`; the session is then
  `aborted` (`Session.StopsOnFinalLine`).

## Model

| member | source | states |
|---|---|---|
| ByteBuffer.Buffer.WriteAdv | src/shared/buffer.c:49-55 | appends the bytes already stored at the write offset to the queue; a negative count does nothing |
| ByteBuffer.Buffer.ReadAdv | src/shared/buffer.c:57-68 | drops the oldest bytes; a drained buffer starts over, wiped; otherwise the array is untouched |
| ByteBuffer.Buffer.Read | src/shared/buffer.c:70-80 | takes the oldest byte, or gives NUL and changes nothing when empty |
| ByteBuffer.Buffer.Write | src/shared/buffer.c:82-88 | appends a byte, or drops it at the limit |
| ByteBuffer.Buffer.Compact | src/shared/buffer.c:90-104 | moves the offsets to the front and leaves nothing but zeros |
| ByteBuffer.RunConserves | src/shared/buffer.c:11-104 | over every run of writes, claims of stored bytes, reads and advances no byte is lost, repeated or reordered and the offsets stay in range |
| ByteBuffer.WriteDroppedIff | src/shared/buffer.c:82-88 | a write is dropped exactly when the write offset is at the limit |
| ByteBuffer.CompactLosesUnreadBytes | src/shared/buffer.c:90-104 | three unread bytes come back as zeros |
| ByteBuffer.CompactKeepsUnreadIff | src/shared/buffer.c:90-104 | an explicit compaction keeps the unread count always and the unread bytes exactly when they were NUL |
| Parser.Parser.FeedByte | src/shared/parser.c:49-82 | the loop over the transitions takes the first that matches, runs its one or two actions and moves on; without a match state and first event stay |
| Parser.Parser.Reset | src/shared/parser.c:44-47 | only the state goes back to the start |
| Parser.FeedAllConcat | src/shared/parser.c:49-82 | feeding a word in two pieces is feeding it whole |
| Parser.FeedTakesFirst | src/shared/parser.c:49-82 | a byte takes the first transition that matches it: its state, its event and its second event; without one state and first event stay |
| Parser.MatchesIff | src/shared/parser.c:59-68 | a transition is for one byte, with 512 for every byte, or for the bytes whose class has a bit in common with it |
| Parser.ResetIsFreshIff | src/shared/parser.c:44-82 | a reset parser reports what a fresh one would exactly when the byte has a transition or no event was stored |
| Parser.ResetCanReportAStaleEvent | src/shared/parser.c:44-82 | a one-rule table where it does not |
| Parser.ResetForgets | src/shared/parser.c:44-82 | where every state accepts every byte a reset forgets the whole past |
| ParserUtils.StrCmpI | src/ignore/parser_utils.c:74-137 | the filled arrays lay out the comparing automaton of the string |
| ParserUtils.StepOfTable | src/ignore/parser_utils.c:100-126 | state i advances exactly on the i-th byte or, for a letter, on its other case; everything else leads to the sink |
| ParserUtils.StateAfter | src/ignore/parser_utils.c:74-137 | after a word the state is its length while it is a prefix ignoring case, and the sink otherwise |
| ParserUtils.LastEventDecides | src/ignore/parser_utils.c:74-137 | the last event is EQ, MAYEQ or NEQ as the word is the string, a strict prefix of it, or neither, ignoring case |
| ParserUtils.ResetComparesAfresh | src/shared/parser.c:44-82 | after any word and a reset the automaton compares as if new |
| ByteMachine.ConsumeUnfinished | src/stash/hello.c:95-107 | while the message is unfinished, consuming in two pieces is consuming at once, and nothing stays unread |
| ByteMachine.ConsumeFinished | src/stash/hello.c:95-107 | once finished, whatever follows stays unread |
| ByteMachine.ChunkingIff | src/stash/hello.c:95-107 | consuming A, then the rest and B, equals consuming A and B together exactly when A did not finish the message or nothing is unread |
| Hello.Parser.FeedByte | src/stash/hello.c:15-55 | one byte of a hello, with the byte-sized countdown of methods |
| Hello.Parser.ConsumeBuffer | src/stash/hello.c:95-107 | the loop over the buffer consumes as the specification does and reports an error exactly on a wrong version |
| Hello.HelloChunkingIff | src/stash/hello.c:95-107 | the chunking law for hellos |
| Hello.DoneParserSwallowsAByte | src/stash/hello.c:95-107 | a finished hello parser, asked again, takes a byte that a single call would have left unread |
| Hello.HelloRoundTrip | src/stash/hello.c:15-107 | every encoded hello is accepted, its methods are called back once each and in order, and what follows stays unread |
| Hello.ConsumeAnything | src/stash/hello.c:15-107 | for any input: result, methods called back and unread rest; 257 bytes always finish |
| Request.Parser.FeedByte | src/ignore/request.c:133-171 | one byte of a request, through the per-state functions |
| Request.Parser.FeedAtyp | src/ignore/request.c:49-78 | the address kind sets the count, clears the address and picks the next state |
| Request.Parser.FeedDstAddr | src/ignore/request.c:88-112 | an address byte is stored; the last one starts the port |
| Request.Parser.ConsumeBuffer | src/ignore/request.c:181-193 | the loop over the buffer consumes as the specification does and reports an error exactly on the error states |
| Request.RequestChunkingIff | src/ignore/request.c:181-193 | the chunking law for requests |
| Request.ConsumeAgreesWithDecode | src/ignore/request.c:9-193 | on every input the parser ends as an independent reading of the wire layout says: fields, unread rest, error or not done |
| Request.AddressTypes | src/ignore/request.c:49-78 | by the numbers on the wire: type 1 takes 4 address bytes and is done on byte 10, type 4 takes 16 and is done on byte 22, type 3 takes as many as its length byte says, any other type is an error after byte 4 |
| Request.ThreeRequests | src/ignore/request.c:133-171 | CONNECT to 127.0.0.1, to ::1 and to a host name, byte by byte |
| Request.DecodeEncode | src/ignore/request.c:9-171 | reading an encoding gives the message back, whatever follows it |
| Request.EncodeDecode | src/ignore/request.c:9-171 | only encodings are read as complete requests |
| Request.RoundTripIff | src/ignore/request.c:9-171 | feeding an encoding stores exactly that request and leaves the rest unread, if and only if the domain is not empty |
| Request.DoneOnLastByte | src/ignore/request.c:133-193 | no proper prefix of an encoding finishes the parser |
| Request.EmptyDomainNeverDone | src/ignore/request.c:80-86 | after the last byte of a request with an empty domain the parser has written outside the address and still waits |
| Request.FinishesWithin262 | src/ignore/request.c:133-193 | 262 bytes finish any request |
| Request.DomainIsTerminatedIff | src/ignore/request.c:80-112 | the stored domain is a C string inside its array exactly when it has no NUL and is shorter than the array |
| Stm.StateMachine.Init | src/ignore/stm.c:10-23 | accepts exactly the well-formed tables, and aborts on others |
| Stm.LastStateCannotBeInitial | src/ignore/stm.c:10-23 | a table of one state and one that starts in its last state are refused, and one whose states are out of order |
| Stm.StateMachine.HandleFirst | src/ignore/stm.c:26-34 | enters the initial state once |
| Stm.StateMachine.JumpTo | src/ignore/stm.c:36-51 | leaves the old state and enters the new one; a self-loop does nothing, a state out of range aborts |
| Stm.StateMachine.HandleEvent | src/ignore/stm.c:53-87 | one event: first arrival, handler, jump |
| Stm.StateMachine.HandleClose | src/ignore/stm.c:89-94 | reports the departure of the current state and keeps it |
| Stm.StateMachine.State | src/ignore/stm.c:96-103 | the current state, or the initial one before any event |
| Stm.AlternatingIsMatchedPairs | src/ignore/stm.c:36-51 | the calls of a path are one arrival, then departure-arrival pairs, each departure matching the arrival before it |
| Stm.VisitsAreMoves | src/ignore/stm.c:36-51 | a path never repeats a state in place and ends where the last event led |
| Stm.RunAlternates | src/ignore/stm.c:10-103 | a run aborts exactly when a guard fails; otherwise its hooked calls are those of the alternating trace of its visits, and the machine stands in the last one |
| Stm.CloseShutsTheOpenState | src/ignore/stm.c:89-94 | closing is silent before any event and afterwards shuts the one open state |
| Stm.SecondCloseIsSilentIff | src/ignore/stm.c:89-94 | a second close changes nothing exactly when nothing was entered or the departure has no hook |
| Stm.SecondCloseCanDepartAgain | src/ignore/stm.c:89-94 | a machine with two states that departs from state 0 at each of two closes |
| SelectorTable.Pow2AboveIsLeast | src/ignore/selector.c:172-188 | the power of two the halving loop computes is the least one above n |
| SelectorTable.LeastPow2AboveIsUnique | src/ignore/selector.c:172-188 | there is only one such number |
| SelectorTable.NextCapacity | src/ignore/selector.c:172-188 | one more than the smaller of 1024 and the least power of two above n |
| SelectorTable.CapacityFits | src/ignore/selector.c:172-188 | up to the limit, the new capacity exceeds n and stays within 1025 |
| SelectorTable.Selector.New | src/ignore/selector.c:288-305 | an empty table, or none when more is asked than the platform has |
| SelectorTable.Selector.EnsureCapacity | src/ignore/selector.c:244-286 | success means slot n exists; the table never shrinks, old slots stay, new ones are unused |
| SelectorTable.Selector.ItemsMaxFd | src/ignore/selector.c:209-221 | the largest registered descriptor, 0 without any |
| SelectorTable.Selector.UpdateFdSets | src/ignore/selector.c:223-237 | the two sets change for this descriptor only, by its interest |
| SelectorTable.Selector.Register | src/ignore/selector.c:334-375 | adds exactly this registration to the map, through growth, or refuses it; the derived indexes follow; the size afterwards; the table moves exactly when it grows; Overrun exactly at the table size |
| SelectorTable.Selector.Unregister | src/ignore/selector.c:377-411 | removes exactly this registration after its close callback; Overrun exactly behind the table |
| SelectorTable.Selector.SetInterest | src/ignore/selector.c:413-430 | changes the interest of exactly this registration; Overrun exactly behind the table |
| SelectorTable.SlotExistsIff | src/ignore/selector.c:345-356 | the slot register picks exists for every valid descriptor but the one equal to the table size |
| SelectorTable.SlotCanBeMissing | src/ignore/selector.c:345-356 | a table for no elements has two slots, and descriptor 2 misses them |
| SelectorTable.NewTableTakesAnyFdIff | src/ignore/selector.c:288-356 | a new table takes any descriptor first exactly when created for at least 512 elements |
| SelectorDispatch.HandleIteration | src/ignore/selector.c:449-481 | for any callbacks, also those that grow the table: the pass over the slots runs through, overruns or goes stale exactly as specified, and if it runs through it makes the specified turns, one per descriptor up to the largest |
| SelectorDispatch.DispatchSlot | src/ignore/selector.c:456-479 | one turn: the read callback, then the write callback with the interest as it is by then, unless the slot is read in a table that was moved |
| SelectorDispatch.Perform | src/ignore/selector.c:334-430 | any operations of a callback lead to the specified map and size, or go behind the table exactly when the size says so; the table moves exactly when it grows |
| SelectorDispatch.MovesIff | src/ignore/selector.c:343-352 | operations that stay in the table move it exactly when one of them registers a valid descriptor behind its first size |
| SelectorDispatch.PassIsStaleIff | src/ignore/selector.c:456-473 | for any callbacks, a pass goes through a pointer into a moved table exactly when it reaches a descriptor ready for reading and selected for writing whose read callback registers a descriptor behind the table |
| SelectorDispatch.PassCanBeStale | src/ignore/selector.c:449-481 | a table for no elements, descriptor 1 in both sets, and a read callback that registers descriptor 5 |
| SelectorDispatch.FullTableIsSafe | src/ignore/selector.c:449-481 | on a table of full size every pass runs through, whatever the callbacks do |
| SelectorDispatch.CallsAreOrderly | src/ignore/selector.c:449-481 | for any callbacks, calls come in ascending order of descriptor, read before write, none twice, each for a descriptor then registered, interested and selected |
| SelectorDispatch.CalledIff | src/ignore/selector.c:449-481 | a callback runs exactly when its descriptor is registered, selected and interested by bit 0 for reading or bit 2 for writing as its turn comes |
| SelectorDispatch.NoWriteAfterUnregister | src/ignore/selector.c:377-411 | a read callback that leaves its descriptor unregistered is not followed by its write callback |
| SelectorDispatch.TurnDataIsCurrentIff | src/ignore/selector.c:456-479 | with both callbacks, each gets the attachment of its registration exactly when the read callback leaves the descriptor with the attachment it had |
| SelectorDispatch.LoneCallDataIsCurrent | src/ignore/selector.c:456-479 | a single callback always gets the current attachment |
| SelectorDispatch.WriteCanGetAStaleAttachment | src/ignore/selector.c:456-479 | a callback that re-registers its descriptor makes the write callback see the old attachment |
| SelectorBlock.JobList.Push | src/ignore/selector.c:522-526 | a new node is linked in front of the head |
| SelectorBlock.HandleBlockNotifications | src/ignore/selector.c:483-505 | for any jobs and any callbacks, also those that grow the table: the walk over the nodes makes the specified turns, head first, and leaves the list empty, unless it comes to a slot the table does not have |
| SelectorBlock.NotifyNode | src/ignore/selector.c:490-497 | one node: its callback runs if its slot, looked up in the table as it is by then, is used |
| SelectorBlock.FullTableDrainsIff | src/ignore/selector.c:483-505 | with a table of full size a drain stays in the table exactly when every job names a descriptor in its range |
| SelectorBlock.CallsFollowTheList | src/ignore/selector.c:483-505 | for any callbacks, calls are for nodes in list order, each at most once, exactly those registered as their turn comes, with the handler and attachment of that moment |
| SelectorBlock.BlockCalledIff | src/ignore/selector.c:483-505 | a job's callback runs exactly when its descriptor is registered as its turn comes |
| SelectorHandoff.InvKept | src/ignore/selector.c:483-578 | every step of any worker or of the selector keeps wake-up, mutex, drain and conservation invariants |
| SelectorHandoff.NoLostWakeupIff | src/ignore/selector.c:508-578 | in every interleaving, with a job queued and the selector before or inside pselect, a signal is pending or on its way exactly when not all listed jobs were signalled before the thread was stored |
| SelectorHandoff.NoLostWakeup | src/ignore/selector.c:508-578 | in every interleaving in which the selector stores its thread first, no wake-up is lost |
| SelectorHandoff.WakeupCanBeLost | src/ignore/selector.c:528-543 | a worker done before the first selector_select: the selector sleeps on its job and no signal comes |
| SelectorHandoff.PendingIff | src/ignore/selector.c:528-578 | in every interleaving a signal is pending exactly when one was sent after the thread was stored and pselect did not end by it since |
| SelectorHandoff.ExactlyOnce | src/ignore/selector.c:483-531 | queued jobs are all different and are the drained batches, each newest first, followed by the list; a batch's calls are those of the drain loop run on it, so handle_block ran exactly for the jobs registered at their turn |
| SelectorHandoff.LockedJobsAreInTheBatch | src/ignore/selector.c:483-505 | whatever the workers do, the jobs listed when the selector takes the mutex are the batch of its next drain |
| SelectorHandoff.SelectorCanStep | src/ignore/selector.c:535-578 | with a job queued and the workers quiet, the selector is never stuck, and inside pselect a signal wakes it exactly when not all jobs were signalled too early |
| SelectorHandoff.QueuedJobsGetDrained | src/ignore/selector.c:483-578 | with the workers quiet, a bounded number of its steps, whatever they are, drains every job |
| Connections.Server.AddClient | src/server/main.c:34-55 | one more client at the end of both arrays, counters updated, or the exact refusal; the guard lets client 1023 through |
| Connections.Server.CloseClient | src/server/main.c:57-74 | both arrays are swapped with their last entry in step |
| Connections.Step | src/server/main.c:34-74 | every accept, service, removal and rebinding keeps the arrays aligned and the tail unused |
| Connections.RunMetrics | src/server/main.c:34-55 | over every run the historic count is the number of accepts and the maximum is the peak number of clients minus one |
| Connections.RemoveKeepsOthers | src/server/main.c:57-74 | a removal takes out exactly that client and keeps every other one once |
| Connections.AcceptKeepsOthers | src/server/main.c:34-55 | an accept adds one client in the right mode and changes no other |
| Connections.FreeSlotHolds | src/server/main.c:34-74 | over every run the partial line of a free slot is the one the last removal that freed it moved out, or was there all along |
| Connections.NewClientStartsMidLineIff | src/server/main.c:34-74 | over every run from a clean table, a new client starts in the middle of a line exactly when the last removal that freed its slot moved out a client in the middle of one |
| Connections.NewClientCanStartMidLine | src/server/main.c:34-74 | a run, with only ended sessions leaving and none of them in the middle of a line, where a third client starts with a second one's partial line |
| Connections.Client1023IsLetThrough | src/server/main.c:34-55 | after 1022 accepts the guard lets one more client through, and both arrays end before its entries |
| PollTurns.Pass | src/server/main.c:202-236 | the turns end, although accepts grow the table and `i--` repeats an entry |
| PollTurns.PassGuarantees | src/server/main.c:202-236 | a pass serves nobody twice and, of those no removal moved, exactly the clients and newcomers in flagged slots; whoever leaves had ended, nobody who ended stays, sockets stay apart |
| PollTurns.AcceptedAs | src/server/main.c:206-227 | a client accepted at the first entry is a user before login, one accepted at the second a manager |
| PollTurns.PassAdmits | src/server/main.c:202-227 | a pass lets in at most one user, by the first listener, and at most one manager, by the second, each exactly when its entry is flagged, accept gives a socket and there is room |
| PollTurns.OnlyUsersAdmitted | src/server/main.c:202-227 | without a call at the second listener everybody a pass lets in is a user |
| PollTurns.ListenerAfterService | src/server/main.c:229 | the server socket and the first poll entry after a service, for any outcome of its PORT and IPV6 lines |
| PollTurns.PassOverrunsIff | src/server/main.c:202-227 | a pass overruns the arrays exactly when a flagged listener's accept succeeds on a full table |
| PollTurns.NewcomerCanBeServedUnasked | src/server/main.c:34-74 | two polls after which a newcomer is served in the pass that accepts it, by a flag left up |
| PollLoop.PollPass | src/server/main.c:202-236 | the loop over the arrays makes exactly those turns, with the n-th accept and the n-th handle_client: final table, flags and listener |
| PollLoop.ServeClient | src/server/main.c:229-230 | the client keeps its socket and gets the mode and partial line handle_client gave; its flag goes down; the listener follows |
| PollLoop.UpdateListener | src/server/pop3.c:1119-1175 | what any number of PORT and IPV6 lines leave of the server socket and of its poll entry: the new socket, the old number, or -1 in the entry alone |
| PollLoop.ServeAt | src/server/main.c:228-233 | one client turn: served, and removed exactly when handle_client ended its session |
| PollLoop.AcceptOn | src/server/main.c:206-227 | one listener turn: at most one new client, a user at the first entry and a manager at the second |
| Framing.SplitConcat | src/server/pop3.c:784-797 | splitting a stream can be done piecewise |
| Framing.LineEnds | src/server/pop3.c:784-797 | a line of the stream ends at byte 10 and loses one byte 13 in front of it |
| Framing.ChunkEnds | src/server/pop3.c:781-784 | a received chunk ends at its first byte 0 |
| Framing.ChunkContinues | src/server/pop3.c:784-797 | the first byte 10 of a chunk ends the line left over, and a chunk without one replaces it |
| Framing.ExtractFits | src/server/pop3.c:766-797 | with chunks of at most 1023 bytes the leftover stays within 1023 and every command fits its 2048 |
| Framing.ExtractKeepsIncomplete | src/server/pop3.c:1065-1067 | no line feed and no NUL ever stays in a leftover |
| Framing.CallIsFaithfulIff | src/server/pop3.c:766-799 | one call extracts what the stream contains exactly when the chunk has no NUL, has a line feed if it continues an open line, and does not begin with the second half of a CR LF |
| Framing.ChunkingDoesNotMatter | src/server/pop3.c:766-1067 | over smooth calls the lines handled are those of the whole stream, up to the first final one |
| Framing.SplitWordIsLost | src/server/pop3.c:1065-1067 | a word sent in two chunks without a line feed loses its first half |
| Framing.SplitCrStays | src/server/pop3.c:784-791 | a CR LF split over two chunks leaves the CR in the line |
| MailList.FileList.Create | src/server/pop3.c:618-688 | the list holds the files in reading order, unmarked |
| MailList.FileList.Append | src/server/pop3.c:668-681 | a file goes to the end of the list |
| MailList.FileList.Count | src/server/pop3.c:86-94 | the number of nodes |
| MailList.FileList.Directory | src/server/pop3.c:174-183 | one numbered line per node, counting on |
| MailList.FileList.Search | src/server/pop3.c:408-425 | the n-th node, or none outside the list |
| MailList.FileList.Mark | src/server/pop3.c:573-584 | exactly the n-th entry becomes marked |
| MailList.FileList.UnmarkAll | src/server/pop3.c:465-473 | the loop that stays on a node it has just cleared ends, and clears every mark |
| MailList.FileList.DeleteMarked | src/server/pop3.c:497-523 | removes the marked names in list order, ends with the count of unmarked entries and the head at the first of them |
| MailList.ChainIsUnmarkedIff | src/server/pop3.c:502-523 | the chain left is the unmarked entries exactly when all marked ones came first |
| MailList.RemovedEntryCanStayLinked | src/server/pop3.c:510-513 | a marked entry behind an unmarked one stays linked |
| MailList.MarkedAndUnmarkedCount | src/server/pop3.c:497-523 | every entry is either removed or counted |
| Mailbox.Mailbox.Load | src/server/pop3.c:690-726 | the three lists hold what the three folders hold |
| Mailbox.Mailbox.Stat | src/server/pop3.c:143-172 | the count and octet sum over the three lists |
| Mailbox.Mailbox.ListEverything | src/server/pop3.c:189-201 | the lines of LIST without a number |
| Mailbox.Mailbox.ListMessage | src/server/pop3.c:202-229 | the line of one message, or nothing out of range |
| Mailbox.Mailbox.DeleteMessage | src/server/pop3.c:586-616 | marks exactly one message or refuses the number |
| Mailbox.Mailbox.UnmarkAll | src/server/pop3.c:465-495 | clears every mark of the three lists |
| Mailbox.Mailbox.ViewMessage | src/server/pop3.c:427-463 | the file RETR finds, list after list |
| Mailbox.Mailbox.DeleteMarked | src/server/pop3.c:497-571 | the files removed, and what is left of each list |
| Mailbox.LoadedHoldsTheFiles | src/server/pop3.c:690-726 | after loading, message n is file n of the folders new, cur and tmp in this order, with its name and size, unmarked |
| Mailbox.ListAllMatchesStat | src/server/pop3.c:143-201 | LIST prints line n for message n; STAT counts and sums exactly those lines |
| Mailbox.ListOneIsLineOfListAll | src/server/pop3.c:185-233 | LIST n is the n-th of those lines |
| Mailbox.DeleteMarksOneMessage | src/server/pop3.c:573-616 | DELE n marks message n and nothing else, and is refused exactly outside 1 to STAT's count |
| Mailbox.RetrieveIsMessageIff | src/server/pop3.c:408-463 | RETR n serves message n exactly when the lists searched before its own are empty |
| Mailbox.RetrieveCanMissAListedMessage | src/server/pop3.c:408-463 | two messages in two lists: LIST 2 shows one, RETR 2 finds none |
| Mailbox.NoSuchMessage | src/server/pop3.c:185-616 | numbers beyond the last message are refused by all three commands |
| Session.VerbIs | src/server/pop3.c:27-83 | which four bytes are which of the seventeen commands, and that all others are unknown |
| Session.AtoiOfDecimal | src/server/pop3.c:750-757 | the decimal digits of n are read as n, with a minus as its negative, while it fits 32 bits, and otherwise cut off and wrapped |
| Session.AtoiOfOther | src/server/pop3.c:750-757 | white space in front does not count, and text that is no number is 0 |
| Session.StopsOnFinalLine | src/server/pop3.c:799-1052 | a session stops exactly on QUIT and on lines too short for a command word |
| Session.LinesAfterFinalAreIgnored | src/server/pop3.c:1040-1052 | lines after the first final one have no effect |
| Session.HandleKeepsSound | src/server/pop3.c:801-1056 | no command leaves a transaction without account and maildir |
| Session.EndedKeepsNothing | src/server/pop3.c:759-1067 | a session that is over keeps no partial line |
| Client.TakeArgument | src/server/pop3.c:793-799 | through the byte buffer, the argument is the line from its sixth byte, missing exactly for a line of four |
| Client.TextAfterWord | src/server/pop3.c:967-1007 | what the configuration commands read behind the word, also when the buffer was wiped |
| Client.ClientData.ClientValidation | src/server/pop3.c:1074-1098 | the account found is the specified one, and only it is set |
| Client.ClientData.PasswordValidation | src/server/pop3.c:1177-1200 | the backwards loop accepts exactly the stored password |
| Client.ClientData.HandleUser | src/server/pop3.c:802-821 | USER on the objects is USER on the state: back to before login, except for a manager |
| Client.ClientData.HandlePass | src/server/pop3.c:822-851 | PASS on the objects is PASS on the state |
| Client.ClientData.HandleStat | src/server/pop3.c:861-869 | STAT on the objects is STAT on the state |
| Client.ClientData.HandleList | src/server/pop3.c:870-890 | LIST on the objects is LIST on the state |
| Client.ClientData.HandleRetr | src/server/pop3.c:891-915 | RETR on the objects is RETR on the state |
| Client.ClientData.HandleDele | src/server/pop3.c:916-940 | DELE on the objects is DELE on the state |
| Client.ClientData.HandleRset | src/server/pop3.c:852-860 | RSET on the objects is RSET on the state |
| Client.ClientData.HandleQuit | src/server/pop3.c:1040-1052 | QUIT on the objects is QUIT on the state |
| Client.ClientData.HandleManage | src/server/pop3.c:947-1039 | the manager commands on the objects are those on the state |
| Client.ClientData.Dispatch | src/server/pop3.c:793-1056 | one line on the objects is one line on the state |
| Client.ClientData.ScanLoop | src/server/pop3.c:781-1064 | the loop that overwrites line ends in the receive buffer runs exactly the extracted lines, in order, until the session stops |
| Client.ClientData.HandleClient | src/server/pop3.c:759-1072 | one call computes the new state, the replies and the new leftover for anything recv gave |
| Client.LineIsCut | src/server/pop3.c:785-791 | the text cut out of the receive buffer completes the next line of the chunk, and the scan goes on as if on the rest |
| SessionRuns.MarkedIffPending | src/server/pop3.c:465-495 | over every run a message is marked exactly when a DELE line named its number and no later login or RSET undid it |
| SessionRuns.QuitRemovesTheMarked | src/server/pop3.c:497-571 | QUIT hands every marked message to remove() once, by ascending number |
| SessionRuns.OnlyQuitRemoves | src/server/pop3.c:1040-1052 | over every run files are removed by a QUIT in a transaction and nothing else, and they are exactly the messages DELE lines named and nothing undid |
| SessionRuns.RemovedIsListedIff | src/server/pop3.c:497-571 | a removed file is the one PASS listed exactly when the base directory is the one of that PASS |
| SessionRuns.MovedBaseDirRemovesElsewhere | src/server/pop3.c:497-571 | a run in which another session moves the base directory: the removed path lies under the new one |
| SessionRuns.LoginIff | src/server/pop3.c:822-851 | PASS is accepted exactly before login, with the chosen account's stored password, byte for byte |
| SessionRuns.DeleIff | src/server/pop3.c:916-940 | the deletion of n is confirmed exactly in a transaction, to a DELE line whose number is n and names a message |
| SessionRuns.RsetIff | src/server/pop3.c:852-860 | RSET is answered with the totals exactly in a transaction |
| SessionRuns.InTransactionIff | src/server/pop3.c:801-1052 | over every run: in a transaction if and only if a PASS was accepted and nothing left it since |
| SessionRuns.TransactionIsEarned | src/server/pop3.c:822-851 | then account and messages are those of that PASS |
| SessionRuns.ManagerForLife | src/server/main.c:42-46 | over every run a manager stays one until the end and nobody becomes one |
| SessionRuns.SettingsAfter | src/server/pop3.c:947-1007 | settings change only by HOST, DIRR and TRAN of a manager, the listener moves only by PORT and IPV6 |
| SessionRuns.ManagerSets | src/server/pop3.c:947-1007 | DIRR, HOST and TRAN of a manager change exactly the base directory, the host and the transformation, to the text or number of the line; PORT and IPV6 add exactly one request |
| SessionRuns.SettingIsLastSet | src/server/pop3.c:947-1007 | over every run each setting is what the last line that set it, or the last change by another session, gave it |
| SessionRuns.RequestsAreTheLines | src/server/pop3.c:947-1005 | over every run the listener is asked to move by the PORT and IPV6 lines of a manager, each once and in order |
| SessionRuns.OnlyManagersConfigure | src/server/pop3.c:947-1007 | over every other run settings are what other sessions made them and no listener moved |
| SessionRuns.CountersAreWhatWasServed | src/server/pop3.c:453-456 | over every run the counters are what the last change by another session left plus what RETR served since, message by message and octet by octet |
| SessionRuns.UnansweredIff | src/server/pop3.c:870-890 | the one command without an answer is LIST with a number that names no message, 0 and -1 aside |
| SessionRuns.ListCanBeSilent | src/server/pop3.c:870-890 | LIST 1 in an empty maildir gets no answer |
| SessionRuns.FirstByPrefix | src/server/pop3.c:1074-1098 | USER takes the first account the text is a prefix of |
| SessionRuns.AccountIsLastChosen | src/server/pop3.c:802-821 | over every run the account is the one the last accepted USER chose, and none before that |
| SessionRuns.UserPicksItsNameIff | src/server/pop3.c:1074-1098 | it is the account of that name exactly when there is one and no earlier name starts with the text |
| SessionRuns.UserCanPickALongerName | src/server/pop3.c:1074-1098 | with accounts "ab" and "a", USER a picks "ab" |
| Commands.RefusedOutside | src/server/pop3.c:852-1039 | without login, or without being a manager, a command is refused and changes nothing |
| Commands.AsksOnly | src/server/pop3.c:941-1054 | NOOP, unknown words and a manager's INFO, METR and LOGG change nothing; what they are answered |
| Commands.UserAnswers | src/server/pop3.c:802-821 | USER leaves a transaction, chooses an account or keeps the old one, and says which |
| Commands.PassAnswers | src/server/pop3.c:822-851 | PASS with the stored password opens the maildir of the account under the base directory; otherwise it changes nothing and says why |
| Commands.StatTells | src/server/pop3.c:861-869 | STAT tells the number of messages and the sum of their sizes |
| Commands.RsetClears | src/server/pop3.c:852-860 | RSET takes back every mark and nothing else |
| Commands.ListShows | src/server/pop3.c:870-890 | LIST shows the totals and one line for each message in order, LIST n the line of message n |
| Commands.RetrServes | src/server/pop3.c:891-915 | RETR n serves what is in place n of the first list that has one: size, path under the base directory, transformed as set, and counted |
| Commands.RetrServesMessageIff | src/server/pop3.c:408-463 | RETR n answers with the size and file of message n exactly when the lists searched before its own are empty |
| Commands.DeleOfDigits | src/server/pop3.c:916-940 | "DELE " and the digits of n mark message n and no other, or are refused without effect |
| SessionStream.CallsAreARun | src/server/pop3.c:759-1072 | successive calls, whatever recv returns and whatever other sessions change in between, do what a run over the extracted commands does |
| SessionStream.PlayIsRun | src/server/pop3.c:759-1072 | playing events one by one ends where the run ends, with all its replies |
| SessionStream.StreamIsHandledLineByLine | src/server/pop3.c:759-1072 | over smooth calls, with any folders on disk at each and any changes by other sessions in between, state and replies are those of a session that reads byte by byte and handles a line when its line feed comes |
| SessionStream.CutsDoNotMatter | src/server/pop3.c:759-1072 | two smooth ways of cutting the same stream end in the same state with the same replies |
| SessionStream.OneMoreCall | src/server/pop3.c:759-1072 | one more call continues with the state and the partial line the calls before it left |
| SessionStream.OwnCommandsIff | src/server/pop3.c:766-799 | a session that begins with a partial line runs exactly the commands of its own bytes, unless the first thing it receives ends that line |
| ServerRuns.RunKeepsGood | src/server/main.c:202-236 | over every run of the server, each live client's mode, partial line, settings and counters in the table are those its own history leads to |
| ServerRuns.EverySessionIsARun | src/server/main.c:202-236 | over every run of the server, every session there is or was is where a session run over the commands it received ends, and when those are the commands of its own bytes |
| ServerRuns.ServerRemovesByQuit | src/server/pop3.c:1040-1052 | in the whole server files are removed by a QUIT in a transaction and nothing else, and they are the pending messages of that session |
| ServerRuns.ServerIsATableRun | src/server/main.c:34-74 | the table of the server is a run of the table in which only ended sessions leave and leave no partial line |
| ServerRuns.NewSessionStartsMidLineIff | src/server/main.c:34-74 | over every run of the server, a new session finds a partial line exactly when the last removal that freed its slot moved out a client in the middle of one |
| ServerRuns.UsersConfigureNothing | src/server/pop3.c:947-1039 | over every run without managers the settings and the first listener stay |
| ServerRuns.PassOfUsersConfiguresNothing | src/server/main.c:202-236 | a poll pass without a call at the second listener, and without a manager before, changes no setting and leaves the first listener |
| ServerRuns.OctetsComeFirst | src/server/pop3.c:891-915 | the only replies that announce octets are the first of the two of a served RETR |
| ServerRuns.CountersAreWhatWasSent | src/server/pop3.c:453-456 | over every run of the server METR's four figures are the messages and octets announced to all clients, the accepts, and the peak of connections minus one |

## Left out

- SelectorTable.Selector.Register: at a descriptor equal to the table size the source writes behind its table; the model stops there with the outcome Overrun.
- SelectorTable.Selector.Unregister: reads behind the table end as Overrun too; a close callback is recorded but does not itself call the selector.
- SelectorDispatch.HandleIteration: what the source does behind its table or through a moved pointer is undefined, so the pass ends there; a registration without the callback it is selected for is not modelled.
- SelectorBlock.HandleBlockNotifications: ends at a job whose slot the table does not have, where the source reads behind its table; freeing the nodes is not modelled.
- SelectorHandoff.ExactlyOnce: leaves out the error returns of pselect, after which jobs wait for the next call.
- ParserUtils.LastEventDecides: is about ASCII strings; for other bytes tolower and toupper depend on the locale and on the sign of char.
- PollLoop.PollPass: takes what accept and handle_client answer as given, and that open sockets have different numbers; at the client the guard of add_client should have refused, the pass ends.
- ServerRuns.RunKeepsGood: takes accepts and services in any order, of which the poll passes are some; a run ends where a session aborts the process or the arrays are full.
- Sockets, poll, pselect, fork, pipes, execve, directory reading, real file removal and the log file: inputs of the model, or ghost logs of what was asked for.
- A failed recv: the source then looks at an uninitialised buffer; the model takes it for an empty chunk.
- Sending: replies are values; the text of a message, its dot-stuffing and the external transformation are not modelled, only which file is sent and whether transformed.
- Failed allocations, missing maildir folders, the memory of address strings, the size of the copies HOST and DIRR allocate, and freed list nodes that stay linked when the maildir is destroyed.
- 32-bit overflow of octet sums and counters, the truncation of file sizes to int, and of paths to their buffers.
- Commands.RetrServesMessageIff: takes it that the files of one folder have different names.
- Numbers outside a long are read as glibc's atoi reads them: clamped, then cut to 32 bits.
- update_server_address: a session records the request, and what becomes of the listener is an input of the poll pass; INFO's third field is left out with it.
- The table `parser_no_classes` returns has 255 entries in the source and 256 in the header's contract; the model has 256.
- The three address kinds of a request share one array in the model by their address bytes; request_marshall, hello_marshall, errno_to_socks and cmd_resolve are not modelled.
- Re-initialising a request parser in the middle of a message.
- selector_destroy, selector_fd_set_nio and the signal set-up of selector_init.
- src/stash/socks5nio.c and src/stash/main_ejemplo.c, the client program, option parsing and netutils: wiring and small string splits.
- RFC 1939 points the code does not implement, such as STAT leaving out marked messages or refusing a second DELE.
