# Mulpex: a verified model of what must be remembered exactly

Mulpex runs many claudes and codexes in terminals, with a board of cards beside them. This project models the parts
that keep a long-lived history and must later report it exactly, and proves what they promise:

- **The Board and its Outbox** (`src-tauri/src/board.rs`). Every user edit, claude action, column proposal and the
  UPDATE queue, as functions on values (`BoardState.dfy`, `OutboxState.dfy`) and as objects changed in place and
  proved equal to them (`BoardMachine.dfy`). What each accepted call does is stated again field by field, without the
  functions that do it: `BoardTelling.dfy` and `UserTelling.dfy` for the user's edits and whom they tell,
  `ClaudeEffects.dfy` and `ClaudeTelling.dfy` for a claude's actions, `ColumnEffects.dfy` for columns and approved
  proposals, `BoardPlaces.dfy` and `BoardOrder.dfy` for the order of cards, `BoardRefusals.dfy` for what is accepted.
  `BoardInvariant.dfy` proves what every reachable board keeps, `Proposals.dfy` that an approved proposal does what was
  simulated, `ProposalReading.dfy` which columns it means, `NetDifference.dfy` that what UPDATE counts and says after any
  run is the difference from the start, `OutboxSending.dfy` the same for what goes out on its own, and that no event is
  lost, `OutboxWords.dfy` the order of what is said.
- **The output sink** (`src-tauri/src/pty.rs`). A ghost log of bytes and resizes (`OutputLog.dfy`) is what the bounded
  ring, the watchers and a rebuilt pane must agree with (`OutputSink.dfy`, `SinkRuns.dfy`), also for a session adopted
  from the daemon (`SinkFeed.dfy`). `SinkWatchers.dfy` says who watches and that they get everything, `SinkAttach.dfy`
  exactly what an attach shows, `SinkMachine.dfy` has the classes, `Base64.dfy` the text the bytes travel as.
- **Waking a codex** (`src-tauri/src/wake.rs`, `Wake.dfy`): safety, spacing and liveness of rings over timed runs.
- **Compact requests** (`src/lib/compact.ts`, `src/lib/compactRetry.ts`): functions and a trace of everything typed
  (`Compact.dfy`), the safety results over all runs (`CompactSafety.dfy`), that every request ends (`CompactEnds.dfy`),
  what a tick must do (`CompactRules.dfy`), the classes (`CompactMachine.dfy`).
- **Explain's forks** (`src-tauri/src/explain.rs`, `Explain.dfy`): every interleaving of commands and child threads.
- **Two printers and their readers**: secrets files (`src-tauri/src/secrets.rs`, `Secrets.dfy`, `SecretsProject.dfy`) and
  dropped paths (`src/lib/paths.ts`, `Paths.dfy`), each also read as a shell reads it.

Objects that the source changes in place are classes here, and each method is proved to take the object from one value
of the specification to the next; the results about whole runs are lemmas on those values.

`dafny verify dfyconfig.toml` checks everything.

## Choices of the model

- A `Result` or `Option` stands for the source's errors. A refused edit may leave the board half changed, as in the
  source; the store works on a copy and keeps it only when the edit was accepted (`BoardMachine.BoardStore`).
- JSON calls are typed commands, uuids and request names are inputs, `u32` counters are naturals.
- A clock is read once per call. Locks are the critical sections of `Explain.dfy`; elsewhere calls do not overlap.
- Channels are the sequences of what was sent on them. The terminal is any state with a paint, a feed and a resize.
- Screens, prompt boxes, hub snapshots and the rows under a row are inputs of the compact machine.

## Where the code and its comments differ

The code is what is modelled.

- `board.rs:1299-1312` says a folded card may lack a baseline for events saved before baselines existed. `fold` always
  sets one; such an event reads as "the card did not exist" (`NetDifference.BaselineIsSet`).
- `compact.ts:208-255` starts a row automatically once per crossing, but `compact.ts:335-341` frees the row's attempt
  whenever a hold calls off a request on it, also one the user made by hand. `CompactSafety.StartedAgainTooSoon` is a run
  in which a rule then starts the row again too soon; `CompactSafety.TooSoonExactly` and
  `CompactSafety.FreedByHandExactly` say exactly when that happens.
- `wake.rs:208-222` never rings for mail that an earlier, delivered ring already counted: when that mail was read and as
  much new mail came before the next tick, the new mail is not rung for (`Wake.NewMailBehindAnOldRing`).
  `Wake.NoLostRing` says exactly when mail is rung for.
- `secrets.rs:132-138` reads the headers by lines, which takes a carriage return off a line's end. A project path that
  ends in one is therefore not read back: `Secrets.HeadersAfterRender` gives the exact condition and
  `Secrets.CarriageReturnIsLost` an input. What follows a newline in a project path stands in the file as lines of its
  own: `SecretsProject.ParseAfterRender` gives the exact condition and `SecretsProject.PathLineIsRead` an input.
- `pty.rs:527-532` speaks of pane-only text in an adopted session's buffer, but `push` fills that buffer as well, so bytes
  that come between the seed and the first attach are shown twice: `SinkAttach.AdoptedByteShownTwice` is an input,
  `SinkAttach.AdoptedShowsOnceExactly` and `SinkAttach.AdoptedFirstAttach` the exact condition. A fresh session's first
  attach sends no resize that came before it (`SinkAttach.FreshFirstAttach`, `SinkAttach.FreshResizeIsNotSent`).
- `board.rs:1053-1059` refers to a new column by the name it was added under, and `board.rs:1109` takes the first of that
  name. After "add A, rename A to B, add A" a change to "A" is made to B: `ProposalReading.MeansTheOther` is the input,
  `ProposalReading.ReferMeans` the exact condition.
- A card made for a claude and given to another before UPDATE is still announced to the first as new for it
  (`board.rs:1538`; `NetDifference.NewCardTheorem`, `NetDifference.Says`).

## Model

| member | source | states |
|---|---|---|
| BoardTelling.UserEffect | src-tauri/src/board.rs:770-1029 | card number by card number, with no list positions, what each accepted user edit makes of the board; numbers stay distinct and below the counter |
| BoardTelling.EveryEditTells | src-tauri/src/board.rs:505-509 | over every user edit: the holder before and the holder after of an active card that changed or went get exactly one event with the snapshot before the edit, and every event names a card that really changed and a claude that held it before or after |
| BoardTelling.CountStamp | src-tauri/src/board.rs:758-766 | stamping snapshots on events neither adds, drops nor redirects one |
| UserTelling.EveryEditTellsExactly | src-tauri/src/board.rs:770-1033 | over every user edit, archived cards and comments included: each claude owed is told of each card exactly once and nobody else of any, the event says what happened and has the card's title and its snapshot before |
| UserTelling.UnusedAfter | src-tauri/src/board.rs:800-925 | the images an edit reports as unused are exactly those it takes off the card or the comment, or all of what it deletes |
| ClaudeEffects.ClaudeDoes | src-tauri/src/board.rs:543-756 | card number by card number and field by field what each of a claude's six actions leaves, new cards as asked for included; the other cards, the columns and the counters untouched |
| ClaudeTelling.EveryActionTells | src-tauri/src/board.rs:505-756 | over every action of a claude: each other claude owed is told of each card exactly once and nobody else of any, the event says what happened, who did it and what the card was before |
| BoardRefusals.UserMayExactly | src-tauri/src/board.rs:770-1033 | exactly which user edits are accepted: what must exist, the caps, the texts that may not be empty |
| BoardRefusals.ClaudeMayExactly | src-tauri/src/board.rs:543-756 | exactly which of a claude's actions are accepted |
| BoardRefusals.DecideMayExactly | src-tauri/src/board.rs:1134-1160 | a decision needs a waiting proposal, an approval one whose changes all still fit |
| BoardRefusals.RefusedChangesNothing | src-tauri/src/board.rs:1776-1787 | a refused call leaves the board as it was |
| BoardInvariant.UserKeeps | src-tauri/src/board.rs:770-1033 | an accepted user edit keeps the board well formed and brings no card number back |
| BoardInvariant.DecideKeeps | src-tauri/src/board.rs:1134-1160 | so does deciding a proposal, which is then gone for good |
| BoardInvariant.ClaudeKeeps | src-tauri/src/board.rs:543-756 | so does a claude's accepted action |
| BoardInvariant.EveryReachableBoard | src-tauri/src/board.rs:162-181 | every run of calls from the default board, refused ones included, leaves distinct card numbers, every card in an existing column, distinct column ids and at least one column, chosen among choices, the caps kept, pinned cards first |
| BoardInvariant.DeletedForGood | src-tauri/src/board.rs:943-953 | a used number that names no card names none ever after: no number is given to a second card |
| BoardInvariant.DecidedOnce | src-tauri/src/board.rs:1134-1142 | a decided proposal is refused ever after, whatever happens in between |
| BoardOrder.NormalizeIsStable | src-tauri/src/board.rs:469-474 | normalizing gives the one list with the pinned cards first that keeps both groups in their order; it is a permutation and idempotent |
| BoardOrder.EditsConserve | src-tauri/src/board.rs:770-1029 | every user edit but add and delete keeps the set of card numbers, and those two change it by exactly their card |
| BoardOrder.MoveKeepsTheOthers | src-tauri/src/board.rs:837-848 | a move leaves every other card unchanged and in its order |
| BoardOrder.MoveLandsBefore | src-tauri/src/board.rs:478-496 | a card dropped before another of that column, both pinned or both not, ends immediately before it |
| BoardPlaces.NormalizedOrder | src-tauri/src/board.rs:469-474 | of any two cards, the one that is urgent and not archived stands first if the other is not, and otherwise they stand as they stood |
| BoardPlaces.AddStandsLast | src-tauri/src/board.rs:478-496 | the user's new card stands last in its column among those pinned like it; the others keep their order |
| BoardPlaces.MoveStandsLast | src-tauri/src/board.rs:837-848 | a card moved to before nothing stands last in its column |
| BoardPlaces.DeletedColumnGoesLast | src-tauri/src/board.rs:986-1016 | a deleted column's cards stand after those of the column they go to, in their order |
| BoardPlaces.EditKeepsOrder | src-tauri/src/board.rs:770-1033 | an edit that moves no card keeps the order of cards pinned alike |
| BoardPlaces.ClaudeMovesToTop | src-tauri/src/board.rs:663-688 | a claude's moved cards stand on top of the column, the last named first |
| BoardPlaces.ClaudeAddsOnTop | src-tauri/src/board.rs:585-616 | a claude's new cards stand on top of their columns, the last first |
| BoardPlaces.ActionKeepsOrder | src-tauri/src/board.rs:617-735 | an action that moves no card keeps the order of cards pinned alike |
| ColumnEffects.ColumnEffect | src-tauri/src/board.rs:957-1016 | column by column what each user edit leaves: the name and description asked for on that column alone, a new one last, a moved one where asked, a deleted one gone, the others in their order |
| ColumnEffects.FirstOtherIs | src-tauri/src/board.rs:1007-1015 | the cards of a column deleted without a pick go to the first of the other columns |
| ColumnEffects.ChangeEffect | src-tauri/src/board.rs:1105-1130 | each change of a proposal does what it says to the column that it refers to, and to the cards of a deleted one |
| ColumnEffects.DecidedAsAsked | src-tauri/src/board.rs:1134-1160 | an approved proposal leaves the columns there were and those it adds but for those it deletes, each with the name and description last asked for; a rejected one leaves all; that proposal alone is gone and its proposer answered |
| ProposalReading.SameNameExactly | src-tauri/src/board.rs:431-445 | a column's name is matched whatever the case of its ASCII letters, and in no other way |
| ProposalReading.ColByMeans | src-tauri/src/board.rs:431-445 | the column found is the one of that number, or the first of that name; none is found only if there is none |
| ProposalReading.ReferMeans | src-tauri/src/board.rs:1053-1059 | a reference means the column named, exactly when that is not a new column under a name an earlier new one was added under |
| ProposalReading.MeansTheOther | src-tauri/src/board.rs:1049-1095 | a proposal whose last change is made to another column than the one it names |
| ProposalReading.ProposedAsAsked | src-tauri/src/board.rs:1035-1102 | an accepted proposal is queued last under a new number, with its proposer, reason and time, and each of its changes is the one asked for, of the columns named |
| Proposals.EditReshapes | src-tauri/src/board.rs:957-1012 | a column edit is accepted, and changes the columns' ids and order, by the ids, their order and the counter alone |
| Proposals.SimulationApplies | src-tauri/src/board.rs:1035-1102 | the copy a proposal was checked on is what applying its changes to the board itself gives |
| Proposals.ApprovalAsSimulated | src-tauri/src/board.rs:1105-1160 | whatever card edits and renames came between, while column ids, order and counter are as when proposed, approval succeeds and gives the simulated column order |
| Proposals.NothingMovesUntilApproved | src-tauri/src/board.rs:1134-1160 | proposing, rejecting and a failed approval leave columns and cards untouched |
| OutboxState.OneEntryEach | src-tauri/src/board.rs:1528-1564 | a queued card with a real net change has exactly one entry in the message, one without has none |
| OutboxState.MessageIsPending | src-tauri/src/board.rs:1566-1652 | the message's entries are the pending cards, each once, ascending; no message exactly when nothing is pending |
| OutboxState.UpdateSaysWhatItCounts | src-tauri/src/board.rs:1394-1442 | released with nothing already going out, the message taken has exactly one entry per card counted; refused, nothing would have been said |
| OutboxState.OthersKept | src-tauri/src/board.rs:1432-1472 | releasing and taking one claude's changes touches no other claude's queue |
| NetDifference.FoldIs | src-tauri/src/board.rs:1318-1346 | folding keeps the first baseline, all the posted comments, the last title and everyone who acted of a card, and of no other card |
| NetDifference.BaselineIsSet | src-tauri/src/board.rs:1299-1346 | a folded card always has a baseline |
| NetDifference.LiveIsStanding | src-tauri/src/board.rs:1515-1526 | a queue has a comment to tell exactly when one of those it was told of still stands on the card |
| OutboxWords.FoldWords | src-tauri/src/board.rs:1318-1346 | folding also keeps which kinds of change a card had, who it was last handed to, the last pick, and whether it was archived before |
| OutboxWords.CommentsInOrder | src-tauri/src/board.rs:1515-1526 | the comments told are the posted ones in their order, each by who posted it and as it reads now, deleted ones left out |
| OutboxWords.PostedInOrder | src-tauri/src/board.rs:1318-1346 | the comments folded are those the events tell of, in their order |
| OutboxWords.PartsInOrder | src-tauri/src/board.rs:1585-1605 | an entry's parts come in a fixed order, each kind once |
| NetDifference.CountedSinceFirstTold | src-tauri/src/board.rs:1376-1406 | every run, claudes' actions, refusals and decisions included: a card is counted for a claude exactly when a call told it of the card, and the card now differs from what it was before the first such call, or a comment posted while it held the card stands |
| NetDifference.NetDifferenceTheorem | src-tauri/src/board.rs:1376-1406 | when the user was the first to change it, that is the difference from the start of the run: held then, gone, changed, or with a standing comment posted meanwhile; or not held then and held now |
| NetDifference.MessageSaysTheDifference | src-tauri/src/board.rs:1528-1652 | each entry of a message says how its card differs from its baseline: deleted; given away, and to whom; or exactly the fields that differ, the comments told of that stand as they read now, and the whole text and images of a card that is new to the claude or edited; and who did it |
| NetDifference.UpdateSaysTheDifference | src-tauri/src/board.rs:1394-1472 | after every run, releasing and taking a claude's changes gives exactly one entry for each card that differs, ascending, and each entry says how |
| NetDifference.NewCardTheorem | src-tauri/src/board.rs:1528-1545 | a card made for a claude in the round counts for it as long as it exists, and for any other exactly when that one holds it |
| NetDifference.ArchivedGoesSilently | src-tauri/src/board.rs:943-1012 | deleting an archived card, or its column, tells nobody of it |
| OutboxSending.PushSends | src-tauri/src/board.rs:1376-1386 | a claude's events go out, each to its own claude and after what was going out, and its clock starts with the first; the user's do not |
| OutboxSending.ReleaseAppends | src-tauri/src/board.rs:1432-1442 | UPDATE appends what waited to what is going out if it says something and else drops it, its clock kept if it runs; nobody else is touched |
| OutboxSending.TakeTakesAll | src-tauri/src/board.rs:1469-1472 | taking renders all that was going out and leaves nothing of it; nobody else is touched |
| OutboxSending.ForgetKeeps | src-tauri/src/board.rs:1445-1450 | the queues of those kept are kept, the others' are gone, and the answer says whether there was one |
| OutboxSending.EveryEventIsBooked | src-tauri/src/board.rs:1376-1472 | in every run of calls, releases and takes each event told to a claude is in exactly one place: waiting, going out, in a message taken, or in a queue dropped as saying nothing |
| OutboxSending.SendingSaysTheDifference | src-tauri/src/board.rs:1376-1472 | after every run taking gives exactly one entry for each card that a claude's call told of and that differs from before the first such call, and each entry says how |
| BoardMachine.Board.Normalize | src-tauri/src/board.rs:469-474 | one pass over the list gives the stable pinned-first order |
| BoardMachine.Board.Take | src-tauri/src/board.rs:498-503 | takes the first card of that number out, and only it |
| BoardMachine.Board.ApplyUser | src-tauri/src/board.rs:770-1033 | each user edit in place: the new board and the result of the specification, half-changed when refused as in the source |
| BoardMachine.Board.Sweep | src-tauri/src/board.rs:935-942 | archiving a column in one pass: which cards, and whom it tells |
| BoardMachine.Board.DeleteColumn | src-tauri/src/board.rs:986-1016 | deleting a column: its cards rehomed one by one in their order, with the events |
| BoardMachine.Board.ApplyChange | src-tauri/src/board.rs:1105-1130 | one column change with the names made so far |
| BoardMachine.Board.Propose | src-tauri/src/board.rs:1035-1102 | reading a proposal against a copy, change by change, and keeping it |
| BoardMachine.Board.Decide | src-tauri/src/board.rs:1134-1160 | approving or rejecting a proposal in place |
| BoardMachine.Board.ApplyClaude | src-tauri/src/board.rs:543-756 | each claude action in place |
| BoardMachine.Outbox.Push | src-tauri/src/board.rs:1376-1386 | events queued per claude, for UPDATE or to go out at once |
| BoardMachine.Outbox.Fold | src-tauri/src/board.rs:1318-1346 | the folding loop over a mutable map is the fold of the specification |
| BoardMachine.Outbox.Release | src-tauri/src/board.rs:1432-1442 | moves a queue to sending if it would say something, else drops it |
| BoardMachine.Outbox.Take | src-tauri/src/board.rs:1469-1472 | takes what is going out and renders it on the board of now |
| BoardMachine.BoardStore.UserDoes | src-tauri/src/board.rs:1776-1787 | clone, apply, commit only if accepted; its events queue for UPDATE; a well-formed board stays so |
| BoardMachine.BoardStore.ClaudeDoes | src-tauri/src/board.rs:1776-1787 | the same for a claude's action, whose events go out on their own |
| Base64.RoundTrip | src-tauri/src/pty.rs:438-445 | the text output is sent as decodes to the same bytes, for every byte string |
| Base64.NeverAControlFrame | src-tauri/src/pty.rs:331-335 | output text never begins like a control frame |
| OutputLog.WeaveIsLog | src-tauri/src/pty.rs:373-392 | bytes and marks, each mark between its two bytes, determine the log |
| OutputLog.PaneShows | src-tauri/src/pty.rs:331-342 | a pane of any terminal shows its snapshot and then what the messages decode to, however they are cut |
| OutputSink.PushedAgrees | src-tauri/src/pty.rs:425-445 | a chunk keeps ring, marks, watchers and pane what the log says; the ring is the last `cap` bytes |
| OutputSink.ResizedAgrees | src-tauri/src/pty.rs:461-471 | so does a resize, at its offset in the stream |
| OutputSink.LocalAgrees | src-tauri/src/pty.rs:449-458 | pane-only text is in no ring and at no offset |
| OutputSink.SeededAgrees | src-tauri/src/pty.rs:475-483 | a sink seeded with the daemon's ring stands for that window of the log |
| OutputSink.MirroredAgrees | src-tauri/src/pty.rs:499-511 | a desktop begins with the log's window |
| OutputSink.WatchedAgrees | src-tauri/src/pty.rs:487-495 | a phone begins with the last `cap` bytes of everything |
| OutputSink.RingMsgsShow | src-tauri/src/pty.rs:375-392 | the messages of the ring decode to exactly its bytes and resizes from the offset on, each resize between the right two bytes |
| OutputSink.ComposedRebuilds | src-tauri/src/pty.rs:354-371 | the rebuild shows exactly the log from the snapshot's offset, else from the spawn, else from the ring's start |
| OutputSink.AttachSends | src-tauri/src/pty.rs:518-551 | what each kind of attach sends, the adopted session's buffer included |
| SinkAttach.AttachExactly | src-tauri/src/pty.rs:518-551 | when an attach rebuilds the pane, what it resets it to, and that it asks for a redraw exactly when it rebuilds from the ring's start without a snapshot; nothing else of the sink changes but that the snapshot is used up |
| SinkAttach.SeededAttaches | src-tauri/src/pty.rs:475-537 | a session adopted just now attaches from the snapshot, spawn size or size it was seeded with |
| SinkRuns.RingIsTheEndOfTheLog | src-tauri/src/pty.rs:289-308 | in every run the ring is the last at-most-`cap` bytes of everything, start plus length the total, the kept resizes those at or after start in order |
| SinkRuns.DesktopSeesTheLog | src-tauri/src/pty.rs:497-511 | in every run a desktop's first ring and resizes followed by all it received are the log from its start, no gap, nothing twice |
| SinkRuns.PhoneMissesNothing | src-tauri/src/pty.rs:485-495 | in every run a phone got every byte since it began |
| SinkWatchers.SentToAll | src-tauri/src/pty.rs:436-437 | sending forgets exactly the watchers that left; each other one, in order, gets exactly that chunk more |
| SinkWatchers.PhoneGetsEverything | src-tauri/src/pty.rs:425-495 | from joining until it leaves, whatever happens, a phone is there and was sent every byte since, after the ring it was given |
| SinkWatchers.DesktopGetsEverything | src-tauri/src/pty.rs:425-511 | from joining until it leaves, whatever happens, a desktop is there, and what it was given and sent is the log from its ring's start |
| SinkWatchers.LeavingEnds | src-tauri/src/pty.rs:436-437 | one that left is sent nothing more, and no other is touched |
| SinkRuns.ReattachShowsTheTerminal | src-tauri/src/pty.rs:538-551 | in every run whose ring never rolled over, a re-attached pane and all that follows show what any terminal itself shows of the whole log |
| SinkAttach.AdoptedShowsOnceExactly | src-tauri/src/pty.rs:522-537 | an adopted session's first attach shows the log from where it resets the pane exactly when nothing waited in its buffer |
| SinkAttach.AdoptedFirstAttach | src-tauri/src/pty.rs:518-537 | in terms of the run: exactly when no unseen byte and no pane-only text came between the seed and the attach |
| SinkAttach.AdoptedByteShownTwice | src-tauri/src/pty.rs:522-537 | an adopted session in which one byte came before the attach, and its pane shows it twice |
| SinkAttach.AdoptedShowsFromSnapshot | src-tauri/src/pty.rs:522-537 | from the first attach on, for every terminal and whatever comes, the pane shows the snapshot, the log from its offset, the buffer once more, and the log as it goes on |
| SinkAttach.FreshFirstAttach | src-tauri/src/pty.rs:538-551 | a fresh session's first attach shows the log exactly when no resize and no pane-only text came before |
| SinkAttach.FreshResizeIsNotSent | src-tauri/src/pty.rs:538-551 | a session resized before its first attach, whose pane is sent no resize |
| SinkFeed.EveryByteOnce | src-tauri/src/pty.rs:416-422 | chunks that may overlap but never gap add the stream from where the sink was, every byte once |
| SinkFeed.AdoptionTakesEveryByteOnce | src-tauri/src/pty.rs:575-614 | for every split into chunks, every point of release and whatever else happens, the adopted sink's log is the same and its bytes stay a window of the daemon's stream |
| SinkMachine.LiveSink.Push | src-tauri/src/pty.rs:425-445 | the ring, the popped resizes, the watchers kept and the pane are those of the specification |
| SinkMachine.LiveSink.PushAt | src-tauri/src/pty.rs:416-422 | drops what the sink already has |
| SinkMachine.LiveSink.Resize | src-tauri/src/pty.rs:461-471 | records the resize at the total, sends it to desktops and pane |
| SinkMachine.LiveSink.Attach | src-tauri/src/pty.rs:518-551 | catches the pane up and streams live; the flag of the specification |
| SinkMachine.RingFrom | src-tauri/src/pty.rs:375-392 | the loop cuts the ring at each resize; no index leaves the ring |
| SinkMachine.LiveFeeder.Release | src-tauri/src/pty.rs:593-600 | applies what waited in the order it came, then no more waits |
| SinkMachine.LiveFeeder.Event | src-tauri/src/pty.rs:604-613 | queued before the release, applied after |
| SinkMachine.FedIsApplied | src-tauri/src/pty.rs:593-613 | the feed's sink is the sink of the results about whole runs |
| Wake.TickedSound | src-tauri/src/wake.rs:145-241 | a tick keeps: in flight exactly when marked `rang`, a count rung for implies a mark, the ack is held against the last ring's time |
| Wake.EveryRowIsSound | src-tauri/src/wake.rs:145-261 | that holds in every life of a row |
| Wake.DeliveredAfterLastRing | src-tauri/src/wake.rs:174-199 | in every life, `delivered` comes only from an ack no older than the last ring's recorded time, which for a typed ring is 500 ms before the window said it typed |
| Wake.RingIsSafe | src-tauri/src/wake.rs:201-238 | a ring starts only on mail, waiting, not held, nothing in flight |
| Wake.RingsKeepApart | src-tauri/src/wake.rs:214-222 | two rings in a row are RETRY apart unless the inbox grew past the count, emptied in between, or the row was replaced |
| Wake.NoLostRing | src-tauri/src/wake.rs:145-260 | from every reachable state, mail waiting at an idle unheld codex, ticks at most `gap` apart and the queue answering in its bound: within TYPED_WAIT + ACK_WAIT + gap (or RETRY) and a tick, a tick rang or turned the row delivered, if and only if the row was not delivered already or more came than that ring was for |
| Wake.CoveredMailIsNeverRung | src-tauri/src/wake.rs:208-222 | a delivered row that never has more unread than its ring was for stays as it is, for any number of ticks |
| Wake.NewMailBehindAnOldRing | src-tauri/src/wake.rs:208-222 | a life in which new mail is never rung for |
| Wake.RowsTickAlone | src-tauri/src/wake.rs:147-148 | in one tick each row takes exactly its own step |
| Wake.LandsExactly | src-tauri/src/wake.rs:154-199 | what a tick finds of what is in flight, case by case: ended, delivered or with the warning that says why not and the ring's time, or on its way |
| Wake.TicksExactly | src-tauri/src/wake.rs:200-238 | a whole tick of a row: emptied, rung by queue or by typing with all that is recorded of it, or left |
| Wake.TypedLinesExactly | src-tauri/src/wake.rs:228-241 | the lines to type are exactly those of the rows this tick puts into typing, in order, each once, and never of a row with a thread |
| Wake.AnswersExactly | src-tauri/src/wake.rs:245-260 | a typed line's ack is waited for from then on and ends as delivered or unanswered; a refused one ends with its reason |
| Wake.Wakes.Tick | src-tauri/src/wake.rs:145-241 | the loop over the rows gives the specified rows and lines to type, and keeps every row sound |
| Wake.Wakes.Typed | src-tauri/src/wake.rs:245-260 | the window's answer moves only a row that is being typed into |
| CompactSafety.EveryStoryIsLegal | src/lib/compact.ts:324-388 | in every run what each request did is one of ten stories |
| CompactSafety.LegalIsOnce | src/lib/compact.ts:343-387 | in those, `/compact` is typed at most once, the resume prompt at most once, and a request gives up at most once |
| CompactSafety.LegalIsOrdered | src/lib/compact.ts:343-387 | in those, the resume prompt comes right after the hub reported `resume`, and nothing follows giving up |
| CompactSafety.FailedGaveUp | src/lib/compact.ts:142-158 | a request shown as failed has given up, as its last deed, and never typed the resume prompt |
| CompactSafety.TypedOnlyWhenSafe | src/lib/compact.ts:291-302 | in every run everything typed went into an empty box, the turn over, compacts not held |
| CompactSafety.OneCompactPerCrossing | src/lib/compact.ts:208-255 | between two automatic starts on a row its attempt was released by the rules, or had failed RETRY_AFTER before, or a hold called off a hand-made request on it |
| CompactSafety.TooSoonExactly | src/lib/compact.ts:324-341 | in every run, an automatic start whose attempt was neither rightly released nor failed RETRY_AFTER before comes exactly after a hold that called off a hand-made request while the attempt was held |
| CompactSafety.FreedByHandExactly | src/lib/compact.ts:335-341 | a step frees an attempt so exactly under a hold, on a requested compact no rule made, of a row whose attempt is held |
| CompactSafety.StartedAgainTooSoon | src/lib/compact.ts:335-341 | a run in which a row is started again, its context never below the line |
| CompactSafety.ReleasesAreReal | src/lib/compact.ts:251-255 | a release for a low number saw it below the lowest rule, or no rule or number; one look at the project never both releases a row and starts it |
| CompactSafety.LowestRule | src/lib/compact.ts:240-249 | the rule found is at most every rule that covers the row |
| CompactEnds.EveryRequestEnds | src/lib/compact.ts:305-388 | in every run, with polls at most `gap` apart that find the turn over unless the request is compacting, whatever else is called in between: a request is over by RUN_TIMEOUT, twice IDLE_GIVE_UP and three gaps after any tick |
| CompactRules.StepExactly | src/lib/compact.ts:304-388 | case by case what one request's step leaves: the request, what is typed or said, the phase file and the row's attempt |
| CompactRules.TogglesExactly | src/lib/compact.ts:163-191 | the command starts a request on a running row that has none, cancels the one it has, and refuses otherwise |
| CompactRules.EveryRuleIsApplied | src/lib/compact.ts:208-234 | after a tick each running claude that a rule has reached, its own or that of a row above it, is being compacted, had its attempt or is being saved |
| CompactRules.OnlyRulesStart | src/lib/compact.ts:208-234 | a tick starts only rows that a rule is on and has reached, and names the row whose rule it is |
| CompactRules.LowestRuleExactly | src/lib/compact.ts:240-249 | the rule found is one that is on the row and none is lower; none is found only if none is on it |
| CompactRules.HeldTickFrees | src/lib/compact.ts:220-255 | after a tick no listed row's attempt that is to be freed is held, and no orphan is left |
| CompactRules.SweepEndsOrphans | src/lib/compact.ts:274-289 | the sweep ends the phase file of each orphan, tells it whether it had compacted, and ends no other |
| CompactRules.DropsExactly | src/lib/compact.ts:266-272 | a dropped row has no request and no attempt left, and no other row is touched |
| CompactRules.NoticeGoes | src/lib/compact.ts:155-157 | the notice of a failed request goes, and of no other |
| CompactRules.FoundSession | src/lib/compact.ts:327-332 | a row looked up is the first of that id, and none is found only if there is none |
| CompactRules.FoundEntry | src/lib/compact.ts:333 | so is its hub status |
| CompactRules.HeldUntil | src/lib/compactRetry.ts:20-39 | a row may not be started while its attempt is held, until its retry time if it has one |
| CompactMachine.Attempts.Failed | src/lib/compactRetry.ts:27-32 | a failure reopens a held row at RETRY_AFTER, and only a held one |
| CompactMachine.Attempts.MustWait | src/lib/compactRetry.ts:35-39 | whether the row must not be started now |
| CompactMachine.Compactor.Step | src/lib/compact.ts:324-388 | one request's step is the specified one |
| CompactMachine.Compactor.AutoTick | src/lib/compact.ts:208-234 | the tick's loops are the specified ones, and keep the invariant |
| CompactMachine.Compactor.ToggleRow | src/lib/compact.ts:163-174 | starts, cancels or refuses, keeping the invariant |
| CompactMachine.Compactor.DropRow | src/lib/compact.ts:266-272 | the row's request and attempt are dropped, keeping the invariant |
| CompactMachine.Compactor.LowestRuleFor | src/lib/compact.ts:240-249 | the running minimum is the lowest rule |
| Explain.NextKeeps | src-tauri/src/explain.rs:91-211 | every step of every thread keeps each reported id in the one place it is booked, requests and starts apart, and entries to their own children |
| Explain.EveryForkHasOneOwner | src-tauri/src/explain.rs:142-186 | in every interleaving each reported fork is in one panel's slot, or in the hands of one thread about to delete it, or deleted: never two, never none |
| Explain.AtRestSlottedOrDeleted | src-tauri/src/explain.rs:422-434 | when all threads are done a reported fork is in its slot exactly if it was not deleted |
| Explain.OneEndPerRequest | src-tauri/src/explain.rs:356-411 | in every interleaving each request emits at most one end, and none once a cancel took its entry |
| Explain.CancelledIsKilled | src-tauri/src/explain.rs:91-96 | in every interleaving only a child whose entry a cancel took is killed, and each such child is killed or about to be |
| Explain.WhoTakesSpeaks | src-tauri/src/explain.rs:356-411 | in every interleaving the ends said are those of the requests whose child took its own entry, each as often |
| Explain.FollowUpsOnlyRead | src-tauri/src/explain.rs:188-216 | in every interleaving a follow-up takes, puts, reports and deletes no fork |
| Explain.MadeExactly | src-tauri/src/explain.rs:163-205 | a start puts its empty slot and goes on to spawn, a spawned child is entered, a follow-up goes on exactly if its panel has a fork |
| Explain.Locked.TakeRunning | src-tauri/src/explain.rs:91-96 | under the lock: the protocol's step; the entry taken names a child that is cancelled from then on, and no other entry changes |
| Explain.Locked.TakeFork | src-tauri/src/explain.rs:142-148 | under the lock: the protocol's step; an id in the slot taken is then in this caller's hands to delete, and in no other place |
| Explain.Locked.PutFork | src-tauri/src/explain.rs:180-181 | under the lock: the protocol's step; there was no slot to overwrite |
| Explain.Locked.Look | src-tauri/src/explain.rs:197-205 | under the lock: the id read is in its slot and nobody has deleted it |
| Explain.Locked.NoteFork | src-tauri/src/explain.rs:425-434 | under the lock: the protocol's step; recorded, the id is in this request's slot, which was empty; not recorded, no slot changed and the id is this caller's to delete; no other id moves |
| Explain.Locked.Register | src-tauri/src/explain.rs:287-291 | under the lock: the protocol's step; the entry names the spawned child |
| Explain.Locked.TakeIfOurs | src-tauri/src/explain.rs:401-411 | under the lock: the protocol's step; true exactly when the row's entry is this very child's, which then was not cancelled and has said nothing; otherwise nothing changes |
| Secrets.RenderAccepts | src-tauri/src/secrets.rs:41-57 | a file is written exactly for at least one row, every trimmed name a shell identifier, none twice |
| SecretsProject.ParseAfterRender | src-tauri/src/secrets.rs:41-64 | whatever was written for any project is read back as the same rows, names trimmed, exactly when every line of its path after the first is blank or a comment |
| SecretsProject.PathLineIsRead | src-tauri/src/secrets.rs:207-237 | an accepted file whose path has another line, which is read as a row |
| SecretsProject.SourcedAfterRender | src-tauri/src/secrets.rs:39-64 | a shell that reads such a file assigns exactly those rows, each value literally, and does nothing else |
| Secrets.HeadersAfterRender | src-tauri/src/secrets.rs:131-138 | the headers give back the keys, and the project exactly when its path has no newline and no carriage return at its end |
| Secrets.CarriageReturnIsLost | src-tauri/src/secrets.rs:132-138 | an accepted file whose project is not read back |
| Secrets.Render | src-tauri/src/secrets.rs:41-64 | the loop gives the specified text or the first row's fault |
| Secrets.Parse | src-tauri/src/secrets.rs:207-237 | the loops give the specified rows or error, for every text |
| Paths.ChainIsOneMap | src/lib/paths.ts:16-24 | the chained replacements are one per-character map |
| Paths.EscapePathIsPrintable | src/lib/paths.ts:7-10 | no control character goes out: no CR or LF, nor an ESC that would end the paste |
| Paths.ReadBack | src/lib/paths.ts:11-26 | a shell reads what was printed as the path itself, for every NUL-free path and both forms |
| Paths.PasteSplitsIntoPaths | src/lib/paths.ts:30-32 | the words of a paste are its paths but for empty ones |
| Paths.OnePaste | src/lib/paths.ts:28-32 | whatever the paths hold, the only escapes sent begin the paste's two markers, and no CR or LF is sent |

## Left out

- JSON decoding of hub calls, trimming and cutting of texts (they reach the board already trimmed and cut), the wording
  of messages, `claude_view` and `counts`: text plumbing.
- Image files and chunked uploads, the migration of old lists, saving and loading: I/O around the core.
- The Outbox's clocks beyond when a queue began to wait, and `due`: they would only add easy members.
- The gap between the board's lock and the outbox's, a real lock's fairness, and the daemon, process and channel code.
- Fixed widths: offsets, counters and times are unbounded; the source's are 16 to 64 bits.
- Several projects at once in the compact machine (requests of different projects do not touch), the phase file itself
  (the hook's side of it is an input), and exceptions thrown inside a step.
- The wake log file, the spawned `codex queue` process and the text of a wake line.
- What a child prints besides its fork id, the watchdog, deltas and the text of an end, in explain.
- Files and permissions of secrets; a byte-level view of strings.
- NetDifference.NetDifferenceTheorem: counts from the start of the run, so it assumes that the user was the first to change
  the card, and that its holder had not archived it; `NetDifference.CountedSinceFirstTold` assumes neither.
- SinkRuns.ReattachShowsTheTerminal: needs the ring to start at the spawn; otherwise the pane is rebuilt from the ring's
  start and the program is asked to redraw, as `OutputSink.ComposedRebuilds` says.
- SinkFeed.AdoptionTakesEveryByteOnce: is about bytes; a resize the daemon repeats is recorded again, as in the source.
- Explain.EveryForkHasOneOwner: assumes starts of one row do not overlap and a child reports one new id.
- SecretsProject.SourcedAfterRender: what a shell does with another line of a project path is not covered when that line is
  neither blank nor a comment.
- A proposal's check for repeated column names folds the case of ASCII letters only (`BoardState.NamesDistinct`); the
  source folds Unicode's.
- Paths.ReadBack: what becomes of a NUL is not specified by the shell's language, and no path has one.
