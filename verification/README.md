# Verified models of a mobile SSH and mosh client

The application is a terminal for a phone: it speaks SSH and mosh, moves files over SFTP and shows QR codes. This
project models the parts of it where a mistake would be silent and proves what they promise.

- **The mosh client** (`MoshTypes`, `MoshSender`, `MoshClient`, `MoshSession`, `MoshSafety`, `MoshTyping`,
  `MoshTwice`, `MoshGuarantees`, `MoshConverge`, `MoshEnding`, `MoshSending`, `MoshCut`, `MoshForget`, `MoshCrash`,
  `MoshPacing`). Typing is a list of events, of which numbered prefixes are sent optimistically over a network that
  loses, repeats and reorders. A journal lets the session survive the app. Class `Client` holds the fields that the
  operations update in place, and each method is proved to have a specified outcome. `MoshSession` puts the outcomes
  into whole runs with a mosh-server, the network and crashes between any two journal writes.
- **The screen** (`MoshReceiver`, `MoshScreens`, `MoshRefinement`, `MoshHalf`, `MoshHost`, `Terminal`). A tree of
  screen states, a mirror of the newest, folding of old ones, and the lines that go into the scrollback. libvterm is
  any terminal for which writing a screen's description draws that screen; `LawsCanBeMet` shows one.
- **The journal and the wire** (`Endian`, `MoshJournal`, `MoshNonces`, `MoshWire`, `MoshFragments`, `MoshFormat`,
  `MoshLimits`), byte by byte.
- **The QR encoder** (`Galois`, `ReedSolomon`, `QrDistance`, `QrBlocks`, `QrBits`, `QrPlacement`, `QrMask`,
  `QrSegments`, `QrData`, `QrStandard`, `QrRoundTrip`), after ISO/IEC 18004:2015, sections 7.4 to 7.8, ending in one
  theorem from the text to the finished modules and back.
- **SFTP** (`SftpTransfer`, `SftpDelivery`, `SftpQueue`, `SftpOrder`): the pipelined engine and the life of its
  requests.
- **The output throttle** (`OutputThrottle`): an atomic counter and a wake pipe between two threads.

Operations that change state are methods proved equal to a function of the old state; the main results are lemmas
about those functions over all inputs, all runs and all crash points. Clocks, random bytes, answers of the network,
of libraries and of the file system are parameters. `dafny verify dfyconfig.toml` checks everything.

The code does not keep three promises by itself. For each there is the exact condition under which it does, a theorem
over all runs, and a run or a file in which it does not.

- Typing arrives once and in order (`TypingArrivesExactly`) if and only if no cull of the states sent shifts the base
  of a diff to a state of other typing. The loop that picks the base reads the clock for each state, so a client held
  up in it can come to that: the server then has an event twice (`HarmedTypingArrivesTwice`, `TypingCanArriveTwice`).
  With one reading for each tick it cannot (`TypingArrivesWithStillClock`).
- Rewriting the journal in place can forget typing when it is cut short: `CutRewriteExactly` says what is kept for
  every cut, `CutIsReadExactly` which cuts are read at all, `CutForgetsTyping` that some of these forget all events.
  `CutGoesOnExactly` says of any reachable session when it still goes on where it was, `AnnouncedCanGrow` what can
  then still go wrong.
- A screen state journaled without the record that makes it the newest is never taken again
  (`HalfJournaledIsNeverTaken`); news is taken if and only if no state of its number is held (`TakenExactly`), which is
  always so without a crash between those two records (`WithoutSuchCrashNewsIsTaken`).

## Model

| member | source | states |
|---|---|---|
| MoshGuarantees.TypingArrivesExactly | src/moshclient.cpp:1273-1444 | in every run with loss, repeats, reordering, retries, crashes and resumes, and with a clock that moves on within a tick, everything said to the server and held by it is the first so many events typed, if and only if no cull shifts the base of a diff to a state of other typing |
| MoshGuarantees.TypingArrivesOnceInOrder | src/moshclient.cpp:1374-1444 | in every session such a run reaches, each state number the server holds carries exactly the first so many events typed |
| MoshGuarantees.TypingArrivesWithStillClock | src/moshclient.cpp:1273-1444 | every run whose ticks are over before the clock moves is such a run |
| MoshTyping.DataIsTrueExactly | src/moshclient.cpp:1374-1425 | for any state taken for received: an instruction with typing carries exactly the events between the states it names, or names one state twice, if and only if the cull does not make it name a state of other typing |
| MoshTyping.AckIsTrue | src/moshclient.cpp:1364-1372 | an instruction without typing always does |
| MoshTyping.TickIsTrueExactly | src/moshclient.cpp:1325-1354 | so what a tick sends is true, for any readings of its clock, if and only if it does not come to such a cull |
| MoshTyping.StepIsTrueExactly | src/moshclient.cpp:1215-1461 | a step of client, network, server or crash, waitTime() between ticks included, keeps all that was said true if and only if it is not such a tick |
| MoshTyping.RunIsTrueExactly | src/moshclient.cpp:1215-1461 | and a run from any true session if and only if it has no such tick |
| MoshTyping.AssumedZeroOrLast | src/moshclient.cpp:1273-1282 | with times in order and one reading of the clock, the state taken for received is either the front or the newest |
| MoshTyping.StillIsCareful | src/moshclient.cpp:1325-1444 | so a run with one reading for each tick has no such tick |
| MoshTyping.HarmedTypingArrivesTwice | src/moshclient.cpp:1407-1421 | after such a tick the instruction carries events its base has already, and a server that holds the base and takes it has them twice |
| MoshTwice.TypingCanArriveTwice | src/moshclient.cpp:1273-1282 | there is a run from the start, of a client held up in the loop that reads the clock for each state sent, after which the server has the 18th event twice |
| MoshGuarantees.AnnouncedNeverChanges | src/moshclient.cpp:1215-1229 | the events a number once announced stands for never change through any further run, although the last event may still grow before it is sent |
| MoshGuarantees.CrashLosesNothing | src/moshclient.cpp:511-544 | whatever the crash point, the journaled front is a state the server still holds, no throwaway number sent exceeds it, all typing from the base on is there, every restored state carries its true event count, and the made-up first state is never needed |
| MoshGuarantees.NumbersNeverRepeat | src/moshclient.cpp:1398-1409 | a state number journaled as new, other than the one that ends a session, is above every number announced before, across restarts |
| MoshGuarantees.FromTheFrontIsTaken | src/moshclient.cpp:1411-1425 | an instruction that starts from the oldest state kept is taken by a server without the new state, which then has all typing |
| MoshGuarantees.LostTypingArrives | src/moshclient.cpp:1273-1354 | recovery: whatever was lost, a tick late enough in a session with unacknowledged typing sends from the front, and the server then has all typing, by taking that or because it had it already |
| MoshConverge.ServerNeverGoesBack | src/moshclient.cpp:1411-1461 | through any further run, crashes and throwaways included, what a state of the server holds stays the beginning of one it holds |
| MoshConverge.CanAlwaysCatchUp | src/moshclient.cpp:1273-1461 | from any session with a client that can send, at most three steps lead to the server holding everything typed |
| MoshConverge.TypingConverges | src/moshclient.cpp:1273-1461 | in an endless session in which again and again a late tick's instruction gets through, once nothing more is typed the server comes to hold all typing for good |
| MoshGuarantees.NamedBase | src/moshclient.cpp:1374-1425 | for any state taken for received, the number named is that of the state the diff was made from if and only if no cull shifts its index |
| MoshGuarantees.EndNumberMustNotSurviveRestart | src/sshsession.cpp:1112-1114 | from the rewritten journal of any session whose newest state has the ending number, however often that was sent, an acknowledgment of the next state sent makes the ending number the front |
| MoshGuarantees.EndFrontForgetsAll | src/sshsession.cpp:1112-1114 | and with that front the next instruction tells the server to forget every state with a lower number, the one it has just acknowledged among them |
| MoshGuarantees.EndedSessionIsNotResumed | src/sshsession.cpp:1112-1114 | as the journal is removed before the shutdown, a session that was still going when it was ended has none in any further run and is never resumed |
| MoshCut.CutRewriteExactly | src/moshclient.cpp:647-671 | a restart from a rewrite cut after any record from the front on has all typing if and only if the cut is behind the last event, and true counts if and only if it is behind the first state sent or the state made up in its place happens to be right |
| MoshCut.CutIsReadExactly | src/moshclient.cpp:647-769 | such a file is read if and only if it goes on to the newest screen, or to a screen with number 0 |
| MoshCut.CutForgetsTyping | src/moshclient.cpp:647-769 | so for every client with events there is a cut that is read and forgets them all |
| MoshCut.CutForgetsAKey | src/moshclient.cpp:647-769 | such as for a client just started with one key typed |
| MoshForget.CutGoesOnExactly | src/moshclient.cpp:511-671 | a reachable session killed in the middle of rewriting its journal goes on where it was if and only if the first state sent was written again |
| MoshForget.CutNumbersAreNew | src/moshclient.cpp:647-671 | wherever the rewrite was cut from the front's record on, the next number is above all announced, as the reservation is written first, while numbers fit 64 bits |
| MoshForget.CutSessionIsSound | src/moshclient.cpp:511-671 | behind the first state sent, what a restart goes on from is a sound and true session without the states it has forgotten, so all theorems hold of the states it knows |
| MoshForget.AnnouncedCanGrow | src/moshclient.cpp:1215-1229 | keys that grow the last event of such a session change what a number announced stands for if and only if the last state sent before covered that event |
| MoshCrash.TornRecordIsDropped | src/moshclient.cpp:635-696 | a record behind others that is not whole, wherever it breaks off, is read as if it had not been written |
| MoshCrash.TornCrashLosesNothing | src/moshclient.cpp:511-769 | the journal of any reachable session, as bytes and with any part of one more record behind it, is accepted exactly as it would be without, and a restart from what is read has all that CrashLosesNothing says |
| MoshCrash.TornCrashResumes | src/moshclient.cpp:511-769 | the session resumed from those bytes is reachable, so all theorems hold of it, also when the record was torn behind others of the same operation |
| MoshCrash.TornRewriteExactly | src/moshclient.cpp:647-769 | a rewrite cut at any byte is read as its whole records and keeps exactly what MoshCut says of those |
| MoshSafety.RewriteRoundTrip | src/moshclient.cpp:647-671 | reading the journal just rewritten gives back reservations, front, base, events and every state sent |
| MoshSafety.TickOk | src/moshclient.cpp:1325-1354 | whatever its clock reads, a tick sends under a number that stands for everything typed, never tells the server to forget the front, and leaves a sound client |
| MoshSafety.SendDisk | src/moshclient.cpp:1398-1409 | after any prefix of a tick's journal writes the file still restores a sound sender that knows every number sent |
| MoshSafety.RestoreOk | src/moshclient.cpp:524-531 | a restored sender satisfies the running client's invariant, with the front first and without a made-up state |
| MoshSafety.StepKeeps | src/moshclient.cpp:1215-1461 | every step of client, network, server and crash keeps the session's invariant, waitTime() with its drops and deadlines among them |
| MoshSafety.RunKeeps | src/moshclient.cpp:1215-1461 | so does every run |
| MoshClient.Client.constructor | src/moshclient.cpp:500-503 | a session starts with state 0, which has no events, and both deadlines due |
| MoshClient.Client.JournalEvents | src/moshclient.cpp:667-668 | the events are appended with their indices counted from the base |
| MoshClient.Client.JournalSentStates | src/moshclient.cpp:669-670 | every state sent is appended with its count |
| MoshClient.Client.RewriteJournal | src/moshclient.cpp:647-671 | the file becomes the reservations, the front, the base, all events and all states sent, with the reservations raised above the newest number |
| MoshLimits.StatesReserved | src/moshclient.cpp:647-657 | the rewrite reserves 65536 state numbers beyond the newest and gives none back |
| MoshLimits.RewrittenBeforeSending | src/moshclient.cpp:908-911 | the journal is written anew before an instruction exactly when the packets pass the nonces reserved, with the states sent and the reservation |
| MoshLimits.RewrittenSeldom | src/moshclient.cpp:1398-1404 | a new state is journaled behind the others, after a rewrite only if its number is not reserved |
| MoshClient.Client.Write | src/moshclient.cpp:1215-1229 | keys grow the last event only while no state sent covers it, otherwise they become a new one, and are journaled either way |
| MoshClient.Client.ResizeTo | src/moshclient.cpp:1231-1237 | a size is an event of its own |
| MoshClient.Client.DiffFrom | src/moshclient.cpp:1252-1271 | the diff from an index is exactly the events from there on |
| MoshClient.Client.UpdateAssumedReceiverState | src/moshclient.cpp:1273-1282 | with the clock read for each state, the state taken for received is the last before the first one too old |
| MoshClient.Client.DropServedEvents | src/moshclient.cpp:1287-1291 | events the front covers are dropped and the base moves with them |
| MoshClient.Client.RefreshTimers | src/moshclient.cpp:1284-1313 | both deadlines follow from what is unsent, unacknowledged and due |
| MoshClient.Client.Wait | src/moshclient.cpp:1315-1323 | the wait is the time to the nearer deadline in what an int holds, and the most when finished |
| MoshClient.Client.SendWhatIsDue | src/moshclient.cpp:1331-1346 | data goes out if the assumed state lacks any, otherwise an acknowledgment when that is due |
| MoshClient.Client.TickAt | src/moshclient.cpp:1325-1354 | one tick, the clock moving on within it: deadlines, sending and the end of the session, with the journal writes before the instruction |
| MoshEnding.LastTakenIsAcknowledged | src/moshclient.cpp:1411-1425 | every instruction of every run acknowledges the screen last taken, after a restart the one come back to |
| MoshEnding.ScreenIsAcknowledged | src/moshclient.cpp:1284-1346 | a change of the screen is acknowledged within 100 ms: the wait is no longer, and a tick after it sends an instruction with its number |
| MoshEnding.OwedUntilSent | src/moshclient.cpp:1164-1168 | an acknowledgment owed stays owed in every step until an instruction goes out |
| MoshSending.SendsEveryThreeSeconds | src/moshclient.cpp:1284-1388 | a client that has sent waits at most three seconds, and a tick after them sends again whatever there is to say |
| MoshSending.IdleIsQuiet | src/moshclient.cpp:1284-1346 | with nothing unacknowledged and no acknowledgment owed nothing is sent before that |
| MoshSending.WaitsForRetry | src/moshclient.cpp:1294-1309 | with unacknowledged typing and the server heard lately the client waits at most until the newest state sent is past its time |
| MoshSending.NewTypingIsDue | src/moshclient.cpp:1294-1303 | new typing is due once it has waited a millisecond and the interval since the last instruction is over, and no sooner |
| MoshSending.OldTypingIsDue | src/moshclient.cpp:1297-1309 | when nothing is new, typing not taken for received is due after the interval, typing taken for received but not acknowledged after the timeout and 100 milliseconds, and nothing for a server unheard for ten seconds |
| MoshSending.AssumedExactly | src/moshclient.cpp:1273-1282 | the state taken for received is the newest such that it and all before it were sent less than the timeout and 100 ms ago |
| MoshSending.ServedIsDropped | src/moshclient.cpp:1287-1291 | exactly the events that the front covers are dropped |
| MoshSending.NumberOfData | src/moshclient.cpp:1374-1388 | typing sent again keeps the newest number, new typing gets one above it and above those reserved, which is journaled, an ending session the last number |
| MoshSending.NumberOfAck | src/moshclient.cpp:1364-1372 | an acknowledgment without typing always gets a new number, journaled |
| MoshSending.CullExactly | src/moshclient.cpp:1405-1409 | 32 states are kept; with one more the one goes that has fifteen newer ones before the newest |
| MoshSending.AcknowledgedIsFront | src/moshclient.cpp:1446-1461 | an acknowledged state becomes the front, all newer ones stay, and the front is journaled if it is another |
| MoshSending.UnknownIsIgnored | src/moshclient.cpp:1446-1461 | an acknowledgment of a state not among those sent changes nothing |
| MoshSending.FirstTickSends | src/moshclient.cpp:500-530 | the first tick of a session just begun or resumed sends |
| MoshSending.TypedTogether | src/moshclient.cpp:1215-1229 | keys typed in pieces before anything is sent become one event, as if typed at once |
| MoshSending.TypedApart | src/moshclient.cpp:1215-1229 | behind a size, or an event a state sent covers, keys are an event of their own |
| MoshGuarantees.ShutdownIsFinal | src/moshclient.cpp:1356-1362 | a shutdown once begun is not begun again, nothing is typed or resized any more, and the first tick ten seconds on ends the session |
| MoshEnding.OverExactly | src/moshclient.cpp:1325-1354 | after a tick of a session that was not over it is over if and only if it is being ended and the front is 2^64-1, sixteen tries are made or ten seconds are over, or the last acknowledgment sent was 2^64-1; with what the tick makes of tries and acknowledgment |
| MoshEnding.OverIsOver | src/moshclient.cpp:1315-1328 | a session that is over sends and waits for nothing any more |
| MoshEnding.ServerEnds | src/moshclient.cpp:1310-1354 | once the server's own end was heard and the interval has passed a tick says so, and the session is over |
| MoshEnding.EndIsRepeated | src/moshclient.cpp:1310-1354 | a session being ended says so with every instruction, as often as the interval allows, and each is a try |
| MoshEnding.NeverOverByItself | src/moshclient.cpp:1325-1461 | in every run in which neither the user nor the server ends it, the session is never over or being ended |
| MoshClient.Client.EmptyAck | src/moshclient.cpp:1364-1372 | an acknowledgment is a new state number without a diff |
| MoshClient.Client.ToReceiver | src/moshclient.cpp:1374-1388 | data is sent under the newest number if that covers it, else under a new one, and taken for received |
| MoshSafety.MarkSentOk | src/moshclient.cpp:1374-1409 | whether a state is sent again or anew, its number stands for everything typed, no number changes what it stands for, and the front stays |
| MoshClient.Client.AppendSentState | src/moshclient.cpp:1398-1409 | a new state is journaled, appended, and one of the middle culled past 32, after raising a used-up reservation |
| MoshClient.Client.Instruct | src/moshclient.cpp:1411-1444 | the instruction names the assumed state, the new one, the acknowledged and the front, and counts the tries of a shutdown |
| MoshClient.Client.Acknowledge | src/moshclient.cpp:1446-1461 | a number not among the states sent is ignored, otherwise all below it go and the new front is journaled |
| MoshClient.Client.OpenJournal | src/moshclient.cpp:601-612 | opening a journal writes all of it anew |
| MoshClient.Client.Resume | src/moshclient.cpp:511-530 | resuming starts from the journaled front, with floors at the reservations, and writes the journal anew |
| MoshPacing.AnyRoundTripIsOk | src/moshclient.cpp:794-803 | whatever round trips were measured, the timeout and the send interval keep their bounds and the interval is no longer than the timeout |
| MoshPacing.TimingExactly | src/moshclient.cpp:794-803 | the timeout is the round trip with four times its variation and the interval half of it, rounded up, between their bounds |
| MoshPacing.DueMeansData | src/moshclient.cpp:1284-1346 | a due send deadline always finds something to send, so the branch that only clears it is dead |
| MoshPacing.ZeroWaitMeansSending | src/moshclient.cpp:1315-1346 | waitTime() is zero if and only if a tick at that moment sends |
| MoshPacing.WakingSends | src/moshclient.cpp:1315-1346 | waking when waitTime() said sends, if and only if an acknowledgment is due, there is new typing or the server was heard recently |
| MoshPacing.InstructionsKeepDistance | src/moshclient.cpp:1364-1388 | in any run from a sound session, with ticks over before the clock moves, two instructions within one life of the client are at least 20 milliseconds apart |
| MoshPacing.EveryRunKeepsDistance | src/moshclient.cpp:1364-1388 | so they are in every run from the start, within one life of the client |
| MoshReceiver.Screens.constructor | src/moshclient.cpp:494-496 | the first screen is the server's empty 80x24 one |
| MoshReceiver.Screens.Resume | src/moshclient.cpp:531-538 | a restart shows the newest screen journaled and counts lines on from it |
| MoshReceiver.Screens.Steps | src/moshclient.cpp:1063-1075 | the way to a state is its ancestors from a root on, none if one is missing or they go round |
| MoshReceiver.Screens.Apply | src/moshclient.cpp:1077-1168 | a change is taken only forward and from a state held, on the screen it starts from, with the lines already shown skipped |
| MoshReceiver.Screens.IsCrowded | src/moshclient.cpp:1175-1178 | folding waits for 64 states or 256 KiB of changes |
| MoshReceiver.Screens.IsThroughKept | src/moshclient.cpp:1183-1192 | whether the way up from a state stays among those kept until a root |
| MoshReceiver.Screens.KeptState | src/moshclient.cpp:1182-1200 | a state whose way leads through states that go becomes a whole screen of its own |
| MoshReceiver.Screens.ThrowAway | src/moshclient.cpp:1170-1204 | states before the number go, all the others stay, folded where needed |
| MoshLimits.FoldsExactly | src/moshclient.cpp:1170-1204 | states are folded from a state held on if there are 64 of them or 256 KiB of changes, and otherwise stay |
| MoshScreens.WalkIsPath | src/moshclient.cpp:1063-1075 | in a tree the walk to any state held ends at a root, so its steps are never empty |
| MoshScreens.StepsMakeScreen | src/moshclient.cpp:1063-1075 | replaying the steps to a state draws that state's screen |
| MoshScreens.FoldStays | src/moshclient.cpp:1179-1203 | folding keeps the tree closed under parents with parents below children |
| MoshScreens.FoldExactly | src/moshclient.cpp:1179-1203 | a state kept stays as it is exactly when its way up ends in a state kept or goes through the one the server starts from, and else becomes a whole screen |
| MoshScreens.FoldKeepsScreen | src/moshclient.cpp:1179-1203 | folding leaves the replayed screen of every state kept as it was |
| MoshScreens.TerminalKeepsThem | src/terminal.cpp:319-339 | the lines counted as kept are the ones a terminal keeps that skips the first so many of those pushed |
| MoshRefinement.TerminalShowsServerScreen | src/moshclient.cpp:1077-1168 | in any run the mirror, the replay of the steps to the newest state and the terminal all show the server's screen of that number, and every state held draws the server's |
| MoshRefinement.ResizesAreFollowed | src/moshclient.cpp:1092-1149 | a change taken makes state, mirror and terminal as wide and as high as it asks for, between 1 and 4096, and keeps the size where it asks for none |
| MoshRefinement.OnlyOlderBasesReplace | src/moshclient.cpp:1142-1158 | the terminal is put back into an older screen only if the change does not start from the one it shows, and the bytes of the change follow |
| MoshRefinement.ComesBackToNewest | src/moshclient.cpp:531-538 | a resumed client shows the server's screen of the newest number journaled on any terminal and counts lines on from it |
| MoshRefinement.ScrollbackHasEachLineOnce | src/moshclient.cpp:1138-1159 | the scrollback holds each line scrolled off once and in order, all of them in a run from the start, at most the increase after a resume |
| MoshRefinement.AcknowledgedIsHeld | src/moshclient.cpp:1160-1164 | a state acknowledged and not thrown away by the server is held, in memory and on disk, whatever crash came before |
| MoshHalf.HalfJournaledIsNeverTaken | src/moshclient.cpp:1161-1162 | after a crash between the two records of a state, no instruction that brings that state changes anything, in any further run |
| MoshHalf.TakenExactly | src/moshclient.cpp:1077-1168 | in any reachable session a change that is news and starts from a state held is taken if and only if no state of its number is held |
| MoshHalf.NewsIsTaken | src/moshclient.cpp:1077-1168 | of all that the server sent, what goes forward, is not held and starts from a state held is taken, becomes the newest and is acknowledged; anything else changes nothing |
| MoshHalf.WithoutSuchCrashNewsIsTaken | src/moshclient.cpp:1077-1168 | in runs without such a crash every change that is news and starts from a state held is taken |
| MoshHalf.HalfJournaledHappens | src/moshclient.cpp:1161-1162 | there is a run to a client that refuses the state, with the server's screen not shown |
| MoshRefinement.StepKeeps | src/moshclient.cpp:1077-1204 | every step of server, network, client and crash keeps the receiver's invariant |
| MoshRefinement.RunKeeps | src/moshclient.cpp:1077-1204 | so does every run |
| MoshHost.ReadValues | src/moshclient.cpp:1107-1132 | an extension's values: bytes are appended, sizes replaced, even by a number that breaks off |
| MoshHost.ReadExtensions | src/moshclient.cpp:1099-1133 | an instruction's extensions, damage in which does not spoil the message |
| MoshHost.DecodeHost | src/moshclient.cpp:1086-1136 | a host message asks for all its bytes in order and its last size, nothing if it is damaged itself |
| MoshHost.HostMessageRoundTrip | src/moshclient.cpp:1086-1136 | what a server writes of bytes, sizes and echoes is read back as exactly that |
| MoshHost.BeforeDamageCounts | src/moshclient.cpp:1099-1133 | what comes before the damage in an instruction counts and nothing behind it does |
| MoshHost.DamagedSaysNothing | src/moshclient.cpp:1086-1136 | a host message is worth nothing exactly when it is damaged itself |
| MoshHost.ApplyMessage | src/moshclient.cpp:1077-1168 | a damaged message changes nothing, a whole one is applied |
| Terminal.Scrollback.OnPushLine | src/terminal.cpp:319-339 | a line pushed is kept unless lines are not kept or to be skipped, and the oldest goes past 5000 |
| Terminal.Scrollback.OnPopLine | src/terminal.cpp:341-353 | the newest line comes back off, none when there is none |
| Terminal.Scrollback.OnClearScrollback | src/terminal.cpp:355-362 | all lines count as dropped |
| Terminal.Scrollback.Write | src/terminal.cpp:167-178 | of the lines a write pushes all but the first to be skipped are added, and the flags are reset |
| MoshLimits.FiveThousandLines | src/terminal.cpp:330-337 | the newest 5000 lines are kept |
| Endian.BigEndianRoundTrip | src/moshclient.cpp:621-626 | a number of a fixed size is read back |
| MoshJournal.NumberRoundTrip | src/moshclient.cpp:621-626 | any 64-bit number is read back from its eight bytes |
| MoshJournal.DecodeData | src/moshclient.cpp:679-769 | a record is read back with its sizes brought into what a terminal can have |
| MoshJournal.RecordRoundTrip | src/moshclient.cpp:679-769 | a record is read back the same if and only if its sizes are between 1 and 4096 |
| MoshLimits.DamagedExactly | src/moshclient.cpp:697-763 | exactly which records spoil a journal |
| MoshLimits.OtherEventsAreEmpty | src/moshclient.cpp:724-741 | an event of a kind that is none, or a size of another length, is one without keys or size |
| MoshLimits.AnyJournalInOrder | src/moshclient.cpp:717-751 | whatever the records are, states rise, cover only events that are there, and sizes are those of a terminal |
| MoshLimits.TakenExactly | src/moshclient.cpp:717-751 | which event, base and state records count, and what each changes |
| MoshLimits.AnyJournalResumes | src/moshclient.cpp:525-530 | whatever the records are, the session resumed starts at the front they name with states that rise from it |
| MoshLimits.ResumesFromTheFront | src/moshclient.cpp:520-533 | whatever the records are, a resumed session takes no state after the front for received, with both deadlines over and the server counted as heard |
| MoshLimits.RefusedExactly | src/moshclient.cpp:679-769 | exactly which files are refused |
| MoshJournal.Reader.ReadJournal | src/moshclient.cpp:679-769 | the file is read up to a record cut short; a damaged record or a missing part refuses it |
| MoshJournal.ReadCut | src/moshclient.cpp:688-696 | a file cut at any byte is read as exactly the records that are whole |
| MoshJournal.SenderIsReplay | src/moshclient.cpp:717-751 | reading the bytes gives the sender what replaying its records does |
| MoshLimits.LastRecordCounts | src/moshclient.cpp:697-763 | of the records that say the same thing the last one counts |
| MoshJournal.RewrittenReadsBack | src/moshclient.cpp:647-671 | a rewritten journal is read back as its address, note, nonces and screens |
| MoshJournal.TornTail | src/moshclient.cpp:635-696 | a rewrite with any records appended, cut at any byte of the tail, is read as the rewrite and the appended records that are whole |
| MoshNonces.Numbers.constructor | src/moshclient.cpp:519-520 | a client goes on from the reservation |
| MoshNonces.Numbers.TakeNumber | src/moshclient.cpp:908-911 | a number at the reservation is used only after that was raised on disk |
| MoshNonces.ReservationCut | src/moshclient.cpp:647-660 | a rewrite cut anywhere holds the new reservation or none at all |
| MoshNonces.NoncesNeverRepeat | src/moshclient.cpp:908-911 | in any run, with rewrites cut wherever a crash comes, no number is used twice and each is below the reservation to restart from |
| MoshLimits.PacketsWithoutRewrite | src/moshclient.cpp:908-911 | as many packets as are reserved go out without a rewrite, each under the next number |
| MoshLimits.RewriteMakesRoom | src/moshclient.cpp:647-656 | a rewrite reserves 65536 of them |
| MoshLimits.NumbersGoOn | src/moshclient.cpp:519-519 | a resumed client goes on with the first number that was not reserved |
| MoshWire.PutVarint | src/moshclient.cpp:55-62 | a number goes out seven bits at a time, the lowest first |
| MoshWire.VarintRoundTrip | src/moshclient.cpp:104-115 | any 64-bit number is read back wherever it stands |
| MoshWire.PutNum | src/moshclient.cpp:64-68 | a number field is its key and the number |
| MoshWire.PutData | src/moshclient.cpp:70-75 | a bytes field is its key, the length and the bytes |
| MoshWire.ProtoReader.Next | src/moshclient.cpp:90-102 | the next key, none at the end or for a field number that is zero or beyond an int |
| MoshWire.ProtoReader.Number | src/moshclient.cpp:104-115 | a varint of at most ten bytes, as far as it goes if it breaks off |
| MoshWire.ProtoReader.Text | src/moshclient.cpp:117-127 | a length and so many bytes, refused if they are not there |
| MoshWire.ProtoReader.Skip | src/moshclient.cpp:129-153 | a value of each wire type is passed over, an unknown type is damage |
| MoshWire.FieldsRoundTrip | src/moshclient.cpp:55-75 | fields written one after the other are read back in order |
| MoshWire.ReceiveInstruction | src/moshclient.cpp:1022-1056 | the last value of each of the five numbers and the diff are taken, other fields skipped, damage ignored and another version refused |
| MoshWire.InstructionRoundTrip | src/moshclient.cpp:1411-1426 | the five numbers and the diff written are read back whatever chaff follows |
| MoshWire.EventInstruction | src/moshclient.cpp:1257-1268 | keys or a size are wrapped in an instruction |
| MoshWire.UserMessage | src/moshclient.cpp:1252-1271 | the message holds one instruction for each event |
| MoshWire.UserMessageRoundTrip | src/moshclient.cpp:1252-1271 | a user message decodes to exactly the events it was made from, in order |
| MoshWire.UserDiffReadsBack | src/moshclient.cpp:1252-1271 | the diff from an index decodes to exactly the events from there on |
| MoshFormat.TwoByteVarint | src/moshclient.cpp:55-62 | the bytes of a number of two sevens of bits |
| MoshFormat.InstructionBytes | src/moshclient.cpp:1411-1426 | the bytes of an instruction, with the field numbers mosh gives its parts |
| MoshFormat.LastValueCounts | src/moshclient.cpp:1022-1056 | of a field given more than once the last value counts, and other fields change nothing |
| MoshFormat.FieldNumbers | src/moshclient.cpp:90-102 | a field has a number from 1 to the greatest int, or the message is damaged |
| MoshFormat.TenBytesAtMost | src/moshclient.cpp:104-115 | a number of more than ten bytes is damage |
| MoshFormat.FixedFields | src/moshclient.cpp:129-153 | four or eight bytes are passed over by the wire types for them |
| MoshFormat.OtherWireTypes | src/moshclient.cpp:129-153 | no other wire type than the four is known |
| MoshFormat.KeyBytes | src/moshclient.cpp:1252-1271 | the bytes of keys typed |
| MoshFormat.SizeBytes | src/moshclient.cpp:1252-1271 | the bytes of a size |
| MoshFormat.HostBytesAre | src/moshclient.cpp:1086-1136 | the bytes of the server's output, size and echo |
| MoshFormat.TornSize | src/moshclient.cpp:1118-1126 | a size whose number breaks off is taken as far as it goes |
| MoshFormat.FragmentBytes | src/moshclient.cpp:973-982 | the bytes of a fragment |
| MoshFormat.NumberRecordBytes | src/moshclient.cpp:621-671 | the bytes of the journal's numbers with their letters |
| MoshFormat.TextRecordBytes | src/moshclient.cpp:635-671 | of its address and note |
| MoshFormat.SentRecordBytes | src/moshclient.cpp:669-670 | of a state sent |
| MoshLimits.VersionTwo | src/moshclient.cpp:1022-1056 | version 2 is taken, damage ignored, any other version is refused |
| MoshFragments.HeaderRoundTrip | src/moshclient.cpp:973-982 | id, number, final flag and part of a fragment are read back |
| MoshFragments.Cut | src/moshclient.cpp:1430-1441 | a payload is cut into numbered parts, the last one marked |
| MoshFragments.DatagramsFit | src/moshclient.cpp:26-30 | no datagram is longer than 1200 bytes |
| MoshFragments.CutMakesUp | src/moshclient.cpp:1430-1441 | the parts are numbered in order, only the last is final, and together they are the payload |
| MoshFragments.Assembler.constructor | src/moshclient.cpp:973-992 | nothing is gathered yet |
| MoshFragments.Assembler.Place | src/moshclient.cpp:986-1004 | a fragment is put in its place once, another id begins anew, the final one fixes the number of all |
| MoshFragments.Assembler.ReceiveFragment | src/moshclient.cpp:973-1020 | the parts are handed on when as many have arrived as there are |
| MoshFragments.Assembler.Join | src/moshclient.cpp:1011-1013 | the parts one after the other |
| MoshFragments.OnlyPayloadsComeOut | src/moshclient.cpp:973-1020 | in any order, with repeats and mixed with other ids, whatever is handed on is the payload of its id |
| MoshFragments.HandedOnOnceComplete | src/moshclient.cpp:973-1020 | without another id in between something is handed on if and only if every fragment has come |
| MoshFragments.TooLongNeverComesOut | src/moshclient.cpp:982-984 | a payload of more than 8192 fragments is never handed on |
| MoshLimits.PartsAreFull | src/moshclient.cpp:28-30 | every datagram but the last is of 1200 bytes, with 1162 of payload |
| MoshLimits.CutInto | src/moshclient.cpp:1432-1441 | a payload goes out in as many fragments as it takes, one at least and 32767 at most |
| MoshLimits.EightThousandFragments | src/moshclient.cpp:982-984 | fragments are let in up to number 8191 |
| MoshLimits.FinalFixesCount | src/moshclient.cpp:980-1020 | the final fragment fixes the number of fragments, drops what was held beyond it and counts those before it |
| Galois.MulAdds | 3rdparty/qrcodegen/qrcodegen.cpp:739-748 | multiplication distributes over addition on both sides |
| Galois.MulCommutes | 3rdparty/qrcodegen/qrcodegen.cpp:739-748 | multiplication commutes |
| Galois.MulAssociates | 3rdparty/qrcodegen/qrcodegen.cpp:739-748 | multiplication associates |
| Galois.OneLeft | 3rdparty/qrcodegen/qrcodegen.cpp:739-748 | one is neutral |
| Galois.Multiply | 3rdparty/qrcodegen/qrcodegen.cpp:739-748 | the bit loop with its reduction by 0x11D computes the field's product |
| Galois.MulIsPolynomialProduct | 3rdparty/qrcodegen/qrcodegen.cpp:739-748 | the product is a remainder of the polynomials' product modulo x^8 + x^4 + x^3 + x^2 + 1 |
| Galois.RemainderIsUnique | 3rdparty/qrcodegen/qrcodegen.cpp:739-748 | there is only one such remainder |
| Galois.MulIsTheRemainder | 3rdparty/qrcodegen/qrcodegen.cpp:739-748 | an element is that remainder if and only if it is the product |
| ReedSolomon.EvalMul | 3rdparty/qrcodegen/qrcodegen.cpp:701-723 | the value of a product of polynomials is the product of their values |
| ReedSolomon.MulFactor | 3rdparty/qrcodegen/qrcodegen.cpp:712-721 | multiplying by x minus a root is adding the coefficients shifted to their multiples |
| ReedSolomon.ComputeDivisor | 3rdparty/qrcodegen/qrcodegen.cpp:701-723 | in place, the product of x - 2^i for all i below the degree without its leading one, refused outside 1 to 255 |
| ReedSolomon.GeneratorVanishes | 3rdparty/qrcodegen/qrcodegen.cpp:710-721 | that product vanishes at each of its roots |
| ReedSolomon.AddMultiple | 3rdparty/qrcodegen/qrcodegen.cpp:732-733 | a multiple of the divisor is added coefficient by coefficient |
| ReedSolomon.ComputeRemainder | 3rdparty/qrcodegen/qrcodegen.cpp:726-736 | the shifting loop computes the remainder of the polynomial division |
| ReedSolomon.Divides | 3rdparty/qrcodegen/qrcodegen.cpp:726-736 | data followed by its remainder is the divisor times the quotient |
| ReedSolomon.DivisionIsUnique | 3rdparty/qrcodegen/qrcodegen.cpp:726-736 | no other quotient and remainder make it so |
| ReedSolomon.RemainderIsTheOne | 3rdparty/qrcodegen/qrcodegen.cpp:726-736 | for all data and every rest of that length: it is the remainder if and only if data followed by it is a multiple of the divisor |
| ReedSolomon.CodewordVanishes | 3rdparty/qrcodegen/qrcodegen.cpp:701-736 | data with its error correction vanishes at 2^0 up to 2^(d-1) |
| QrDistance.EveryElementIsARoot | 3rdparty/qrcodegen/qrcodegen.cpp:710-721 | the roots are all there can be: every element but zero is a power of two |
| QrDistance.RootsDiffer | 3rdparty/qrcodegen/qrcodegen.cpp:710-721 | and the first 255 powers differ |
| QrDistance.NoZeroDivisors | 3rdparty/qrcodegen/qrcodegen.cpp:739-748 | a product is zero if and only if a factor is |
| QrDistance.Independent | 3rdparty/qrcodegen/qrcodegen.cpp:710-721 | coefficients at different places, no more of them than roots, are all zero if all their power sums are |
| QrDistance.BlocksAreFarApart | 3rdparty/qrcodegen/qrcodegen.cpp:701-736 | blocks of at most 255 codewords with different data differ in more places than there are error correction codewords |
| QrDistance.NearestBlockIsUnique | 3rdparty/qrcodegen/qrcodegen.cpp:701-736 | so with at most half as many codewords read wrong, what is read belongs to one data only |
| QrBlocks.AddEccAndInterleave | 3rdparty/qrcodegen/qrcodegen.cpp:498-533 | data of the exact size is split, corrected and interleaved so that every block can be taken out again; any other size is refused |
| QrBlocks.Interleave | 3rdparty/qrcodegen/qrcodegen.cpp:522-532 | the blocks' bytes row by row without the padding of the short ones |
| QrBlocks.BlocksComeOut | 3rdparty/qrcodegen/qrcodegen.cpp:509-532 | taking the blocks out of the interleaving gives back each one's data and error correction, and the length is the number of raw codewords |
| QrBlocks.DataComesBack | 3rdparty/qrcodegen/qrcodegen.cpp:498-533 | the blocks' data one after the other is the data |
| QrBlocks.BlocksVanish | 3rdparty/qrcodegen/qrcodegen.cpp:498-533 | every block taken out vanishes at every root |
| QrBlocks.PositionsDiffer | 3rdparty/qrcodegen/qrcodegen.cpp:522-531 | different bytes of the blocks go to different places of the result |
| QrBlocks.CellAt | 3rdparty/qrcodegen/qrcodegen.cpp:522-531 | every place of the result is some byte's |
| QrBlocks.PositionsAscend | 3rdparty/qrcodegen/qrcodegen.cpp:522-531 | the result goes row by row and in each row block by block |
| QrBlocks.CodewordsByTurns | 3rdparty/qrcodegen/qrcodegen.cpp:498-533 | each block's codewords stand where the standard puts them: data by turns, then the one more of the long blocks, then error correction by turns |
| QrBlocks.SharesInOrder | 3rdparty/qrcodegen/qrcodegen.cpp:509-520 | the blocks share the data in its order, the short ones first |
| QrBits.BitAt | 3rdparty/qrcodegen/qrcodegen.cpp:551 | bit i of the data is bit 7 - i mod 8 of its byte |
| QrBits.Pack | 3rdparty/qrcodegen/qrcodegen.cpp:310-313 | the bytes packed in place have exactly these bits |
| QrBits.BytesOfBits | 3rdparty/qrcodegen/qrcodegen.cpp:310-313 | bytes come back from their bits |
| QrBits.BitsOfBytes | 3rdparty/qrcodegen/qrcodegen.cpp:310-313 | bits come back from their bytes |
| QrPlacement.VisitedOnce | 3rdparty/qrcodegen/qrcodegen.cpp:542-550 | each step of the scan is at a module outside column 6 that leads back to that step |
| QrPlacement.AllVisited | 3rdparty/qrcodegen/qrcodegen.cpp:542-550 | and each module outside column 6 has its step |
| QrPlacement.ScanVisitsEachOnce | 3rdparty/qrcodegen/qrcodegen.cpp:542-558 | the zigzag scan is at every module outside column 6 exactly once |
| QrPlacement.ScanOrder | 3rdparty/qrcodegen/qrcodegen.cpp:542-549 | the scan goes over the pairs of columns from the right, the first upward and then down and up by turns, in each row the right module first |
| QrPlacement.ScanStarts | 3rdparty/qrcodegen/qrcodegen.cpp:542-549 | it starts in the lower right corner and has a step for every module outside one column |
| QrPlacement.ScanZigzags | 3rdparty/qrcodegen/qrcodegen.cpp:542-549 | it moves by one row within a pair of columns, and stays in its row from one pair to the next on the left, past column 6 |
| QrPlacement.PlacesAreFreeModules | 3rdparty/qrcodegen/qrcodegen.cpp:542-558 | the places for bits are exactly the modules outside column 6 that no function pattern takes, each once |
| QrPlacement.Put | 3rdparty/qrcodegen/qrcodegen.cpp:550-553 | a free module takes the next bit, if one is left, and nothing else changes |
| QrPlacement.DrawCodewords | 3rdparty/qrcodegen/qrcodegen.cpp:536-560 | the k-th free module of the scan holds bit k, all other modules stay as they were, and as many bits are drawn as there is room |
| QrPlacement.CodewordsReadBack | 3rdparty/qrcodegen/qrcodegen.cpp:536-560 | with at least as many free modules as bits the scan reads back exactly the codewords |
| QrMask.ApplyMask | 3rdparty/qrcodegen/qrcodegen.cpp:563-584 | in place, the modules of the data that the mask picks are inverted and no function module; any mask but 0 to 7 is refused |
| QrMask.ChessboardPattern | 3rdparty/qrcodegen/qrcodegen.cpp:571 | mask 0 is a chessboard, dark in the corner |
| QrMask.RowPattern | 3rdparty/qrcodegen/qrcodegen.cpp:572 | mask 1 is every other row |
| QrMask.ThirdPatterns | 3rdparty/qrcodegen/qrcodegen.cpp:573-574 | masks 2 and 3 are every third column and every third diagonal |
| QrMask.BlockPattern | 3rdparty/qrcodegen/qrcodegen.cpp:575 | mask 4 is a chessboard of blocks three wide and two high |
| QrMask.ProductPatterns | 3rdparty/qrcodegen/qrcodegen.cpp:576-578 | masks 5 to 7 go by the product of column and row: a multiple of six, less than three modulo six, and a chessboard turned over where it is one modulo three |
| QrMask.MaskTwice | 3rdparty/qrcodegen/qrcodegen.cpp:339-354 | applying a mask twice gives every module back |
| QrMask.MaskUnder | 3rdparty/qrcodegen/qrcodegen.cpp:339-355 | format bits drawn before the mask or after it make the same image |
| QrMask.UnmaskedIsDrawn | 3rdparty/qrcodegen/qrcodegen.cpp:339-355 | undoing the mask of a finished code gives every module of the data back |
| QrMask.DoMasking | 3rdparty/qrcodegen/qrcodegen.cpp:339-355 | trying the eight masks in place leaves no trace: the code is finished with the mask asked for, or else with the first of those with the least penalty |
| QrMask.BestIsUnique | 3rdparty/qrcodegen/qrcodegen.cpp:339-350 | only one mask is the first of those with the least penalty |
| QrSegments.AppendBits | 3rdparty/qrcodegen/qrcodegen.cpp:822-827 | the bits of a number that fits are appended, the highest first; any other is refused |
| QrSegments.DigitsReadBack | 3rdparty/qrcodegen/qrcodegen.cpp:822-827 | a number that fits is read back from its bits |
| QrSegments.MakeNumeric | 3rdparty/qrcodegen/qrcodegen.cpp:79-99 | text of digits is coded in groups of three, any other refused |
| QrSegments.MakeAlphanumeric | 3rdparty/qrcodegen/qrcodegen.cpp:102-122 | text of the 45 characters is coded in pairs, any other refused |
| QrSegments.MakeBytes | 3rdparty/qrcodegen/qrcodegen.cpp:69-76 | bytes are coded one by one, too many for an int refused |
| QrSegments.MakeSegments | 3rdparty/qrcodegen/qrcodegen.cpp:125-140 | a text gets the first mode that can hold it, no segment if it is empty |
| QrSegments.GroupFits | 3rdparty/qrcodegen/qrcodegen.cpp:84-97 | the number of every group fits its bits |
| QrSegments.DecodeEncode | 3rdparty/qrcodegen/qrcodegen.cpp:69-122 | reading the groups gives back every symbol in all three modes, whatever follows |
| QrSegments.TextComesBack | 3rdparty/qrcodegen/qrcodegen.cpp:79-122 | and the symbols stand for the text's characters |
| QrStandard.ModeIndicators | 3rdparty/qrcodegen/qrcodegen.cpp:62-64 | the modes are told by 0001, 0010 and 0100 |
| QrStandard.CountLengths | 3rdparty/qrcodegen/qrcodegen.cpp:57-64 | the counts have the standard's lengths in versions 1 to 9, 10 to 26 and 27 to 40 |
| QrStandard.GroupLengths | 3rdparty/qrcodegen/qrcodegen.cpp:79-122 | three digits take ten bits, two characters eleven, a byte eight, and a rest of digits seven or four, of characters six |
| QrStandard.CharacterNumbers | 3rdparty/qrcodegen/qrcodegen.cpp:230 | each of the 45 characters has the standard's number and no other character has one |
| QrStandard.NumericExample | 3rdparty/qrcodegen/qrcodegen.cpp:79-99 | 01234567 is coded as the standard prints it |
| QrStandard.AlphanumericExample | 3rdparty/qrcodegen/qrcodegen.cpp:102-122 | so is AC-42 |
| QrStandard.HighestBitFirst | 3rdparty/qrcodegen/qrcodegen.cpp:310-313 | bytes have their highest bit first |
| QrStandard.PaddingExample | 3rdparty/qrcodegen/qrcodegen.cpp:306-308 | the padding is 11101100 and 00010001 by turns |
| QrData.GetTotalBits | 3rdparty/qrcodegen/qrcodegen.cpp:179-193 | the bits of all segments, -1 if a count does not fit its field or the sum not an int |
| QrData.NoTotal | 3rdparty/qrcodegen/qrcodegen.cpp:179-193 | the total is refused if and only if a count does not fit its field or the bits are more than an int can count |
| QrData.ContentLength | 3rdparty/qrcodegen/qrcodegen.cpp:291-297 | the joined segments have exactly that many bits |
| QrData.FindVersion | 3rdparty/qrcodegen/qrcodegen.cpp:263-281 | the smallest version of the range with room, none if and only if none has |
| QrData.RoomExactly | 3rdparty/qrcodegen/qrcodegen.cpp:263-281 | there is room if and only if all counts fit their fields and the bits are no more than an int can count and than the codewords have |
| QrData.Boost | 3rdparty/qrcodegen/qrcodegen.cpp:284-288 | the highest error correction level that still has room, never below the one asked for |
| QrData.Join | 3rdparty/qrcodegen/qrcodegen.cpp:291-297 | each segment's mode, count and data one after the other |
| QrData.Pad | 3rdparty/qrcodegen/qrcodegen.cpp:306-308 | alternating padding bytes up to the capacity |
| QrData.Fill | 3rdparty/qrcodegen/qrcodegen.cpp:299-308 | a terminator of up to four zeros, zeros to the byte and padding fill the capacity exactly |
| QrData.EncodeSegments | 3rdparty/qrcodegen/qrcodegen.cpp:258-316 | the errors and, for the smallest version that fits and the level raised as far as it goes, the codewords |
| QrData.SegmentsReadBack | 3rdparty/qrcodegen/qrcodegen.cpp:291-313 | parsing mode, count and groups from the codewords gives all segments back and nothing of the padding |
| QrData.TextReadsBack | 3rdparty/qrcodegen/qrcodegen.cpp:125-140 | the text of a code comes back from its codewords |
| QrRoundTrip.TextSurvives | 3rdparty/qrcodegen/qrcodegen.cpp:258-590 | a text put through segments, blocks, interleaving, drawing, any mask and its format bits comes back when the finished modules are read with the mask undone, if there are enough of them |
| SftpTransfer.Worker.constructor | src/sftpengine.h:80-106 | a transfer begins with its files to go and nothing moved |
| SftpTransfer.Worker.ServiceDownload | src/sftpengine.cpp:462-514 | answers are taken in order, a short one drops all in flight, then reads go on from the bytes there |
| SftpTransfer.Worker.AskMore | src/sftpengine.cpp:503-513 | up to sixteen reads are kept in flight |
| SftpTransfer.Worker.ServiceUpload | src/sftpengine.cpp:516-557 | writes are confirmed in order and more are pushed |
| SftpTransfer.Worker.PushMore | src/sftpengine.cpp:533-556 | the local file is read on, and read back by what was not taken |
| SftpDelivery.BegunKeeps | src/sftpengine.cpp:367-442 | a Cancel and opening the next file, also when that fails, keep every file delivered so far whole and in order |
| SftpDelivery.ClosedKeeps | src/sftpengine.cpp:403-430 | closing a file that is done or failed, even with requests in flight, puts it in place only if it is whole |
| SftpTransfer.Worker.ServiceItem | src/sftpengine.cpp:444-452 | the file under way is serviced and closed once nothing is in flight |
| SftpTransfer.Worker.Service | src/sftpengine.cpp:432-460 | one turn of a transfer over all its files |
| SftpTransfer.Worker.Fail | src/sftpengine.cpp:586-591 | failing a transfer in its middle closes the file, puts nothing in place and answers that it failed |
| SftpDelivery.AnsweredKeeps | src/sftpengine.cpp:465-496 | one answer keeps what has been written the beginning of the file, and brings the end nearer |
| SftpDelivery.AllPushedKeeps | src/sftpengine.cpp:533-556 | pushing keeps what the server was given the beginning of the local file |
| SftpDelivery.AbortedKeeps | src/sftpengine.cpp:575-591 | failing in the middle of a transfer ends it, with only whole files in place and no word of success |
| SftpDelivery.ExactBytesArrive | src/sftpengine.cpp:403-591 | in any run, with failAll() at any time, only whole files are put in place, and a transfer that says it succeeded has moved every file, in order, byte for byte |
| SftpDelivery.NothingWrongSucceeds | src/sftpengine.cpp:432-573 | a transfer, down or up, that is over without a Cancel and without any error says that it succeeded, with all its files; it says that it failed only if something went wrong |
| SftpDelivery.CancelledNeverSucceeds | src/sftpengine.cpp:126-139 | one that was cancelled, or under way when everything failed, never says that it succeeded |
| SftpDelivery.ClosedExactly | src/sftpengine.cpp:403-430 | what closing does: a file without an error is put in place or sent, a half upload is removed if it replaced none and the connection is there |
| SftpDelivery.BeginningArrives | src/sftpengine.cpp:462-557 | at any time the bytes written or given are the file's first, as many as counted |
| SftpDelivery.DownloadsEnd | src/sftpengine.cpp:462-514 | whatever the short answers, a download takes at most 17 answers for each byte and file, so every restart makes progress |
| SftpDelivery.StepsNeverStall | src/sftpengine.cpp:432-557 | after every service a file still open, down or up, has a read or a write in flight |
| SftpDelivery.DownloadsFinish | src/sftpengine.cpp:432-514 | so a download answered at each service is over after a bounded number of services |
| SftpDelivery.UploadsFinish | src/sftpengine.cpp:432-557 | an upload answered at each service, and of which something is taken whenever there is some, is over after a bounded number of services |
| SftpDelivery.SixteenInFlight | src/sftpengine.cpp:503-557 | after a service sixteen requests are in flight unless the end was seen, an answer was short or something went wrong |
| SftpDelivery.ChunksExactly | src/sftpengine.cpp:503-540 | what is asked for or read of a file at a time may be 32 KiB and not more |
| SftpDelivery.RestartsExactly | src/sftpengine.cpp:480-496 | reading starts over exactly after a short answer that is not the end, and the end is exactly an empty one |
| SftpDelivery.StoredExactly | src/sftpengine.cpp:480-496 | what the local file took of an answer stays in it, one that did not take all of it fails, and only whole answers count as moved |
| SftpDelivery.ProgressIsTrue | src/sftpengine.cpp:487-532 | at any time of a transfer in order the bytes reported are those of the files that arrived and what is confirmed of the one under way |
| SftpQueue.Queues.constructor | src/sftpengine.cpp:30-35 | the queues start empty |
| SftpQueue.Queues.Run | src/sftpengine.cpp:126-186 | a request is answered by its callback, made a transfer, or cancels some |
| SftpQueue.Queues.StopTransfers | src/sftpengine.cpp:128-139 | from the last on, matching transfers that have not started are answered and go, the first is marked |
| SftpQueue.Queues.Serve | src/sftpengine.cpp:64-71 | all requests are run and the first transfer has its turn |
| SftpQueue.Queues.FailEverything | src/sftpengine.cpp:575-592 | every request and transfer leaves with an answer, a Cancel without |
| SftpQueue.CancelLeaves | src/sftpengine.cpp:126-139 | after a Cancel of one or all, the other transfers are there unchanged in their order |
| SftpQueue.EachAnsweredOnce | src/sftpengine.cpp:44-592 | in every run each request is accounted for exactly once: answered by the callback of its kind, or waiting for it |
| SftpQueue.AllAnsweredInTheEnd | src/sftpengine.cpp:575-592 | there are never more answers than requests, and after failAll() exactly one for each that is not a Cancel |
| SftpOrder.AnsweredInOrder | src/sftpengine.cpp:64-186 | listings, removals and the like are answered in the order they were asked for, in any run |
| SftpOrder.TransfersInOrder | src/sftpengine.cpp:64-186 | the transfers that wait are some of those asked for, in that order, and the first is served |
| SftpOrder.AnsweredByKind | src/sftpengine.cpp:115-186 | listings are answered as such, changes as done, and transfers wait for their turn |
| SftpOrder.ServedInTurn | src/sftpengine.cpp:64-71 | services that each end a transfer run all requests at first and answer the transfers in turn until none is left |
| OutputThrottle.StepKeeps | src/sshsession.cpp:1552-1576 | every interleaved step of the two threads keeps the invariant |
| OutputThrottle.OutputIsBounded | src/sshsession.cpp:1552-1576 | the count stays between 0 and 256 KiB + 4096, and no byte is lost or shown twice |
| OutputThrottle.NoWakeupIsLost | src/sshsession.cpp:417-422 | the reading thread never sleeps through room for output unless a wake-up is in the pipe or about to be written |
| OutputThrottle.SleepsUntilWoken | src/sshsession.cpp:2027-2062 | without a byte in the wake pipe, data it watches for or another event, the thread sleeps on through any run |
| OutputThrottle.SleeperReads | src/sshsession.cpp:1964-2053 | with room for output the sleeper comes to read with nothing else happening than the other thread writing the wake-ups it owes |
| OutputThrottle.ReadsAll | src/sshsession.cpp:1552-1576 | from its first check a turn reads both streams empty, or until the count is above the limit, and counts exactly what it takes |
| OutputThrottle.SleeperCatchesUp | src/sshsession.cpp:1552-1576 | so does a sleeper with room once the wake-ups owed are written |
| OutputThrottle.OneWakeForEachRise | src/sshsession.cpp:417-422 | there is one wake-up for each time the count came above the limit and was taken below it, not for every piece shown |
| OutputThrottle.DrainsExactly | src/sshsession.cpp:1544-1550 | up to 64 wake-ups are taken out of the pipe at once |
| OutputThrottle.SleepHappens | src/sshsession.cpp:2027-2032 | there are runs to a thread asleep with room for output, which only the wake-up owed will end |
| OutputThrottle.Threads.constructor | src/sshsession.cpp:336-341 | nothing is counted and the pipe is empty |
| OutputThrottle.Threads.Time | src/sshsession.cpp:2054-2056 | there is no waiting while something is buffered and the count within the limit |

## Left out

- MoshSending.CullExactly: up to 32 states. A journal can give back more after a restart, of which each new state then takes one away.
- MoshClient.Client.TickAt: takes the readings of the clock in a tick as parameters, and timeout() and sendInterval() too; the smoothing of round trips in floating point is left out, what both are of the smoothed values is proved (AnyRoundTripIsOk, TimingExactly).
- MoshClient.Client.Instruct: stops at the instruction's fields; their coding is MoshWire, their cutting MoshFragments. The sockets, hopping ports and the bytes echoed (m_sentBytes, m_echoAck) are left out.
- MoshClient.Client.RewriteJournal: takes the writing of the file as one step of a run. NoncesNeverRepeat does without that, and MoshCut and TornRewriteExactly say what a rewrite cut short comes to.
- MoshClient.Client.Resume: begins where reading the journal ended, which is MoshJournal.Reader; key and socket are left out, and the size that resume() then reports is a ResizeTo of its own.
- MoshGuarantees.TypingArrivesOnceInOrder: takes sizes a journal can hold (up to 4096), state numbers below the ending one, and acknowledgments a server really gave.
- MoshGuarantees.CrashLosesNothing: an ending session has no journal any more, as finishMosh() removes it before the shutdown.
- MoshConverge.TypingConverges: for a client that goes on sending, a clock that does not do harm (TypingArrivesExactly), and a network that lets through what a late tick sends some time, which it can do at once (LostTypingArrives).
- MoshForget.CutSessionIsSound: about the states the client still knows. The server may hold states it has forgotten; that these do not come in between is not proved, only that their numbers are not used again.
- MoshPacing.WakingSends: for waits that an int can hold, and ticks over before the clock moves.
- MoshPacing.InstructionsKeepDistance: within one life of the client, as the times restart with the process, and for ticks over before the clock moves.
- MoshCrash.TornCrashLosesNothing: for records whose numbers fit their fields and whose sizes a terminal can have. The bytes of the screens are joined to it by RewrittenReadsBack only.
- MoshRefinement.TerminalShowsServerScreen: the terminal has the size of the state it is given, the server does not use the number 2^64-2, and S and L records are one step except where CrashAfterState parts them.
- MoshScreens.TerminalKeepsThem: the mirror registers no sb_popline (src/moshclient.cpp:417) and counts no line down when a screen grows, while the terminal takes lines back (Terminal.Scrollback.OnPopLine). The lines counted are those of terminals that pop none.
- MoshHost.DecodeHost: the newest echo is read past and not kept.
- Zlib is an inverse pair and OCB an envelope that only the key's owners can make: both are left out between MoshWire and MoshFragments.
- describeScreen(), privateModes() and sgr() depend on libvterm's insides and are only the law of the description.
- The class Client keeps timers, the session's end and the journal's book-keeping as records in three fields, where the source has single members.
- QrDistance.NearestBlockIsUnique: that what was read determines the data, not how a reader finds it, which the application does not do.
- QrBlocks.AddEccAndInterleave: the numbers of blocks and codewords come from the standard's tables and are parameters with what the tables guarantee.
- QrPlacement.DrawCodewords: the function patterns and their number are a parameter, so that there is room for all bits is a condition. Drawing them is left out.
- QrMask.DoMasking: the format bits are any that go to the same function modules for every mask, and the penalty is any number below LONG_MAX; how both are worked out is left out.
- QrData.EncodeSegments: capacities are a parameter, the mask is only checked here and applied in QrMask. Kanji and ECI segments, which the application never makes, are left out.
- SftpTransfer.Worker.Service: finding the files of a folder is left out; the files are given. Error texts are left out, and of progress reports how often they come.
- SftpDelivery.ExactBytesArrive: for files that do not change meanwhile, reads that answer with bytes from where they asked and writes that are done whole or not at all, which is what libssh promises.
- The class Worker keeps the transfer as one record that it updates member by member, the way the engine updates the struct it is handed.
- SftpQueue.Queues.Run: what the server answers to a listing, a removal or a renaming is left out, only that the callback is called; whether a transfer is over after its turn is a parameter, worked out in SftpTransfer.
- OutputThrottle.NoWakeupIsLost: the two threads take turns in a state machine over their atomic steps, each of which is a method of class Threads; there are any number of wake-ups of other kinds and a pipe that exists; what else the loop polls for is a poll that returns.
- SSH login, host keys, jump hosts, forwards, typing prediction, stores, settings and the user interface are left out.
