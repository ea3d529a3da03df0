# Verified models of the Cloud Computing labs

The repository holds three servers built on one another: a Sudoku solver (Lab1), a threaded web server (Lab2),
and a replicated key-value store (Lab3). This project models the parts of them that are hard to get right and
proves what they promise.

`dafny verify dfyconfig.toml` checks everything.

**The solver (Lab1).** `Dance` keeps a toroidal matrix of doubly linked nodes in one array and runs Algorithm X
on it, covering and uncovering columns in place. The model is a class over the same array of nodes, with the
same field writes in the same order; links are indices into the array. `Torus`, `Rings` and `Matrix` say what
the writes do to the rings, `Cover` and `ExactCover` that an uncover undoes a cover through any nesting,
`Search` and `DancingLinks` that `solve` finds an exact cover whenever there is one and leaves no trace when
there is none, and `Build`, `SudokuMatrix`, `Encoding`, `Sudoku` and `SudokuCheck` that the constructor's
matrix encodes the puzzle, so that the solver and the independent rule check `solved` agree.

**The store (Lab3).** `Replica` and `Kv` are a participant, `Protocol` is the coordinator with any number of
participants as a step system, one step an exchange with one participant, a move of the coordinator between
exchanges, or an act of the environment. `Invariant` and `RecoveryInvariant` hold what every step keeps,
`Agreement` what follows for every run, `Requests` what the answer to a client means, `Recoveries` what a
recovery achieves and why it ends, `Durability` what survives restarts of the coordinator, `Progress` that
updates and recoveries in which nothing fails can be completed, `Mildness` how participants are kept from getting
ahead of the coordinator, `Conflicts`, with `Hiding` and `Continuations`, what happens when one is ahead, and
`Fairness` what is sure when nothing is lost.
`Coordination` is the coordinator as the loops and worker threads it is made of; every operation of that class
is shown to make a run of the step system (`Rounds` has the bookkeeping), and so to achieve what runs achieve.
What gets through and who crashes is fixed outside the class, for every moment, before it starts.
The presence assertions of its log are the preconditions of `Replica.Logger`, which every use meets.

What can go wrong in a run, at any point:
1. A message or its answer is lost. An exchange is heard, or its message is executed and the answer is lost, or
   its message does not arrive; in the last two cases the coordinator closes the link and the participant waits
   to be connected again. It keeps id, log and map (Lab3/src/participant.cc:5-42). A connection that drops
   between exchanges is noticed by the next one, which then does not arrive.
2. A participant crashes. Its memory is gone (its log is only in memory) and its link is down, and it comes
   back blank.
3. The coordinator is restarted, even between the exchanges of one round. Its memory and all links are gone, the
   participants keep theirs.

A recovery may begin whenever the coordinator is idle, whoever is connected by then.

In all these runs the logs are well formed, no presence assertion fails, recoveries end, and idle workers have
the coordinator's transaction id. That the logs are in agreement needs a condition, because a participant that
has executed a commit whose answer was lost is ahead of the coordinator, which then uses the same transaction
id again. `Protocol.Guarded` is that condition: every update of the run begins where it fits, that is, whoever
is ahead of the coordinator then has logged the very same command as that transaction. In particular it fits
where nobody is ahead. Runs that meet it are in agreement, and answers to reads and updates have their full
meaning in them. The condition is exact: with two participants or more, a run that does not meet it can be
continued, from where it failed to, to two working participants with equal ids and different logs. Between
operations the logs stay in agreement, whatever happens short of a restart or a lost answer, exactly if nobody
is ahead. One lost answer is enough for a conflict (`Conflicts.OneAnswerLost`).

A recovery reads the transaction id from which it asks for entries before it waits, so the model lets that id
be any earlier one. The source numbers participants from 1 and uses 0 for "no leader"; here they are numbered
from 0 and no leader is `None`.

**Text and channels.** `Decimal`, `Resp` and `LogText` print and parse, `Numerals` and `Wire` say byte by byte what
that text is, independently of how it is printed and read, and `Answers` what the text of an answer tells; `Frames` and `Commands` receive from a
`Stream` that delivers any nonempty part of what is asked for and may time out in between; `Messages` ties the
texts to the messages the protocol model speaks of, and `Exchanges` runs an exchange in full, over text, frames
and streams, to the answer the protocol model gives. `Handoff` is the pair of one-slot locks between the main
thread and a worker of the coordinator, every semaphore operation a step of its own; `RingBuffer` is the
many-slot kind of Lab2 with any number of threads. Strings are strings of bytes, characters 0 to 255.

`Sealing` explains how some definitions are kept folded in proofs.

Where a comment in the code and the code differ, the code is followed: the header comment of network.hpp shows
`*` as the first character of a packet, the code writes and looks for `~`.

## Model

| member | source | states |
|---|---|---|
| Rings.RingRemove | Lab1/sudoku_dancing_links.cpp:172-177 | unhooking one element by two link writes leaves, read both ways, exactly the ring without it |
| Torus.RelinkUndoesUnlink | Lab1/sudoku_dancing_links.cpp:176-189 | putting a node back restores every link and size its removal changed, as long as its neighbours are still the ones it points to |
| Matrix.UnlinkKeepsLinked | Lab1/sudoku_dancing_links.cpp:176-178 | removing a node keeps every horizontal ring, shortens just its column's vertical ring, and keeps each size the length of its ring |
| Matrix.UnlinkRunKeepsLinked | Lab1/sudoku_dancing_links.cpp:174-180 | removing the other nodes of a row keeps the torus well formed, with just these nodes gone from their columns |
| Matrix.RelinkRunUndoesUnlinkRun | Lab1/sudoku_dancing_links.cpp:185-191 | walking the row the other way puts all of them back, link for link |
| Cover.CoverKeepsGood | Lab1/sudoku_dancing_links.cpp:170-181 | after a cover the links are again a well-formed torus: the listed columns without the covered one, and the rows that do not touch it |
| Cover.UncoverUndoesCover | Lab1/sudoku_dancing_links.cpp:183-194 | uncovering a column on the list after covering it restores every field of every node |
| ExactCover.NestedRun | Lab1/sudoku_dancing_links.cpp:217-232 | any last-in-first-out sequence of covers and uncovers keeps the matrix well formed, whatever columns it names |
| ExactCover.BalancedRunIsIdentity | Lab1/sudoku_dancing_links.cpp:217-232 | a sequence in which every cover has been undone leaves every field as it was |
| ExactCover.RowCoveredLeaves | Lab1/sudoku_dancing_links.cpp:218-223 | covering all columns of a row leaves exactly the columns it does not use and the rows disjoint from it |
| ExactCover.ChosenRowExtends | Lab1/sudoku_dancing_links.cpp:219-226 | a chosen row with an exact cover of what it leaves is an exact cover of the whole |
| ExactCover.CoverUsesColumn | Lab1/sudoku_dancing_links.cpp:217-219 | every exact cover has a row in the chosen column, so trying its rows misses nothing |
| ExactCover.OthersCover | Lab1/sudoku_dancing_links.cpp:219-226 | an exact cover without one of its rows is an exact cover of what that row leaves |
| Search.RemainingStep | Lab1/sudoku_dancing_links.cpp:220-224 | at every entry to `solve` the links reachable are the columns no stacked row touches and the rows disjoint from all stacked rows |
| Search.NoRowNoCover | Lab1/sudoku_dancing_links.cpp:219-233 | when every row of the column fails, no set of rows is an exact cover |
| DancingLinks.Dance.CoverColumn | Lab1/sudoku_dancing_links.cpp:170-181 | the two ring walks, over rings they are editing, do to the nodes what covering the column means |
| DancingLinks.Dance.UncoverColumn | Lab1/sudoku_dancing_links.cpp:183-194 | given the nodes a cover left, the reverse walks restore the nodes before it |
| DancingLinks.Dance.GetMinColumn | Lab1/sudoku_dancing_links.cpp:153-168 | on a nonempty list the column returned is listed, and its size is at most 1 or minimal |
| DancingLinks.Dance.CoverOthers | Lab1/sudoku_dancing_links.cpp:221-223 | covers the columns of the chosen row's other nodes, left to right |
| DancingLinks.Dance.UncoverOthers | Lab1/sudoku_dancing_links.cpp:228-230 | uncovers them right to left, back to the state before the row was chosen |
| DancingLinks.Dance.ReadRow | Lab1/sudoku_dancing_links.cpp:200-210 | the walk from any node of a row ends, with the row's cell and digit |
| DancingLinks.Dance.WriteBoard | Lab1/sudoku_dancing_links.cpp:199-213 | the board gets the placement of every stacked row, and nothing else |
| DancingLinks.Dance.Solve | Lab1/sudoku_dancing_links.cpp:196-234 | on any well-formed matrix the search ends; true exactly when an exact cover of what is left exists, and then the rows pushed are one and are written to the board; false leaves nodes, stack and board as they were |
| DancingLinks.Dance.TryRows | Lab1/sudoku_dancing_links.cpp:219-231 | the row loop fails only when every row of the column fails, and then nothing has changed |
| DancingLinks.Dance.TryRow | Lab1/sudoku_dancing_links.cpp:220-230 | one turn of the loop: push, cover, search, and on failure the exact undo |
| DancingLinks.Dance.PutLeftNode | Lab1/sudoku_dancing_links.cpp:236-242 | the four writes that insert a node to the left of another |
| DancingLinks.Dance.PutUpNode | Lab1/sudoku_dancing_links.cpp:244-252 | the writes that add a node at the bottom of a column, and its count |
| DancingLinks.Dance.NewRowNode | Lab1/sudoku_dancing_links.cpp:59-76 | a fresh slot becomes a lone node at the bottom of the named column |
| DancingLinks.Dance.AppendColumn | Lab1/sudoku_dancing_links.cpp:50-57 | a fresh column joins the end of the header list under a name not used before |
| DancingLinks.Dance.ReadGivens | Lab1/sudoku_dancing_links.cpp:101-113 | the three tables mark exactly the digits given in each row, column and box |
| DancingLinks.Dance.AddColumns | Lab1/sudoku_dancing_links.cpp:115-130 | one column for each empty cell and for each digit each unit still needs, at most 324 of them |
| DancingLinks.Dance.AddRow | Lab1/sudoku_dancing_links.cpp:140-146 | four nodes, one under each of the placement's columns, joined into one ring |
| DancingLinks.Dance.AddRows | Lab1/sudoku_dancing_links.cpp:132-150 | a row for every placement the givens allow and no other, within the pool |
| DancingLinks.Dance.constructor | Lab1/sudoku_dancing_links.cpp:93-151 | for every board the result is a well-formed torus that encodes it: columns and rows as above, names decodable, allocations within the pool |
| Build.AppendColumnKeepsLinked | Lab1/sudoku_dancing_links.cpp:50-57 | appending a column keeps the torus well formed and lists the column last |
| Build.AddRowKeepsGood | Lab1/sudoku_dancing_links.cpp:140-146 | adding a row of four keeps the torus well formed: one new row, at the bottom of four columns |
| Encoding.KeysDiffer | Lab1/sudoku_dancing_links.cpp:78-91 | the 100/200/300 names of different needs differ, and stay below 400 |
| SudokuMatrix.ColumnsEncode | Lab1/sudoku_dancing_links.cpp:115-130 | the columns built are exactly the empty cells and the digits missing from each unit |
| SudokuMatrix.AddPlacement | Lab1/sudoku_dancing_links.cpp:138-147 | the next placement's row is added to a matrix holding those before it |
| SudokuMatrix.AllRowsEncode | Lab1/sudoku_dancing_links.cpp:132-151 | when all cells are done, the matrix encodes the board |
| Encoding.CoverIsNamed | Lab1/sudoku_dancing_links.cpp:199-213 | every row of an exact cover names a cell of the board |
| Encoding.CoverGivesBoard | Lab1/sudoku_dancing_links.cpp:199-213 | writing an exact cover of the encoding to the board gives a valid completion of the givens |
| Encoding.BoardGivesCover | Lab1/sudoku_dancing_links.cpp:115-150 | every valid completion of the givens is an exact cover of the encoding |
| Encoding.CoverSize | Lab1/sudoku_dancing_links.cpp:199-213 | an exact cover has as many rows as there are empty cells: each is filled once |
| SudokuCheck.ConflictHasNoCover | Lab1/sudoku_dancing_links.cpp:105-130 | givens that repeat a digit in a unit have no exact cover at all |
| SudokuCheck.SolveSudoku | Lab1/sudoku_dancing_links.cpp:273-277 | true exactly when the givens have a completion that obeys the rules in coordinates; then the board is one, otherwise it is unchanged |
| Sudoku.ValidByUnits | Lab1/neighbor.cpp:78-124 | the units the code counts by, and the boxes it numbers, are the lines, columns and squares of the board: no digit repeats in a unit exactly when the rules in coordinates hold |
| Sudoku.ValidIffAllSeen | Lab1/neighbor.cpp:78-124 | on a full board no unit repeats a digit exactly when every unit has every digit |
| SudokuCheck.NineOnes | Lab1/neighbor.cpp:90-91 | nine counts equal to one means no digit repeats, and the other way round |
| SudokuCheck.UnitSolved | Lab1/neighbor.cpp:83-91 | the counting decides whether a unit repeats a digit |
| SudokuCheck.BoardSolved | Lab1/neighbor.cpp:78-124 | true exactly on the boards that obey the rules, as stated in coordinates: no digit twice in a line, in a column, or in one of the nine squares of three by three |
| SudokuCheck.SolveAndCheck | Lab1/neighbor.cpp:78-124 | a board the solver calls solved passes `solved`, so the assertion main.cpp makes on it never fails |
| Kv.DeleteAllEffect | Lab3/src/kv.cc:37-46 | deleting a list of keys removes exactly these, and counts each that was there once, however often it is listed |
| Kv.KV.KvSet | Lab3/src/kv.cc:13-17 | the key gets the value, nothing else changes |
| Kv.KV.KvDel | Lab3/src/kv.cc:26-35 | the key goes; the code says whether it was there |
| Kv.KV.KvDelArry | Lab3/src/kv.cc:37-46 | the loop over the list has the effect and the count above |
| Kv.KV.KvGet | Lab3/src/kv.cc:52-57 | the value, or `nil` |
| Replica.Logger.WriteLog | Lab3/src/logger.cc:62-65 | the entry is stored under its id, the others stay |
| Replica.Logger.ChageLogState | Lab3/src/logger.cc:43-47 | only the state of the entry changes; the assertion that it is there is the precondition |
| Replica.Logger.GetLogByTXID | Lab3/src/logger.cc:49-53 | the entry stored under the id; the assertion that it is there is the precondition |
| Replica.Participant.constructor | Lab3/src/participant.cc:137-141 | a participant starts blank |
| Replica.Participant.EventParser | Lab3/src/participant.cc:87-135 | executes one command: a SET stores the value and answers OK, a DEL removes the listed keys and answers how many of them were there, a GET answers the value or `nil`, and anything else changes nothing |
| Replica.ExecuteServes | Lab3/src/participant.cc:87-135 | the same of the protocol model's execution, for every map and command |
| Replica.Participant.PWorker | Lab3/src/participant.cc:44-85 | the answer to any message and the new state, as the protocol model has them |
| Replica.ExecuteAccepts | Lab3/src/participant.cc:87-135 | whether an event is executed depends on the event alone, and a refused one changes nothing: replay cannot stall |
| Replica.AnswerKeepsOk | Lab3/src/participant.cc:44-85 | a participant's log has exactly the transactions before its id, and its map is their replay, after every message |
| Replica.NoAssertionFails | Lab3/src/logger.cc:49-53 | the presence assertion does not fail on such a participant |
| Invariant.SameId | Lab3/src/participant.cc:60-79 | while the logs are in agreement, whoever has reached the coordinator's id has its log and the map it describes |
| Invariant.CrashInv | Lab3/src/include/logger.hpp:19-22 | a crash keeps the invariant |
| Invariant.ReconnectInv | Lab3/src/coordinator.cc:84-111 | a reconnection keeps the invariant |
| Invariant.RestartInv | Lab3/src/coordinator.cc:6-42 | a restart of the coordinator keeps the invariant |
| Invariant.VoteInv | Lab3/src/coordinator.cc:44-82 | an exchange of the vote round keeps the invariant, whatever its fate |
| Invariant.CommitInv | Lab3/src/coordinator.cc:44-82 | an exchange of the commit round keeps the invariant, be it heard, unheard or undelivered |
| Invariant.LastSuccessFacts | Lab3/src/coordinator.cc:274-285 | the collecting loop has an answer exactly when some worker succeeded |
| Invariant.CommitOutcome | Lab3/src/coordinator.cc:274-302 | if nobody reported success no live participant has the transaction; if somebody did, every live participant has |
| Invariant.FinishCommitInv | Lab3/src/coordinator.cc:292-302 | ending the update keeps the invariant, and the entry to be committed is in the log |
| RecoveryInvariant.StartRecoveryInv | Lab3/src/coordinator.cc:344-368 | starting a recovery keeps the invariant |
| RecoveryInvariant.QueryInv | Lab3/src/coordinator.cc:113-171 | an exchange of the query round keeps the invariant, whatever its fate |
| RecoveryInvariant.LeastFacts | Lab3/src/coordinator.cc:394-399 | the scan finds the least of the table's entries and the bound |
| RecoveryInvariant.LeaderFacts | Lab3/src/coordinator.cc:507-521 | the leader is the first participant with the greatest entry above the coordinator's; none means nobody is ahead |
| RecoveryInvariant.LeaderAnswers | Lab3/src/participant.cc:60-67 | the leader has every entry it is asked for |
| RecoveryInvariant.AskInv | Lab3/src/coordinator.cc:463-492 | asking the leader, and losing it, keep the invariant |
| RecoveryInvariant.AskEndInv | Lab3/src/coordinator.cc:461-503 | a completed pass leaves the coordinator at the leader's id and nobody ahead of it |
| RecoveryInvariant.PushInv | Lab3/src/coordinator.cc:494-502 | handing the entry to the next participant keeps the invariant |
| RecoveryInvariant.RefillInv | Lab3/src/coordinator.cc:421-436 | handing out the coordinator's own entries keeps the invariant, and the entry is there |
| RecoveryInvariant.FinishInv | Lab3/src/coordinator.cc:406-417 | a recovery ends with every participant waiting or working |
| Agreement.StepInv | Lab3/src/coordinator.cc:231-505 | every step of the system keeps the invariant; the one log of all transactions exists as long as updates begin where they fit, and is given up exactly where one does not |
| Agreement.LogsAgree | Lab3/src/coordinator.cc:231-303 | in every run whose updates begin where they fit, any two participants' logs are prefix-compatible, and each with the coordinator's committed log, whatever messages and answers are lost |
| Agreement.SameIdSameMap | Lab3/src/participant.cc:70-79 | in every such run equal transaction ids mean equal logs and equal maps |
| Agreement.LogsWellFormed | Lab3/src/participant.cc:60-79 | in every run each log covers exactly the transactions before its owner's id, all committed, and each map is the replay of its log |
| Agreement.NoAssertion | Lab3/src/logger.cc:43-53 | in every run no presence assertion fails, on either side |
| Agreement.WorkingIsCurrent | Lab3/src/coordinator.cc:406-417 | in every run, between operations a working participant with its link has the coordinator's id; and exactly its log and map if the updates began where they fit |
| Requests.UpdateReply | Lab3/src/coordinator.cc:231-303 | after any run and whatever fails meanwhile: an answer that is no error means the transaction is committed and executed by every live participant; an error means no live participant has executed it, and either the command is malformed or none is left. If the updates, this one too, began where they fit, a SET is answered with OK and a DEL with the number of listed keys whose last committed write is a SET, and after an error whoever is ahead has executed just this command, unheard |
| Requests.OutcomeIsRight | Lab3/src/kv.cc:13-46 | executing a command after all transactions of a log gives the answer that the writes in that log call for |
| Requests.ReplayLooksUp | Lab3/src/kv.cc:13-57 | the map after a log holds, for every key, what its last SET not followed by a DEL left |
| Requests.ReadReply | Lab3/src/coordinator.cc:305-327 | after any run an error means no live participant is left; if the updates began where they fit, reads are linearizable: the answer is the value of the last committed write whoever answers |
| Recoveries.RecoveryOutcome | Lab3/src/coordinator.cc:344-419 | whichever exchanges fail, a recovery ends with everybody waiting or working, the live ones at the coordinator's id (and exactly its log, if the updates began where they fit), and no committed transaction lost |
| Recoveries.LongestLogWins | Lab3/src/coordinator.cc:344-505 | if no exchange fails, the coordinator and everybody reached end with the id of the longest log among them, and whoever is not reached is left as it was |
| Durability.StepStays | Lab3/src/participant.cc:60-79 | a participant that does not crash and whose exchanges are heard only ever adds to its log, and keeps its link or waits |
| Durability.RecoveringKept | Lab3/src/coordinator.cc:344-419 | each step of a recovery in which such a participant takes part leaves it taking part, or ends with the coordinator holding what it holds |
| Durability.AnswerIsDurable | Lab3/src/coordinator.cc:344-419 | in runs whose updates begin where they fit, an update answered without an error stays in the coordinator's log under its id, whenever the coordinator is idle and has begun a recovery since it started, through any crashes, lost exchanges and restarts, as long as every recovery begun without the update is attended to its end by some participant that has it; it need not be the same one each time |
| Durability.FaithfulCarries | Lab3/src/coordinator.cc:344-419 | one participant that has it and is never lost is enough for that |
| Progress.SmoothRecovery | Lab3/src/coordinator.cc:344-505 | from wherever a recovery is, the coordinator and its threads can finish it |
| Progress.Commits | Lab3/src/coordinator.cc:231-303 | with a live participant, a well-formed update can be brought to commit: the id grows by one, and the participant has logged the command as that transaction |
| Mildness.RunTame | Lab3/src/coordinator.cc:231-303 | while the coordinator is not restarted and no executed message goes unheard, nobody gets ahead of it between operations, so every update begins where it fits |
| Mildness.ErrorMeansNobody | Lab3/src/coordinator.cc:286-302 | if nobody is ahead when an update begins and no answer is lost while it is served, an error means nobody at all has executed it |
| Fairness.UpdateSucceeds | Lab3/src/coordinator.cc:231-303 | an update through which some participant stays live is not answered with an error, unless it is malformed |
| Fairness.LiveStays | Lab3/src/coordinator.cc:44-82 | while a request is served, a step in which nobody crashes and no message or answer is lost leaves every live participant live |
| Fairness.CalmStep | Lab3/src/coordinator.cc:344-505 | such a step of a recovery loses nobody the recovery has reached, and leaves the longest log among them within reach |
| Hiding.HiddenRun | Lab3/src/coordinator.cc:44-171 | what can be done with a participant blank can be done with it waiting, whatever it holds, and comes to the same for everybody else: a waiting participant is never looked at |
| Conflicts.Split | Lab3/src/coordinator.cc:344-417 | a participant that is ahead and waits with everybody else can be overtaken by another, which commits other commands under the same ids, and then passes for up to date: both work, with equal ids and different logs; no exchange fails, nobody crashes |
| Conflicts.AheadLeadsToConflict | Lab3/src/coordinator.cc:286-302 | after any run, whenever the coordinator is idle with a participant ahead of it and there is another one, a run without a restart and without a lost answer leads to these two working with equal ids and different logs |
| Conflicts.AgreementIsExact | Lab3/src/coordinator.cc:286-302 | after any run whose updates began where they fit, between operations: the logs stay in agreement in all continuations without a restart or a lost answer if and only if nobody is ahead of the coordinator |
| Conflicts.UnguardedRunsConflict | Lab3/src/coordinator.cc:231-303 | a run in which an update begins where it does not fit can be continued from there, without a restart or a lost answer, to two working participants with equal ids and different logs; so the condition of `Agreement.LogsAgree` is exact |
| Conflicts.OneAnswerLost | Lab3/src/participant.cc:5-42 | with any number of participants beyond one there is a run in which a single answer is lost, to a commit, and nothing else goes wrong, and which ends with two working participants with equal ids and different logs |
| Recoveries.TableShrinks | Lab3/src/coordinator.cc:113-171 | handing out entries never adds to the table |
| Recoveries.MoveLeavesLess | Lab3/src/coordinator.cc:438-505 | every move in a recovery lowers a well-founded measure, in spite of the retry with another leader |
| Recoveries.CrashLeavesRank | Lab3/src/coordinator.cc:438-505 | a crash does not raise it |
| Recoveries.NeverStuck | Lab3/src/coordinator.cc:344-505 | a recovery always has a move to make, without anything failing |
| Coordination.Coordinator.constructor | Lab3/src/coordinator.cc:6-42 | a coordinator starts after any history as the restart step says |
| Coordination.Coordinator.KeepAlive | Lab3/src/coordinator.cc:84-111 | outside a recovery a waiting participant gets its link and becomes temporary, which is one reconnection step; otherwise nothing changes |
| Coordination.Coordinator.Others | Lab3/src/coordinator.cc:84-111 | in a moment in between just the crashes and connections happen that the outside has for it |
| Coordination.Coordinator.SendAndRecv | Lab3/src/network.cc:343-417 | an exchange is that of the protocol model, with the fate the outside has for its moment; the participant keeps its memory |
| Coordination.Coordinator.PWorking | Lab3/src/coordinator.cc:44-82 | one turn of a working thread: if it has to send, one exchange with the fate of the moment, its result code and its data; the link is closed only if the exchange failed |
| Coordination.Coordinator.PRecovery | Lab3/src/coordinator.cc:113-171 | one turn of a recovery thread: if it has to send, one exchange with the fate of the moment, the table entry, the result |
| Coordination.Coordinator.VoteRound | Lab3/src/coordinator.cc:235-256 | with the workers in any order, the collected vote is the vote of the run |
| Coordination.Coordinator.CommitRound | Lab3/src/coordinator.cc:263-285 | with the workers in any order, the answer collected is the last success of the run |
| Coordination.Coordinator.UpdateDB | Lab3/src/coordinator.cc:231-303 | an update is a run of the step system, and its answer means what the row of `Requests.UpdateReply` says; if somebody is live, nobody crashes and everything gets through, a well-formed update is not answered with an error |
| Coordination.Coordinator.Request | Lab3/src/coordinator.cc:305-327 | a read is a run of the step system, and its answer is the last committed write; if somebody is live, nobody crashes and everything gets through, a well-formed read is answered with a value |
| Coordination.Coordinator.QueryRound | Lab3/src/coordinator.cc:370-391 | the table collected is the table of the run, and `consistance` says whether all entries are the coordinator's |
| Coordination.Coordinator.LeastEntry | Lab3/src/coordinator.cc:394-399 | the least entry |
| Coordination.Coordinator.GetRecoveryLeader | Lab3/src/coordinator.cc:507-521 | the leader and its last entry |
| Coordination.Coordinator.FollowLeader | Lab3/src/coordinator.cc:460-503 | takes over and hands out the leader's entries until they end or the leader is lost |
| Coordination.Coordinator.RecoveryFromP | Lab3/src/coordinator.cc:438-505 | ends, by the size of the table, with the coordinator's own log handed out to everybody left |
| Coordination.Coordinator.RecoveryFromC | Lab3/src/coordinator.cc:421-436 | hands out every committed entry in order |
| Coordination.Coordinator.Recovery | Lab3/src/coordinator.cc:344-419 | a recovery is a run of the step system, and ends as the row of `Recoveries.RecoveryOutcome` says; if the links of all it reaches hold, nobody crashes and everything gets through, they all end live, with the coordinator at the longest log among them |
| Rounds.RoundWorks | Lab3/src/coordinator.cc:44-82 | a worker's turn is one exchange of its round, and its result is counted once |
| Rounds.RoundOver | Lab3/src/coordinator.cc:244-285 | what is collected at the end of a round is what the exchanges made |
| Rounds.QueryOver | Lab3/src/coordinator.cc:378-391 | the table collected at the end is the one the answers make |
| Decimal.ReadPrint | Lab3/src/parser.cc:87-103 | a printed number is read back, whatever follows that is not a digit |
| Numerals.ReadIsDecimal | Lab3/src/parser.cc:87-103 | digits are read in base ten, by character codes: the leading digit counts for itself times a power of ten, and the rest adds to it |
| Numerals.PrintIsNumeral | Lab3/src/parser.cc:42-48 | a number is printed as its numeral in base ten, without a zero in front |
| Numerals.NumeralIsPrint | Lab3/src/parser.cc:42-48 | there is no other numeral for it, so whoever writes the number writes what is printed |
| Resp.GetRESPArry | Lab3/src/parser.cc:54-68 | the loop prints the header and every element |
| Resp.ParserRESPArry | Lab3/src/parser.cc:150-169 | the loop parses as many elements as announced and reports where they end |
| Resp.StringRoundTrip | Lab3/src/parser.cc:87-103 | a printed string is read back with its exact length, wherever it stands, whatever is in it and whatever follows |
| Resp.ArrayRoundTrip | Lab3/src/parser.cc:150-169 | a printed list is read back, and the reported length is the printed one, with any text behind it |
| Resp.IntergerRoundTrip | Lab3/src/parser.cc:110-121 | a printed integer, negative ones too, is read back with its length |
| Resp.StatusRoundTrip | Lab3/src/parser.cc:128-144 | both status messages are recognised with their lengths |
| Resp.PrintedArraysDiffer | Lab3/src/parser.cc:54-68 | printing lists is injective, and no printed list begins another |
| Wire.WireText | Lab3/src/parser.cc:18-81 | lists, integers and status messages are, byte by byte, the texts of this protocol, whoever has written the numbers in them |
| Lists.AllReadBack | Lab3/src/parser.cc:160-165 | if one element is read back exactly, so is any list of them |
| LogText.LogRecord.FromText | Lab3/src/logger.cc:5-22 | the fields are those between the first tags and line ends |
| LogText.LogRoundTrip | Lab3/src/logger.cc:5-35 | id, state and event are read back, even when the event holds line ends or the tags |
| Frames.NumberRoundTrip | Lab3/src/include/util.hpp:6-25 | a number is read back from its low bytes if it fits in them |
| Frames.FrameRoundTrip | Lab3/src/network.cc:229-311 | a frame is decoded to its message and not a byte further, after any bytes without the mark |
| Frames.SequenceRoundTrip | Lab3/src/network.cc:229-311 | frames one after another are decoded to the same messages in the same order |
| Frames.RecvFrame | Lab3/src/network.cc:249-311 | however the stream is cut up, receives exactly the next frame; fails only when the stream ends before it |
| Frames.RecvReply | Lab3/src/network.cc:370-412 | the coordinator's receive agrees with it when it succeeds, and succeeds unless a wait has timed out |
| Commands.RecvLine | Lab3/src/network.cc:25-58 | one header line, byte by byte: its digits, or the reason it is none |
| Commands.RecvItem | Lab3/src/network.cc:64-121 | one element: header, length, content |
| Commands.RecvCommand | Lab3/src/network.cc:5-128 | on every stream the bytewise decoder gives what the grammar gives, or fails when that has nothing or a wait has timed out |
| Commands.CommandRoundTrip | Lab3/src/network.cc:5-128 | a printed command is received as the list it was printed from; only the last line end is not read |
| Commands.DecoderAgreesWithParser | Lab3/src/network.cc:5-128 | the streaming decoder and the batch parser agree on every printed command |
| Wire.ClientIsHeard | Lab3/src/network.cc:5-128 | any command as a client writes it, with its lengths in base ten, is received and parsed as that command |
| Wire.GetIsHeard | Lab3/src/network.cc:5-128 | the bytes of a client's `GET a` are received and parsed as these two words |
| Wire.HeaderMeans | Lab3/src/network.cc:25-58 | what is taken for a header line is one: anything without the mark, the mark, digits, a line end |
| Wire.ItemMeans | Lab3/src/network.cc:64-121 | what is taken for an element is one: a header line whose number is the length, and that many characters |
| Messages.MessageRoundTrip | Lab3/src/logger.cc:5-35 | every message of the protocol is read back from its text |
| Messages.MessagesDiffer | Lab3/src/logger.cc:24-35 | different messages have different texts |
| Messages.RepliesTold | Lab3/src/coordinator.cc:250-283 | the comparisons made on answer texts tell the answers apart as the protocol model does |
| Answers.ReplyTells | Lab3/src/participant.cc:87-135 | the text of every answer says what the answer is, to the parser and byte by byte: a value as a list of one, a count as an integer, success and error as the status messages |
| Answers.OneAnswerTold | Lab3/src/participant.cc:44-85 | no text tells two answers |
| Messages.CommandArrives | Lab3/src/network.cc:5-128 | a client's command reaches every participant as the list the client printed |
| Exchanges.PWorker | Lab3/src/participant.cc:44-85 | on the text of any message, a participant makes the protocol model's transition and gives a text that tells its answer |
| Exchanges.Working | Lab3/src/participant.cc:21-42 | receives the next frame however it is cut up, and sends the text that tells the answer as a frame; nothing changes when the connection closes |
| Exchanges.Exchange | Lab3/src/network.cc:343-417 | a message sent and answered over frames and streams, either of which may break off or time out, comes to what the exchange of the protocol model comes to: the participant is as it is there, and the coordinator has a text that tells the answer, or an error; the message is undelivered exactly if its frame breaks off, and heard if nothing does and nothing times out |
| Handoff.Lockstep | Lab3/src/include/lock.hpp:38-77 | in every interleaving, with either order of release: the threads are never at a slot together, tasks are executed in order and once, each read gets the result of what was posted last, and some thread can go on |
| Handoff.MainKeepsPermits | Lab3/src/include/lock.hpp:53-75 | each permit and each mutex is always in exactly one place, for the main thread's steps |
| Handoff.WorkerKeepsPermits | Lab3/src/coordinator.cc:54-80 | and for the worker's |
| RingBuffer.TaskArray.PutTask | Lab2/httpserverMy.cc:241-244 | adds at the end of the tasks in the array, by the writes that a producer's step of the thread model makes |
| RingBuffer.TaskArray.GetTask | Lab2/httpserverMy.cc:246-250 | takes the oldest, by the writes that a consumer's step makes |
| RingBuffer.RoomAtArray | Lab2/httpserverMy.cc:263-271 | under the semaphores a producer at the array finds room and a consumer a task |
| RingBuffer.NothingLost | Lab2/httpserverMy.cc:227-289 | for any number of threads, any capacity and any interleaving: tasks taken are the first ones put, in order, each once; at most the capacity are waiting; one thread at a time at the array |
| RingBuffer.StepRefinesQueue | Lab2/httpserverMy.cc:241-289 | every step is a step of a bounded queue, or none |
| RingBuffer.NeverStuck | Lab2/httpserverMy.cc:263-289 | with a producer and a consumer, some thread can always go on |

## Left out

- DancingLinks.Dance.Solve: asks that names decode to a cell and a digit within the board, as the constructor's do; the part about exact covers does not depend on them.
- SudokuCheck.BoardSolved: asks for a board with digits 1 to 9, as the assertion in the source does; the nine cells of a box are visited through their index instead of nine written-out increments.
- Requests.UpdateReply: speaks of the time until the coordinator is idle again, without a restart of the coordinator meanwhile, since a restarted one answers nobody.
- Recoveries.NeverStuck: says that a move can be made, not that threads are scheduled to make it.
- Commands.RecvCommand: the caller gets the reason of a failure only as far as malformed or closed; which of the two is not stated.
- Coordination.Coordinator.SendAndRecv: whether message and answer arrive is given from outside, moment by moment (`Fairness.Weather`); frames and timeouts are the subject of `Exchanges.Exchange`, which has the same outcomes but is not called from it.
- Handoff.Lockstep: is about the locks of one participant; the main thread's loop over all participants gives each pair its posts and reads in turn.
- Lengths and transaction ids are unbounded integers: the source's `int` lengths (below 2^31) and ids (below 2^63) are assumed not to overflow.
- Sockets, binding, accepting and real timeouts: a stream delivers any nonempty part of what is asked for, times out a finite number of times, or closes.
- A read of an exact number of bytes that breaks off with an error other than a close, after some have come.
- Waiting by `sleep` and busy loops, fairness, and data races on the standard maps: a guarded access is one step.
- The count of freshly connected participants on which a recovery waits: what holds in every run holds with recoveries begun at any idle time, and in the runs that lead to a conflict somebody has just been connected when one begins (`Continuations.Prompted`).
- The client side of the coordinator (accepting a connection, dispatching on the first word, sending the answer back): updates and reads begin at their methods.
- The unused parameters of `solve`, and `init_neighbors`, `find_spaces` and `input` of Lab1.
- HTTP parsing, responses and file sending of Lab2, and everything else there outside the queues.
- Configuration, options, printing and the clock.
