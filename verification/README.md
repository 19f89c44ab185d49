# A verified model of the Raft node

This project models a complete Raft implementation written in C: the node of `src/raft.c`, its
durable log and durable term and vote, its AppendEntries codec and its phi-accrual failure
detector. It proves the safety of the protocol over whole runs of a cluster, and it proves that
the node, written as imperative code over arrays and over the bytes of its files, does what the
protocol model says.

`dafny verify dfyconfig.toml` checks everything.

## How it is layered

**The handlers as functions** (`Words`, `Types`, `NodeSpec`, `NodeFacts`). A node is a durable part
(term, vote, log) and a volatile part. A handler maps a node and an input to an outcome: the durable
writes in order, the new volatile state, the packets sent, the entries applied. Index words are
`uint32_t` with their casts to and from `int` written out, so the -1 sentinels go through unsigned
arithmetic as they do in the source.

**The cluster** (`Cluster`). N >= 2 nodes, a bag of packets in flight and the trace of applied
entries. A step handles one packet or timeout, or handles it only up to any of its durable writes and
then restarts the node, or crashes a node between handlers, or loses a packet, or submits a client
request. A received packet is consumed, so each copy is delivered at most once; packets are reordered
and lost freely. A run is any finite sequence of steps from empty files in which every state is
`InRange`: terms and log lengths have not left the non-negative `int`s.

**Safety** (`Invariants`, `Growth`, `Moves`, `Elections`, `Replication`, `VoteHandlers`,
`AppendHandlers`, `LeaderHandlers`, `Runs`, `Retention`, `Safety`, `Clients`, `Lifetimes`,
`Departures`, `Schedules`). Every run has a history of reigns, votes and acknowledgements that
explains it; the theorems are about runs alone and mention no history. `Clients` says what a reply
promises, `Lifetimes` what is applied between two crashes, and `Departures` exactly when two familiar
properties fail; `Schedules` has a run for each of those. The invariant follows this code where it
leaves the published protocol:

- a candidate that hears a leader of its own term clears its vote without leaving the term
  (`src/raft.c:258-260`, `582-588`), so a node can vote twice in one term;
- votes are a bare counter (`src/raft.c:432-438`), so the proof counts packets, not voters;
- an acknowledgement carries the term read before the step-up (`src/raft.c:250`, `322`), so the first
  one in a new term is stale;
- on success `next_index` jumps to the end of the leader's log (`src/raft.c:340`), and heartbeats
  carry no entries (`src/raft.c:195-202`);
- a follower's commit index can move backwards (`src/raft.c:317-318`).

**Laws of one handler and of one exchange** (`HandlerLaws`, `MergeLaws`, `BackOff`, `Answering`,
`Detection`). What each handler leaves behind and sends, said by fields, sets and counts instead of by the
functions that compute it; what the merge loop does to a log; how a leader finds the place where a
follower agrees with it; who is answered when an entry is applied; and when a follower gives up.

**The running node** (`RaftNode` over `Storage`, `FileLog`, `StateFile`, `Accrual`). A class with the
fields and arrays of `raft_node_t`, whose methods are the C handlers with their loops, each proved to
leave exactly the outcome of its specification function. Its durable state is two byte files for the
log and one for the term and vote. `Storage.Store.found` lists what a restart would have read after
every system call of the current handler; every write adds to it what the bytes on disk then say, and
`HandleInput` promises the whole list. `spokeAt` is the length of that list when the first packet was
sent or the first entry applied, and `HandleInput` promises that this was the whole of it; so every
durable write is made under a checked condition (`Silent`) that the handler has said nothing yet.
`Wire.CrashIsAStep` makes a step of the cluster model of a crash at any of these points. The node also
feeds its failure detector, and a timeout of a follower asks it.

**The codec** (`Bytes`, `Codec`, `Wire`) packs and unpacks in place in the 1024-byte payload. The
comment above the packer in `src/rpc.c` shows two words per entry; the code writes four, and the
model follows the code.

**The failure detector** (`Accrual`) keeps a ring of heartbeat intervals in modular 64-bit
arithmetic and decides over the reals.

## Model

| member | source | states |
|---|---|---|
| Safety.ElectionSafety | src/raft.c:432-440 | over every run, two nodes that ever lead the same term, at whatever times, are the same node, although votes are counted without identities and can be cleared within a term |
| Safety.VoteCheckIsLexicographic | src/raft.c:402-411 | for every vote request in flight, whatever has become of its candidate, the voter's check is exactly "the log the candidate had when it stood for that term is at least mine", for all logs of the run including empty ones; and while the candidate still stands that is the log it has |
| Safety.VoteReqOrigin | src/raft.c:121-141 | every vote request in flight was sent by a node entering that term, and states the last index and term of the log it had then |
| Elections.UpToDateIsAtLeast | src/raft.c:59-70 | with all stored terms at least 1, the unsigned comparison equals the lexicographic order on logs, the empty log (index word 0xFFFFFFFF) included |
| Safety.TermsArePositiveAndAscend | src/raft.c:461-467 | in every run stored terms are at least 1, never decrease along a log, and never exceed the node's term |
| Safety.LogMatching | src/raft.c:285-313 | two logs of a run, at whatever times, that hold the same term at an index are identical up to and including it |
| Safety.LeaderCompleteness | src/raft.c:342-358 | whatever any node counts as committed or has applied in a term is in the log of every leader of every later term, and of that term's leader from then on |
| Safety.CommittedPrefixesAgree | src/raft.c:315-320 | any two nodes, at any two times, hold the same entry at every index both count as committed |
| Safety.CommittedStays | src/raft.c:297-313 | no truncation, and no crash between a truncation and the appends after it, ever removes an entry its node counts as committed |
| Safety.CommittedOnMajority | src/raft.c:342-358 | whatever any node counts as committed or has applied is stored by a majority of the nodes, then and at every later time |
| Safety.IndicesStayInsideLog | src/raft.c:209-217 | commit_index and last_applied stay at or above -1 and below the log length, so the read in the apply loop is always in range |
| Safety.TermsNeverGoBack | src/raft.c:582-588 | a node's stored term never decreases, crashes included |
| Safety.StateMachineSafety | src/raft.c:209-241 | whatever is applied at an index, by any nodes in any lifetimes, is the same entry |
| Safety.MatchIndexSound | src/raft.c:333-345 | once the leader of a term counts a node as holding index m, that node's log agrees with the leader's through m for as long as the node is in that term |
| Safety.StaleAckIsDropped | src/raft.c:325-335 | the reply a follower sends to the first request of a new term, success or failure, carries the follower's old term, and the leader drops it whenever it arrives |
| Safety.LeaderNeverHearsItself | src/raft.c:258-263 | no AppendEntries of its own term is ever in flight to a leader |
| Elections.WinMove | src/raft.c:432-440 | a candidate counted past half of the cluster becomes the one leader of its term and keeps every entry an earlier term can still commit |
| LeaderHandlers.CommittableIsChosen | src/raft.c:342-358 | what the commit rule accepts is stored by a real majority of nodes, by what their acknowledgements say |
| Runs.StepKeepsInv | src/raft.c:718-745 | every step, including one cut off between any two durable writes, keeps the whole protocol invariant |
| Runs.RunHasHistory | src/raft.c:718-745 | every run has a growing history of reigns, votes and acknowledgements that explains each of its states |
| Retention.StepRetains | src/raft.c:297-313 | a step leaves every committed prefix of a node's log in place |
| Lifetimes.AppliedOnceInOrder | src/raft.c:209-217 | within a lifetime, the handler in which it ends by a crash included, a node applies consecutive indices from its last_applied on, each once; until the crash these are exactly the indices last_applied passes, although commit_index may regress |
| Clients.HandlerAccounts | src/raft.c:221-239 | each handler's success replies plus waiting slots change exactly by the requests taken into a slot, and every success answers an entry applied by that handler |
| Clients.NoSpuriousReplies | src/raft.c:460-479 | within one process lifetime, success replies plus active slots never exceed the requests taken on, with the table of 128 full or not, and counting the replies that still leave in a handler cut off by a crash |
| Clients.ReplyMeansApplied | src/raft.c:221-239 | a success reply for (client_id, cmd_seqno) is sent only by a handler, cut off by a crash or not, that applies an entry with that pair, which is in the log of the node after the step |
| Clients.AcknowledgedIsDurable | src/raft.c:221-239 | the entry a success reply answers is stored by a majority of the nodes, at the index where it was applied, from the step that sends the reply on, even if the sender dies in it |
| Clients.RepliesAreDurable | src/raft.c:221-239 | every success reply ever found in the network, whatever has become of its sender, answers an entry that a majority of the nodes stores at one index from then on, and no node ever applies another entry at that index |
| NodeFacts.FindSlotFinds | src/raft.c:222-225 | the search finds the first active slot with the entry's pair, and only reports none when there is none |
| NodeFacts.FreeSlotFinds | src/raft.c:470-471 | the search finds the first inactive slot, and only reports none when all are active |
| Departures.CommitMovesBackIff | src/raft.c:315-319 | commit_index moves backwards exactly when an accepted request ends below it while the leader's commit index is above it |
| Schedules.CommitMovesBack | src/raft.c:315-319 | a run of two nodes, reordered heartbeats and a late acknowledgement included, in which a follower's commit_index falls from 0 to -1 |
| Departures.SecondVoteInTerm | src/raft.c:258-260 | a candidate that hears its own term's leader votes again in that term for the next up-to-date candidate |
| Schedules.VotesTwiceInOneTerm | src/raft.c:258-260 | a run of three nodes in which one node stores a vote for itself, clears it and stores a vote for another, all in term 1 |
| Departures.VoteTakenBackIff | src/raft.c:582-588 | after any number k of its writes, a handler has taken back a vote within the term if and only if it is a candidate's, with a vote, that hears its term's leader and k is at least 2; and the vote is then cleared |
| Departures.HandlerTakesBackIff | src/raft.c:258-260 | the same for a handler that runs to its end: a vote is taken back if and only if a candidate with a vote hears its term's leader in a term that is not a negative `int` |
| Departures.ClearedVoteWasOwn | src/raft.c:258-260 | in every run a vote cleared within its term was the node's vote for itself, and by then the term has a leader, another node: its AppendEntries of that term is in flight to the node, a majority's votes for it stand from then on, and nobody else leads the term at any time |
| Departures.WinningVotesStand | src/raft.c:432-440 | from the time a node leads a term, some majority has reached that term and each of its nodes has its vote for the leader as long as it is in the term: the winning votes are never cleared |
| NodeFacts.ApplyCommittedIs | src/raft.c:209-217 | one pass of the apply loop hands over exactly the entries above last_applied through commit_index, in order, and changes nothing else but slots |
| HandlerLaws.CommitPointLaw | src/raft.c:342-358 | the commit loop lands on the greatest index above the old commit_index, inside the log, whose entry has the current term and is held by more than half of the cluster, this node and the peers whose match_index reaches it; or it stays |
| NodeFacts.HoldersAreASet | src/raft.c:345-350 | the counter of the commit rule is the size of the set of peers whose match_index reaches the index |
| HandlerLaws.TimeoutLaw | src/raft.c:676-714 | a leader's timer sends one heartbeat to each peer and changes nothing; a candidate's, and that of a follower that suspects its leader, takes the node to the next term with a vote for itself and one request to each peer; a follower that suspects nothing does nothing |
| HandlerLaws.VoteReqLaw | src/raft.c:369-414 | which requests are granted, by term, by the vote already given and by the end of the log, and the state and the one answer in each case |
| HandlerLaws.VoteResLaw | src/raft.c:416-445 | a granted vote of the candidate's term is counted; the one past half of the cluster makes a leader with next_index at the end of its log and match_index -1 for every peer, whose first heartbeats name the last entry of its log |
| HandlerLaws.AppendReqLaw | src/raft.c:244-323 | term, vote, role, known leader, log, commit_index and last_applied after any request, exactly when it is accepted, and the answer with the term from before the step-up |
| HandlerLaws.AppendResLaw | src/raft.c:325-367 | a success sets match_index, moves next_index to the end of the log and commits by the majority rule; a rejection goes one back; a later term is stepped into; everything else is dropped |
| HandlerLaws.ProcReqLaw | src/raft.c:447-485 | a leader's log grows by exactly the request, its first free slot keeps the request's client, number and index, and each peer is sent what it is missing; any other node changes nothing and refuses with its leader hint and term |
| HandlerLaws.ClaimLaw | src/raft.c:468-479 | the first inactive slot, and no other, changes: it holds the request's client_id, cmd_seqno and log index and is active; a full table does not change |
| HandlerLaws.BroadcastLaw | src/raft.c:143-205 | a broadcast is one packet to each other node, in order, with the term, commit index, prev index and prev term for that peer and min(32, what is left of the log) entries from its next_index on, or none in a heartbeat |
| HandlerLaws.VoteCallsLaw | src/raft.c:121-141 | an election sends one request to each other node with the term and the last index and term of the log |
| HandlerLaws.CommittableIff | src/raft.c:345-358 | the counting test of the commit loop is "more than half of the cluster holds it", counting nodes as a set |
| Answering.ApplyOneServes | src/raft.c:210-240 | applying one entry: at a leader the first slot that waits for its pair is released and that client gets the one success reply; with no such slot, or at any other node, nobody is answered and no slot changes |
| Answering.PassServes | src/raft.c:209-242 | a whole pass serves its entries one after another in that way, and sends nothing else |
| Answering.HandlerServes | src/raft.c:221-239 | so does every handler: its success replies are exactly those owed for the entries it applies, from the slots it finds to the slots it leaves |
| Answering.TakenIsAnswered | src/raft.c:447-479 | over every run, a leader that took a request into a slot and goes on leading that term has told the client of its success by the time it has applied the request's own entry |
| Answering.OldEntryTakesTheSlot | src/raft.c:221-239 | why "by the time": a command repeated to a new leader is answered for the old entry, and the new entry, applied next, finds no slot |
| NodeFacts.MergeWritesMerge | src/raft.c:297-313 | the single writes of the merge loop together make the log that keeps everything up to the first disagreement and replaces the rest |
| MergeLaws.MergedHolds | src/raft.c:297-313 | after the merge the log is unchanged below the new entries and holds their terms at their indices |
| MergeLaws.MergeIsNoOpIffCovered | src/raft.c:297-308 | the merge changes nothing if and only if every new entry is already there |
| MergeLaws.SuffixKeptIffNoConflict | src/raft.c:300-307 | the existing log survives as a prefix if and only if no new entry meets one of another term |
| MergeLaws.MergedEnds | src/raft.c:297-313 | unless everything was there already, the log ends with the last new entry |
| MergeLaws.StaleRequestIsNoOp | src/raft.c:297-313 | any part of a request already merged changes nothing when it arrives again |
| MergeLaws.WritesLand | src/raft.c:299-312 | every append lands exactly at the current log length, every truncation exactly on an entry of another term |
| BackOff.MeetingPoint | src/raft.c:291-295 | the greatest index below next_index at which the logs agree, the place before the log counting as common |
| BackOff.RejectedProbe | src/raft.c:361-365 | a rejected round trip lowers next_index by exactly one and leaves both logs alone |
| BackOff.AcceptedProbe | src/raft.c:337-341 | a round trip at an agreeing place is accepted, and match_index records the last index the request carried |
| BackOff.BackOffDescends | src/raft.c:361-365 | every round trip above the meeting point is rejected, one next_index lower each time |
| BackOff.BackOffTerminates | src/raft.c:143-181 | the search ends exactly at the greatest agreeing index, at the latest before the log, after as many rejections as next_index is above it |
| BackOff.BackOffMeetsAtCommonPrefix | src/raft.c:143-181 | for a leader and a follower of any run the search ends exactly behind their longest common prefix below next_index, entries compared whole |
| RaftNode.Raft.constructor | src/util-unix/raft-util.c:7-42 | a node over any sound files: fresh volatile state, and the durable state the files hold |
| RaftNode.Raft.GetLogTerm | src/raft.c:39-57 | the term stored at an index, 0 below the log and 0 beyond it |
| RaftNode.Raft.LogIsUpToDate | src/raft.c:59-70 | the comparison in unsigned words, as the specification's up-to-date check |
| RaftNode.Raft.BroadcastRequestVote | src/raft.c:121-141 | one request to every peer but this node, in order, with the stored term and the last index and term of the log |
| RaftNode.Raft.BroadcastAppendEntries | src/raft.c:143-181 | to every peer the batch of at most 32 entries from its next_index on; nothing from a node that does not lead |
| RaftNode.Raft.SendHeartbeats | src/raft.c:183-205 | the same requests without entries |
| RaftNode.Raft.AnswerClient | src/raft.c:222-239 | the first waiting slot with the entry's pair is released and its client answered; otherwise nothing changes |
| RaftNode.Raft.ApplyToStateMachine | src/raft.c:209-242 | the loop over log reads and slot searches hands over, answers and releases exactly what the specification's pass does |
| RaftNode.Raft.MergeEntries | src/raft.c:297-313 | the loop with its unsigned indices and running log length makes exactly the specified truncations and appends |
| RaftNode.Raft.FollowCommit | src/raft.c:315-320 | the commit update of a follower and the applies it allows |
| RaftNode.Raft.HandleAppendEntriesRequest | src/raft.c:244-323 | the whole handler, all its exits, against the specification: durable writes in order, state, replies, applies, and which requests count as heartbeats for the detector |
| RaftNode.Raft.CountHolders | src/raft.c:345-350 | the counting loop over match_index |
| RaftNode.Raft.AdvanceCommit | src/raft.c:342-359 | the ascending commit loop leaves commit_index at the greatest index above it that a majority holds, or where it was |
| RaftNode.Raft.HandleAppendEntriesResponse | src/raft.c:325-367 | the whole handler: step-down, drop, success with commit and apply, back-off by one |
| RaftNode.Raft.HandleRequestVoteRequest | src/raft.c:369-414 | the whole handler: refusal, step-up, the one vote and when it is granted |
| RaftNode.Raft.HandleRequestVoteResponse | src/raft.c:416-445 | the whole handler: step-down, counting, and becoming leader past half of the cluster |
| RaftNode.Raft.ClaimSlot | src/raft.c:468-479 | the first inactive slot remembers client_id, cmd_seqno and index of the request; every other slot, and a full table, stays |
| RaftNode.Raft.HandleProcRequest | src/raft.c:447-485 | a leader appends, claims a slot and broadcasts; anyone else refuses with its leader hint |
| RaftNode.Raft.StartElection | src/raft.c:564-580 | the next term and the vote for itself reach the disk in that order before any request is sent |
| RaftNode.Raft.BecomeFollower | src/raft.c:582-597 | term, then cleared vote, and the follower's volatile state with the detector reset |
| RaftNode.Raft.BecomeCandidate | src/raft.c:599-612 | the role change, with the detector reset, followed by an election |
| RaftNode.Raft.BecomeLeader | src/raft.c:614-637 | next_index at the end of the log and match_index at -1 for every node, no known leader, the detector reset, then heartbeats |
| RaftNode.Raft.Listen | src/raft.c:265-281 | a request without entries is one more heartbeat in the detector of a follower, and nothing else is |
| RaftNode.Raft.SuspectsLeader | src/raft.c:681-692 | the plain timeout scheme and a window still ramping up always suspect the leader, the accrual scheme asks the detector; said both of the window and of the heartbeat times heard |
| RaftNode.Raft.HandleTimeout | src/raft.c:676-714 | what each role does when its timer fires; a follower becomes a candidate, in the next term and with its own vote, exactly if its scheme is the plain timeout, or fewer intervals are counted than the ramp takes, or by the heartbeat times its leader is overdue |
| Detection.FollowerStandsIff | src/raft.c:676-694 | for any heartbeat times since the reset: a follower's timeout takes it to the next term as a candidate if and only if the scheme is the plain timeout, or min(intervals, window) < ramp_size, or the scheme is accrual and elapsed * log10(e) * num > threshold * total for a positive total |
| Detection.RampingUpStands | src/raft.c:681-685 | with fewer intervals heard than ramp_size a follower stands under either scheme |
| Detection.BeatsLaw | src/raft.c:265-281 | the detector is reset exactly when a message changes the node's term or role, and hears a heartbeat exactly when a current AppendEntries without entries leaves the node a follower |
| RaftNode.Raft.HandleRpc | src/raft.c:493-560 | the dispatch on the kind of packet |
| RaftNode.Raft.HandleInput | src/raft.c:718-745 | one turn of the run loop does exactly what the cluster model says of this input; after its system calls, in order, a restart would find exactly the states listed by `Storage.AfterAll`; every packet is sent and every entry applied after the last of those calls |
| Storage.AfterAllCovers | src/raft.c:299-312 | that list of states: each is the old durable state with a prefix of the handler's writes made, every non-empty prefix occurs, in order, and the last is the whole |
| Storage.Store.SetTerm | src/persist-unix/persistent-fields.c:20-26 | the term changes, and what a restart finds after the one call is what the bytes of the state file then say |
| Storage.Store.SetVote | src/persist-unix/persistent-fields.c:20-26 | the same for the vote |
| Storage.Store.WriteAt | src/persist-unix/log.c:29-51 | one entry more, and what restarts find after each of its calls is what the bytes of the log files then say |
| Storage.Store.RemoveLastN | src/persist-unix/log.c:73-85 | n entries fewer, and what restarts find after each of its calls is what the bytes of the log files then say |
| FileLog.CrashAtomic | src/persist-unix/log.c:29-51 | between any two system calls of any operation the files hold exactly the old or the new log, never the old after the new, stale bytes past the length or not |
| FileLog.LifeIsReplay | src/persist-unix/log.c:87-123 | after any life of operations, crashes and restarts the files hold exactly the sequence made in order by all operations that returned and some of those cut off |
| FileLog.BootKeeps | src/persist-unix/log.c:101-110 | opening the files, however short the length file is, changes nothing a later opening could see |
| FileLog.DecodeSpliced | src/persist-unix/log.c:32-37 | an entry written at its offset reads back, and every other entry reads as before |
| FileLog.Log.constructor | src/persist-unix/log.c:87-123 | the length read or reset, and the contents the files hold |
| FileLog.Log.Read | src/persist-unix/log.c:16-27 | the entry at any index in range, EOBND outside, from the bytes on disk |
| FileLog.Log.Write | src/persist-unix/log.c:29-51 | append at the length, overwrite below it, EOBND elsewhere, with the files after each system call |
| FileLog.Log.RemoveLastN | src/persist-unix/log.c:73-85 | the last n entries, at most all, none for n <= 0, with the files after each system call |
| FileLog.FileLayout | src/persist-unix/log.c:16-51 | the length in bytes 0 to 3 of its file, and the fields of entry i at bytes 16i to 16i + 15 of the other |
| StateFile.BootRecovers | src/persist-unix/persistent-fields.c:48-55 | a file too short becomes term 0 and no vote; any other keeps its words |
| StateFile.SetRecovers | src/persist-unix/persistent-fields.c:20-26 | the one write of a set stores that field and keeps the other |
| StateFile.State.constructor | src/persist-unix/persistent-fields.c:28-60 | the contents after opening any file |
| StateFile.State.Get | src/persist-unix/persistent-fields.c:12-18 | the stored word of the field, as an `int` |
| StateFile.State.Set | src/persist-unix/persistent-fields.c:20-26 | the new contents, and the single state the file passes through |
| StateFile.StateLayout | src/persist-unix/persistent-fields.c:12-26 | the term in bytes 0 to 3 and the vote in bytes 4 to 7, least significant byte first, and a set touches its own four bytes only |
| Wire.CrashIsAStep | src/raft.c:408-413 | stop a node after any number of the system calls of its handler and, if those are all, after any number of its sends and applies: the disk a restart finds, the fresh process, the packets that left and the entries applied are what a step of the cluster model leads to |
| Wire.TurnIsAStep | src/raft.c:718-745 | a turn of the run loop is a step of the cluster model: the node afterwards, what it sent and what it applied |
| Wire.RequestsSurvive | src/raft.c:158-179 | every request a leader broadcasts, prev_log_idx and leader_commit of -1 included, fits one payload and is unpacked as it was sent |
| Wire.FirstStart | src/persist-unix/persistent-fields.c:48-55 | absent files make the durable state that runs start from |
| Codec.DecodeEncode | src/rpc.c:23-79 | for every request of at most 32 entries the payload has 24 + 16n <= 1024 bytes and unpacks to the request, whatever bytes follow it |
| Codec.EncodeDecode | src/rpc.c:53-79 | every request the unpacker accepts is the one whose packing the payload begins with |
| Codec.EntryRoundTrip | src/log-entry.c:14-28 | an entry packed anywhere in a buffer unpacks to itself |
| Codec.EntryBytes | src/log-entry.c:14-28 | an entry unpacked from any bytes packs to those bytes |
| Codec.EntriesRoundTrip | src/rpc.c:37-39 | consecutive packed entries unpack to the same sequence |
| Codec.PackEntry | src/log-entry.c:14-20 | the sixteen bytes at the pointer, every other byte untouched, the pointer advanced |
| Codec.UnpackEntry | src/log-entry.c:22-28 | the entry at the pointer, the pointer advanced |
| Codec.PackAppendReq | src/rpc.c:23-51 | the packed bytes and nothing else of the buffer, or a refusal above 32 entries once the header is written |
| Codec.UnpackAppendReq | src/rpc.c:53-79 | the decoded request, or a refusal of a short payload, too many entries, or fewer bytes than stated |
| Codec.PackUnpack | src/rpc.c:23-79 | packing and unpacking in one buffer gives every sendable request back |
| Codec.WireLayout | src/rpc.c:23-79 | the byte offset of every field of the header and of every entry in the payload, most significant byte first |
| Bytes.BigEndianRoundTrip | src/util.h:9-22 | a word written big-endian is read back |
| Bytes.FromBigEndianRoundTrip | src/util.h:9-22 | four bytes read as a big-endian word are written back |
| Accrual.WindowHoldsLastGaps | src/accrual.c:48-67 | after any heartbeats at positive times since a reset, the slots hold exactly the last min(count, window) gaps, each at its number modulo the window size |
| Accrual.WindowTelescopes | src/accrual.c:35-67 | the 64-bit sum of the counted slots is the last heartbeat minus the heartbeat that many gaps earlier |
| Accrual.SuspectsIff | src/accrual.c:71-93 | the detector fires if and only if elapsed * log10(e) * num > threshold * total for a positive total, and never otherwise |
| Accrual.IncreasingTotal | src/accrual.c:48-67 | with increasing times nothing wraps and the total is the plain positive difference |
| Accrual.Telemetry.constructor | src/accrual.c:7-16 | an empty window |
| Accrual.Telemetry.Reset | src/accrual.c:25-32 | the window as if no heartbeat had been heard |
| Accrual.Telemetry.RecordInterval | src/accrual.c:48-67 | one more heartbeat, and the ring holds the last gaps again |
| Accrual.Telemetry.ComputeMean | src/accrual.c:35-46 | the accumulating loop yields the mean of the counted slots, 0 when there are none |
| Accrual.Telemetry.CheckLeaderFailure | src/accrual.c:71-93 | the decision in terms of the heartbeat times heard since the reset |

## Left out

- Single-node clusters: an election never checks for a majority after the vote for oneself, so every statement is about N >= 2.
- Duplication of packets by the network: votes are counted without voter identities, so each copy of a packet is delivered at most once.
- Overflow: runs are restricted to terms and log lengths below 2^31 (`Cluster.InRange`), and the running node to logs with room for one more request (`RaftNode.Raft.HasRoom`).
- Indices in messages other than -1 or a non-negative `int` (`Words.IndexWord`); no node sends any.
- AppendEntries responses from senders that are not nodes (`NodeSpec.Deliverable`): the source indexes its arrays with the sender unchecked.
- Packets of unknown kind, packets that fail to unpack and packets for another node, which the source drops; shutdown packets and transport failures, which end the process.
- I/O errors: a read or write either succeeds or the process crashes. A single `write` or `ftruncate` is atomic; power failures that undo unsynced data are not modelled.
- Random timeouts and the clock: timeouts happen at any moment, and times are arguments of `HandleInput` and of the failure detector.
- When timers are set and how long they run: `HandleTimeout` says what happens when one fires. The heartbeat counter and the deliberate crash it can cause (`src/raft.c:704-709`), which is one of the crashes.
- A detector window of size 0, by which recording an interval would divide (`src/accrual.c:61`).
- The order of sends and applies within one handler: a crash may keep any prefix of its sends together with any prefix of its applies, which allows more runs than the source has.
- A clock that reads 0 when a heartbeat arrives: the detector takes that for no heartbeat (`src/accrual.c:49-53`), so its laws are about positive times.
- Rounding of floating point in the detector: means and phi are reals.
- The short fixed-size codecs (votes, acknowledgements, client requests and replies) and the length check of the client reply.
- Socket and pipe transports, the orchestrator, clients, command line, CSV telemetry and printing.
- Eventual catch-up of a lagging follower and guaranteed client replies: heartbeats carry no entries and slots are not released on step-down, so these do not hold in general.
- The state machine itself: applied entries are recorded in order, and what a command does is not part of this model.
