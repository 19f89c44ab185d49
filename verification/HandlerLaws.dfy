/** What each handler does. */
module HandlerLaws {
  import opened Words
  import opened Types
  import opened NodeSpec
  import opened NodeFacts

  // ---- broadcasts

  /** Where the packet for node j stands among those to every node but this one. */
  function Place(cfg: Config, j: nat): int {
    if j < cfg.id then j else j - 1
  }

  /** The packets go to the other nodes, one to each, in order. */
  predicate OneToEach(cfg: Config, ps: seq<Packet>) {
    && |ps| == cfg.n - 1
    && forall j {:trigger Place(cfg, j)} | 0 <= j < cfg.n && j != cfg.id ::
         0 <= Place(cfg, j) < |ps| && ps[Place(cfg, j)].src == cfg.id && ps[Place(cfg, j)].dst == j
  }

  /** An AppendEntries of a node in this state to peer j, with so many entries. */
  predicate Requests(cfg: Config, nd: Node, j: nat, m: Message, count: int)
    requires j < |nd.soft.nextIndex|
  {
    var next, log := nd.soft.nextIndex[j], nd.hard.log;
    && m.AppendReq? && m.term == nd.hard.term && m.leaderId == cfg.id && m.leaderCommit == nd.soft.commitIndex
    && ToInt(m.prevLogIdx) == next - 1
    && m.prevLogTerm == (if 1 <= next <= |log| then log[next - 1].term else 0)
    && |m.entries| == count && (count > 0 ==> next + count <= |log|)
    && forall k | 0 <= k < count :: m.entries[k] == log[next + k]
  }

  /** One entry-free AppendEntries to each other node. */
  predicate Heartbeats(cfg: Config, nd: Node, ps: seq<Packet>)
    requires |nd.soft.nextIndex| == cfg.n
  {
    && OneToEach(cfg, ps)
    && forall j: nat {:trigger Place(cfg, j)} | j < cfg.n && j != cfg.id ::
         Requests(cfg, nd, j, ps[Place(cfg, j)].msg, 0)
  }

  /** Everything from next_index on, up to 32 entries at a time, to each other node. */
  predicate Batches(cfg: Config, nd: Node, ps: seq<Packet>)
    requires |nd.soft.nextIndex| == cfg.n
  {
    && OneToEach(cfg, ps)
    && forall j: nat {:trigger Place(cfg, j)} | j < cfg.n && j != cfg.id ::
         Requests(cfg, nd, j, ps[Place(cfg, j)].msg, Min(32, Max(0, |nd.hard.log| - nd.soft.nextIndex[j])))
  }

  function Min(a: int, b: int): int {
    if a < b then a else b
  }

  lemma {:induction false} AppendRequestAt(cfg: Config, nd: Node, upto: nat, heartbeat: bool)
    requires cfg.Valid() && Shaped(cfg, nd.soft) && upto <= cfg.n
    ensures var ps := AppendRequests(cfg, nd, upto, heartbeat);
            && |ps| == (if upto <= cfg.id then upto else upto - 1)
            && forall j: nat {:trigger Place(cfg, j)} | j < upto && j != cfg.id ::
                 0 <= Place(cfg, j) < |ps| && ps[Place(cfg, j)] == AppendRequest(cfg, nd, j, heartbeat)
    decreases upto
  {
    if upto > 0 {
      AppendRequestAt(cfg, nd, upto - 1, heartbeat);
    }
  }

  lemma RequestCarries(cfg: Config, nd: Node, j: nat, heartbeat: bool)
    requires cfg.Valid() && Shaped(cfg, nd.soft) && j < cfg.n
    ensures var p := AppendRequest(cfg, nd, j, heartbeat);
            var count := if heartbeat then 0 else Min(32, Max(0, |nd.hard.log| - nd.soft.nextIndex[j]));
            p.src == cfg.id && p.dst == j && Requests(cfg, nd, j, p.msg, count)
  {
    BeforeIsPredecessor(nd.soft.nextIndex[j]);
  }

  /** What a broadcast of a leader in this state is. */
  lemma BroadcastLaw(cfg: Config, nd: Node, heartbeat: bool)
    requires cfg.Valid() && Shaped(cfg, nd.soft)
    ensures var ps := AppendRequests(cfg, nd, cfg.n, heartbeat);
            if heartbeat then Heartbeats(cfg, nd, ps) else Batches(cfg, nd, ps)
  {
    AppendRequestAt(cfg, nd, cfg.n, heartbeat);
    forall j: nat | j < cfg.n && j != cfg.id
      ensures var p := AppendRequest(cfg, nd, j, heartbeat);
              var count := if heartbeat then 0 else Min(32, Max(0, |nd.hard.log| - nd.soft.nextIndex[j]));
              p.src == cfg.id && p.dst == j && Requests(cfg, nd, j, p.msg, count)
    {
      RequestCarries(cfg, nd, j, heartbeat);
    }
  }

  /** One RequestVote with the term of this durable state and the end of its log to each other node. */
  predicate VoteCalls(cfg: Config, hard: Durable, ps: seq<Packet>) {
    && OneToEach(cfg, ps)
    && forall j: nat {:trigger Place(cfg, j)} | j < cfg.n && j != cfg.id ::
         var m := ps[Place(cfg, j)].msg;
         && m.VoteReq? && m.term == hard.term && m.candidateId == cfg.id
         && m.lastLogTerm == (if hard.log == [] then 0 else hard.log[|hard.log| - 1].term)
         && (|hard.log| <= INT_SPAN ==> ToInt(m.lastLogIdx) == |hard.log| - 1)
  }

  lemma {:induction false} VoteRequestAt(cfg: Config, hard: Durable, upto: nat)
    requires cfg.Valid() && upto <= cfg.n
    ensures var ps := VoteRequests(cfg, hard, upto);
            && |ps| == (if upto <= cfg.id then upto else upto - 1)
            && forall j: nat {:trigger Place(cfg, j)} | j < upto && j != cfg.id ::
                 && 0 <= Place(cfg, j) < |ps|
                 && ps[Place(cfg, j)] == Packet(cfg.id, j, VoteReq(hard.term, cfg.id, ToWord(|hard.log| - 1),
                                                                   LogTerm(hard.log, |hard.log| - 1)))
    decreases upto
  {
    if upto > 0 {
      VoteRequestAt(cfg, hard, upto - 1);
    }
  }

  lemma VoteCallsLaw(cfg: Config, hard: Durable)
    requires cfg.Valid()
    ensures VoteCalls(cfg, hard, VoteRequests(cfg, hard, cfg.n))
  {
    VoteRequestAt(cfg, hard, cfg.n);
  }

  // ---- timeouts

  /** The node has entered the next term and voted for itself. */
  predicate Stood(cfg: Config, nd: Node, nd': Node) {
    && nd'.hard.term == nd.hard.term + 1 && nd'.hard.vote == cfg.id && nd'.hard.log == nd.hard.log
    && nd'.soft.role == Candidate && nd'.soft.votesReceived == 1
  }

  /** No index, no slot and no entry of the log has changed. */
  predicate SameWork(v: Volatile, v': Volatile) {
    && v'.commitIndex == v.commitIndex && v'.lastApplied == v.lastApplied
    && v'.nextIndex == v.nextIndex && v'.matchIndex == v.matchIndex && v'.slots == v.slots
  }

  /**
   A leader's timer sends heartbeats and a follower's, if it does not suspect its leader, does nothing.
   Every other timer is an election: the next term, a vote for oneself and a request for each peer.
   A term whose successor is no `int` ends that: the term then no longer changes.
   */
  lemma TimeoutLaw(cfg: Config, nd: Node, suspect: bool)
    requires cfg.Valid() && Shaped(cfg, nd.soft) && Fits(nd)
    ensures var o := Handle(cfg, nd, Timeout(suspect));
            var nd' := After(nd, o);
            && o.applied == [] && SameWork(nd.soft, nd'.soft)
            && (nd.soft.role == Leader ==> nd' == nd && Heartbeats(cfg, nd, o.sent))
            && (nd.soft.role == Follower && !suspect ==> nd' == nd && o.sent == [])
            && (nd.soft.role == Candidate || (nd.soft.role == Follower && suspect) ==>
                  && nd'.soft.role == Candidate
                  && nd'.soft.leaderId == (if nd.soft.role == Follower then NO_LEADER else nd.soft.leaderId)
                  && (nd.hard.term < INT_SPAN ==> Stood(cfg, nd, nd') && VoteCalls(cfg, nd'.hard, o.sent))
                  && (nd.hard.term >= INT_SPAN ==> nd'.hard == nd.hard && o.sent == []))
  {
    ApplyWritesShort(nd.hard, SetTerm(ToWord(nd.hard.term + 1)), SetVote(cfg.id));
    if nd.soft.role == Leader {
      BroadcastLaw(cfg, nd, true);
    } else {
      VoteCallsLaw(cfg, ApplyWrites(nd.hard, [SetTerm(ToWord(nd.hard.term + 1)), SetVote(cfg.id)]));
    }
  }

  // ---- votes

  /** The node has stepped down into this term, without a vote. */
  predicate SteppedInto(nd: Node, nd': Node, term: u32, leader: u32) {
    && nd'.hard == Durable(term, NO_VOTE, nd.hard.log)
    && nd'.soft.role == Follower && nd'.soft.leaderId == leader && nd'.soft.votesReceived == 0
    && SameWork(nd.soft, nd'.soft)
  }

  lemma SteppingDown(nd: Node, term: u32, leader: u32)
    ensures SteppedInto(nd, After(nd, StepDown(nd.soft, term, leader)), term, leader)
  {
    ApplyWritesShort(nd.hard, SetTerm(term), SetVote(NO_VOTE));
  }

  /** A leader as it sets out: it takes every peer to have its log and to have acknowledged nothing. */
  predicate SetsOut(cfg: Config, nd: Node, nd': Node) {
    && nd'.hard == nd.hard && nd'.soft.role == Leader && nd'.soft.leaderId == NO_LEADER
    && |nd'.soft.nextIndex| == |nd'.soft.matchIndex| == cfg.n
    && (forall k | 0 <= k < cfg.n :: nd'.soft.nextIndex[k] == |nd.hard.log| && nd'.soft.matchIndex[k] == -1)
    && nd'.soft.commitIndex == nd.soft.commitIndex && nd'.soft.lastApplied == nd.soft.lastApplied
    && nd'.soft.slots == nd.soft.slots
  }

  /** Each heartbeat of a new leader names the last entry of its log. */
  predicate NamesLast(cfg: Config, nd: Node, ps: seq<Packet>) {
    forall p | p in ps ::
      && p.msg.AppendReq? && ToInt(p.msg.prevLogIdx) == |nd.hard.log| - 1
      && p.msg.prevLogTerm == (if nd.hard.log == [] then 0 else nd.hard.log[|nd.hard.log| - 1].term)
  }

  /**
   A granted vote of the candidate's term is counted. The vote past half of the cluster makes a
   leader, whose first heartbeats start from the end of its log.
   */
  lemma VoteResLaw(cfg: Config, nd: Node, p: Packet)
    requires cfg.Valid() && Shaped(cfg, nd.soft) && Fits(nd) && Deliverable(cfg, p) && p.msg.VoteRes?
    ensures var m, src := p.msg, p.src;
            var o := Handle(cfg, nd, Receive(p));
            var nd' := After(nd, o);
            var counts := nd.soft.role == Candidate && m.term == nd.hard.term && m.granted;
            && o.applied == []
            && (!counts ==> o.sent == [])
            && (nd.soft.role == Candidate && m.term > nd.hard.term ==> SteppedInto(nd, nd', m.term, src))
            && (!(nd.soft.role == Candidate && m.term > nd.hard.term) && !counts ==> nd' == nd)
            && (counts ==> nd'.soft.votesReceived == nd.soft.votesReceived + 1)
            && (counts && 2 * (nd.soft.votesReceived + 1) > cfg.n ==>
                  SetsOut(cfg, nd, nd') && Heartbeats(cfg, nd', o.sent) && NamesLast(cfg, nd, o.sent))
            && (counts && 2 * (nd.soft.votesReceived + 1) <= cfg.n ==>
                  nd'.hard == nd.hard && nd'.soft.role == Candidate && SameWork(nd.soft, nd'.soft) && o.sent == [])
  {
    var m, src := p.msg, p.src;
    SteppingDown(nd, m.term, src);
    var o := HandleVoteRes(cfg, nd, src, m);
    if After(nd, o).soft.role == Leader && nd.soft.role == Candidate {
      BroadcastLaw(cfg, After(nd, o), true);
      forall p | p in o.sent
        ensures p.msg.AppendReq? && ToInt(p.msg.prevLogIdx) == |nd.hard.log| - 1
        ensures p.msg.prevLogTerm == (if nd.hard.log == [] then 0 else nd.hard.log[|nd.hard.log| - 1].term)
      {
        AppendRequestIs(cfg, After(nd, o), cfg.n, true, p);
        RequestCarries(cfg, After(nd, o), p.dst, true);
      }
    }
  }

  /** The voter's answer. */
  predicate VoteAnswer(cfg: Config, m: Message, ps: seq<Packet>, term: u32, granted: bool)
    requires m.VoteReq?
  {
    && |ps| == 1 && ps[0].src == cfg.id && ps[0].dst == m.candidateId && ps[0].msg.VoteRes?
    && ps[0].msg.term == term && ps[0].msg.granted == granted
  }

  /**
   A request of an earlier term is refused. Any other takes the node to its term, and is granted exactly
   if the node's vote in that term is free or the candidate's own, and the candidate's log is no worse.
   A stored term or vote that reads as a negative `int` ends the handler.
   */
  lemma VoteReqLaw(cfg: Config, nd: Node, p: Packet)
    requires cfg.Valid() && Shaped(cfg, nd.soft) && Fits(nd) && Deliverable(cfg, p) && p.msg.VoteReq?
    ensures var m, src := p.msg, p.src;
            var o := Handle(cfg, nd, Receive(p));
            var nd' := After(nd, o);
            var log := nd.hard.log;
            var lastTerm := if log == [] then 0 else log[|log| - 1].term;
            var free := m.term > nd.hard.term || nd.hard.vote == NO_VOTE || nd.hard.vote == m.candidateId;
            var noWorse := m.lastLogTerm > lastTerm || (m.lastLogTerm == lastTerm && m.lastLogIdx >= ToWord(|log| - 1));
            var mute := nd.hard.term >= INT_SPAN || (m.term == nd.hard.term && nd.hard.vote >= INT_SPAN);
            && o.applied == [] && SameWork(nd.soft, nd'.soft) && nd'.hard.log == log
            && (mute ==> nd' == nd && o.sent == [])
            && (!mute && m.term < nd.hard.term ==> nd' == nd && VoteAnswer(cfg, m, o.sent, nd.hard.term, false))
            && (!mute && m.term >= nd.hard.term ==>
                  && nd'.hard.term == m.term && VoteAnswer(cfg, m, o.sent, m.term, free && noWorse)
                  && (free && noWorse ==> nd'.hard.vote == m.candidateId)
                  && (!(free && noWorse) ==> nd'.hard.vote == if m.term > nd.hard.term then NO_VOTE else nd.hard.vote))
            && (!mute && m.term > nd.hard.term ==>
                  nd'.soft.role == Follower && nd'.soft.leaderId == src && nd'.soft.votesReceived == 0)
            && (m.term <= nd.hard.term ==> nd'.soft == nd.soft)
  {
    var m, src := p.msg, p.src;
    var down := if m.term > nd.hard.term then StepDownWrites(m.term) else [];
    ApplyWritesShort(nd.hard, SetTerm(m.term), SetVote(NO_VOTE));
    ApplyWritesConcat(nd.hard, down, [SetVote(m.candidateId)]);
    ApplyWritesShort(ApplyWrites(nd.hard, down), SetVote(m.candidateId), SetVote(m.candidateId));
  }

  // ---- AppendEntries

  /** The new entries follow on in this log: at its start, or behind an entry of the stated term. */
  predicate FollowsOn(log: seq<Entry>, m: Message)
    requires m.AppendReq?
  {
    var prev := ToInt(m.prevLogIdx);
    if prev < 0 then m.prevLogTerm == 0 else prev < |log| && log[prev].term == m.prevLogTerm
  }

  /** The last packet sent is the answer to the request; all others are for clients. */
  predicate AppendAnswer(cfg: Config, m: Message, ps: seq<Packet>, term: u32, upTo: int, success: bool)
    requires m.AppendReq?
  {
    && ps != []
    && (forall k | 0 <= k < |ps| - 1 :: ps[k].msg.ProcRes?)
    && var p := ps[|ps| - 1];
    && p.src == cfg.id && p.dst == m.leaderId && p.msg.AppendRes?
    && p.msg.term == term && p.msg.success == success && ToInt(p.msg.newMatchIndex) == upTo
  }

  /** The index of the last new entry, by the arithmetic of words and their casts. */
  function LastNew(m: Message): int
    requires m.AppendReq?
  {
    ToInt(ToWord(m.prevLogIdx + |m.entries|))
  }

  lemma {:induction false} ReachesCommit(cfg: Config, hard: Durable, v: Volatile)
    requires cfg.Valid()
    ensures var r := ApplyCommitted(cfg, hard, v);
            && r.soft == v.(lastApplied := Max(v.lastApplied, v.commitIndex), slots := r.soft.slots)
            && forall p | p in r.sent :: p.msg.ProcRes?
    decreases v.commitIndex - v.lastApplied
  {
    if v.lastApplied < v.commitIndex {
      ReachesCommit(cfg, hard, ApplyOne(cfg, hard, v).soft);
    }
  }

  /**
   A request of an earlier term is refused. Any other makes its sender the known leader and takes the
   node to its term, and is accepted exactly if its entries follow on in the log. What is accepted is
   merged, and moves the commit index to the smaller of the leader's and the last new entry's when the
   leader's is ahead; last_applied catches up with it. The answer carries the term the node came from.
   */
  lemma AppendReqLaw(cfg: Config, nd: Node, p: Packet)
    requires cfg.Valid() && Shaped(cfg, nd.soft) && Fits(nd) && Deliverable(cfg, p) && p.msg.AppendReq?
    ensures var m := p.msg;
            var o := Handle(cfg, nd, Receive(p));
            nd.hard.term >= INT_SPAN ==> After(nd, o) == nd && o.sent == [] && o.applied == []
    ensures ToInt(p.msg.prevLogIdx) + |p.msg.entries| < INT_SPAN ==>
              LastNew(p.msg) == ToInt(p.msg.prevLogIdx) + |p.msg.entries|
    ensures var m := p.msg;
            var o := Handle(cfg, nd, Receive(p));
            var nd' := After(nd, o);
            var last := LastNew(m);
            var down := m.term > nd.hard.term || nd.soft.role == Candidate;
            var accepted := m.term >= nd.hard.term && FollowsOn(nd.hard.log, m);
            nd.hard.term < INT_SPAN ==>
            && (m.term < nd.hard.term ==> nd' == nd && AppendAnswer(cfg, m, o.sent, nd.hard.term, 0, false))
            && (m.term >= nd.hard.term ==>
                  && nd'.hard.term == m.term && nd'.soft.leaderId == m.leaderId
                  && nd'.hard.vote == (if down then NO_VOTE else nd.hard.vote)
                  && nd'.soft.role == (if down then Follower else nd.soft.role)
                  && nd'.soft.votesReceived == (if down then 0 else nd.soft.votesReceived)
                  && AppendAnswer(cfg, m, o.sent, nd.hard.term, if accepted then last else 0, accepted))
            && nd'.soft.nextIndex == nd.soft.nextIndex && nd'.soft.matchIndex == nd.soft.matchIndex
            && nd'.soft.commitIndex
               == (if accepted && m.leaderCommit > nd.soft.commitIndex then Min(m.leaderCommit, last)
                   else nd.soft.commitIndex)
            && (if accepted then
                  && nd'.hard.log == Merged(nd.hard.log, ToInt(m.prevLogIdx) + 1, m.entries)
                  && nd'.soft.lastApplied
                     == if m.leaderCommit > nd.soft.commitIndex then Max(nd.soft.lastApplied, nd'.soft.commitIndex)
                        else nd.soft.lastApplied
                else nd'.hard.log == nd.hard.log && SameWork(nd.soft, nd'.soft) && o.applied == [])
  {
    var m := p.msg;
    LastNewIndex(m.prevLogIdx, if ToInt(m.prevLogIdx) + |m.entries| < INT_SPAN then |m.entries| else 0);
    if nd.hard.term < INT_SPAN && m.term >= nd.hard.term {
      var down := if StepsDownFor(nd, m) then StepDownWrites(m.term) else [];
      ApplyWritesShort(nd.hard, SetTerm(m.term), SetVote(NO_VOTE));
      assert PrevMatches(nd.hard.log, m) <==> FollowsOn(nd.hard.log, m);
      if PrevMatches(nd.hard.log, m) {
        AcceptedLaw(cfg, nd, m);
      }
    }
  }

  lemma {:induction false} AcceptedLaw(cfg: Config, nd: Node, m: Message)
    requires cfg.Valid() && m.AppendReq? && nd.hard.term < INT_SPAN && m.term >= nd.hard.term
    requires PrevMatches(nd.hard.log, m)
    ensures var o := HandleAppendReq(cfg, nd, m);
            var nd' := After(nd, o);
            var v := if StepsDownFor(nd, m) then SteppedDown(nd.soft, m.leaderId) else nd.soft.(leaderId := m.leaderId);
            && nd'.hard == MergedHard(nd, m)
            && nd'.soft == FollowerCommit(v, m).(slots := nd'.soft.slots, lastApplied := nd'.soft.lastApplied)
            && nd'.soft.lastApplied
               == (if m.leaderCommit > nd.soft.commitIndex then Max(nd.soft.lastApplied, nd'.soft.commitIndex)
                   else nd.soft.lastApplied)
            && AppendAnswer(cfg, m, o.sent, nd.hard.term, LastNew(m), true)
  {
    AcceptedHard(nd, m);
    var v := if StepsDownFor(nd, m) then SteppedDown(nd.soft, m.leaderId) else nd.soft.(leaderId := m.leaderId);
    ReachesCommit(cfg, MergedHard(nd, m), FollowerCommit(v, m));
  }

  /** Term and vote as the request leaves them, and the merged log. */
  function MergedHard(nd: Node, m: Message): Durable
    requires m.AppendReq? && PrevMatches(nd.hard.log, m)
  {
    var hard := if StepsDownFor(nd, m) then Durable(m.term, NO_VOTE, nd.hard.log) else nd.hard;
    hard.(log := Merged(nd.hard.log, ToInt(m.prevLogIdx) + 1, m.entries))
  }

  lemma {:induction false} AcceptedHard(nd: Node, m: Message)
    requires m.AppendReq? && PrevMatches(nd.hard.log, m)
    ensures var ws := if StepsDownFor(nd, m) then StepDownWrites(m.term) else [];
            var merge := MergeWrites(nd.hard.log, ToInt(m.prevLogIdx) + 1, m.entries);
            ApplyWrites(nd.hard, ws + merge) == MergedHard(nd, m)
  {
    var ws := if StepsDownFor(nd, m) then StepDownWrites(m.term) else [];
    ApplyWritesShort(nd.hard, SetTerm(m.term), SetVote(NO_VOTE));
    ApplyWritesConcat(nd.hard, ws, MergeWrites(nd.hard.log, ToInt(m.prevLogIdx) + 1, m.entries));
    MergeWritesMerge(ApplyWrites(nd.hard, ws), ToInt(m.prevLogIdx) + 1, m.entries);
  }

  /** The nodes that hold index k, as far as this node knows: itself, and its peers by their match_index. */
  function HoldersOf(cfg: Config, matchIndex: seq<int>, k: int): set<nat>
    requires |matchIndex| == cfg.n
  {
    set j: nat | j < cfg.n && (j == cfg.id || matchIndex[j] >= k)
  }

  /** An entry of the node's term that more than half of the cluster holds. */
  predicate HeldByMost(cfg: Config, hard: Durable, matchIndex: seq<int>, k: int)
    requires |matchIndex| == cfg.n
  {
    && 0 <= k < |hard.log| && hard.log[k].term == hard.term
    && 2 * |HoldersOf(cfg, matchIndex, k)| > cfg.n
  }

  /** c is the greatest such entry above the old commit index, or there is none and c is the old one. */
  predicate CommitsTo(cfg: Config, hard: Durable, matchIndex: seq<int>, commit: int, c: int)
    requires |matchIndex| == cfg.n
  {
    && commit <= c && (c == commit || HeldByMost(cfg, hard, matchIndex, c))
    && forall k | c < k < |hard.log| :: !HeldByMost(cfg, hard, matchIndex, k)
  }

  lemma CommittableIff(cfg: Config, hard: Durable, matchIndex: seq<int>, k: int)
    requires cfg.Valid() && |matchIndex| == cfg.n
    ensures Committable(cfg, hard, matchIndex, k) <==> HeldByMost(cfg, hard, matchIndex, k)
  {
    var q := HoldersAreASet(cfg, matchIndex, k, cfg.n);
    assert HoldersOf(cfg, matchIndex, k) == q + {cfg.id};
  }

  lemma CommitPointLaw(cfg: Config, hard: Durable, matchIndex: seq<int>, commit: int)
    requires cfg.Valid() && |matchIndex| == cfg.n
    ensures CommitsTo(cfg, hard, matchIndex, commit, CommitPoint(cfg, hard, matchIndex, commit, |hard.log|))
  {
    var c := CommitPoint(cfg, hard, matchIndex, commit, |hard.log|);
    if commit < |hard.log| {
      CommitPointIsGreatest(cfg, hard, matchIndex, commit, |hard.log|);
    }
    CommittableIff(cfg, hard, matchIndex, c);
    forall k | c < k < |hard.log|
      ensures !HeldByMost(cfg, hard, matchIndex, k)
    {
      CommittableIff(cfg, hard, matchIndex, k);
    }
  }

  /**
   A leader that hears a success of its term notes the index, moves next_index to the end of its log
   and commits by the rule; one that hears a rejection goes one back. A later term is stepped into, and
   everything else is dropped.
   */
  lemma AppendResLaw(cfg: Config, nd: Node, p: Packet)
    requires cfg.Valid() && Shaped(cfg, nd.soft) && Fits(nd) && Deliverable(cfg, p) && p.msg.AppendRes?
    ensures var m, src := p.msg, p.src;
            var o := Handle(cfg, nd, Receive(p));
            var nd' := After(nd, o);
            var heard := nd.soft.role == Leader && m.term == nd.hard.term;
            var next := nd.soft.nextIndex;
            && (m.term > nd.hard.term ==> SteppedInto(nd, nd', m.term, src))
            && (m.term <= nd.hard.term ==> nd'.hard == nd.hard)
            && (m.term <= nd.hard.term && !heard ==> nd' == nd)
            && (!(heard && m.success) ==> o.sent == [] && o.applied == [])
            && (heard && m.success ==>
                  && nd'.soft.matchIndex == nd.soft.matchIndex[src := ToInt(m.newMatchIndex)]
                  && nd'.soft.nextIndex == next[src := |nd.hard.log|]
                  && CommitsTo(cfg, nd.hard, nd'.soft.matchIndex, nd.soft.commitIndex, nd'.soft.commitIndex)
                  && nd'.soft.lastApplied == Max(nd.soft.lastApplied, nd'.soft.commitIndex)
                  && nd'.soft.role == Leader && nd'.soft.leaderId == nd.soft.leaderId)
            && (heard && !m.success ==>
                  nd' == Node(nd.hard, nd.soft.(nextIndex := next[src := if next[src] > 0 then next[src] - 1 else 0])))
  {
    var m, src := p.msg, p.src;
    SteppingDown(nd, m.term, src);
    if nd.soft.role == Leader && m.term == nd.hard.term && m.success {
      var mi := nd.soft.matchIndex[src := ToInt(m.newMatchIndex)];
      CommitPointLaw(cfg, nd.hard, mi, nd.soft.commitIndex);
      ReachesCommit(cfg, nd.hard, nd.soft.(matchIndex := mi, nextIndex := nd.soft.nextIndex[src := |nd.hard.log|],
                    commitIndex := CommitPoint(cfg, nd.hard, mi, nd.soft.commitIndex, |nd.hard.log|)));
    }
  }

  // ---- client requests

  /** The first slot not in use holds the request and the index of its entry; a full table is unchanged. */
  predicate Claims(slots: seq<Slot>, slots': seq<Slot>, m: Message, idx: int)
    requires m.ProcReq?
  {
    && |slots'| == |slots|
    && forall k | 0 <= k < |slots| ::
         if !slots[k].active && forall q | 0 <= q < k :: slots[q].active
         then slots'[k].clientId == m.clientId && slots'[k].cmdSeqno == m.cmdSeqno && slots'[k].logIdx == idx
              && slots'[k].active
         else slots'[k] == slots[k]
  }

  lemma ClaimLaw(v: Volatile, logLen: Len, m: Message)
    requires m.ProcReq?
    ensures var v' := Claim(v, logLen, m); v' == v.(slots := v'.slots) && Claims(v.slots, v'.slots, m, logLen)
  {
    FreeSlotFinds(v.slots, 0);
  }

  /** What a client is told by a node that does not lead. */
  predicate Refuses(cfg: Config, nd: Node, src: u32, m: Message, p: Packet)
    requires m.ProcReq?
  {
    && p.src == cfg.id && p.dst == src && p.msg.ProcRes? && !p.msg.success
    && p.msg.clientId == m.clientId && p.msg.cmdSeqno == m.cmdSeqno
    && p.msg.leaderHint == nd.soft.leaderId && p.msg.term == nd.hard.term
  }

  /**
   A leader appends the request to its log, keeps it in mind in a slot, and broadcasts what each peer is
   missing; any other node refuses it, with the leader it knows of.
   */
  lemma ProcReqLaw(cfg: Config, nd: Node, p: Packet)
    requires cfg.Valid() && Shaped(cfg, nd.soft) && Fits(nd) && Deliverable(cfg, p) && p.msg.ProcReq?
    ensures var m, src := p.msg, p.src;
            var o := Handle(cfg, nd, Receive(p));
            var nd' := After(nd, o);
            && o.applied == []
            && (nd.soft.role != Leader ==> nd' == nd && |o.sent| == 1 && Refuses(cfg, nd, src, m, o.sent[0]))
            && (nd.soft.role == Leader ==>
                  && nd'.hard.term == nd.hard.term && nd'.hard.vote == nd.hard.vote
                  && |nd'.hard.log| == |nd.hard.log| + 1 && nd.hard.log <= nd'.hard.log
                  && var e := nd'.hard.log[|nd.hard.log|];
                  && e.term == nd.hard.term && e.clientId == m.clientId && e.cmdSeqno == m.cmdSeqno && e.cmd == m.cmd
                  && nd'.soft == nd.soft.(slots := nd'.soft.slots)
                  && Claims(nd.soft.slots, nd'.soft.slots, m, |nd.hard.log|)
                  && Batches(cfg, nd', o.sent))
  {
    var m, src := p.msg, p.src;
    if nd.soft.role == Leader {
      var e := Entry(nd.hard.term, m.clientId, m.cmdSeqno, m.cmd);
      ApplyWritesShort(nd.hard, Append(e), Append(e));
      ClaimLaw(nd.soft, |nd.hard.log|, m);
      BroadcastLaw(cfg, After(nd, HandleProcReq(cfg, nd, src, m)), false);
    }
  }
}
