/** The handlers of one node as functions of its state and its input. */
module NodeSpec {
  import opened Words
  import opened Types

  // ---- reading the log

  function LogTerm(log: seq<Entry>, idx: int): u32 {
    if idx < 0 || idx >= |log| then 0 else log[idx].term
  }

  predicate UpToDate(log: seq<Entry>, reqLastIdx: u32, reqLastTerm: u32) {
    var myLastTerm := LogTerm(log, |log| - 1);
    if myLastTerm < reqLastTerm then true
    else if myLastTerm == reqLastTerm then ToWord(|log| - 1) <= reqLastIdx
    else false
  }

  // ---- shapes

  /** The arrays have the lengths they were allocated with. */
  predicate Shaped(cfg: Config, v: Volatile) {
    |v.nextIndex| == cfg.n && |v.matchIndex| == cfg.n && |v.slots| == MAX_OUTSTANDING_REQUESTS
  }

  /** No `int` that counts log entries has overflowed. */
  predicate Fits(nd: Node) {
    |nd.hard.log| < INT_SPAN
  }

  /** The state raft_create builds; next_index and match_index start out with arbitrary contents. */
  predicate Fresh(cfg: Config, v: Volatile) {
    && Shaped(cfg, v)
    && v.role == Follower && v.commitIndex == -1 && v.lastApplied == -1
    && v.leaderId == NO_LEADER && v.votesReceived == 0
    && forall k | 0 <= k < |v.slots| :: !v.slots[k].active
  }

  // ---- transitions between roles

  function Nothing(v: Volatile): Outcome {
    Outcome([], v, [], [])
  }

  function SteppedDown(v: Volatile, leaderId: u32): Volatile {
    v.(role := Follower, leaderId := leaderId, votesReceived := 0)
  }

  function StepDownWrites(term: u32): seq<Write> {
    [SetTerm(term), SetVote(NO_VOTE)]
  }

  function StepDown(v: Volatile, term: u32, leaderId: u32): Outcome {
    Outcome(StepDownWrites(term), SteppedDown(v, leaderId), [], [])
  }

  /** One RequestVote to every peer below `upto`. */
  function VoteRequests(cfg: Config, hard: Durable, upto: nat): (ps: seq<Packet>)
    requires cfg.Valid() && upto <= cfg.n
  {
    if upto == 0 then []
    else if upto - 1 == cfg.id then VoteRequests(cfg, hard, upto - 1)
    else VoteRequests(cfg, hard, upto - 1)
         + [Packet(cfg.id, upto - 1, VoteReq(hard.term, cfg.id, ToWord(|hard.log| - 1),
                                             LogTerm(hard.log, |hard.log| - 1)))]
  }

  /** How many entries fit after `next`: a heartbeat carries none. */
  function BatchSize(logLen: nat, next: Len, heartbeat: bool): (k: nat)
    ensures k <= MAX_APPEND_ENTRIES && (next <= logLen ==> next + k <= logLen)
  {
    if heartbeat || next > logLen then 0
    else if logLen - next > MAX_APPEND_ENTRIES then MAX_APPEND_ENTRIES
    else logLen - next
  }

  function Batch(log: seq<Entry>, next: Len, heartbeat: bool): seq<Entry> {
    var k := BatchSize(|log|, next, heartbeat);
    if k == 0 then [] else log[next..next + k]
  }

  function AppendRequest(cfg: Config, nd: Node, peer: nat, heartbeat: bool): Packet
    requires cfg.Valid() && Shaped(cfg, nd.soft) && peer < cfg.n
  {
    var next: int := nd.soft.nextIndex[peer];
    Packet(cfg.id, peer, AppendReq(nd.hard.term, cfg.id, Before(next), LogTerm(nd.hard.log, next - 1),
                                   nd.soft.commitIndex, Batch(nd.hard.log, next, heartbeat)))
  }

  /** One AppendEntries to every peer below `upto`. */
  function AppendRequests(cfg: Config, nd: Node, upto: nat, heartbeat: bool): (ps: seq<Packet>)
    requires cfg.Valid() && Shaped(cfg, nd.soft) && upto <= cfg.n
  {
    if upto == 0 then []
    else if upto - 1 == cfg.id then AppendRequests(cfg, nd, upto - 1, heartbeat)
    else AppendRequests(cfg, nd, upto - 1, heartbeat) + [AppendRequest(cfg, nd, upto - 1, heartbeat)]
  }

  /** start_election: a stored term that reads as a negative `int` stops it. */
  function StartElection(cfg: Config, nd: Node): Outcome
    requires cfg.Valid()
  {
    if ToInt(nd.hard.term) < 0 then Nothing(nd.soft)
    else
      var ws := [SetTerm(ToWord(nd.hard.term + 1)), SetVote(cfg.id)];
      Outcome(ws, nd.soft.(votesReceived := 1), VoteRequests(cfg, ApplyWrites(nd.hard, ws), cfg.n), [])
  }

  function BecomeCandidate(cfg: Config, nd: Node): Outcome
    requires cfg.Valid()
  {
    StartElection(cfg, nd.(soft := nd.soft.(role := Candidate, leaderId := NO_LEADER, votesReceived := 0)))
  }

  function LeaderState(cfg: Config, nd: Node): (v: Volatile)
    requires Fits(nd)
  {
    nd.soft.(role := Leader, leaderId := NO_LEADER,
             nextIndex := seq(cfg.n, i => |nd.hard.log|), matchIndex := seq(cfg.n, i => -1))
  }

  function BecomeLeader(cfg: Config, nd: Node): Outcome
    requires cfg.Valid() && Fits(nd) && Shaped(cfg, nd.soft)
  {
    var v := LeaderState(cfg, nd);
    Outcome([], v, AppendRequests(cfg, Node(nd.hard, v), cfg.n, true), [])
  }

  // ---- the state machine

  /** The first active slot waiting for this entry, or |slots|. */
  function FindSlot(slots: seq<Slot>, e: Entry, from: nat): (k: nat)
    requires from <= |slots|
    ensures from <= k <= |slots|
    decreases |slots| - from
  {
    if from == |slots| then from
    else if slots[from].active && slots[from].clientId == e.clientId && slots[from].cmdSeqno == e.cmdSeqno then from
    else FindSlot(slots, e, from + 1)
  }

  /** The first unused slot, or |slots|. */
  function FreeSlot(slots: seq<Slot>, from: nat): (k: nat)
    requires from <= |slots|
    ensures from <= k <= |slots|
    decreases |slots| - from
  {
    if from == |slots| then from
    else if !slots[from].active then from
    else FreeSlot(slots, from + 1)
  }

  function Reply(cfg: Config, term: u32, e: Entry): Packet
    requires cfg.Valid()
  {
    Packet(cfg.id, e.clientId, ProcRes(e.clientId, e.cmdSeqno, true, cfg.id, term))
  }

  datatype Progress = Progress(soft: Volatile, sent: seq<Packet>, applied: seq<Applied>)

  /** One turn of the apply loop: hand over the next entry and answer the client waiting for it. */
  function ApplyOne(cfg: Config, hard: Durable, v: Volatile): Progress
    requires cfg.Valid()
  {
    var k := v.lastApplied + 1;
    var w := v.(lastApplied := k);
    if k < 0 || k >= |hard.log| then Progress(w, [], [])
    else
      var e := hard.log[k];
      var s := FindSlot(v.slots, e, 0);
      if v.role == Leader && s < |v.slots| then
        Progress(w.(slots := v.slots[s := v.slots[s].(active := false)]), [Reply(cfg, hard.term, e)],
                 [Applied(k, e)])
      else Progress(w, [], [Applied(k, e)])
  }

  /** apply_to_state_machine. */
  function ApplyCommitted(cfg: Config, hard: Durable, v: Volatile): Progress
    requires cfg.Valid()
    decreases v.commitIndex - v.lastApplied
  {
    if v.lastApplied >= v.commitIndex then Progress(v, [], [])
    else
      var one := ApplyOne(cfg, hard, v);
      var rest := ApplyCommitted(cfg, hard, one.soft);
      Progress(rest.soft, one.sent + rest.sent, one.applied + rest.applied)
  }

  // ---- AppendEntries

  /** The writes of the merge loop, for entries that start at index `at`. */
  function MergeWrites(log: seq<Entry>, at: nat, entries: seq<Entry>): seq<Write>
    decreases |entries|
  {
    if entries == [] then []
    else if at < |log| then
      if log[at].term == entries[0].term then MergeWrites(log, at + 1, entries[1..])
      else [Truncate(at), Append(entries[0])] + MergeWrites(log[..at] + [entries[0]], at + 1, entries[1..])
    else [Append(entries[0])] + MergeWrites(log + [entries[0]], at + 1, entries[1..])
  }

  function AppendReply(cfg: Config, leaderId: u32, term: u32, newMatch: u32, success: bool): Packet
    requires cfg.Valid()
  {
    Packet(cfg.id, leaderId, AppendRes(term, newMatch, success))
  }

  predicate StepsDownFor(nd: Node, m: Message)
    requires m.AppendReq?
  {
    m.term > nd.hard.term || (m.term == nd.hard.term && nd.soft.role == Candidate)
  }

  /** The prev check: the log must hold an entry of the stated term just before the new ones. */
  predicate PrevMatches(log: seq<Entry>, m: Message)
    requires m.AppendReq?
  {
    ToInt(m.prevLogIdx) < |log| && LogTerm(log, ToInt(m.prevLogIdx)) == m.prevLogTerm
  }

  /** The commit update of a follower; it can move backwards. */
  function FollowerCommit(v: Volatile, m: Message): Volatile
    requires m.AppendReq?
  {
    var lastNew := ToInt(ToWord(m.prevLogIdx + |m.entries|));
    if m.leaderCommit > v.commitIndex then
      v.(commitIndex := if m.leaderCommit < lastNew then m.leaderCommit else lastNew)
    else v
  }

  /** The commit update of a follower and the applies it allows. */
  function Followed(cfg: Config, hard: Durable, v: Volatile, m: Message): Progress
    requires cfg.Valid() && m.AppendReq?
  {
    if m.leaderCommit > v.commitIndex then ApplyCommitted(cfg, hard, FollowerCommit(v, m)) else Progress(v, [], [])
  }

  function HandleAppendReq(cfg: Config, nd: Node, m: Message): Outcome
    requires cfg.Valid() && m.AppendReq?
  {
    var cur := nd.hard.term;
    if ToInt(cur) < 0 then Nothing(nd.soft)
    else if m.term < cur then
      Outcome([], nd.soft, [AppendReply(cfg, m.leaderId, cur, 0, false)], [])
    else
      var down := StepsDownFor(nd, m);
      var ws := if down then StepDownWrites(m.term) else [];
      var v := if down then SteppedDown(nd.soft, m.leaderId) else nd.soft.(leaderId := m.leaderId);
      if !PrevMatches(nd.hard.log, m) then
        Outcome(ws, v, [AppendReply(cfg, m.leaderId, cur, 0, false)], [])
      else
        var merge := MergeWrites(nd.hard.log, ToInt(m.prevLogIdx) + 1, m.entries);
        var hard := ApplyWrites(nd.hard, ws + merge);
        var p := Followed(cfg, hard, v, m);
        var ack := AppendReply(cfg, m.leaderId, cur, ToWord(m.prevLogIdx + |m.entries|), true);
        Outcome(ws + merge, p.soft, p.sent + [ack], p.applied)
  }

  /** How many peers below `upto` are known to hold index k. */
  function Holders(cfg: Config, matchIndex: seq<int>, k: int, upto: nat): (c: nat)
    requires upto <= |matchIndex|
    ensures c <= upto
  {
    if upto == 0 then 0
    else Holders(cfg, matchIndex, k, upto - 1)
         + if upto - 1 != cfg.id && matchIndex[upto - 1] >= k then 1 else 0
  }

  /** The commit rule of the leader: an entry of its own term held by a strict majority. */
  predicate Committable(cfg: Config, hard: Durable, matchIndex: seq<int>, k: int)
    requires |matchIndex| == cfg.n
  {
    && 0 <= k < |hard.log|
    && hard.log[k].term == hard.term
    && 1 + Holders(cfg, matchIndex, k, cfg.n) > cfg.n / 2
  }

  /** The greatest committable index below `hi`, or `commit` when there is none above it. */
  function CommitPoint(cfg: Config, hard: Durable, matchIndex: seq<int>, commit: int, hi: int): (c: int)
    requires |matchIndex| == cfg.n
    decreases hi - commit
  {
    if hi <= commit + 1 then commit
    else if Committable(cfg, hard, matchIndex, hi - 1) then hi - 1
    else CommitPoint(cfg, hard, matchIndex, commit, hi - 1)
  }

  function HandleAppendRes(cfg: Config, nd: Node, src: nat, m: Message): Outcome
    requires cfg.Valid() && Shaped(cfg, nd.soft) && Fits(nd) && m.AppendRes? && src < cfg.n
  {
    var v := nd.soft;
    if m.term > nd.hard.term then StepDown(v, m.term, src)
    else if v.role != Leader || m.term < nd.hard.term then Nothing(v)
    else if m.success then
      var mi := v.matchIndex[src := ToInt(m.newMatchIndex)];
      var c := CommitPoint(cfg, nd.hard, mi, v.commitIndex, |nd.hard.log|);
      var p := ApplyCommitted(cfg, nd.hard, v.(matchIndex := mi, nextIndex := v.nextIndex[src := |nd.hard.log|],
                                               commitIndex := c));
      Outcome([], p.soft, p.sent, p.applied)
    else if v.nextIndex[src] > 0 then
      Nothing(v.(nextIndex := v.nextIndex[src := v.nextIndex[src] - 1]))
    else Nothing(v)
  }

  // ---- RequestVote

  function HandleVoteReq(cfg: Config, nd: Node, src: u32, m: Message): Outcome
    requires cfg.Valid() && m.VoteReq?
  {
    var cur := nd.hard.term;
    if ToInt(cur) < 0 then Nothing(nd.soft)
    else if m.term < cur then
      Outcome([], nd.soft, [Packet(cfg.id, m.candidateId, VoteRes(cur, false))], [])
    else
      var down := m.term > cur;
      var ws := if down then StepDownWrites(m.term) else [];
      var v := if down then SteppedDown(nd.soft, src) else nd.soft;
      var vote := if down then NO_VOTE else nd.hard.vote;
      if ToInt(vote) < 0 then Outcome(ws, v, [], [])
      else if (vote != NO_VOTE && vote != m.candidateId) || !UpToDate(nd.hard.log, m.lastLogIdx, m.lastLogTerm) then
        Outcome(ws, v, [Packet(cfg.id, m.candidateId, VoteRes(m.term, false))], [])
      else
        Outcome(ws + [SetVote(m.candidateId)], v, [Packet(cfg.id, m.candidateId, VoteRes(m.term, true))], [])
  }

  function HandleVoteRes(cfg: Config, nd: Node, src: u32, m: Message): Outcome
    requires cfg.Valid() && Shaped(cfg, nd.soft) && Fits(nd) && m.VoteRes?
  {
    if nd.soft.role != Candidate then Nothing(nd.soft)
    else if m.term > nd.hard.term then StepDown(nd.soft, m.term, src)
    else if m.term < nd.hard.term || !m.granted then Nothing(nd.soft)
    else
      var v := nd.soft.(votesReceived := nd.soft.votesReceived + 1);
      if v.votesReceived > cfg.n / 2 then BecomeLeader(cfg, nd.(soft := v)) else Nothing(v)
  }

  // ---- client requests

  function Claim(v: Volatile, logLen: Len, m: Message): Volatile
    requires m.ProcReq?
  {
    var k := FreeSlot(v.slots, 0);
    if k < |v.slots| then v.(slots := v.slots[k := Slot(m.clientId, m.cmdSeqno, logLen, true)]) else v
  }

  function HandleProcReq(cfg: Config, nd: Node, src: u32, m: Message): Outcome
    requires cfg.Valid() && Shaped(cfg, nd.soft) && Fits(nd) && m.ProcReq?
  {
    if nd.soft.role != Leader then
      Outcome([], nd.soft,
              [Packet(cfg.id, src, ProcRes(m.clientId, m.cmdSeqno, false, nd.soft.leaderId, nd.hard.term))], [])
    else
      var ws := [Append(Entry(nd.hard.term, m.clientId, m.cmdSeqno, m.cmd))];
      var v := Claim(nd.soft, |nd.hard.log|, m);
      Outcome(ws, v, AppendRequests(cfg, Node(ApplyWrites(nd.hard, ws), v), cfg.n, false), [])
  }

  // ---- dispatch

  /** The failure detector of a follower may or may not suspect the leader when its timer fires. */
  datatype Input = Receive(p: Packet) | Timeout(suspect: bool)

  /** AppendEntries acks index arrays by sender, so their sender must be a node. */
  predicate Deliverable(cfg: Config, p: Packet) {
    p.dst == cfg.id && (p.msg.AppendRes? ==> p.src < cfg.n)
  }

  function Handle(cfg: Config, nd: Node, input: Input): Outcome
    requires cfg.Valid() && Shaped(cfg, nd.soft) && Fits(nd)
    requires input.Receive? ==> Deliverable(cfg, input.p)
  {
    match input
    case Receive(p) =>
      (match p.msg
       case AppendReq(_, _, _, _, _, _) => HandleAppendReq(cfg, nd, p.msg)
       case AppendRes(_, _, _) => HandleAppendRes(cfg, nd, p.src, p.msg)
       case VoteReq(_, _, _, _) => HandleVoteReq(cfg, nd, p.src, p.msg)
       case VoteRes(_, _) => HandleVoteRes(cfg, nd, p.src, p.msg)
       case ProcReq(_, _, _) => HandleProcReq(cfg, nd, p.src, p.msg)
       case ProcRes(_, _, _, _, _) => Nothing(nd.soft))
    case Timeout(suspect) =>
      (match nd.soft.role
       case Follower => if suspect then BecomeCandidate(cfg, nd) else Nothing(nd.soft)
       case Candidate => StartElection(cfg, nd)
       case Leader => Outcome([], nd.soft, AppendRequests(cfg, nd, cfg.n, true), []))
  }

  /** The node once the handler has run to its end. */
  function After(nd: Node, o: Outcome): Node {
    Node(ApplyWrites(nd.hard, o.writes), o.soft)
  }
}
