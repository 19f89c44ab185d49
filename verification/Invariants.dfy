/**
 The history a run leaves behind and the invariants that tie every reachable state to it.
 The history is a proof device: the system neither stores nor reads it.
 */
module Invariants {
  import opened Words
  import opened Types
  import opened NodeSpec
  import opened NodeFacts
  import opened Cluster

  /** The leader of a term, the quorum that elected it, its log when elected and as far as it has grown since. */
  datatype Reign = Reign(node: nat, voters: set<nat>, base: seq<Entry>, log: seq<Entry>)
  datatype Grant = Grant(term: u32, voter: nat, candidate: nat)
  datatype Ack = Ack(term: u32, node: nat, upTo: int)
  datatype History = History(reigns: map<u32, Reign>, grants: set<Grant>, acks: set<Ack>, counted: seq<set<nat>>)

  // ---- logs

  /** The log agrees with the reference through index k. */
  predicate Has(log: seq<Entry>, ref: seq<Entry>, k: int) {
    0 <= k < |log| && k < |ref| && log[..k + 1] == ref[..k + 1]
  }

  /** The entry at k was created by the leader of its term, at the same index, on the same prefix. */
  predicate Rooted(h: History, log: seq<Entry>, k: int)
    requires 0 <= k < |log|
  {
    var t := log[k].term;
    t >= 1 && t in h.reigns && Has(h.reigns[t].log, log, k)
  }

  predicate LogOK(h: History, log: seq<Entry>) {
    forall k | 0 <= k < |log| :: Rooted(h, log, k)
  }

  predicate TermsUpTo(log: seq<Entry>, term: u32) {
    forall k | 0 <= k < |log| :: log[k].term <= term
  }

  // ---- quorums

  predicate Majority(n: nat, q: set<nat>) {
    (forall i | i in q :: i < n) && |q| > n / 2
  }

  /** Node q stored the log of term T's leader through k, either as that leader or by acknowledging it. */
  ghost predicate Acked(h: History, term: u32, q: nat, k: int) {
    && term in h.reigns
    && ((h.reigns[term].node == q && k < |h.reigns[term].log|)
        || exists m :: m >= k && Ack(term, q, m) in h.acks)
  }

  /** Index k of the leader of this term holds an entry the leader created itself. */
  predicate Own(h: History, term: u32, k: int) {
    term in h.reigns && 0 <= k < |h.reigns[term].log| && h.reigns[term].log[k].term == term
  }

  ghost predicate ChosenBy(n: nat, h: History, term: u32, k: int, q: set<nat>) {
    Majority(n, q) && forall i | i in q :: Acked(h, term, i, k)
  }

  /** The commit rule: an entry of the leader's own term, stored by a majority. */
  ghost predicate Chosen(n: nat, h: History, term: u32, k: int) {
    Own(h, term, k) && exists q :: ChosenBy(n, h, term, k, q)
  }

  ghost predicate DeadBy(nodes: seq<Node>, h: History, term: u32, k: int, q: set<nat>) {
    Majority(|nodes|, q) && forall i | i in q :: nodes[i].hard.term > term && !Acked(h, term, i, k)
  }

  /** A majority has left the term without storing index k: the entry can no longer be chosen. */
  ghost predicate Dead(nodes: seq<Node>, h: History, term: u32, k: int) {
    exists q :: DeadBy(nodes, h, term, k, q)
  }

  ghost predicate Kept(nodes: seq<Node>, h: History, log: seq<Entry>, term: u32, k: int)
    requires term in h.reigns
  {
    Has(log, h.reigns[term].log, k) || Dead(nodes, h, term, k)
  }

  // ---- commitment

  ghost predicate CommittedVia(n: nat, h: History, term: u32, log: seq<Entry>, c: int, t: u32, k: int) {
    1 <= t <= term && Chosen(n, h, t, k) && c <= k && Has(log, h.reigns[t].log, c)
  }

  /** The log through c is a prefix of something chosen no later than `term`. */
  ghost predicate Committed(n: nat, h: History, term: u32, log: seq<Entry>, c: int) {
    c == -1 || exists t: u32, k :: CommittedVia(n, h, term, log, c, t, k)
  }

  ghost predicate EventVia(n: nat, h: History, e: Event, t: u32, k: int) {
    Chosen(n, h, t, k) && 0 <= e.index <= k && h.reigns[t].log[e.index] == e.entry
  }

  /** The applied entry is a chosen one. */
  ghost predicate EventOK(n: nat, h: History, e: Event) {
    exists t: u32, k :: EventVia(n, h, e, t, k)
  }

  ghost predicate ReplyVia(n: nat, h: History, p: Packet, e: Event) {
    EventOK(n, h, e) && AnswersEntry(p, e.entry)
  }

  /** The entry that a success reply answers is a chosen one. */
  ghost predicate ReplyOK(n: nat, h: History, p: Packet) {
    exists e :: ReplyVia(n, h, p, e)
  }

  // ---- one node

  predicate VotesOK(h: History, i: nat, hard: Durable) {
    && (forall g | g in h.grants && g.voter == i ::
          && g.term <= hard.term
          && (g.term == hard.term ==>
                if g.term in h.reigns then i in h.reigns[g.term].voters ==> hard.vote == h.reigns[g.term].node
                else hard.vote == g.candidate))
    && (forall g | g in h.grants && g.candidate == i :: g.term <= hard.term)
  }

  predicate AcksOK(h: History, i: nat, hard: Durable) {
    forall a | a in h.acks && a.node == i ::
      && a.term <= hard.term
      && (a.term == hard.term && a.upTo >= 0 ==>
            a.term in h.reigns && Has(hard.log, h.reigns[a.term].log, a.upTo))
  }

  predicate RoleOK(n: nat, h: History, i: nat, nd: Node)
    requires Shaped(Cfg(n, i), nd.soft) && |h.counted| == n && i < n
  {
    var t := nd.hard.term;
    && (t in h.reigns && h.reigns[t].node == i ==>
          nd.soft.role != Candidate && nd.hard.log == h.reigns[t].log)
    && (nd.soft.role == Candidate ==>
          && nd.hard.vote == i && Grant(t, i, i) in h.grants
          && nd.soft.votesReceived == |h.counted[i]|
          && forall v | v in h.counted[i] :: v < n && Grant(t, v, i) in h.grants)
    && (nd.soft.role == Leader ==>
          && t in h.reigns && h.reigns[t].node == i
          && (forall j | 0 <= j < n :: nd.soft.nextIndex[j] <= |nd.hard.log|)
          && forall j | 0 <= j < n && j != i && nd.soft.matchIndex[j] >= 0 ::
               Ack(t, j, nd.soft.matchIndex[j]) in h.acks)
  }

  ghost predicate NodeOK(n: nat, h: History, i: nat, nd: Node) {
    && |h.counted| == n && i < n
    && Shaped(Cfg(n, i), nd.soft) && Fits(nd) && nd.hard.term < INT_SPAN
    && LogOK(h, nd.hard.log) && TermsUpTo(nd.hard.log, nd.hard.term)
    && VotesOK(h, i, nd.hard)
    && AcksOK(h, i, nd.hard)
    && RoleOK(n, h, i, nd)
    && Committed(n, h, nd.hard.term, nd.hard.log, nd.soft.commitIndex)
    && Committed(n, h, nd.hard.term, nd.hard.log, nd.soft.lastApplied)
  }

  // ---- the history

  predicate ReignOK(n: nat, h: History, t: u32)
    requires t in h.reigns
  {
    var r := h.reigns[t];
    && t >= 1 && r.node < n && Majority(n, r.voters)
    && (forall q | q in r.voters :: Grant(t, q, r.node) in h.grants)
    && r.base <= r.log && |r.log| < INT_SPAN && LogOK(h, r.log) && TermsUpTo(r.log, t)
  }

  predicate GrantsOK(n: nat, h: History) {
    && (forall g | g in h.grants :: g.term >= 1 && g.voter < n && g.candidate < n)
    && (forall g | g in h.grants && g.term in h.reigns && g.voter in h.reigns[g.term].voters ::
          g.candidate == h.reigns[g.term].node)
    && (forall g, g' {:trigger SameBallot(g, g')} | g in h.grants && g' in h.grants && SameBallot(g, g')
                       && g.term !in h.reigns :: g.candidate == g'.candidate)
  }

  predicate SameBallot(g: Grant, g': Grant) {
    g.term == g'.term && g.voter == g'.voter
  }

  predicate HistOK(n: nat, h: History) {
    && |h.counted| == n
    && (forall t {:trigger ReignOK(n, h, t)} | t in h.reigns :: ReignOK(n, h, t))
    && GrantsOK(n, h)
    && forall a | a in h.acks ::
         && a.term in h.reigns && a.node < n && a.node != h.reigns[a.term].node
         && -1 <= a.upTo < |h.reigns[a.term].log|
  }

  // ---- completeness

  /** Every later leader had, when elected, what an earlier one may still commit. */
  ghost predicate LeadersKeep(nodes: seq<Node>, h: History) {
    forall t: u32, t': u32, k | t' in h.reigns && t < t' && Own(h, t, k) :: Kept(nodes, h, h.reigns[t'].base, t, k)
  }

  /** Every node that stored an entry still has it, unless the entry is dead. */
  ghost predicate NodesKeep(nodes: seq<Node>, h: History) {
    forall q, t: u32, k | 0 <= q < |nodes| && Own(h, t, k) && Acked(h, t, q, k) ::
      Kept(nodes, h, nodes[q].hard.log, t, k)
  }

  /** A candidate has whatever its voters had stored in earlier terms. */
  ghost predicate CandidatesKeep(nodes: seq<Node>, h: History) {
    forall g, t: u32, k | g in h.grants && CandidateAt(nodes, g.candidate, g.term) && t < g.term && Own(h, t, k)
                     && Acked(h, t, g.voter, k) ::
      Kept(nodes, h, nodes[g.candidate].hard.log, t, k)
  }

  predicate CandidateAt(nodes: seq<Node>, c: nat, t: u32) {
    c < |nodes| && nodes[c].soft.role == Candidate && nodes[c].hard.term == t
  }

  // ---- packets

  ghost predicate AppendReqOK(n: nat, h: History, p: Packet)
    requires p.msg.AppendReq?
  {
    var m := p.msg;
    var prev := ToInt(m.prevLogIdx);
    && m.term in h.reigns && h.reigns[m.term].node == p.src == m.leaderId && p.dst != p.src
    && var log := h.reigns[m.term].log;
    && prev + 1 + |m.entries| <= |log|
    && m.entries == log[prev + 1..prev + 1 + |m.entries|]
    && m.prevLogTerm == LogTerm(log, prev)
    && Committed(n, h, m.term, log, m.leaderCommit)
  }

  predicate AppendResOK(n: nat, h: History, nodes: seq<Node>, p: Packet)
    requires p.msg.AppendRes?
  {
    var m := p.msg;
    && p.src < n
    && (m.success && p.dst < |nodes| && m.term >= nodes[p.dst].hard.term ==>
          && p.dst != p.src && m.term in h.reigns && h.reigns[m.term].node == p.dst
          && (ToInt(m.newMatchIndex) >= 0 ==> Ack(m.term, p.src, ToInt(m.newMatchIndex)) in h.acks))
  }

  predicate VoteReqOK(n: nat, h: History, nodes: seq<Node>, p: Packet)
    requires p.msg.VoteReq?
  {
    var m := p.msg;
    && p.src == m.candidateId && p.src != p.dst && p.src < |nodes| && m.term >= 1
    && nodes[p.src].hard.term >= m.term
    && Grant(m.term, p.dst, p.src) !in h.grants
    && (CandidateAt(nodes, p.src, m.term) ==>
          var log := nodes[p.src].hard.log;
          m.lastLogIdx == ToWord(|log| - 1) && m.lastLogTerm == LogTerm(log, |log| - 1))
  }

  predicate VoteResOK(n: nat, h: History, nodes: seq<Node>, p: Packet)
    requires p.msg.VoteRes? && |h.counted| == |nodes|
  {
    p.msg.granted ==>
      && p.src != p.dst && Grant(p.msg.term, p.src, p.dst) in h.grants
      && (CandidateAt(nodes, p.dst, p.msg.term) ==> p.src !in h.counted[p.dst])
  }

  ghost predicate PacketOK(n: nat, h: History, nodes: seq<Node>, p: Packet)
    requires |h.counted| == |nodes|
  {
    match p.msg
    case AppendReq(_, _, _, _, _, _) => AppendReqOK(n, h, p)
    case AppendRes(_, _, _) => AppendResOK(n, h, nodes, p)
    case VoteReq(_, _, _, _) => VoteReqOK(n, h, nodes, p)
    case VoteRes(_, _) => VoteResOK(n, h, nodes, p)
    case ProcReq(_, _, _) => true
    case ProcRes(_, _, _, _, _) => IsSuccess(p) ==> ReplyOK(n, h, p)
  }

  /** Packets that matter for counting votes are in flight at most once. */
  predicate Countable(p: Packet) {
    p.msg.VoteReq? || (p.msg.VoteRes? && p.msg.granted)
  }

  predicate Single(net: multiset<Packet>) {
    && (forall p | p in net && Countable(p) :: net[p] == 1)
    && (forall p, p' {:trigger SameRequest(p, p')} | p in net && p' in net && SameRequest(p, p') :: p == p')
  }

  predicate SameRequest(p: Packet, p': Packet) {
    && p.msg.VoteReq? && p'.msg.VoteReq?
    && p.src == p'.src && p.dst == p'.dst && p.msg.term == p'.msg.term
  }

  ghost predicate NetOK(n: nat, h: History, s: System)
    requires |h.counted| == |s.nodes|
  {
    Single(s.net) && forall p {:trigger PacketOK(n, h, s.nodes, p)} | p in s.net :: PacketOK(n, h, s.nodes, p)
  }

  ghost predicate TraceOK(n: nat, h: History, trace: seq<Event>) {
    forall e | e in trace :: EventOK(n, h, e)
  }

  ghost predicate Inv(n: nat, s: System, h: History) {
    && Sized(n, s)
    && HistOK(n, h)
    && (forall i {:trigger NodeOK(n, h, i, s.nodes[i])} | 0 <= i < n :: NodeOK(n, h, i, s.nodes[i]))
    && LeadersKeep(s.nodes, h) && NodesKeep(s.nodes, h) && CandidatesKeep(s.nodes, h)
    && NetOK(n, h, s)
    && TraceOK(n, h, s.trace)
  }

  // ---- how histories grow

  predicate Extends(h: History, h': History) {
    && (forall t | t in h.reigns :: t in h'.reigns && h'.reigns[t].node == h.reigns[t].node
                                    && h'.reigns[t].voters == h.reigns[t].voters
                                    && h'.reigns[t].base == h.reigns[t].base
                                    && h.reigns[t].log <= h'.reigns[t].log)
    && h.grants <= h'.grants && h.acks <= h'.acks
  }
}
