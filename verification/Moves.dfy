/**
 Small moves of the system, each of which keeps the invariant. Every handler, and every prefix of
 a handler's durable writes, is a sequence of these.
 */
module Moves {
  import opened Words
  import opened Types
  import opened NodeFacts
  import opened Cluster
  import opened Invariants
  import opened Growth

  function Put(s: System, i: nat, nd: Node): System
    requires i < |s.nodes|
  {
    s.(nodes := s.nodes[i := nd])
  }

  /** Node i goes on without a new vote on record, a new log entry or a new candidacy. */
  ghost predicate Local(n: nat, s: System, h: History, i: nat, nd: Node)
    requires i < |s.nodes|
  {
    var was := s.nodes[i];
    && NodeOK(n, h, i, nd)
    && nd.hard.log == was.hard.log
    && nd.hard.term >= was.hard.term
    && (nd.soft.role == Candidate ==> was.soft.role == Candidate && nd.hard.term == was.hard.term)
  }

  /** The new nodes have the same logs, no lower terms and no new candidates. */
  predicate Steady(nodes: seq<Node>, nodes': seq<Node>) {
    && |nodes| == |nodes'|
    && forall i | 0 <= i < |nodes| ::
         && nodes[i].hard.term <= nodes'[i].hard.term
         && nodes[i].hard.log == nodes'[i].hard.log
         && (nodes'[i].soft.role == Candidate ==>
               nodes[i].soft.role == Candidate && nodes[i].hard.term == nodes'[i].hard.term)
  }

  lemma KeptFrame(nodes: seq<Node>, h: History, nodes': seq<Node>, log: seq<Entry>, t: u32, k: int)
    requires Steady(nodes, nodes') && t in h.reigns
    requires Kept(nodes, h, log, t, k)
    ensures Kept(nodes', h, log, t, k)
  {
    if Dead(nodes, h, t, k) {
      DeadMono(nodes, h, nodes', h, t, k);
    }
  }

  lemma KeepFrame(nodes: seq<Node>, h: History, nodes': seq<Node>)
    requires Steady(nodes, nodes')
    requires LeadersKeep(nodes, h) && NodesKeep(nodes, h) && CandidatesKeep(nodes, h)
    ensures LeadersKeep(nodes', h) && NodesKeep(nodes', h) && CandidatesKeep(nodes', h)
  {
    forall t: u32, t': u32, k | t' in h.reigns && t < t' && Own(h, t, k)
      ensures Kept(nodes', h, h.reigns[t'].base, t, k)
    {
      KeptFrame(nodes, h, nodes', h.reigns[t'].base, t, k);
    }
    forall q, t: u32, k | 0 <= q < |nodes| && Own(h, t, k) && Acked(h, t, q, k)
      ensures Kept(nodes', h, nodes'[q].hard.log, t, k)
    {
      KeptFrame(nodes, h, nodes', nodes[q].hard.log, t, k);
    }
    forall g, t: u32, k | g in h.grants && CandidateAt(nodes', g.candidate, g.term) && t < g.term && Own(h, t, k)
                          && Acked(h, t, g.voter, k)
      ensures Kept(nodes', h, nodes'[g.candidate].hard.log, t, k)
    {
      assert CandidateAt(nodes, g.candidate, g.term);
      KeptFrame(nodes, h, nodes', nodes[g.candidate].hard.log, t, k);
    }
  }

  lemma PacketFrame(n: nat, h: History, nodes: seq<Node>, nodes': seq<Node>, p: Packet)
    requires Steady(nodes, nodes') && |h.counted| == |nodes| && PacketOK(n, h, nodes, p)
    ensures PacketOK(n, h, nodes', p)
  {
  }

  lemma LocalMove(n: nat, s: System, h: History, i: nat, nd: Node)
    requires Inv(n, s, h) && i < n && Local(n, s, h, i, nd)
    ensures Inv(n, Put(s, i, nd), h)
  {
    var s' := Put(s, i, nd);
    assert Steady(s.nodes, s'.nodes);
    KeepFrame(s.nodes, h, s'.nodes);
    forall p | p in s'.net
      ensures PacketOK(n, h, s'.nodes, p)
    {
      PacketFrame(n, h, s.nodes, s'.nodes, p);
    }
    forall j | 0 <= j < n
      ensures NodeOK(n, h, j, s'.nodes[j])
    {
    }
  }

  /** Losing packets and forgetting events keeps the invariant. */
  lemma FewerPackets(n: nat, s: System, h: History, net: multiset<Packet>, trace: seq<Event>)
    requires Inv(n, s, h) && net <= s.net && trace <= s.trace
    ensures Inv(n, s.(net := net, trace := trace), h)
  {
    forall p | p in net
      ensures PacketOK(n, h, s.nodes, p) && (Countable(p) ==> net[p] == 1)
    {
      assert p in s.net;
    }
  }

  /** Sending packets that are true of the state and carry no vote. */
  lemma SendPlain(n: nat, s: System, h: History, ps: seq<Packet>)
    requires Inv(n, s, h)
    requires forall p | p in ps :: PacketOK(n, h, s.nodes, p) && !Countable(p)
    ensures Inv(n, s.(net := s.net + multiset(ps)), h)
  {
    var net := s.net + multiset(ps);
    forall p | p in net
      ensures PacketOK(n, h, s.nodes, p) && (Countable(p) ==> p in s.net && net[p] == s.net[p])
    {
      if p in multiset(ps) {
        assert p in ps;
      }
    }
  }

  lemma LogEvents(n: nat, s: System, h: History, es: seq<Event>)
    requires Inv(n, s, h) && TraceOK(n, h, es)
    ensures Inv(n, s.(trace := s.trace + es), h)
  {
  }

  // ---- moves that extend the history

  lemma NodeGrows(n: nat, h: History, h': History, j: nat, nd: Node)
    requires NodeOK(n, h, j, nd) && Extends(h, h') && |h'.counted| == n
    requires VotesOK(h', j, nd.hard) && AcksOK(h', j, nd.hard) && RoleOK(n, h', j, nd)
    ensures NodeOK(n, h', j, nd)
  {
    LogOKMono(h, h', nd.hard.log);
    CommittedIsPresent(n, h, nd.hard.term, nd.hard.log, nd.soft.commitIndex);
    CommittedIsPresent(n, h, nd.hard.term, nd.hard.log, nd.soft.lastApplied);
    CommittedMono(n, h, h', nd.hard.term, nd.hard.term, nd.hard.log, nd.hard.log, nd.soft.commitIndex);
    CommittedMono(n, h, h', nd.hard.term, nd.hard.term, nd.hard.log, nd.hard.log, nd.soft.lastApplied);
  }

  lemma CommittedIsPresent(n: nat, h: History, t: u32, log: seq<Entry>, c: int)
    requires Committed(n, h, t, log, c)
    ensures -1 <= c < |log| && (c >= 0 ==> Has(log, log, c))
  {
  }

  lemma AppendReqGrows(n: nat, h: History, h': History, p: Packet)
    requires p.msg.AppendReq? && AppendReqOK(n, h, p) && Extends(h, h')
    ensures AppendReqOK(n, h', p)
  {
    var m := p.msg;
    var log, log' := h.reigns[m.term].log, h'.reigns[m.term].log;
    var prev := ToInt(m.prevLogIdx);
    assert log[prev + 1..prev + 1 + |m.entries|] == log'[prev + 1..prev + 1 + |m.entries|];
    CommittedIsPresent(n, h, m.term, log, m.leaderCommit);
    if m.leaderCommit >= 0 {
      HasOwnPrefix(log, log', m.leaderCommit);
    }
    CommittedMono(n, h, h', m.term, m.term, log, log', m.leaderCommit);
  }

  lemma PacketGrows(n: nat, h: History, h': History, nodes: seq<Node>, p: Packet)
    requires |h.counted| == |h'.counted| == |nodes| && PacketOK(n, h, nodes, p) && Extends(h, h')
    requires p.msg.VoteRes? ==> h'.counted == h.counted
    requires p.msg.VoteReq? ==> Grant(p.msg.term, p.dst, p.src) !in h'.grants
    ensures PacketOK(n, h', nodes, p)
  {
    if p.msg.AppendReq? {
      AppendReqGrows(n, h, h', p);
    } else if IsSuccess(p) {
      ReplyGrows(n, h, h', p);
    }
  }

  lemma EventGrows(n: nat, h: History, h': History, e: Event)
    requires EventOK(n, h, e) && Extends(h, h')
    ensures EventOK(n, h', e)
  {
    var t: u32, k :| EventVia(n, h, e, t, k);
    ChosenMono(n, h, h', t, k);
    assert EventVia(n, h', e, t, k);
  }

  lemma ReplyGrows(n: nat, h: History, h': History, p: Packet)
    requires ReplyOK(n, h, p) && Extends(h, h')
    ensures ReplyOK(n, h', p)
  {
    var e :| ReplyVia(n, h, p, e);
    EventGrows(n, h, h', e);
    assert ReplyVia(n, h', p, e);
  }

  lemma TraceGrows(n: nat, h: History, h': History, trace: seq<Event>)
    requires TraceOK(n, h, trace) && Extends(h, h')
    ensures TraceOK(n, h', trace)
  {
    forall e | e in trace
      ensures EventOK(n, h', e)
    {
      EventGrows(n, h, h', e);
    }
  }
}
