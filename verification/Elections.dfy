/**
 The moves of an election: candidacy, votes, counting and victory, none of which loses what an
 earlier term may still have committed.
 */
module Elections {
  import opened Words
  import opened Types
  import opened NodeSpec
  import opened NodeFacts
  import opened Cluster
  import opened Invariants
  import opened Growth
  import opened Moves

  // ---- the requests of a broadcast

  lemma {:induction false} VoteRequestsAre(cfg: Config, hard: Durable, upto: nat)
    requires cfg.Valid() && upto <= cfg.n
    ensures forall p | p in VoteRequests(cfg, hard, upto) ::
              && p.src == cfg.id && p.dst < upto && p.dst != cfg.id
              && p.msg == VoteReq(hard.term, cfg.id, ToWord(|hard.log| - 1), LogTerm(hard.log, |hard.log| - 1))
    ensures forall p :: multiset(VoteRequests(cfg, hard, upto))[p] <= 1
  {
    if upto > 0 {
      VoteRequestsAre(cfg, hard, upto - 1);
      var ps := VoteRequests(cfg, hard, upto - 1);
      if upto - 1 != cfg.id {
        var q := Packet(cfg.id, upto - 1, VoteReq(hard.term, cfg.id, ToWord(|hard.log| - 1),
                                                  LogTerm(hard.log, |hard.log| - 1)));
        assert VoteRequests(cfg, hard, upto) == ps + [q];
        assert q !in ps;
        assert multiset(ps)[q] == 0;
      }
    }
  }

  // ---- becoming a candidate

  /** Term up, vote for oneself, one vote counted. */
  ghost predicate Stands(n: nat, s: System, i: nat, nd: Node)
    requires i < |s.nodes|
  {
    var was := s.nodes[i];
    && i < n < NO_VOTE
    && Shaped(Cfg(n, i), nd.soft)
    && was.hard.term + 1 < INT_SPAN
    && nd.hard == Durable(was.hard.term + 1, i, was.hard.log)
    && nd.soft.role == Candidate && nd.soft.votesReceived == 1
    && nd.soft.commitIndex == was.soft.commitIndex && nd.soft.lastApplied == was.soft.lastApplied
  }

  function WithCandidate(h: History, i: nat, t: u32): History
    requires i < |h.counted|
  {
    h.(grants := h.grants + {Grant(t, i, i)}, counted := h.counted[i := {i}])
  }

  lemma StandGrants(n: nat, s: System, h: History, i: nat, t: u32)
    requires Inv(n, s, h) && i < n && t == s.nodes[i].hard.term + 1
    ensures GrantsOK(n, WithCandidate(h, i, t)) && HistOK(n, WithCandidate(h, i, t))
    ensures forall g | g in h.grants && g.term == t :: g.voter != i && g.candidate != i
    ensures t in h.reigns ==> h.reigns[t].node != i && i !in h.reigns[t].voters
  {
    var h' := WithCandidate(h, i, t);
    assert NodeOK(n, h, i, s.nodes[i]);
    if t in h.reigns {
      assert ReignOK(n, h, t);
      var q :| q in h.reigns[t].voters;
      assert Grant(t, q, h.reigns[t].node) in h.grants;
      assert forall v | v in h.reigns[t].voters :: Grant(t, v, h.reigns[t].node) in h.grants;
    }
    forall u | u in h'.reigns
      ensures ReignOK(n, h', u)
    {
      assert ReignOK(n, h, u);
      LogOKMono(h, h', h.reigns[u].log);
    }
  }

  lemma StandNode(n: nat, s: System, h: History, i: nat, nd: Node)
    requires Inv(n, s, h) && i < n && Stands(n, s, i, nd)
    ensures NodeOK(n, WithCandidate(h, i, nd.hard.term), i, nd)
  {
    var t := nd.hard.term;
    var h' := WithCandidate(h, i, t);
    var was := s.nodes[i];
    StandGrants(n, s, h, i, t);
    assert NodeOK(n, h, i, was);
    LogOKMono(h, h', nd.hard.log);
    CommittedIsPresent(n, h, was.hard.term, nd.hard.log, nd.soft.commitIndex);
    CommittedIsPresent(n, h, was.hard.term, nd.hard.log, nd.soft.lastApplied);
    CommittedMono(n, h, h', was.hard.term, t, nd.hard.log, nd.hard.log, nd.soft.commitIndex);
    CommittedMono(n, h, h', was.hard.term, t, nd.hard.log, nd.hard.log, nd.soft.lastApplied);
    assert |h'.counted[i]| == 1;
  }

  /** New grants and new terms do not touch what is kept. */
  lemma KeptWithGrants(nodes: seq<Node>, h: History, nodes': seq<Node>, h': History, log: seq<Entry>, t: u32, k: int)
    requires h'.reigns == h.reigns && h'.acks == h.acks && |nodes| == |nodes'| && t in h.reigns
    requires forall i | 0 <= i < |nodes| :: nodes[i].hard.term <= nodes'[i].hard.term
    requires Kept(nodes, h, log, t, k)
    ensures Kept(nodes', h', log, t, k)
  {
    if Dead(nodes, h, t, k) {
      DeadMono(nodes, h, nodes', h', t, k);
    }
  }

  lemma SameAcked(h: History, h': History, t: u32, q: nat, k: int)
    requires h'.reigns == h.reigns && h'.acks == h.acks
    ensures Own(h', t, k) == Own(h, t, k) && Acked(h', t, q, k) == Acked(h, t, q, k)
  {
  }

  lemma LogsKeepWithGrants(nodes: seq<Node>, h: History, nodes': seq<Node>, h': History)
    requires h'.reigns == h.reigns && h'.acks == h.acks && |nodes| == |nodes'|
    requires forall i | 0 <= i < |nodes| ::
               nodes[i].hard.term <= nodes'[i].hard.term && nodes[i].hard.log == nodes'[i].hard.log
    requires LeadersKeep(nodes, h) && NodesKeep(nodes, h)
    ensures LeadersKeep(nodes', h') && NodesKeep(nodes', h')
  {
    forall u: u32, u': u32, k | u' in h'.reigns && u < u' && Own(h', u, k)
      ensures Kept(nodes', h', h'.reigns[u'].base, u, k)
    {
      SameAcked(h, h', u, 0, k);
      KeptWithGrants(nodes, h, nodes', h', h.reigns[u'].base, u, k);
    }
    forall q, u: u32, k | 0 <= q < |nodes'| && Own(h', u, k) && Acked(h', u, q, k)
      ensures Kept(nodes', h', nodes'[q].hard.log, u, k)
    {
      SameAcked(h, h', u, q, k);
      KeptWithGrants(nodes, h, nodes', h', nodes[q].hard.log, u, k);
    }
  }

  lemma StandKeeps(n: nat, s: System, h: History, i: nat, nd: Node)
    requires Inv(n, s, h) && i < n && Stands(n, s, i, nd)
    ensures var h', nodes' := WithCandidate(h, i, nd.hard.term), s.nodes[i := nd];
            LeadersKeep(nodes', h') && NodesKeep(nodes', h') && CandidatesKeep(nodes', h')
  {
    var t := nd.hard.term;
    var h', nodes' := WithCandidate(h, i, t), s.nodes[i := nd];
    StandGrants(n, s, h, i, t);
    LogsKeepWithGrants(s.nodes, h, nodes', h');
    forall g, u: u32, k | g in h'.grants && CandidateAt(nodes', g.candidate, g.term) && u < g.term && Own(h', u, k)
                          && Acked(h', u, g.voter, k)
      ensures Kept(nodes', h', nodes'[g.candidate].hard.log, u, k)
    {
      SameAcked(h, h', u, g.voter, k);
      if g.candidate == i {
        assert g == Grant(t, i, i);
        KeptWithGrants(s.nodes, h, nodes', h', s.nodes[i].hard.log, u, k);
      } else {
        assert CandidateAt(s.nodes, g.candidate, g.term) && g in h.grants;
        KeptWithGrants(s.nodes, h, nodes', h', s.nodes[g.candidate].hard.log, u, k);
      }
    }
  }

  lemma StandPackets(n: nat, s: System, h: History, i: nat, nd: Node)
    requires Inv(n, s, h) && i < n && Stands(n, s, i, nd)
    ensures var h', nodes' := WithCandidate(h, i, nd.hard.term), s.nodes[i := nd];
            forall p | p in s.net :: PacketOK(n, h', nodes', p)
    ensures forall p | p in s.net && p.msg.VoteReq? :: p.src != i || p.msg.term != nd.hard.term
  {
    var t := nd.hard.term;
    var h', nodes' := WithCandidate(h, i, t), s.nodes[i := nd];
    StandGrants(n, s, h, i, t);
    forall p | p in s.net
      ensures PacketOK(n, h', nodes', p)
      ensures p.msg.VoteReq? ==> p.src != i || p.msg.term != t
    {
      assert PacketOK(n, h, s.nodes, p);
      match p.msg
      case AppendReq(_, _, _, _, _, _) => AppendReqGrows(n, h, h', p);
      case ProcRes(_, _, success, _, _) =>
        if success {
          ReplyGrows(n, h, h', p);
        }
      case _ =>
    }
  }

  lemma StandNet(n: nat, s: System, h: History, i: nat, nd: Node)
    requires Inv(n, s, h) && i < n && Stands(n, s, i, nd)
    ensures var ps := VoteRequests(Cfg(n, i), nd.hard, n);
            NetOK(n, WithCandidate(h, i, nd.hard.term), Put(s, i, nd).(net := s.net + multiset(ps)))
  {
    var t := nd.hard.term;
    var h' := WithCandidate(h, i, t);
    var ps := VoteRequests(Cfg(n, i), nd.hard, n);
    var s' := Put(s, i, nd).(net := s.net + multiset(ps));
    StandGrants(n, s, h, i, t);
    StandPackets(n, s, h, i, nd);
    VoteRequestsAre(Cfg(n, i), nd.hard, n);
    forall p | p in ps
      ensures p !in s.net && PacketOK(n, h', s'.nodes, p)
    {
    }
    forall p | p in s'.net
      ensures PacketOK(n, h', s'.nodes, p) && (Countable(p) ==> s'.net[p] == 1)
    {
      if p in multiset(ps) {
        assert p in ps;
      }
    }
    forall p, p' | p in s'.net && p' in s'.net && SameRequest(p, p')
      ensures p == p'
    {
      assert p in ps || p in s.net;
      assert p' in ps || p' in s.net;
    }
  }

  lemma StandOther(n: nat, s: System, h: History, i: nat, nd: Node, j: nat)
    requires Inv(n, s, h) && i < n && Stands(n, s, i, nd) && j < n && j != i
    ensures NodeOK(n, WithCandidate(h, i, nd.hard.term), j, s.nodes[j])
  {
    assert NodeOK(n, h, j, s.nodes[j]);
    NodeGrows(n, h, WithCandidate(h, i, nd.hard.term), j, s.nodes[j]);
  }

  /** Term up, self vote, requests out: one election begins. */
  lemma StandMove(n: nat, s: System, h: History, i: nat, nd: Node) returns (h': History)
    requires Inv(n, s, h) && i < n && Stands(n, s, i, nd)
    ensures Extends(h, h')
    ensures var ps := VoteRequests(Cfg(n, i), nd.hard, n);
            Inv(n, Put(s, i, nd).(net := s.net + multiset(ps)), h')
  {
    h' := WithCandidate(h, i, nd.hard.term);
    var s' := Put(s, i, nd);
    forall j | 0 <= j < n
      ensures NodeOK(n, h', j, s'.nodes[j])
    {
      if j == i {
        StandNode(n, s, h, i, nd);
      } else {
        StandOther(n, s, h, i, nd, j);
      }
    }
    StandGrants(n, s, h, i, nd.hard.term);
    StandKeeps(n, s, h, i, nd);
    StandNet(n, s, h, i, nd);
    TraceGrows(n, h, h', s.trace);
  }

  // ---- granting a vote

  /** "At least as up-to-date": the later last term wins, then the longer log. */
  predicate AtLeast(other: seq<Entry>, mine: seq<Entry>) {
    var o, m := LogTerm(other, |other| - 1), LogTerm(mine, |mine| - 1);
    o > m || (o == m && |other| >= |mine|)
  }

  /** The unsigned comparison with its 0xFFFFFFFF for an empty log is the lexicographic order. */
  lemma UpToDateIsAtLeast(mine: seq<Entry>, other: seq<Entry>)
    requires |mine| < INT_SPAN && |other| < INT_SPAN && TermsPositive(mine) && TermsPositive(other)
    ensures UpToDate(mine, ToWord(|other| - 1), LogTerm(other, |other| - 1)) <==> AtLeast(other, mine)
  {
  }

  lemma LogOKPositive(h: History, log: seq<Entry>)
    requires LogOK(h, log)
    ensures TermsPositive(log)
  {
    forall k | 0 <= k < |log|
      ensures log[k].term >= 1
    {
      assert Rooted(h, log, k);
    }
  }

  /** A log that is at least as up-to-date as one holding an entry holds it too, unless it is dead. */
  lemma AtLeastKeeps(n: nat, nodes: seq<Node>, h: History, mine: seq<Entry>, other: seq<Entry>, t: u32, k: int)
    requires HistOK(n, h) && LogOK(h, mine) && LogOK(h, other) && AtLeast(other, mine)
    requires LeadersKeep(nodes, h) && Own(h, t, k) && Has(mine, h.reigns[t].log, k)
    ensures Kept(nodes, h, other, t, k)
  {
    var ref := h.reigns[t].log;
    HasShorter(mine, ref, k, k);
    TermsAscend(n, h, mine, k, |mine| - 1);
    LogOKPositive(h, mine);
    assert mine[|mine| - 1].term >= t >= 1;
    assert |other| > 0;
    var last := |other| - 1;
    var u := other[last].term;
    assert Rooted(h, other, last);
    assert ReignOK(n, h, t);
    if u == t {
      assert mine[|mine| - 1].term == t;
      HasShorter(ref, other, last, k);
    } else {
      BaseKeeps(n, nodes, h, t, u, k);
      if Has(h.reigns[u].log, ref, k) {
        if last < k {
          HasShorter(h.reigns[u].log, other, last, last);
          HasShorter(h.reigns[u].log, ref, k, last);
          assert false;
        }
        HasShorter(h.reigns[u].log, other, last, k);
        HasTrans(other, h.reigns[u].log, ref, k);
      }
    }
  }

  ghost predicate Grants(n: nat, s: System, i: nat, p: Packet)
  {
    && i < |s.nodes| && p in s.net && p.dst == i && p.msg.VoteReq?
    && p.msg.term == s.nodes[i].hard.term
    && s.nodes[i].hard.vote == p.src
    && UpToDate(s.nodes[i].hard.log, p.msg.lastLogIdx, p.msg.lastLogTerm)
  }

  function WithGrant(h: History, g: Grant): History {
    h.(grants := h.grants + {g})
  }

  lemma GrantHist(n: nat, s: System, h: History, i: nat, p: Packet)
    requires Inv(n, s, h) && i < n && Grants(n, s, i, p)
    ensures HistOK(n, WithGrant(h, Grant(p.msg.term, i, p.src)))
    ensures Grant(p.msg.term, i, p.src) !in h.grants && p.src < n && p.src != i && p.msg.term >= 1
  {
    var g := Grant(p.msg.term, i, p.src);
    var h' := WithGrant(h, g);
    assert PacketOK(n, h, s.nodes, p);
    assert NodeOK(n, h, i, s.nodes[i]);
    forall u | u in h'.reigns
      ensures ReignOK(n, h', u)
    {
      assert ReignOK(n, h, u);
      LogOKMono(h, h', h.reigns[u].log);
    }
    assert g.term in h.reigns ==> ReignOK(n, h, g.term);
  }

  lemma GrantNode(n: nat, s: System, h: History, i: nat, p: Packet, j: nat)
    requires Inv(n, s, h) && i < n && Grants(n, s, i, p) && j < n
    ensures NodeOK(n, WithGrant(h, Grant(p.msg.term, i, p.src)), j, s.nodes[j])
  {
    var g := Grant(p.msg.term, i, p.src);
    var h' := WithGrant(h, g);
    assert PacketOK(n, h, s.nodes, p);
    assert NodeOK(n, h, j, s.nodes[j]);
    assert g.term in h.reigns ==> ReignOK(n, h, g.term);
    NodeGrows(n, h, h', j, s.nodes[j]);
  }

  /** The candidate holds what its new voter has stored in earlier terms. */
  lemma GrantedCandidateKeeps(n: nat, s: System, h: History, i: nat, p: Packet, u: u32, k: int)
    requires Inv(n, s, h) && i < n && Grants(n, s, i, p)
    requires CandidateAt(s.nodes, p.src, p.msg.term) && Own(h, u, k) && Acked(h, u, i, k)
    ensures Kept(s.nodes, h, s.nodes[p.src].hard.log, u, k)
  {
    var mine, log := s.nodes[i].hard.log, s.nodes[p.src].hard.log;
    assert NodeOK(n, h, i, s.nodes[i]) && NodeOK(n, h, p.src, s.nodes[p.src]);
    assert PacketOK(n, h, s.nodes, p);
    LogOKPositive(h, mine);
    LogOKPositive(h, log);
    UpToDateIsAtLeast(mine, log);
    assert Kept(s.nodes, h, mine, u, k);
    if Has(mine, h.reigns[u].log, k) {
      AtLeastKeeps(n, s.nodes, h, mine, log, u, k);
    }
  }

  lemma GrantKeeps(n: nat, s: System, h: History, i: nat, p: Packet)
    requires Inv(n, s, h) && i < n && Grants(n, s, i, p)
    ensures var h' := WithGrant(h, Grant(p.msg.term, i, p.src));
            LeadersKeep(s.nodes, h') && NodesKeep(s.nodes, h') && CandidatesKeep(s.nodes, h')
  {
    var g' := Grant(p.msg.term, i, p.src);
    var h' := WithGrant(h, g');
    LogsKeepWithGrants(s.nodes, h, s.nodes, h');
    forall g, u: u32, k | g in h'.grants && CandidateAt(s.nodes, g.candidate, g.term) && u < g.term && Own(h', u, k)
                          && Acked(h', u, g.voter, k)
      ensures Kept(s.nodes, h', s.nodes[g.candidate].hard.log, u, k)
    {
      SameAcked(h, h', u, g.voter, k);
      if g == g' {
        GrantedCandidateKeeps(n, s, h, i, p, u, k);
      }
      KeptWithGrants(s.nodes, h, s.nodes, h', s.nodes[g.candidate].hard.log, u, k);
    }
  }

  lemma GrantNet(n: nat, s: System, h: History, i: nat, p: Packet)
    requires Inv(n, s, h) && i < n && Grants(n, s, i, p)
    ensures NetOK(n, WithGrant(h, Grant(p.msg.term, i, p.src)),
                  s.(net := s.net - multiset{p} + multiset{Packet(i, p.src, VoteRes(p.msg.term, true))}))
  {
    var g := Grant(p.msg.term, i, p.src);
    var h' := WithGrant(h, g);
    var q := Packet(i, p.src, VoteRes(p.msg.term, true));
    var net := s.net - multiset{p} + multiset{q};
    GrantHist(n, s, h, i, p);
    assert PacketOK(n, h, s.nodes, p) && s.net[p] == 1;
    assert q in s.net ==> PacketOK(n, h, s.nodes, q);
    assert q !in s.net;
    assert PacketOK(n, h', s.nodes, q) by {
      if CandidateAt(s.nodes, p.src, g.term) {
        assert NodeOK(n, h, p.src, s.nodes[p.src]);
      }
    }
    forall r | r in net
      ensures PacketOK(n, h', s.nodes, r) && (Countable(r) ==> net[r] == 1) && (r == q || (r in s.net && r != p))
    {
      if r != q {
        assert PacketOK(n, h, s.nodes, r);
        assert SameRequest(r, p) ==> r == p;
        PacketGrows(n, h, h', s.nodes, r);
      }
    }
  }

  /** One vote: the request is consumed, the answer is in flight. */
  lemma GrantMove(n: nat, s: System, h: History, i: nat, p: Packet) returns (h': History)
    requires Inv(n, s, h) && i < n && Grants(n, s, i, p)
    ensures Extends(h, h')
    ensures Inv(n, s.(net := s.net - multiset{p} + multiset{Packet(i, p.src, VoteRes(p.msg.term, true))}), h')
  {
    h' := WithGrant(h, Grant(p.msg.term, i, p.src));
    forall j | 0 <= j < n
      ensures NodeOK(n, h', j, s.nodes[j])
    {
      GrantNode(n, s, h, i, p, j);
    }
    GrantHist(n, s, h, i, p);
    GrantKeeps(n, s, h, i, p);
    GrantNet(n, s, h, i, p);
    TraceGrows(n, h, h', s.trace);
  }

  // ---- counting a vote

  ghost predicate Counts(n: nat, s: System, i: nat, p: Packet, nd: Node) {
    && i < |s.nodes| && p in s.net && p.dst == i && p.msg.VoteRes? && p.msg.granted
    && CandidateAt(s.nodes, i, p.msg.term)
    && nd == s.nodes[i].(soft := s.nodes[i].soft.(votesReceived := s.nodes[i].soft.votesReceived + 1))
  }

  function WithVote(h: History, i: nat, voter: nat): History
    requires i < |h.counted|
  {
    h.(counted := h.counted[i := h.counted[i] + {voter}])
  }

  lemma CountPacket(n: nat, s: System, h: History, i: nat, p: Packet, nd: Node, r: Packet)
    requires Inv(n, s, h) && i < n && Counts(n, s, i, p, nd) && PacketOK(n, h, s.nodes, r)
    requires r != p || !Countable(r)
    ensures PacketOK(n, WithVote(h, i, p.src), Put(s, i, nd).nodes, r)
  {
    var h', nodes' := WithVote(h, i, p.src), Put(s, i, nd).nodes;
    if r.msg.VoteRes? {
      CountVoteRes(n, s, h, i, p, nd, r);
    } else {
      assert Steady(s.nodes, nodes');
      PacketFrame(n, h, s.nodes, nodes', r);
      PacketGrows(n, h, h', nodes', r);
    }
  }

  lemma CountVoteRes(n: nat, s: System, h: History, i: nat, p: Packet, nd: Node, r: Packet)
    requires Inv(n, s, h) && i < n && Counts(n, s, i, p, nd) && PacketOK(n, h, s.nodes, r)
    requires r.msg.VoteRes? && (r != p || !Countable(r))
    ensures PacketOK(n, WithVote(h, i, p.src), Put(s, i, nd).nodes, r)
  {
    assert PacketOK(n, h, s.nodes, p);
    if r.msg.granted && CandidateAt(Put(s, i, nd).nodes, r.dst, r.msg.term) && r.dst == i {
      assert r.msg.term == p.msg.term;
    }
  }

  lemma CountNet(n: nat, s: System, h: History, i: nat, p: Packet, nd: Node)
    requires Inv(n, s, h) && i < n && Counts(n, s, i, p, nd)
    ensures NetOK(n, WithVote(h, i, p.src), Put(s, i, nd).(net := s.net - multiset{p}))
  {
    var net := s.net - multiset{p};
    assert s.net[p] == 1;
    forall r | r in net
      ensures PacketOK(n, WithVote(h, i, p.src), Put(s, i, nd).nodes, r) && (Countable(r) ==> net[r] == 1)
    {
      assert r in s.net && (r != p || !Countable(r));
      assert PacketOK(n, h, s.nodes, r);
      CountPacket(n, s, h, i, p, nd, r);
    }
  }

  lemma CountNode(n: nat, s: System, h: History, i: nat, p: Packet, nd: Node, j: nat)
    requires Inv(n, s, h) && i < n && Counts(n, s, i, p, nd) && j < n
    ensures NodeOK(n, WithVote(h, i, p.src), j, Put(s, i, nd).nodes[j])
  {
    var h' := WithVote(h, i, p.src);
    assert PacketOK(n, h, s.nodes, p);
    assert NodeOK(n, h, j, s.nodes[j]);
    if j == i {
      assert |h'.counted[i]| == |h.counted[i]| + 1;
      LogOKMono(h, h', nd.hard.log);
      CommittedIsPresent(n, h, nd.hard.term, nd.hard.log, nd.soft.commitIndex);
      CommittedIsPresent(n, h, nd.hard.term, nd.hard.log, nd.soft.lastApplied);
      CommittedMono(n, h, h', nd.hard.term, nd.hard.term, nd.hard.log, nd.hard.log, nd.soft.commitIndex);
      CommittedMono(n, h, h', nd.hard.term, nd.hard.term, nd.hard.log, nd.hard.log, nd.soft.lastApplied);
    } else {
      NodeGrows(n, h, h', j, s.nodes[j]);
    }
  }

  lemma SameReigns(n: nat, h: History, h': History)
    requires HistOK(n, h) && h'.reigns == h.reigns && h'.grants == h.grants && h'.acks == h.acks && |h'.counted| == n
    ensures HistOK(n, h')
  {
    forall u | u in h'.reigns
      ensures ReignOK(n, h', u)
    {
      assert ReignOK(n, h, u);
      LogOKMono(h, h', h.reigns[u].log);
    }
  }

  lemma CandidatesKeepSame(nodes: seq<Node>, h: History, nodes': seq<Node>, h': History)
    requires h'.reigns == h.reigns && h'.acks == h.acks && h'.grants == h.grants
    requires Steady(nodes, nodes') && CandidatesKeep(nodes, h)
    ensures CandidatesKeep(nodes', h')
  {
    forall g, u: u32, k | g in h'.grants && CandidateAt(nodes', g.candidate, g.term) && u < g.term && Own(h', u, k)
                          && Acked(h', u, g.voter, k)
      ensures Kept(nodes', h', nodes'[g.candidate].hard.log, u, k)
    {
      SameAcked(h, h', u, g.voter, k);
      assert CandidateAt(nodes, g.candidate, g.term);
      KeptWithGrants(nodes, h, nodes', h', nodes[g.candidate].hard.log, u, k);
    }
  }

  /** A granted vote is consumed and counted: the counter is the number of distinct voters. */
  lemma CountMove(n: nat, s: System, h: History, i: nat, p: Packet, nd: Node) returns (h': History)
    requires Inv(n, s, h) && i < n && Counts(n, s, i, p, nd)
    ensures Extends(h, h')
    ensures Inv(n, Put(s, i, nd).(net := s.net - multiset{p}), h')
  {
    h' := WithVote(h, i, p.src);
    var s' := Put(s, i, nd);
    forall j | 0 <= j < n
      ensures NodeOK(n, h', j, s'.nodes[j])
    {
      CountNode(n, s, h, i, p, nd, j);
    }
    assert Steady(s.nodes, s'.nodes);
    SameReigns(n, h, h');
    LogsKeepWithGrants(s.nodes, h, s'.nodes, h');
    CandidatesKeepSame(s.nodes, h, s'.nodes, h');
    CountNet(n, s, h, i, p, nd);
    TraceGrows(n, h, h', s.trace);
  }

  // ---- winning

  ghost predicate Wins(n: nat, s: System, i: nat, nd: Node) {
    && i < |s.nodes| && Fits(s.nodes[i])
    && s.nodes[i].soft.role == Candidate
    && s.nodes[i].soft.votesReceived > n / 2
    && nd == s.nodes[i].(soft := LeaderState(Cfg(n, i), s.nodes[i]))
  }

  function WithReign(h: History, i: nat, hard: Durable): History
    requires i < |h.counted|
  {
    h.(reigns := h.reigns[hard.term := Reign(i, h.counted[i], hard.log, hard.log)])
  }

  /** Election safety, at the moment of victory: nobody else has won this term. */
  lemma NoOtherWinner(n: nat, s: System, h: History, i: nat, nd: Node)
    requires Inv(n, s, h) && i < n && Wins(n, s, i, nd)
    ensures nd.hard.term !in h.reigns && Majority(n, h.counted[i])
  {
    var t := nd.hard.term;
    assert NodeOK(n, h, i, s.nodes[i]);
    if t in h.reigns {
      assert ReignOK(n, h, t);
      var q := QuorumsMeet(n, h.counted[i], h.reigns[t].voters);
      assert false;
    }
  }

  lemma WinReign(n: nat, s: System, h: History, i: nat, nd: Node, u: u32)
    requires Inv(n, s, h) && i < n && Wins(n, s, i, nd)
    requires u == nd.hard.term || u in h.reigns
    ensures ReignOK(n, WithReign(h, i, nd.hard), u)
  {
    var t, h' := nd.hard.term, WithReign(h, i, nd.hard);
    NoOtherWinner(n, s, h, i, nd);
    assert NodeOK(n, h, i, s.nodes[i]);
    if u != t {
      assert ReignOK(n, h, u);
    }
    LogOKMono(h, h', h'.reigns[u].log);
  }

  lemma WinGrants(n: nat, s: System, h: History, i: nat, nd: Node)
    requires Inv(n, s, h) && i < n && Wins(n, s, i, nd)
    ensures GrantsOK(n, WithReign(h, i, nd.hard))
  {
    NoOtherWinner(n, s, h, i, nd);
    assert NodeOK(n, h, i, s.nodes[i]);
    var h' := WithReign(h, i, nd.hard);
    forall g | g in h'.grants && g.term in h'.reigns && g.voter in h'.reigns[g.term].voters
      ensures g.candidate == h'.reigns[g.term].node
    {
      if g.term == nd.hard.term {
        assert SameBallot(g, Grant(g.term, g.voter, i));
      }
    }
  }

  lemma WinHist(n: nat, s: System, h: History, i: nat, nd: Node)
    requires Inv(n, s, h) && i < n && Wins(n, s, i, nd)
    ensures HistOK(n, WithReign(h, i, nd.hard)) && Extends(h, WithReign(h, i, nd.hard))
  {
    var t, h' := nd.hard.term, WithReign(h, i, nd.hard);
    NoOtherWinner(n, s, h, i, nd);
    forall u | u in h'.reigns
      ensures ReignOK(n, h', u)
    {
      WinReign(n, s, h, i, nd, u);
    }
    WinGrants(n, s, h, i, nd);
  }

  lemma WinNode(n: nat, s: System, h: History, i: nat, nd: Node, j: nat)
    requires Inv(n, s, h) && i < n && Wins(n, s, i, nd) && j < n
    ensures NodeOK(n, WithReign(h, i, nd.hard), j, Put(s, i, nd).nodes[j])
  {
    var h' := WithReign(h, i, nd.hard);
    NoOtherWinner(n, s, h, i, nd);
    WinHist(n, s, h, i, nd);
    assert NodeOK(n, h, i, s.nodes[i]) && NodeOK(n, h, j, s.nodes[j]);
    assert forall q | q in h.counted[i] :: Grant(nd.hard.term, q, i) in h.grants;
    if j == i {
      LogOKMono(h, h', nd.hard.log);
      CommittedIsPresent(n, h, nd.hard.term, nd.hard.log, nd.soft.commitIndex);
      CommittedIsPresent(n, h, nd.hard.term, nd.hard.log, nd.soft.lastApplied);
      CommittedMono(n, h, h', nd.hard.term, nd.hard.term, nd.hard.log, nd.hard.log, nd.soft.commitIndex);
      CommittedMono(n, h, h', nd.hard.term, nd.hard.term, nd.hard.log, nd.hard.log, nd.soft.lastApplied);
    } else {
      NodeGrows(n, h, h', j, s.nodes[j]);
    }
  }

  /** No log holds an entry of a term that had no leader yet. */
  lemma NoEntryOfNewTerm(n: nat, s: System, h: History, i: nat, nd: Node, k: int)
    requires Inv(n, s, h) && i < n && Wins(n, s, i, nd)
    ensures !Own(WithReign(h, i, nd.hard), nd.hard.term, k)
  {
    NoOtherWinner(n, s, h, i, nd);
    assert NodeOK(n, h, i, s.nodes[i]);
    assert 0 <= k < |nd.hard.log| ==> Rooted(h, nd.hard.log, k);
  }

  lemma KeptAfterWin(n: nat, s: System, h: History, i: nat, nd: Node, log: seq<Entry>, t: u32, k: int)
    requires Inv(n, s, h) && i < n && Wins(n, s, i, nd) && t in h.reigns && Kept(s.nodes, h, log, t, k)
    ensures Kept(Put(s, i, nd).nodes, WithReign(h, i, nd.hard), log, t, k)
  {
    NoOtherWinner(n, s, h, i, nd);
    if Dead(s.nodes, h, t, k) {
      DeadMono(s.nodes, h, Put(s, i, nd).nodes, WithReign(h, i, nd.hard), t, k);
    }
  }

  /** Leader completeness, at the moment of victory. */
  lemma WinnerKeeps(n: nat, s: System, h: History, i: nat, nd: Node, t: u32, k: int)
    requires Inv(n, s, h) && i < n && Wins(n, s, i, nd) && t < nd.hard.term && Own(h, t, k)
    ensures Kept(s.nodes, h, nd.hard.log, t, k)
  {
    NoOtherWinner(n, s, h, i, nd);
    var voters := h.counted[i];
    assert NodeOK(n, h, i, s.nodes[i]);
    assert CandidateAt(s.nodes, i, nd.hard.term);
    if q :| q in voters && Acked(h, t, q, k) {
      assert Grant(nd.hard.term, q, i) in h.grants;
    } else {
      forall q | q in voters
        ensures s.nodes[q].hard.term > t && !Acked(h, t, q, k)
      {
        assert Grant(nd.hard.term, q, i) in h.grants;
        assert NodeOK(n, h, q, s.nodes[q]);
      }
      assert DeadBy(s.nodes, h, t, k, voters);
    }
  }

  lemma WinKeeps(n: nat, s: System, h: History, i: nat, nd: Node)
    requires Inv(n, s, h) && i < n && Wins(n, s, i, nd)
    ensures var h', nodes' := WithReign(h, i, nd.hard), Put(s, i, nd).nodes;
            LeadersKeep(nodes', h') && NodesKeep(nodes', h') && CandidatesKeep(nodes', h')
  {
    var h', nodes' := WithReign(h, i, nd.hard), Put(s, i, nd).nodes;
    NoOtherWinner(n, s, h, i, nd);
    forall t: u32, t': u32, k | t' in h'.reigns && t < t' && Own(h', t, k)
      ensures Kept(nodes', h', h'.reigns[t'].base, t, k)
    {
      NoEntryOfNewTerm(n, s, h, i, nd, k);
      assert Own(h, t, k);
      if t' == nd.hard.term {
        WinnerKeeps(n, s, h, i, nd, t, k);
      }
      KeptAfterWin(n, s, h, i, nd, h'.reigns[t'].base, t, k);
    }
    forall q, t: u32, k | 0 <= q < n && Own(h', t, k) && Acked(h', t, q, k)
      ensures Kept(nodes', h', nodes'[q].hard.log, t, k)
    {
      NoEntryOfNewTerm(n, s, h, i, nd, k);
      assert Own(h, t, k) && Acked(h, t, q, k);
      KeptAfterWin(n, s, h, i, nd, nodes'[q].hard.log, t, k);
    }
    forall g, t: u32, k | g in h'.grants && CandidateAt(nodes', g.candidate, g.term) && t < g.term && Own(h', t, k)
                          && Acked(h', t, g.voter, k)
      ensures Kept(nodes', h', nodes'[g.candidate].hard.log, t, k)
    {
      NoEntryOfNewTerm(n, s, h, i, nd, k);
      assert Own(h, t, k) && Acked(h, t, g.voter, k);
      assert CandidateAt(s.nodes, g.candidate, g.term);
      KeptAfterWin(n, s, h, i, nd, nodes'[g.candidate].hard.log, t, k);
    }
  }

  /** A majority of distinct votes makes the candidate the leader of its term. */
  lemma WinMove(n: nat, s: System, h: History, i: nat, nd: Node) returns (h': History)
    requires Inv(n, s, h) && i < n && Wins(n, s, i, nd)
    ensures Extends(h, h') && Inv(n, Put(s, i, nd), h')
    ensures nd.hard.term in h'.reigns && h'.reigns[nd.hard.term].node == i
  {
    h' := WithReign(h, i, nd.hard);
    var s' := Put(s, i, nd);
    forall j | 0 <= j < n
      ensures NodeOK(n, h', j, s'.nodes[j])
    {
      WinNode(n, s, h, i, nd, j);
    }
    WinHist(n, s, h, i, nd);
    WinKeeps(n, s, h, i, nd);
    assert Steady(s.nodes, s'.nodes);
    forall p | p in s'.net
      ensures PacketOK(n, h', s'.nodes, p)
    {
      PacketFrame(n, h, s.nodes, s'.nodes, p);
      PacketGrows(n, h, h', s'.nodes, p);
    }
    TraceGrows(n, h, h', s.trace);
  }
}
