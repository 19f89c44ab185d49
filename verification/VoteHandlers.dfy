/**
 The vote handlers, the timeouts and the elections they start, run to their ends, are sequences of
 moves of the protocol proof.
 */
module VoteHandlers {
  import opened Words
  import opened Types
  import opened NodeSpec
  import opened NodeFacts
  import opened Cluster
  import opened Invariants
  import opened Growth
  import opened Moves
  import opened Elections

  // ---- followers

  /** Node i has no vote on record in term t that anything depends on. */
  predicate Unbound(h: History, i: nat, t: u32) {
    if t in h.reigns then i !in h.reigns[t].voters
    else forall g | g in h.grants :: !(g.voter == i && g.term == t)
  }

  /** Same log, no lower term, and a vote that contradicts no vote given. */
  predicate Yields(h: History, i: nat, was: Durable, hard: Durable) {
    && hard.log == was.log && hard.term >= was.term && hard.term < INT_SPAN
    && (hard.term == was.term ==> hard.vote == was.vote || Unbound(h, i, hard.term))
  }

  lemma YieldMove(n: nat, s: System, h: History, i: nat, nd: Node)
    requires Inv(n, s, h) && i < n && Yields(h, i, s.nodes[i].hard, nd.hard)
    requires Shaped(Cfg(n, i), nd.soft) && nd.soft.role == Follower
    requires nd.soft.commitIndex == s.nodes[i].soft.commitIndex || nd.soft.commitIndex == -1
    requires nd.soft.lastApplied == s.nodes[i].soft.lastApplied || nd.soft.lastApplied == -1
    ensures Inv(n, Put(s, i, nd), h)
  {
    var was := s.nodes[i];
    assert NodeOK(n, h, i, was);
    ExtendsRefl(h);
    CommittedIsPresent(n, h, was.hard.term, was.hard.log, was.soft.commitIndex);
    CommittedIsPresent(n, h, was.hard.term, was.hard.log, was.soft.lastApplied);
    CommittedMono(n, h, h, was.hard.term, nd.hard.term, was.hard.log, nd.hard.log, was.soft.commitIndex);
    CommittedMono(n, h, h, was.hard.term, nd.hard.term, was.hard.log, nd.hard.log, was.soft.lastApplied);
    if nd.hard.term in h.reigns {
      assert ReignOK(n, h, nd.hard.term);
      assert forall v | v in h.reigns[nd.hard.term].voters ::
          Grant(nd.hard.term, v, h.reigns[nd.hard.term].node) in h.grants;
      var v :| v in h.reigns[nd.hard.term].voters;
    }
    LocalMove(n, s, h, i, nd);
  }

  /** A candidate whose term has a leader is free to forget its own vote. */
  lemma CandidateIsUnbound(n: nat, s: System, h: History, i: nat)
    requires Inv(n, s, h) && i < n && s.nodes[i].soft.role == Candidate && s.nodes[i].hard.term in h.reigns
    ensures Unbound(h, i, s.nodes[i].hard.term)
  {
    var t := s.nodes[i].hard.term;
    assert NodeOK(n, h, i, s.nodes[i]);
    assert ReignOK(n, h, t);
    assert forall v | v in h.reigns[t].voters :: Grant(t, v, h.reigns[t].node) in h.grants;
  }

  /** Stepping down for term t is allowed: a higher term, or a candidate meeting its term's leader. */
  predicate MayStepDown(h: History, nd: Node, t: u32) {
    t > nd.hard.term || (t == nd.hard.term && nd.soft.role == Candidate && t in h.reigns)
  }

  lemma StepDownYields(n: nat, s: System, h: History, i: nat, t: u32, w: nat)
    requires Inv(n, s, h) && i < n && MayStepDown(h, s.nodes[i], t) && t < INT_SPAN && w <= 2
    ensures Yields(h, i, s.nodes[i].hard, ApplyWrites(s.nodes[i].hard, StepDownWrites(t)[..w]))
    ensures ApplyWrites(s.nodes[i].hard, StepDownWrites(t)) == Durable(t, NO_VOTE, s.nodes[i].hard.log)
  {
    var hard, ws := s.nodes[i].hard, StepDownWrites(t);
    assert ws[..2] == ws && ws[..0] == [] && ws[..1] == [SetTerm(t)];
    ApplyWritesShort(hard, SetTerm(t), SetVote(NO_VOTE));
    if t == hard.term {
      CandidateIsUnbound(n, s, h, i);
    }
  }

  lemma StepDownMove(n: nat, s: System, h: History, i: nat, t: u32, leaderId: u32)
    requires Inv(n, s, h) && i < n && MayStepDown(h, s.nodes[i], t) && t < INT_SPAN
    ensures Inv(n, Put(s, i, Node(Durable(t, NO_VOTE, s.nodes[i].hard.log), SteppedDown(s.nodes[i].soft, leaderId))), h)
  {
    StepDownYields(n, s, h, i, t, 2);
    assert StepDownWrites(t)[..2] == StepDownWrites(t);
    assert NodeOK(n, h, i, s.nodes[i]);
    YieldMove(n, s, h, i, Node(Durable(t, NO_VOTE, s.nodes[i].hard.log), SteppedDown(s.nodes[i].soft, leaderId)));
  }

  lemma RestartMove(n: nat, s: System, h: History, i: nat, v: Volatile)
    requires Inv(n, s, h) && i < n && Fresh(Cfg(n, i), v)
    ensures Inv(n, Put(s, i, Node(s.nodes[i].hard, v)), h)
  {
    assert NodeOK(n, h, i, s.nodes[i]);
    YieldMove(n, s, h, i, Node(s.nodes[i].hard, v));
  }

  // ---- RequestVote

  lemma VoteMove(n: nat, s: System, h: History, i: nat, c: u32)
    requires Inv(n, s, h) && i < n && c < n
    requires s.nodes[i].hard.vote == NO_VOTE || s.nodes[i].hard.vote == c
    ensures Inv(n, Put(s, i, s.nodes[i].(hard := s.nodes[i].hard.(vote := c))), h)
  {
    var was := s.nodes[i];
    var nd := was.(hard := was.hard.(vote := c));
    assert NodeOK(n, h, i, was);
    assert was.hard.term in h.reigns ==> ReignOK(n, h, was.hard.term);
    assert was.hard.term in h.reigns ==> forall v | v in h.reigns[was.hard.term].voters ::
        Grant(was.hard.term, v, h.reigns[was.hard.term].node) in h.grants;
    LocalMove(n, s, h, i, nd);
  }

  lemma PlainReply(n: nat, s: System, h: History, p: Packet, nd: Node, i: nat, q: Packet)
    requires i < n == |s.nodes| && Inv(n, Put(s, i, nd), h) && p in s.net
    requires (q.msg.ProcRes? && !q.msg.success) || (q.msg.VoteRes? && !q.msg.granted)
             || (q.msg.AppendRes? && !q.msg.success && q.src < n)
    ensures Inv(n, Put(s, i, nd).(net := s.net - multiset{p} + multiset{q}), h)
  {
  }

  /** The node after the term part of the vote handler. */
  function Caught(nd: Node, m: Message, src: u32): Node
    requires m.VoteReq?
  {
    if m.term > nd.hard.term then Node(Durable(m.term, NO_VOTE, nd.hard.log), SteppedDown(nd.soft, src)) else nd
  }

  lemma CaughtMove(n: nat, s: System, h: History, i: nat, p: Packet)
    requires Inv(n, s, h) && i < n && p.msg.VoteReq? && p.msg.term < INT_SPAN
    ensures Inv(n, Put(s, i, Caught(s.nodes[i], p.msg, p.src)), h)
  {
    assert Put(s, i, s.nodes[i]) == s;
    if p.msg.term > s.nodes[i].hard.term {
      StepDownMove(n, s, h, i, p.msg.term, p.src);
    }
  }

  lemma VoteGranted(n: nat, s: System, h: History, i: nat, p: Packet) returns (h': History)
    requires Inv(n, s, h) && i < n && p in s.net && p.dst == i && p.msg.VoteReq?
    requires var nd := Caught(s.nodes[i], p.msg, p.src);
             && p.msg.term == nd.hard.term < INT_SPAN
             && (nd.hard.vote == NO_VOTE || nd.hard.vote == p.msg.candidateId)
             && UpToDate(nd.hard.log, p.msg.lastLogIdx, p.msg.lastLogTerm)
    ensures Extends(h, h')
    ensures var nd := Caught(s.nodes[i], p.msg, p.src);
            Inv(n, Put(s, i, nd.(hard := nd.hard.(vote := p.msg.candidateId)))
                   .(net := s.net - multiset{p} + multiset{Packet(i, p.src, VoteRes(p.msg.term, true))}), h')
  {
    var nd := Caught(s.nodes[i], p.msg, p.src);
    CaughtMove(n, s, h, i, p);
    var s1 := Put(s, i, nd);
    assert PacketOK(n, h, s.nodes, p);
    VoteMove(n, s1, h, i, p.msg.candidateId);
    var nd2 := nd.(hard := nd.hard.(vote := p.msg.candidateId));
    var s2 := Put(s1, i, nd2);
    assert s2 == Put(s, i, nd2);
    h' := GrantMove(n, s2, h, i, p);
  }

  /** The vote handler, said by its cases. */
  lemma VoteReqIs(cfg: Config, nd: Node, src: u32, m: Message)
    requires cfg.Valid() && m.VoteReq? && ToInt(nd.hard.term) >= 0
    ensures var o, nd' := HandleVoteReq(cfg, nd, src, m), Caught(nd, m, src);
            && o.applied == []
            && if m.term < nd.hard.term then
                 After(nd, o) == nd && o.sent == [Packet(cfg.id, m.candidateId, VoteRes(nd.hard.term, false))]
               else if ToInt(nd'.hard.vote) < 0 then After(nd, o) == nd' && o.sent == []
               else if (nd'.hard.vote == NO_VOTE || nd'.hard.vote == m.candidateId)
                       && UpToDate(nd.hard.log, m.lastLogIdx, m.lastLogTerm) then
                 && After(nd, o) == nd'.(hard := nd'.hard.(vote := m.candidateId))
                 && o.sent == [Packet(cfg.id, m.candidateId, VoteRes(m.term, true))]
               else After(nd, o) == nd' && o.sent == [Packet(cfg.id, m.candidateId, VoteRes(m.term, false))]
  {
    var down := m.term > nd.hard.term;
    ApplyWritesShort(nd.hard, SetTerm(m.term), SetVote(NO_VOTE));
    ApplyWritesConcat(nd.hard, if down then StepDownWrites(m.term) else [], [SetVote(m.candidateId)]);
    ApplyWritesShort(if down then Durable(m.term, NO_VOTE, nd.hard.log) else nd.hard, SetVote(m.candidateId),
                     SetVote(m.candidateId));
  }

  lemma VoteReqRuns(n: nat, s: System, h: History, i: nat, p: Packet) returns (h': History)
    requires Inv(n, s, h) && Offered(n, s, i, Receive(p)) && p.msg.VoteReq?
    requires Sized(n, Done(s, i, Receive(p), HandleVoteReq(Cfg(n, i), s.nodes[i], p.src, p.msg)))
    ensures Extends(h, h')
    ensures Inv(n, Done(s, i, Receive(p), HandleVoteReq(Cfg(n, i), s.nodes[i], p.src, p.msg)), h')
  {
    var nd, m := s.nodes[i], p.msg;
    var o := HandleVoteReq(Cfg(n, i), nd, p.src, m);
    var s' := Done(s, i, Receive(p), o);
    var nd' := Caught(nd, m, p.src);
    VoteReqIs(Cfg(n, i), nd, p.src, m);
    assert s'.nodes[i] == After(nd, o);
    assert s'.trace == s.trace;
    assert PacketOK(n, h, s.nodes, p);
    if m.term >= nd.hard.term && ToInt(nd'.hard.vote) >= 0
       && (nd'.hard.vote == NO_VOTE || nd'.hard.vote == m.candidateId)
       && UpToDate(nd.hard.log, m.lastLogIdx, m.lastLogTerm) {
      h' := VoteGranted(n, s, h, i, p);
      assert multiset(o.sent) == multiset{Packet(i, p.src, VoteRes(m.term, true))};
    } else {
      h' := h;
      ExtendsRefl(h);
      if m.term >= nd.hard.term {
        CaughtMove(n, s, h, i, p);
      }
      var s1 := Put(s, i, After(nd, o));
      assert After(nd, o) == nd ==> s1 == s;
      if o.sent == [] {
        FewerPackets(n, s1, h, s.net - multiset{p}, s.trace);
        assert multiset(o.sent) == multiset{};
        assert s' == s1.(net := s.net - multiset{p});
      } else {
        PlainReply(n, s, h, p, After(nd, o), i, o.sent[0]);
        assert multiset(o.sent) == multiset{o.sent[0]};
        assert s' == s1.(net := s.net - multiset{p} + multiset{o.sent[0]});
      }
    }
  }

  // ---- votes received

  ghost predicate LeaderOK(n: nat, h: History, i: nat, nd: Node) {
    && i < n && 2 <= n < NO_VOTE && Shaped(Cfg(n, i), nd.soft)
    && nd.hard.term in h.reigns && h.reigns[nd.hard.term].node == i && h.reigns[nd.hard.term].log == nd.hard.log
    && (forall j | 0 <= j < n :: nd.soft.nextIndex[j] <= |nd.hard.log|)
    && Committed(n, h, nd.hard.term, nd.hard.log, nd.soft.commitIndex)
  }

  /** A request built by a leader is true of its log and of what is committed. */
  lemma BroadcastPacketOK(n: nat, h: History, i: nat, nd: Node, heartbeat: bool, p: Packet)
    requires LeaderOK(n, h, i, nd) && p in AppendRequests(Cfg(n, i), nd, n, heartbeat)
    ensures p.msg.AppendReq? && AppendReqOK(n, h, p)
  {
    AppendRequestIs(Cfg(n, i), nd, n, heartbeat, p);
    BeforeIsPredecessor(nd.soft.nextIndex[p.dst]);
  }

  lemma BroadcastMove(n: nat, s: System, h: History, i: nat, heartbeat: bool)
    requires Inv(n, s, h) && i < n && s.nodes[i].soft.role == Leader
    ensures Inv(n, s.(net := s.net + multiset(AppendRequests(Cfg(n, i), s.nodes[i], n, heartbeat))), h)
  {
    var nd := s.nodes[i];
    assert LeaderOK(n, h, i, nd) by {
      assert NodeOK(n, h, i, nd);
    }
    forall p | p in AppendRequests(Cfg(n, i), nd, n, heartbeat)
      ensures PacketOK(n, h, s.nodes, p) && !Countable(p)
    {
      BroadcastPacketOK(n, h, i, nd, heartbeat, p);
    }
    SendPlain(n, s, h, AppendRequests(Cfg(n, i), nd, n, heartbeat));
  }

  lemma ConsumeMove(n: nat, s: System, h: History, p: Packet)
    requires Inv(n, s, h)
    ensures Inv(n, s.(net := s.net - multiset{p}), h)
  {
  }

  /** A step-down that consumes one packet. */
  lemma StepDownRuns(n: nat, s: System, h: History, i: nat, p: Packet, t: u32, leaderId: u32)
    requires Inv(n, s, h) && i < n && t > s.nodes[i].hard.term
    requires Sized(n, Done(s, i, Receive(p), StepDown(s.nodes[i].soft, t, leaderId)))
    ensures Inv(n, Done(s, i, Receive(p), StepDown(s.nodes[i].soft, t, leaderId)), h)
  {
    var o := StepDown(s.nodes[i].soft, t, leaderId);
    var s' := Done(s, i, Receive(p), o);
    ApplyWritesShort(s.nodes[i].hard, SetTerm(t), SetVote(NO_VOTE));
    assert s'.nodes[i].hard.term == t;
    StepDownMove(n, s, h, i, t, leaderId);
    var s1 := Put(s, i, After(s.nodes[i], o));
    ConsumeMove(n, s1, h, p);
    assert s' == s1.(net := s.net - multiset{p});
  }

  /** A handler that does nothing consumes its packet. */
  lemma NothingRuns(n: nat, s: System, h: History, i: nat, p: Packet)
    requires Inv(n, s, h) && i < n
    ensures Inv(n, Done(s, i, Receive(p), Nothing(s.nodes[i].soft)), h)
  {
    ConsumeMove(n, s, h, p);
    assert After(s.nodes[i], Nothing(s.nodes[i].soft)) == s.nodes[i];
    assert Done(s, i, Receive(p), Nothing(s.nodes[i].soft)) == s.(net := s.net - multiset{p});
  }

  function OneMoreVote(nd: Node): Node {
    nd.(soft := nd.soft.(votesReceived := nd.soft.votesReceived + 1))
  }

  /** What counting a vote comes to: one more vote, and leadership with the majority. */
  predicate CountOutcome(cfg: Config, nd: Node, o: Outcome)
    requires cfg.Valid() && Shaped(cfg, nd.soft) && Fits(nd)
  {
    var nd' := OneMoreVote(nd);
    && o.applied == []
    && if nd'.soft.votesReceived > cfg.n / 2 then
         var nd2 := nd'.(soft := LeaderState(cfg, nd'));
         Shaped(cfg, nd2.soft) && After(nd, o) == nd2 && o.sent == AppendRequests(cfg, nd2, cfg.n, true)
       else After(nd, o) == nd' && o.sent == []
  }

  lemma CountIs(cfg: Config, nd: Node, src: u32, m: Message)
    requires cfg.Valid() && Shaped(cfg, nd.soft) && Fits(nd) && m.VoteRes? && m.granted
    requires nd.soft.role == Candidate && m.term == nd.hard.term
    ensures CountOutcome(cfg, nd, HandleVoteRes(cfg, nd, src, m))
  {
  }

  lemma WinRuns(n: nat, s: System, h: History, i: nat, nd: Node) returns (h': History)
    requires Inv(n, s, h) && i < n && Wins(n, s, i, nd)
    ensures Extends(h, h') && Shaped(Cfg(n, i), nd.soft)
    ensures Inv(n, Put(s, i, nd).(net := s.net + multiset(AppendRequests(Cfg(n, i), nd, n, true))), h')
  {
    h' := WinMove(n, s, h, i, nd);
    BroadcastMove(n, Put(s, i, nd), h', i, true);
  }

  lemma CountRuns(n: nat, s: System, h: History, i: nat, p: Packet, o: Outcome) returns (h': History)
    requires Inv(n, s, h) && Offered(n, s, i, Receive(p)) && p.msg.VoteRes? && p.msg.granted
    requires CandidateAt(s.nodes, i, p.msg.term) && CountOutcome(Cfg(n, i), s.nodes[i], o)
    ensures Extends(h, h') && Inv(n, Done(s, i, Receive(p), o), h')
  {
    var nd := s.nodes[i];
    var s' := Done(s, i, Receive(p), o);
    var nd1 := OneMoreVote(nd);
    h' := CountMove(n, s, h, i, p, nd1);
    var s1 := Put(s, i, nd1).(net := s.net - multiset{p});
    assert s'.trace == s.trace;
    if nd1.soft.votesReceived > n / 2 {
      var nd2 := nd1.(soft := LeaderState(Cfg(n, i), nd1));
      var h1 := h';
      h' := WinRuns(n, s1, h1, i, nd2);
      ExtendsTrans(h, h1, h');
      assert s'.nodes == Put(s1, i, nd2).nodes;
    } else {
      assert s' == s1;
    }
  }

  lemma VoteResRuns(n: nat, s: System, h: History, i: nat, p: Packet) returns (h': History)
    requires Inv(n, s, h) && Offered(n, s, i, Receive(p)) && p.msg.VoteRes?
    requires Sized(n, Done(s, i, Receive(p), HandleVoteRes(Cfg(n, i), s.nodes[i], p.src, p.msg)))
    ensures Extends(h, h')
    ensures Inv(n, Done(s, i, Receive(p), HandleVoteRes(Cfg(n, i), s.nodes[i], p.src, p.msg)), h')
  {
    var nd, m := s.nodes[i], p.msg;
    h' := h;
    ExtendsRefl(h);
    if nd.soft.role == Candidate && m.term > nd.hard.term {
      StepDownRuns(n, s, h, i, p, m.term, p.src);
    } else if nd.soft.role == Candidate && m.term == nd.hard.term && m.granted {
      CountIs(Cfg(n, i), nd, p.src, m);
      h' := CountRuns(n, s, h, i, p, HandleVoteRes(Cfg(n, i), nd, p.src, m));
    } else {
      NothingRuns(n, s, h, i, p);
    }
  }

  // ---- timeouts

  /** The outcome of a timer at a follower that suspects its leader, or at a candidate. */
  function Campaign(cfg: Config, nd: Node): Outcome
    requires cfg.Valid()
  {
    if nd.soft.role == Candidate then StartElection(cfg, nd) else BecomeCandidate(cfg, nd)
  }

  function Campaigner(nd: Node): Node {
    if nd.soft.role == Candidate then nd
    else nd.(soft := nd.soft.(role := Candidate, leaderId := NO_LEADER, votesReceived := 0))
  }

  lemma CampaignIs(cfg: Config, nd: Node)
    requires cfg.Valid() && nd.hard.term < INT_SPAN && After(nd, Campaign(cfg, nd)).hard.term < INT_SPAN
    ensures nd.hard.term + 1 < INT_SPAN
    ensures var o := Campaign(cfg, nd);
            && o.applied == [] && o.soft == Campaigner(nd).soft.(votesReceived := 1)
            && After(nd, o).hard == Durable(nd.hard.term + 1, cfg.id, nd.hard.log)
            && o.sent == VoteRequests(cfg, After(nd, o).hard, cfg.n)
  {
    ApplyWritesShort(nd.hard, SetTerm(ToWord(nd.hard.term + 1)), SetVote(cfg.id));
  }

  lemma CampaignRuns(n: nat, s: System, h: History, i: nat, input: Input) returns (h': History)
    requires Inv(n, s, h) && i < n && input.Timeout?
    requires Sized(n, Done(s, i, input, Campaign(Cfg(n, i), s.nodes[i])))
    ensures Extends(h, h')
    ensures Inv(n, Done(s, i, input, Campaign(Cfg(n, i), s.nodes[i])), h')
  {
    var nd := s.nodes[i];
    var o := Campaign(Cfg(n, i), nd);
    var s' := Done(s, i, input, o);
    assert Fits(nd) && nd.hard.term < INT_SPAN;
    assert s'.nodes[i] == After(nd, o) && s'.nodes[i].hard.term < INT_SPAN;
    CampaignIs(Cfg(n, i), nd);
    assert Shaped(Cfg(n, i), s'.nodes[i].soft);
    h' := StandMove(n, s, h, i, After(nd, o));
    assert s'.trace == s.trace;
  }

  lemma TimeoutRuns(n: nat, s: System, h: History, i: nat, input: Input) returns (h': History)
    requires Inv(n, s, h) && i < n && input.Timeout?
    requires Sized(n, Done(s, i, input, Handle(Cfg(n, i), s.nodes[i], input)))
    ensures Extends(h, h')
    ensures Inv(n, Done(s, i, input, Handle(Cfg(n, i), s.nodes[i], input)), h')
  {
    var nd := s.nodes[i];
    var o := Handle(Cfg(n, i), nd, input);
    var s' := Done(s, i, input, o);
    if nd.soft.role == Candidate || (nd.soft.role == Follower && input.suspect) {
      h' := CampaignRuns(n, s, h, i, input);
    } else {
      h' := h;
      ExtendsRefl(h);
      assert After(nd, o) == nd && Put(s, i, nd) == s;
      if nd.soft.role == Leader {
        BroadcastMove(n, s, h, i, true);
        assert s' == s.(net := s.net + multiset(AppendRequests(Cfg(n, i), nd, n, true)));
      } else {
        assert s' == s;
      }
    }
  }
}
