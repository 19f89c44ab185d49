/**
 The handlers of a leader, run to their ends, are sequences of moves; the commit rule accepts only
 what a majority stores.
 */
module LeaderHandlers {
  import opened Words
  import opened Types
  import opened NodeSpec
  import opened NodeFacts
  import opened Cluster
  import opened Invariants
  import opened Growth
  import opened Moves
  import opened Replication
  import opened VoteHandlers
  import opened AppendHandlers

  // ---- acknowledgements

  predicate MatchesOnRecord(n: nat, h: History, i: nat, t: u32, mi: seq<int>) {
    |mi| == n && forall j | 0 <= j < n && j != i && mi[j] >= 0 :: Ack(t, j, mi[j]) in h.acks
  }

  /** What the commit rule counts is a majority that stored the entry. */
  lemma CommittableIsChosen(n: nat, h: History, i: nat, hard: Durable, mi: seq<int>, c: int)
    requires i < n && MatchesOnRecord(n, h, i, hard.term, mi) && Committable(Cfg(n, i), hard, mi, c)
    requires hard.term in h.reigns && h.reigns[hard.term].node == i && h.reigns[hard.term].log == hard.log
    ensures Chosen(n, h, hard.term, c)
  {
    var q := HoldersAreASet(Cfg(n, i), mi, c, n);
    var quorum := q + {i};
    assert i !in q;
    forall j | j in quorum
      ensures Acked(h, hard.term, j, c)
    {
      if j != i {
        assert Ack(hard.term, j, mi[j]) in h.acks;
      }
    }
    assert ChosenBy(n, h, hard.term, c, quorum);
  }

  lemma CommitPointOK(n: nat, h: History, i: nat, hard: Durable, mi: seq<int>, commit: int)
    requires i < n && MatchesOnRecord(n, h, i, hard.term, mi) && Committed(n, h, hard.term, hard.log, commit)
    requires hard.term in h.reigns && h.reigns[hard.term].node == i && h.reigns[hard.term].log == hard.log
    requires hard.term >= 1
    ensures Committed(n, h, hard.term, hard.log, CommitPoint(Cfg(n, i), hard, mi, commit, |hard.log|))
  {
    CommittedIsPresent(n, h, hard.term, hard.log, commit);
    CommitPointIsGreatest(Cfg(n, i), hard, mi, commit, |hard.log|);
    var c := CommitPoint(Cfg(n, i), hard, mi, commit, |hard.log|);
    if c != commit {
      CommittableIsChosen(n, h, i, hard, mi, c);
      assert CommittedVia(n, h, hard.term, hard.log, c, hard.term, c);
    }
  }

  /** The leader's bookkeeping after a success reply from `src` that vouches for index m. */
  function Matched(cfg: Config, nd: Node, src: nat, m: int): Node
    requires Shaped(cfg, nd.soft) && Fits(nd) && src < cfg.n
  {
    var mi := nd.soft.matchIndex[src := m];
    Node(nd.hard, nd.soft.(matchIndex := mi, nextIndex := nd.soft.nextIndex[src := |nd.hard.log|],
                           commitIndex := CommitPoint(cfg, nd.hard, mi, nd.soft.commitIndex, |nd.hard.log|)))
  }

  lemma MatchedNode(n: nat, h: History, i: nat, nd: Node, src: nat, m: int)
    requires 2 <= n < NO_VOTE && HistOK(n, h) && NodeOK(n, h, i, nd) && nd.soft.role == Leader && src < n
    requires m >= 0 ==> Ack(nd.hard.term, src, m) in h.acks
    ensures NodeOK(n, h, i, Matched(Cfg(n, i), nd, src, m))
  {
    assert ReignOK(n, h, nd.hard.term);
    CommitPointOK(n, h, i, nd.hard, nd.soft.matchIndex[src := m], nd.soft.commitIndex);
  }

  lemma MatchedMove(n: nat, s: System, h: History, i: nat, p: Packet)
    requires Inv(n, s, h) && Offered(n, s, i, Receive(p)) && p.msg.AppendRes? && p.msg.success
    requires s.nodes[i].soft.role == Leader && p.msg.term == s.nodes[i].hard.term
    ensures Inv(n, Put(s, i, Matched(Cfg(n, i), s.nodes[i], p.src, ToInt(p.msg.newMatchIndex))), h)
  {
    assert PacketOK(n, h, s.nodes, p) && NodeOK(n, h, i, s.nodes[i]);
    MatchedNode(n, h, i, s.nodes[i], p.src, ToInt(p.msg.newMatchIndex));
    LocalMove(n, s, h, i, Matched(Cfg(n, i), s.nodes[i], p.src, ToInt(p.msg.newMatchIndex)));
  }

  lemma SuccessRuns(n: nat, s: System, h: History, i: nat, p: Packet)
    requires Inv(n, s, h) && Offered(n, s, i, Receive(p)) && p.msg.AppendRes? && p.msg.success
    requires s.nodes[i].soft.role == Leader && p.msg.term == s.nodes[i].hard.term
    ensures Inv(n, Done(s, i, Receive(p), HandleAppendRes(Cfg(n, i), s.nodes[i], p.src, p.msg)), h)
  {
    var nd1 := Matched(Cfg(n, i), s.nodes[i], p.src, ToInt(p.msg.newMatchIndex));
    var s1 := Put(s, i, nd1);
    MatchedMove(n, s, h, i, p);
    ProgressMove(n, s1, h, i);
    ConsumeMove(n, Progressed(n, s1, i), h, p);
    ProgressSends(n, s1, i, p);
    SuccessIs(n, s, i, p);
  }

  lemma SuccessIs(n: nat, s: System, i: nat, p: Packet)
    requires Sized(n, s) && Offered(n, s, i, Receive(p)) && p.msg.AppendRes? && p.msg.success
    requires s.nodes[i].soft.role == Leader && p.msg.term == s.nodes[i].hard.term
    ensures var s2 := Progressed(n, Put(s, i, Matched(Cfg(n, i), s.nodes[i], p.src, ToInt(p.msg.newMatchIndex))), i);
            Done(s, i, Receive(p), HandleAppendRes(Cfg(n, i), s.nodes[i], p.src, p.msg))
            == s2.(net := s2.net - multiset{p})
  {
  }

  lemma BackOffRuns(n: nat, s: System, h: History, i: nat, p: Packet)
    requires Inv(n, s, h) && Offered(n, s, i, Receive(p)) && p.msg.AppendRes? && !p.msg.success
    requires s.nodes[i].soft.role == Leader && p.msg.term == s.nodes[i].hard.term
    ensures Inv(n, Done(s, i, Receive(p), HandleAppendRes(Cfg(n, i), s.nodes[i], p.src, p.msg)), h)
  {
    var nd := s.nodes[i];
    var o := HandleAppendRes(Cfg(n, i), nd, p.src, p.msg);
    assert NodeOK(n, h, i, nd);
    LocalMove(n, s, h, i, After(nd, o));
    ConsumeMove(n, Put(s, i, After(nd, o)), h, p);
    assert Done(s, i, Receive(p), o) == Put(s, i, After(nd, o)).(net := s.net - multiset{p});
  }

  lemma AppendResRuns(n: nat, s: System, h: History, i: nat, p: Packet)
    requires Inv(n, s, h) && Offered(n, s, i, Receive(p)) && p.msg.AppendRes?
    requires Sized(n, Done(s, i, Receive(p), HandleAppendRes(Cfg(n, i), s.nodes[i], p.src, p.msg)))
    ensures Inv(n, Done(s, i, Receive(p), HandleAppendRes(Cfg(n, i), s.nodes[i], p.src, p.msg)), h)
  {
    var nd, m := s.nodes[i], p.msg;
    if m.term > nd.hard.term {
      StepDownRuns(n, s, h, i, p, m.term, p.src);
    } else if nd.soft.role != Leader || m.term < nd.hard.term {
      NothingRuns(n, s, h, i, p);
    } else if m.success {
      SuccessRuns(n, s, h, i, p);
    } else {
      BackOffRuns(n, s, h, i, p);
    }
  }

  // ---- client requests

  function NewEntry(nd: Node, m: Message): Entry
    requires m.ProcReq?
  {
    Entry(nd.hard.term, m.clientId, m.cmdSeqno, m.cmd)
  }

  lemma ClaimMove(n: nat, s: System, h: History, i: nat, m: Message, len: Len)
    requires Inv(n, s, h) && i < n && m.ProcReq? && s.nodes[i].soft.role == Leader
    ensures Inv(n, Put(s, i, Node(s.nodes[i].hard, Claim(s.nodes[i].soft, len, m))), h)
  {
    assert NodeOK(n, h, i, s.nodes[i]);
    LocalMove(n, s, h, i, Node(s.nodes[i].hard, Claim(s.nodes[i].soft, len, m)));
  }

  function WithRequest(n: nat, nd: Node, m: Message): Node
    requires m.ProcReq? && Fits(nd)
  {
    Node(Longer(nd, NewEntry(nd, m)).hard, Claim(nd.soft, |nd.hard.log|, m))
  }

  lemma WithRequestMove(n: nat, s: System, h: History, i: nat, m: Message) returns (h': History)
    requires Inv(n, s, h) && i < n && m.ProcReq? && s.nodes[i].soft.role == Leader
    requires |s.nodes[i].hard.log| + 1 < INT_SPAN
    ensures Extends(h, h') && Inv(n, Put(s, i, WithRequest(n, s.nodes[i], m)), h')
  {
    var nd := s.nodes[i];
    h' := EntryMove(n, s, h, i, NewEntry(nd, m));
    var s1 := Put(s, i, Longer(nd, NewEntry(nd, m)));
    ClaimMove(n, s1, h', i, m, |nd.hard.log|);
    assert Put(s, i, WithRequest(n, nd, m)) == Put(s1, i, WithRequest(n, nd, m));
  }

  lemma WithRequestIs(n: nat, s: System, i: nat, p: Packet)
    requires Sized(n, s) && Offered(n, s, i, Receive(p)) && p.msg.ProcReq? && s.nodes[i].soft.role == Leader
    ensures var nd', s' := WithRequest(n, s.nodes[i], p.msg),
                           Done(s, i, Receive(p), HandleProcReq(Cfg(n, i), s.nodes[i], p.src, p.msg));
            && Shaped(Cfg(n, i), nd'.soft) && nd'.soft.role == Leader
            && s' == System(s.nodes[i := nd'], s.net - multiset{p} + multiset(AppendRequests(Cfg(n, i), nd', n, false)),
                            s.trace)
  {
    var nd := s.nodes[i];
    ApplyWritesShort(nd.hard, Append(NewEntry(nd, p.msg)), Append(NewEntry(nd, p.msg)));
  }

  lemma ProcReqRuns(n: nat, s: System, h: History, i: nat, p: Packet) returns (h': History)
    requires Inv(n, s, h) && Offered(n, s, i, Receive(p)) && p.msg.ProcReq?
    requires Sized(n, Done(s, i, Receive(p), HandleProcReq(Cfg(n, i), s.nodes[i], p.src, p.msg)))
    ensures Extends(h, h')
    ensures Inv(n, Done(s, i, Receive(p), HandleProcReq(Cfg(n, i), s.nodes[i], p.src, p.msg)), h')
  {
    var nd := s.nodes[i];
    var o := HandleProcReq(Cfg(n, i), nd, p.src, p.msg);
    var s' := Done(s, i, Receive(p), o);
    if nd.soft.role == Leader {
      var nd' := WithRequest(n, nd, p.msg);
      WithRequestIs(n, s, i, p);
      assert Fits(s'.nodes[i]);
      h' := WithRequestMove(n, s, h, i, p.msg);
      var s1 := Put(s, i, nd');
      ConsumeMove(n, s1, h', p);
      BroadcastMove(n, s1.(net := s.net - multiset{p}), h', i, false);
    } else {
      h' := h;
      ExtendsRefl(h);
      assert After(nd, o) == nd && Put(s, i, nd) == s;
      PlainReply(n, s, h, p, nd, i, o.sent[0]);
      assert s' == Put(s, i, nd).(net := s.net - multiset{p} + multiset{o.sent[0]});
    }
  }
}
