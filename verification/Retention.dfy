/** What is committed in a node's log stays there: no write of any handler takes it away. */
module Retention {
  import opened Words
  import opened Types
  import opened NodeSpec
  import opened Cluster
  import opened Invariants
  import opened Growth
  import opened Moves
  import opened Replication
  import opened AppendHandlers
  import opened Runs

  /** Every committed prefix of the old log is a prefix of the new one. */
  ghost predicate Retains(n: nat, h: History, t: u32, log: seq<Entry>, log': seq<Entry>) {
    forall c | c >= 0 && Committed(n, h, t, log, c) :: Has(log', log, c)
  }

  lemma RetainsSame(n: nat, h: History, t: u32, log: seq<Entry>, log': seq<Entry>)
    requires log <= log'
    ensures Retains(n, h, t, log, log')
  {
  }

  lemma RetainsTrans(n: nat, h: History, t: u32, a: seq<Entry>, b: seq<Entry>, c: seq<Entry>)
    requires Retains(n, h, t, a, b) && Retains(n, h, t, b, c)
    ensures Retains(n, h, t, a, c)
  {
    forall k | k >= 0 && Committed(n, h, t, a, k)
      ensures Has(c, a, k)
    {
      ExtendsRefl(h);
      CommittedMono(n, h, h, t, t, a, b, k);
      HasTrans(c, b, a, k);
    }
  }

  /** A truncation stays above everything committed. */
  lemma FollowRetains(n: nat, s: System, h: History, i: nat, log': seq<Entry>)
    requires Inv(n, s, h) && Follows(n, s, h, i, log')
    ensures Retains(n, h, s.nodes[i].hard.term, s.nodes[i].hard.log, log')
  {
    var log, t := s.nodes[i].hard.log, s.nodes[i].hard.term;
    forall c | c >= 0 && Committed(n, h, t, log, c)
      ensures Has(log', log, c)
    {
      FollowerKeepsCommitted(n, s, h, i, log', c);
      CommittedIsPresent(n, h, t, log', c);
      CommittedIsPresent(n, h, t, log, c);
      assert log'[..c + 1] == log[..c + 1];
    }
  }

  lemma CutRetains(n: nat, s: System, h: History, i: nat, at: nat, entries: seq<Entry>)
    requires Inv(n, s, h) && Offers(n, s, h, i, at, entries) && Conflicts(s.nodes[i].hard.log, at, entries)
    ensures Retains(n, h, s.nodes[i].hard.term, s.nodes[i].hard.log, s.nodes[i].hard.log[..at])
  {
    TermMatchExtends(n, s, h, i, at, entries);
    assert Fits(s.nodes[i]);
    assert Cut(s.nodes[i].hard.log, h.reigns[s.nodes[i].hard.term].log, s.nodes[i].hard.log[..at]);
    FollowRetains(n, s, h, i, s.nodes[i].hard.log[..at]);
  }

  /** One entry of the merge loop, with what its writes retain. */
  lemma HeadRetains(n: nat, s: System, h: History, i: nat, at: nat, entries: seq<Entry>, w: nat)
    returns (s': System, w': nat)
    requires Inv(n, s, h) && Offers(n, s, h, i, at, entries)
    requires 1 <= w <= |MergeWrites(s.nodes[i].hard.log, at, entries)|
    requires !(w == 1 && Conflicts(s.nodes[i].hard.log, at, entries))
    ensures Inv(n, s', h) && Offers(n, s', h, i, at + 1, entries[1..])
    ensures w' <= |MergeWrites(s'.nodes[i].hard.log, at + 1, entries[1..])|
    ensures MergedPart(s.nodes[i].hard, at, entries, w).log
            == MergedPart(s'.nodes[i].hard, at + 1, entries[1..], w').log
    ensures s'.nodes[i].hard.term == s.nodes[i].hard.term
    ensures Retains(n, h, s.nodes[i].hard.term, s.nodes[i].hard.log, s'.nodes[i].hard.log)
  {
    var nd := s.nodes[i];
    if Conflicts(nd.hard.log, at, entries) {
      MergedPartCut(nd.hard, at, entries, w);
      CutMove(n, s, h, i, at, entries);
      CutRetains(n, s, h, i, at, entries);
      var s1 := Put(s, i, WithLog(nd, nd.hard.log[..at]));
      GrowMove(n, s1, h, i, at, entries);
      s', w' := Put(s1, i, WithLog(s1.nodes[i], nd.hard.log[..at] + [entries[0]])), w - 2;
      RetainsSame(n, h, nd.hard.term, nd.hard.log[..at], s'.nodes[i].hard.log);
      RetainsTrans(n, h, nd.hard.term, nd.hard.log, nd.hard.log[..at], s'.nodes[i].hard.log);
    } else if at < |nd.hard.log| {
      TermMatchExtends(n, s, h, i, at, entries);
      s', w' := s, w;
      RetainsSame(n, h, nd.hard.term, nd.hard.log, nd.hard.log);
    } else {
      MergedPartGrow(nd.hard, at, entries, w);
      GrowMove(n, s, h, i, at, entries);
      s', w' := Put(s, i, WithLog(nd, nd.hard.log + [entries[0]])), w - 1;
      RetainsSame(n, h, nd.hard.term, nd.hard.log, s'.nodes[i].hard.log);
    }
  }

  /** The merge loop retains what is committed after each of its writes. */
  lemma {:induction false} MergeRetains(n: nat, s: System, h: History, i: nat, at: nat, entries: seq<Entry>, w: nat)
    requires Inv(n, s, h) && Offers(n, s, h, i, at, entries)
    requires w <= |MergeWrites(s.nodes[i].hard.log, at, entries)|
    ensures Retains(n, h, s.nodes[i].hard.term, s.nodes[i].hard.log, MergedPart(s.nodes[i].hard, at, entries, w).log)
    decreases |entries|
  {
    var hard := s.nodes[i].hard;
    if w == 0 {
      MergedPartNone(hard, at, entries);
      RetainsSame(n, h, hard.term, hard.log, hard.log);
    } else if w == 1 && Conflicts(hard.log, at, entries) {
      MergedPartCut(hard, at, entries, w);
      CutRetains(n, s, h, i, at, entries);
    } else {
      var s', w' := HeadRetains(n, s, h, i, at, entries, w);
      MergeRetains(n, s', h, i, at + 1, entries[1..], w');
      RetainsTrans(n, h, hard.term, hard.log, s'.nodes[i].hard.log, MergedPart(hard, at, entries, w).log);
    }
  }

  // ---- handlers

  /** The log after the first w writes of a handler. */
  function LogAfter(nd: Node, o: Outcome, w: nat): seq<Entry>
    requires w <= |o.writes|
  {
    ApplyWrites(nd.hard, o.writes[..w]).log
  }

  lemma AppendReqRetains(n: nat, s: System, h: History, i: nat, p: Packet, w: nat)
    requires Inv(n, s, h) && Offered(n, s, i, Receive(p)) && p.msg.AppendReq?
    requires var o := HandleAppendReq(Cfg(n, i), s.nodes[i], p.msg);
             w <= |o.writes| && ApplyWrites(s.nodes[i].hard, o.writes[..w]).term < INT_SPAN
    ensures var o := HandleAppendReq(Cfg(n, i), s.nodes[i], p.msg);
            Retains(n, h, s.nodes[i].hard.term, s.nodes[i].hard.log, LogAfter(s.nodes[i], o, w))
  {
    var nd, m := s.nodes[i], p.msg;
    var o, down := HandleAppendReq(Cfg(n, i), nd, m), DownWrites(nd, m);
    AppendReqWrites(Cfg(n, i), nd, m);
    if w <= |down| || o.writes == down {
      assert o.writes[..w] == [] || o.writes[..w] == down[..w];
      TermWritesKeepLog(nd.hard, m.term, o.writes[..w]);
      RetainsSame(n, h, nd.hard.term, nd.hard.log, nd.hard.log);
    } else {
      var merge := JoinWrites(nd, m)[..w - |down|];
      assert o.writes[..w] == down + merge;
      ApplyWritesConcat(nd.hard, down, merge);
      JoinRetains(n, s, h, i, p, w - |down|);
    }
  }

  lemma TermWritesKeepLog(d: Durable, t: u32, ws: seq<Write>)
    requires ws == [] || ws <= StepDownWrites(t)
    ensures ApplyWrites(d, ws).log == d.log
  {
    ApplyWritesShort(d, SetTerm(t), SetVote(NO_VOTE));
    assert ws == [] || ws == [SetTerm(t)] || ws == [SetTerm(t), SetVote(NO_VOTE)];
  }

  lemma JoinRetains(n: nat, s: System, h: History, i: nat, p: Packet, w: nat)
    requires Inv(n, s, h) && Offered(n, s, i, Receive(p)) && p.msg.AppendReq?
    requires s.nodes[i].hard.term <= p.msg.term && PrevMatches(s.nodes[i].hard.log, p.msg)
    requires var ws := JoinWrites(s.nodes[i], p.msg);
             w <= |ws| && ApplyWrites(Heard(s.nodes[i], p.msg).hard, ws[..w]).term < INT_SPAN
    ensures Retains(n, h, s.nodes[i].hard.term, s.nodes[i].hard.log,
                    ApplyWrites(Heard(s.nodes[i], p.msg).hard, JoinWrites(s.nodes[i], p.msg)[..w]).log)
  {
    var nd, at := Heard(s.nodes[i], p.msg), ToInt(p.msg.prevLogIdx) + 1;
    assert PacketOK(n, h, s.nodes, p);
    MergeKeepsTerm(nd.hard, at, p.msg.entries, w);
    HeardMove(n, s, h, i, p);
    PrevAgrees(n, Put(s, i, nd), h, i, p.msg, p.src);
    MergeRetains(n, Put(s, i, nd), h, i, at, p.msg.entries, w);
    RetainsLower(n, h, s.nodes[i].hard.term, nd.hard.term, nd.hard.log, MergedPart(nd.hard, at, p.msg.entries, w).log);
  }

  lemma RetainsLower(n: nat, h: History, t: u32, t': u32, log: seq<Entry>, log': seq<Entry>)
    requires t <= t' && Retains(n, h, t', log, log')
    ensures Retains(n, h, t, log, log')
  {
    forall c | c >= 0 && Committed(n, h, t, log, c)
      ensures Has(log', log, c)
    {
      ExtendsRefl(h);
      CommittedIsPresent(n, h, t, log, c);
      CommittedMono(n, h, h, t, t', log, log, c);
    }
  }

  /** Other handlers never shorten the log. */
  lemma OtherHandlersGrow(n: nat, s: System, i: nat, input: Input, w: nat)
    requires Sized(n, s) && Offered(n, s, i, input) && (input.Receive? ==> !input.p.msg.AppendReq?)
    requires w <= |Handle(Cfg(n, i), s.nodes[i], input).writes|
    ensures s.nodes[i].hard.log <= LogAfter(s.nodes[i], Handle(Cfg(n, i), s.nodes[i], input), w)
  {
    NeverTruncates(s.nodes[i].hard, Handle(Cfg(n, i), s.nodes[i], input).writes[..w]);
  }

  lemma {:induction false} NeverTruncates(d: Durable, ws: seq<Write>)
    requires forall w | w in ws :: !w.Truncate?
    ensures d.log <= ApplyWrites(d, ws).log
    decreases |ws|
  {
    if ws != [] {
      NeverTruncates(ApplyWrite(d, ws[0]), ws[1..]);
    }
  }

  lemma HandlerRetains(n: nat, s: System, h: History, i: nat, input: Input, w: nat)
    requires Inv(n, s, h) && Offered(n, s, i, input)
    requires var o := Handle(Cfg(n, i), s.nodes[i], input);
             w <= |o.writes| && ApplyWrites(s.nodes[i].hard, o.writes[..w]).term < INT_SPAN
    ensures var o := Handle(Cfg(n, i), s.nodes[i], input);
            Retains(n, h, s.nodes[i].hard.term, s.nodes[i].hard.log, LogAfter(s.nodes[i], o, w))
  {
    if input.Receive? && input.p.msg.AppendReq? {
      AppendReqRetains(n, s, h, i, input.p, w);
    } else {
      OtherHandlersGrow(n, s, i, input, w);
      RetainsSame(n, h, s.nodes[i].hard.term, s.nodes[i].hard.log,
                  LogAfter(s.nodes[i], Handle(Cfg(n, i), s.nodes[i], input), w));
    }
  }

  /** No step, complete or cut short by a crash, takes a committed entry out of any log. */
  lemma StepRetains(n: nat, s: System, a: Action, s': System, h: History, i: nat)
    requires Inv(n, s, h) && Step(n, s, a, s') && i < n
    ensures Retains(n, h, s.nodes[i].hard.term, s.nodes[i].hard.log, s'.nodes[i].hard.log)
  {
    assert s'.nodes[i].hard.term < INT_SPAN;
    if a.Run? && a.node == i {
      var ws := Handle(Cfg(n, i), s.nodes[i], a.input).writes;
      assert ws[..|ws|] == ws;
      HandlerRetains(n, s, h, i, a.input, |ws|);
    } else if a.CrashIn? && a.node == i {
      HandlerRetains(n, s, h, i, a.input, a.writes);
    } else {
      RetainsSame(n, h, s.nodes[i].hard.term, s.nodes[i].hard.log, s.nodes[i].hard.log);
    }
  }
}
