/**
 The moves of replication: a follower's cuts and appends, its acknowledgements, and the leader's
 own appends, none of which loses anything chosen.
 */
module Replication {
  import opened Words
  import opened Types
  import opened Cluster
  import opened Invariants
  import opened Growth
  import opened Moves
  import opened Elections

  // ---- a follower adopts the leader's log, one write at a time

  /** Cut just before the first entry that disagrees with the leader. */
  predicate Cut(log: seq<Entry>, ref: seq<Entry>, log': seq<Entry>) {
    var p := |log'|;
    && p < |log| && p < |ref| && log' == log[..p] && log[..p] == ref[..p]
    && log[p].term != ref[p].term
  }

  /** One more entry of the leader. */
  predicate Grown(log: seq<Entry>, ref: seq<Entry>, log': seq<Entry>) {
    |log| < |ref| && log == ref[..|log|] && log' == ref[..|log| + 1]
  }

  ghost predicate Follows(n: nat, s: System, h: History, i: nat, log': seq<Entry>) {
    && i < |s.nodes| && |log'| < INT_SPAN
    && var nd := s.nodes[i];
    && nd.soft.role == Follower
    && nd.hard.term in h.reigns && h.reigns[nd.hard.term].node != i
    && var ref := h.reigns[nd.hard.term].log;
    Cut(nd.hard.log, ref, log') || Grown(nd.hard.log, ref, log')
  }

  function WithLog(nd: Node, log: seq<Entry>): Node {
    nd.(hard := nd.hard.(log := log))
  }

  lemma LogOKPrefix(h: History, log: seq<Entry>, p: nat)
    requires LogOK(h, log) && p <= |log|
    ensures LogOK(h, log[..p])
  {
    forall k | 0 <= k < p
      ensures Rooted(h, log[..p], k)
    {
      assert Rooted(h, log, k);
      assert log[..p][..k + 1] == log[..k + 1];
    }
  }

  /** The leader of a term, and every node that acknowledged in it, has reached that term. */
  lemma AckedReached(n: nat, s: System, h: History, t: u32, q: nat, k: int)
    requires Inv(n, s, h) && q < n && Acked(h, t, q, k)
    ensures s.nodes[q].hard.term >= t
  {
    assert NodeOK(n, h, q, s.nodes[q]);
    assert ReignOK(n, h, t);
    if h.reigns[t].node == q {
      var v :| v in h.reigns[t].voters;
      assert Grant(t, v, q) in h.grants;
    }
  }

  /** What agrees through k keeps agreeing when the log follows a reference that agrees too. */
  lemma FollowingKeeps(log: seq<Entry>, ref: seq<Entry>, log': seq<Entry>, other: seq<Entry>, k: int)
    requires Cut(log, ref, log') || Grown(log, ref, log')
    requires Has(log, other, k) && (Cut(log, ref, log') ==> Has(ref, other, k))
    ensures Has(log', other, k)
  {
    if Cut(log, ref, log') {
      var p := |log'|;
      if p <= k {
        HasShorter(log, other, k, p);
        HasShorter(ref, other, k, p);
        assert false;
      }
    }
    assert log'[..k + 1] == log[..k + 1];
  }

  lemma FollowerKeeps(n: nat, s: System, h: History, i: nat, log': seq<Entry>, t: u32, k: int)
    requires Inv(n, s, h) && Follows(n, s, h, i, log')
    requires Own(h, t, k) && t <= s.nodes[i].hard.term && Kept(s.nodes, h, s.nodes[i].hard.log, t, k)
    ensures Kept(s.nodes, h, log', t, k)
  {
    var nd := s.nodes[i];
    var ref := h.reigns[nd.hard.term].log;
    if Has(nd.hard.log, h.reigns[t].log, k) {
      if t < nd.hard.term {
        BaseKeeps(n, s.nodes, h, t, nd.hard.term, k);
      }
      if Has(ref, h.reigns[t].log, k) {
        FollowingKeeps(nd.hard.log, ref, log', h.reigns[t].log, k);
      }
    }
  }

  /** No truncation reaches a committed entry. */
  lemma FollowerKeepsCommitted(n: nat, s: System, h: History, i: nat, log': seq<Entry>, c: int)
    requires Inv(n, s, h) && Follows(n, s, h, i, log')
    requires Committed(n, h, s.nodes[i].hard.term, s.nodes[i].hard.log, c)
    ensures Committed(n, h, s.nodes[i].hard.term, log', c)
  {
    var nd := s.nodes[i];
    var ref := h.reigns[nd.hard.term].log;
    if c != -1 {
      var t: u32, k :| CommittedVia(n, h, nd.hard.term, nd.hard.log, c, t, k);
      if t < nd.hard.term {
        BaseKeeps(n, s.nodes, h, t, nd.hard.term, k);
        if Dead(s.nodes, h, t, k) {
          DeadIsNotChosen(n, s.nodes, h, t, k);
        }
        HasShorter(ref, h.reigns[t].log, k, c);
      }
      FollowingKeeps(nd.hard.log, ref, log', h.reigns[t].log, c);
      assert CommittedVia(n, h, nd.hard.term, log', c, t, k);
    }
  }

  lemma FollowNode(n: nat, s: System, h: History, i: nat, log': seq<Entry>)
    requires Inv(n, s, h) && Follows(n, s, h, i, log')
    ensures NodeOK(n, h, i, WithLog(s.nodes[i], log'))
  {
    var nd := s.nodes[i];
    var t := nd.hard.term;
    var ref := h.reigns[t].log;
    assert NodeOK(n, h, i, nd);
    assert ReignOK(n, h, t);
    LogOKPrefix(h, if Cut(nd.hard.log, ref, log') then nd.hard.log else ref, |log'|);
    FollowerKeepsCommitted(n, s, h, i, log', nd.soft.commitIndex);
    FollowerKeepsCommitted(n, s, h, i, log', nd.soft.lastApplied);
    forall a | a in h.acks && a.node == i && a.term == t && a.upTo >= 0
      ensures Has(log', ref, a.upTo)
    {
      FollowingKeeps(nd.hard.log, ref, log', ref, a.upTo);
    }
  }

  lemma FollowMove(n: nat, s: System, h: History, i: nat, log': seq<Entry>)
    requires Inv(n, s, h) && Follows(n, s, h, i, log')
    ensures Inv(n, Put(s, i, WithLog(s.nodes[i], log')), h)
  {
    var nd := WithLog(s.nodes[i], log');
    var s' := Put(s, i, nd);
    FollowNode(n, s, h, i, log');
    FollowKeep(n, s, h, i, log');
    forall p | p in s'.net
      ensures PacketOK(n, h, s'.nodes, p)
    {
      assert PacketOK(n, h, s.nodes, p);
    }
    forall j | 0 <= j < n
      ensures NodeOK(n, h, j, s'.nodes[j])
    {
      assert j != i ==> NodeOK(n, h, j, s.nodes[j]);
    }
  }

  lemma FollowNodesKeep(n: nat, s: System, h: History, i: nat, log': seq<Entry>)
    requires Inv(n, s, h) && Follows(n, s, h, i, log')
    ensures NodesKeep(Put(s, i, WithLog(s.nodes[i], log')).nodes, h)
  {
    var nodes' := Put(s, i, WithLog(s.nodes[i], log')).nodes;
    forall q, t: u32, k | 0 <= q < n && Own(h, t, k) && Acked(h, t, q, k)
      ensures Kept(nodes', h, nodes'[q].hard.log, t, k)
    {
      if q == i {
        AckedReached(n, s, h, t, i, k);
        FollowerKeeps(n, s, h, i, log', t, k);
      }
      KeptWithGrants(s.nodes, h, nodes', h, nodes'[q].hard.log, t, k);
    }
  }

  lemma FollowKeep(n: nat, s: System, h: History, i: nat, log': seq<Entry>)
    requires Inv(n, s, h) && Follows(n, s, h, i, log')
    ensures var nodes' := Put(s, i, WithLog(s.nodes[i], log')).nodes;
            LeadersKeep(nodes', h) && NodesKeep(nodes', h) && CandidatesKeep(nodes', h)
  {
    var nodes' := Put(s, i, WithLog(s.nodes[i], log')).nodes;
    FollowNodesKeep(n, s, h, i, log');
    forall t: u32, t': u32, k | t' in h.reigns && t < t' && Own(h, t, k)
      ensures Kept(nodes', h, h.reigns[t'].base, t, k)
    {
      KeptWithGrants(s.nodes, h, nodes', h, h.reigns[t'].base, t, k);
    }
    forall g, t: u32, k | g in h.grants && CandidateAt(nodes', g.candidate, g.term) && t < g.term && Own(h, t, k)
                          && Acked(h, t, g.voter, k)
      ensures Kept(nodes', h, nodes'[g.candidate].hard.log, t, k)
    {
      assert CandidateAt(s.nodes, g.candidate, g.term) && g.candidate != i;
      KeptWithGrants(s.nodes, h, nodes', h, nodes'[g.candidate].hard.log, t, k);
    }
  }

  // ---- an acknowledgement

  /** Node i agrees with its leader through m and says so. */
  ghost predicate Acknowledges(n: nat, s: System, h: History, i: nat, m: int)
  {
    && i < |s.nodes|
    && var hard := s.nodes[i].hard;
    && hard.term in h.reigns && h.reigns[hard.term].node != i
    && -1 <= m && (m >= 0 ==> Has(hard.log, h.reigns[hard.term].log, m))
    && m < |h.reigns[hard.term].log|
  }

  function WithAck(h: History, a: Ack): History {
    h.(acks := h.acks + {a})
  }

  lemma AckedBefore(h: History, a: Ack, t: u32, q: nat, k: int)
    requires Acked(WithAck(h, a), t, q, k)
    ensures Acked(h, t, q, k) || (t == a.term && q == a.node && k <= a.upTo)
  {
  }

  lemma AckDead(n: nat, s: System, h: History, i: nat, m: int, log: seq<Entry>, t: u32, k: int)
    requires Inv(n, s, h) && Acknowledges(n, s, h, i, m) && t in h.reigns && Kept(s.nodes, h, log, t, k)
    ensures Kept(s.nodes, WithAck(h, Ack(s.nodes[i].hard.term, i, m)), log, t, k)
  {
    var a := Ack(s.nodes[i].hard.term, i, m);
    var h' := WithAck(h, a);
    if Dead(s.nodes, h, t, k) {
      forall q | 0 <= q < n && s.nodes[q].hard.term > t && !Acked(h, t, q, k)
        ensures !Acked(h', t, q, k)
      {
        if Acked(h', t, q, k) {
          AckedBefore(h, a, t, q, k);
        }
      }
      DeadMono(s.nodes, h, s.nodes, h', t, k);
    }
  }

  lemma AckKeep(n: nat, s: System, h: History, i: nat, m: int)
    requires Inv(n, s, h) && Acknowledges(n, s, h, i, m)
    ensures var h' := WithAck(h, Ack(s.nodes[i].hard.term, i, m));
            LeadersKeep(s.nodes, h') && NodesKeep(s.nodes, h') && CandidatesKeep(s.nodes, h')
  {
    var a := Ack(s.nodes[i].hard.term, i, m);
    var h' := WithAck(h, a);
    forall t: u32, t': u32, k | t' in h'.reigns && t < t' && Own(h', t, k)
      ensures Kept(s.nodes, h', h'.reigns[t'].base, t, k)
    {
      assert Own(h, t, k);
      AckDead(n, s, h, i, m, h.reigns[t'].base, t, k);
    }
    forall q, t: u32, k | 0 <= q < n && Own(h', t, k) && Acked(h', t, q, k)
      ensures Kept(s.nodes, h', s.nodes[q].hard.log, t, k)
    {
      assert Own(h, t, k);
      AckedBefore(h, a, t, q, k);
      if Acked(h, t, q, k) {
        AckDead(n, s, h, i, m, s.nodes[q].hard.log, t, k);
      } else {
        HasShorter(s.nodes[i].hard.log, h.reigns[t].log, m, k);
      }
    }
    forall g, t: u32, k | g in h'.grants && CandidateAt(s.nodes, g.candidate, g.term) && t < g.term && Own(h', t, k)
                          && Acked(h', t, g.voter, k)
      ensures Kept(s.nodes, h', s.nodes[g.candidate].hard.log, t, k)
    {
      assert Own(h, t, k);
      AckedBefore(h, a, t, g.voter, k);
      assert g.voter < n && NodeOK(n, h, g.voter, s.nodes[g.voter]);
      assert Acked(h, t, g.voter, k);
      AckDead(n, s, h, i, m, s.nodes[g.candidate].hard.log, t, k);
    }
  }

  lemma AckNode(n: nat, s: System, h: History, i: nat, m: int, j: nat)
    requires Inv(n, s, h) && Acknowledges(n, s, h, i, m) && j < n
    ensures NodeOK(n, WithAck(h, Ack(s.nodes[i].hard.term, i, m)), j, s.nodes[j])
  {
    assert NodeOK(n, h, j, s.nodes[j]);
    NodeGrows(n, h, WithAck(h, Ack(s.nodes[i].hard.term, i, m)), j, s.nodes[j]);
  }

  lemma AckHist(n: nat, s: System, h: History, i: nat, m: int)
    requires Inv(n, s, h) && Acknowledges(n, s, h, i, m)
    ensures HistOK(n, WithAck(h, Ack(s.nodes[i].hard.term, i, m)))
  {
    var h' := WithAck(h, Ack(s.nodes[i].hard.term, i, m));
    forall u | u in h'.reigns
      ensures ReignOK(n, h', u)
    {
      assert ReignOK(n, h, u);
      LogOKMono(h, h', h.reigns[u].log);
    }
  }

  lemma AckMove(n: nat, s: System, h: History, i: nat, m: int) returns (h': History)
    requires Inv(n, s, h) && Acknowledges(n, s, h, i, m)
    ensures Extends(h, h') && Inv(n, s, h')
    ensures Ack(s.nodes[i].hard.term, i, m) in h'.acks && h'.reigns == h.reigns
  {
    h' := WithAck(h, Ack(s.nodes[i].hard.term, i, m));
    forall j | 0 <= j < n
      ensures NodeOK(n, h', j, s.nodes[j])
    {
      AckNode(n, s, h, i, m, j);
    }
    AckHist(n, s, h, i, m);
    AckKeep(n, s, h, i, m);
    forall p | p in s.net
      ensures PacketOK(n, h', s.nodes, p)
    {
      PacketGrows(n, h, h', s.nodes, p);
    }
    TraceGrows(n, h, h', s.trace);
  }

  // ---- the leader appends

  ghost predicate Leads(s: System, i: nat) {
    i < |s.nodes| && s.nodes[i].soft.role == Leader && |s.nodes[i].hard.log| + 1 < INT_SPAN
  }

  function Longer(nd: Node, e: Entry): Node {
    WithLog(nd, nd.hard.log + [e])
  }

  function WithEntry(h: History, t: u32, e: Entry): History {
    if t in h.reigns then h.(reigns := h.reigns[t := h.reigns[t].(log := h.reigns[t].log + [e])]) else h
  }

  lemma LeaderIs(n: nat, s: System, h: History, i: nat)
    requires Inv(n, s, h) && Leads(s, i)
    ensures var t := s.nodes[i].hard.term;
            && t in h.reigns && h.reigns[t].node == i && h.reigns[t].log == s.nodes[i].hard.log
            && t >= 1 && ReignOK(n, h, t)
  {
    assert NodeOK(n, h, i, s.nodes[i]);
    assert ReignOK(n, h, s.nodes[i].hard.term);
  }

  lemma EntryExtends(n: nat, s: System, h: History, i: nat, e: Entry)
    requires Inv(n, s, h) && Leads(s, i) && e.term == s.nodes[i].hard.term
    ensures Extends(h, WithEntry(h, e.term, e))
  {
    LeaderIs(n, s, h, i);
  }

  lemma EntryLogOK(n: nat, s: System, h: History, i: nat, e: Entry)
    requires Inv(n, s, h) && Leads(s, i) && e.term == s.nodes[i].hard.term
    ensures LogOK(WithEntry(h, e.term, e), s.nodes[i].hard.log + [e])
  {
    LeaderIs(n, s, h, i);
    EntryExtends(n, s, h, i, e);
    var h', log := WithEntry(h, e.term, e), s.nodes[i].hard.log;
    LogOKMono(h, h', log);
    forall k | 0 <= k < |log + [e]|
      ensures Rooted(h', log + [e], k)
    {
      if k < |log| {
        assert Rooted(h', log, k);
        assert (log + [e])[..k + 1] == log[..k + 1];
      }
    }
  }

  lemma EntryHist(n: nat, s: System, h: History, i: nat, e: Entry)
    requires Inv(n, s, h) && Leads(s, i) && e.term == s.nodes[i].hard.term
    ensures HistOK(n, WithEntry(h, e.term, e))
  {
    LeaderIs(n, s, h, i);
    EntryExtends(n, s, h, i, e);
    EntryLogOK(n, s, h, i, e);
    var h' := WithEntry(h, e.term, e);
    forall u | u in h'.reigns
      ensures ReignOK(n, h', u)
    {
      assert ReignOK(n, h, u);
      if u != e.term {
        LogOKMono(h, h', h.reigns[u].log);
      }
    }
  }

  lemma EntryNode(n: nat, s: System, h: History, i: nat, e: Entry, j: nat)
    requires Inv(n, s, h) && Leads(s, i) && e.term == s.nodes[i].hard.term && j < n
    ensures NodeOK(n, WithEntry(h, e.term, e), j, Put(s, i, Longer(s.nodes[i], e)).nodes[j])
  {
    LeaderIs(n, s, h, i);
    EntryExtends(n, s, h, i, e);
    EntryLogOK(n, s, h, i, e);
    var h', nd := WithEntry(h, e.term, e), s.nodes[j];
    assert NodeOK(n, h, j, nd);
    if j == i {
      LongerStays(n, h, h', e, nd.hard.log, nd.soft.commitIndex);
      LongerStays(n, h, h', e, nd.hard.log, nd.soft.lastApplied);
    } else {
      NodeGrows(n, h, h', j, nd);
    }
  }

  /** What was committed in a log still is once an entry has been added to it. */
  lemma LongerStays(n: nat, h: History, h': History, e: Entry, log: seq<Entry>, c: int)
    requires Extends(h, h') && Committed(n, h, e.term, log, c)
    ensures Committed(n, h', e.term, log + [e], c)
  {
    CommittedIsPresent(n, h, e.term, log, c);
    assert c >= 0 ==> Has(log + [e], log, c);
    CommittedMono(n, h, h', e.term, e.term, log, log + [e], c);
  }

  lemma EntryAcked(n: nat, s: System, h: History, i: nat, e: Entry, t: u32, q: nat, k: int)
    requires Inv(n, s, h) && Leads(s, i) && e.term == s.nodes[i].hard.term
    requires Acked(WithEntry(h, e.term, e), t, q, k)
    ensures Acked(h, t, q, k) || (t == e.term && q == i && k == |s.nodes[i].hard.log|)
  {
    LeaderIs(n, s, h, i);
  }

  lemma EntryOwn(n: nat, s: System, h: History, i: nat, e: Entry, t: u32, k: int)
    requires Inv(n, s, h) && Leads(s, i) && e.term == s.nodes[i].hard.term
    requires Own(WithEntry(h, e.term, e), t, k)
    ensures Own(h, t, k) || (t == e.term && k == |s.nodes[i].hard.log|)
  {
    LeaderIs(n, s, h, i);
  }

  lemma EntryKept(n: nat, s: System, h: History, i: nat, e: Entry, log: seq<Entry>, log': seq<Entry>, t: u32, k: int)
    requires Inv(n, s, h) && Leads(s, i) && e.term == s.nodes[i].hard.term
    requires Own(h, t, k) && Kept(s.nodes, h, log, t, k) && log <= log'
    ensures Kept(Put(s, i, Longer(s.nodes[i], e)).nodes, WithEntry(h, e.term, e), log', t, k)
  {
    LeaderIs(n, s, h, i);
    var nodes', h' := Put(s, i, Longer(s.nodes[i], e)).nodes, WithEntry(h, e.term, e);
    if Has(log, h.reigns[t].log, k) {
      HasPrefix(log, h.reigns[t].log, h'.reigns[t].log, k);
      assert log'[..k + 1] == log[..k + 1];
    } else {
      forall q | 0 <= q < n && s.nodes[q].hard.term > t && !Acked(h, t, q, k)
        ensures !Acked(h', t, q, k)
      {
        if Acked(h', t, q, k) {
          EntryAcked(n, s, h, i, e, t, q, k);
        }
      }
      DeadMono(s.nodes, h, nodes', h', t, k);
    }
  }

  /** A new entry of a leader that has been overtaken is dead at once. */
  lemma LateEntryIsDead(n: nat, s: System, h: History, i: nat, e: Entry, t': u32)
    requires Inv(n, s, h) && Leads(s, i) && e.term == s.nodes[i].hard.term
    requires t' in h.reigns && e.term < t'
    ensures Dead(Put(s, i, Longer(s.nodes[i], e)).nodes, WithEntry(h, e.term, e), e.term, |s.nodes[i].hard.log|)
  {
    LeaderIs(n, s, h, i);
    var nodes', h', k := Put(s, i, Longer(s.nodes[i], e)).nodes, WithEntry(h, e.term, e), |s.nodes[i].hard.log|;
    assert ReignOK(n, h, t');
    forall q | q in h.reigns[t'].voters
      ensures nodes'[q].hard.term > e.term && !Acked(h', e.term, q, k)
    {
      assert Grant(t', q, h.reigns[t'].node) in h.grants;
      assert NodeOK(n, h, q, s.nodes[q]);
      assert q != i;
    }
    assert DeadBy(nodes', h', e.term, k, h.reigns[t'].voters);
  }

  lemma EntryKeep(n: nat, s: System, h: History, i: nat, e: Entry)
    requires Inv(n, s, h) && Leads(s, i) && e.term == s.nodes[i].hard.term
    ensures var nodes', h' := Put(s, i, Longer(s.nodes[i], e)).nodes, WithEntry(h, e.term, e);
            LeadersKeep(nodes', h') && NodesKeep(nodes', h') && CandidatesKeep(nodes', h')
  {
    LeaderIs(n, s, h, i);
    var nodes', h', end := Put(s, i, Longer(s.nodes[i], e)).nodes, WithEntry(h, e.term, e), |s.nodes[i].hard.log|;
    forall t: u32, t': u32, k | t' in h'.reigns && t < t' && Own(h', t, k)
      ensures Kept(nodes', h', h'.reigns[t'].base, t, k)
    {
      EntryOwn(n, s, h, i, e, t, k);
      if Own(h, t, k) {
        EntryKept(n, s, h, i, e, h.reigns[t'].base, h'.reigns[t'].base, t, k);
      } else {
        LateEntryIsDead(n, s, h, i, e, t');
      }
    }
    forall q, t: u32, k | 0 <= q < n && Own(h', t, k) && Acked(h', t, q, k)
      ensures Kept(nodes', h', nodes'[q].hard.log, t, k)
    {
      EntryOwn(n, s, h, i, e, t, k);
      EntryAcked(n, s, h, i, e, t, q, k);
      if Own(h, t, k) {
        EntryKept(n, s, h, i, e, s.nodes[q].hard.log, nodes'[q].hard.log, t, k);
      } else {
        NewEntryAcked(n, s, h, i, e, q);
      }
    }
    forall g, t: u32, k | g in h'.grants && CandidateAt(nodes', g.candidate, g.term) && t < g.term && Own(h', t, k)
                          && Acked(h', t, g.voter, k)
      ensures Kept(nodes', h', nodes'[g.candidate].hard.log, t, k)
    {
      EntryOwn(n, s, h, i, e, t, k);
      EntryAcked(n, s, h, i, e, t, g.voter, k);
      assert CandidateAt(s.nodes, g.candidate, g.term) && g.candidate != i;
      NotYetAcked(n, s, h, i, g.voter);
      assert NodeOK(n, h, i, s.nodes[i]);
      assert Own(h, t, k);
      EntryKept(n, s, h, i, e, s.nodes[g.candidate].hard.log, nodes'[g.candidate].hard.log, t, k);
    }
  }

  lemma NotYetAcked(n: nat, s: System, h: History, i: nat, q: nat)
    requires Inv(n, s, h) && Leads(s, i)
    ensures !Acked(h, s.nodes[i].hard.term, q, |s.nodes[i].hard.log|)
  {
    LeaderIs(n, s, h, i);
  }

  /** Only the leader itself holds the entry it has just created. */
  lemma NewEntryAcked(n: nat, s: System, h: History, i: nat, e: Entry, q: nat)
    requires Inv(n, s, h) && Leads(s, i) && e.term == s.nodes[i].hard.term
    requires Acked(WithEntry(h, e.term, e), e.term, q, |s.nodes[i].hard.log|)
    ensures q == i
  {
    LeaderIs(n, s, h, i);
  }

  lemma EntryNet(n: nat, s: System, h: History, i: nat, e: Entry)
    requires Inv(n, s, h) && Leads(s, i) && e.term == s.nodes[i].hard.term
    ensures NetOK(n, WithEntry(h, e.term, e), Put(s, i, Longer(s.nodes[i], e)))
  {
    LeaderIs(n, s, h, i);
    EntryExtends(n, s, h, i, e);
    var h', s' := WithEntry(h, e.term, e), Put(s, i, Longer(s.nodes[i], e));
    forall p | p in s'.net
      ensures PacketOK(n, h', s'.nodes, p)
    {
      assert PacketOK(n, h, s.nodes, p);
      PacketGrows(n, h, h', s.nodes, p);
    }
  }

  lemma EntryMove(n: nat, s: System, h: History, i: nat, e: Entry) returns (h': History)
    requires Inv(n, s, h) && Leads(s, i) && e.term == s.nodes[i].hard.term
    ensures Extends(h, h') && Inv(n, Put(s, i, Longer(s.nodes[i], e)), h')
  {
    LeaderIs(n, s, h, i);
    h' := WithEntry(h, e.term, e);
    var s' := Put(s, i, Longer(s.nodes[i], e));
    forall j | 0 <= j < n
      ensures NodeOK(n, h', j, s'.nodes[j])
    {
      EntryNode(n, s, h, i, e, j);
    }
    EntryExtends(n, s, h, i, e);
    EntryHist(n, s, h, i, e);
    EntryKeep(n, s, h, i, e);
    EntryNet(n, s, h, i, e);
    TraceGrows(n, h, h', s.trace);
  }
}
