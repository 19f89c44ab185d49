/**
 The AppendEntries handler, run to its end, is a sequence of moves: the term part, each write of
 the merge, the applies, and the reply.
 */
module AppendHandlers {
  import opened Words
  import opened Types
  import opened NodeSpec
  import opened NodeFacts
  import opened Cluster
  import opened Invariants
  import opened Growth
  import opened Moves
  import opened Replication
  import opened VoteHandlers

  // ---- applying what is committed

  lemma WindowEventsOK(n: nat, h: History, i: nat, t: u32, log: seq<Entry>, from: int, to: int)
    requires Committed(n, h, t, log, to) && -1 <= from && to < |log|
    ensures TraceOK(n, h, Events(i, Window(log, from, to)))
  {
    var es := Events(i, Window(log, from, to));
    forall e | e in es
      ensures EventOK(n, h, e)
    {
      var j :| 0 <= j < |es| && es[j] == e;
      var u: u32, k :| CommittedVia(n, h, t, log, to, u, k);
      HasShorter(log, h.reigns[u].log, to, e.index);
      assert EventVia(n, h, e, u, k);
    }
  }

  /** The state once node i has applied everything up to its commit index. */
  function Progressed(n: nat, s: System, i: nat): System
    requires i < n < NO_VOTE && 2 <= n && |s.nodes| == n
  {
    var p := ApplyCommitted(Cfg(n, i), s.nodes[i].hard, s.nodes[i].soft);
    System(s.nodes[i := Node(s.nodes[i].hard, p.soft)], s.net + multiset(p.sent), s.trace + Events(i, p.applied))
  }

  lemma ProgressNode(n: nat, h: History, i: nat, nd: Node)
    requires 2 <= n < NO_VOTE && NodeOK(n, h, i, nd)
    ensures var p := ApplyCommitted(Cfg(n, i), nd.hard, nd.soft);
            && NodeOK(n, h, i, Node(nd.hard, p.soft)) && p.soft.role == nd.soft.role
            && TraceOK(n, h, Events(i, p.applied))
            && forall q | q in p.sent :: IsSuccess(q) && ReplyOK(n, h, q)
  {
    var p := ApplyCommitted(Cfg(n, i), nd.hard, nd.soft);
    CommittedIsPresent(n, h, nd.hard.term, nd.hard.log, nd.soft.commitIndex);
    CommittedIsPresent(n, h, nd.hard.term, nd.hard.log, nd.soft.lastApplied);
    ApplyCommittedIs(Cfg(n, i), nd.hard, nd.soft);
    WindowEventsOK(n, h, i, nd.hard.term, nd.hard.log, nd.soft.lastApplied, nd.soft.commitIndex);
    RepliesAnswer(Cfg(n, i), nd.hard, nd.soft);
    forall q | q in p.sent
      ensures ReplyOK(n, h, q)
    {
      AnswerOK(n, h, i, q, p.applied);
    }
  }

  lemma AnswerOK(n: nat, h: History, i: nat, q: Packet, applied: seq<Applied>)
    requires Answers(q, applied) && TraceOK(n, h, Events(i, applied))
    ensures ReplyOK(n, h, q)
  {
    var k :| 0 <= k < |applied| && AnswersEntry(q, applied[k].entry);
    var e := Events(i, applied)[k];
    assert e in Events(i, applied) && ReplyVia(n, h, q, e);
  }

  lemma ProgressMove(n: nat, s: System, h: History, i: nat)
    requires Inv(n, s, h) && i < n
    ensures Inv(n, Progressed(n, s, i), h)
  {
    var nd := s.nodes[i];
    var p := ApplyCommitted(Cfg(n, i), nd.hard, nd.soft);
    ProgressNode(n, h, i, nd);
    var s1 := Put(s, i, Node(nd.hard, p.soft));
    LocalMove(n, s, h, i, Node(nd.hard, p.soft));
    LogEvents(n, s1, h, Events(i, p.applied));
    var s2 := s1.(trace := s.trace + Events(i, p.applied));
    SendPlain(n, s2, h, p.sent);
    assert Progressed(n, s, i) == s2.(net := s2.net + multiset(p.sent));
  }

  // ---- AppendEntries: hearing from a leader

  /** The node after the term part of the AppendEntries handler. */
  function Heard(nd: Node, m: Message): Node
    requires m.AppendReq?
  {
    if StepsDownFor(nd, m) then Node(Durable(m.term, NO_VOTE, nd.hard.log), SteppedDown(nd.soft, m.leaderId))
    else nd.(soft := nd.soft.(leaderId := m.leaderId))
  }

  /** Hearing from the leader of a term makes a node a follower of that term, and never the leader itself. */
  lemma HeardLeader(n: nat, s: System, h: History, i: nat, p: Packet)
    requires Inv(n, s, h) && i < n && p in s.net && p.dst == i && p.msg.AppendReq?
    requires s.nodes[i].hard.term <= p.msg.term < INT_SPAN
    ensures p.msg.term in h.reigns && h.reigns[p.msg.term].node == p.msg.leaderId != i
    ensures !StepsDownFor(s.nodes[i], p.msg) ==> s.nodes[i].hard.term == p.msg.term && s.nodes[i].soft.role == Follower
  {
    assert PacketOK(n, h, s.nodes, p) && NodeOK(n, h, i, s.nodes[i]);
  }

  /** Taking a new leader to be known changes nothing the invariant speaks of. */
  lemma LeaderIdLocal(n: nat, s: System, h: History, i: nat, leaderId: u32)
    requires Inv(n, s, h) && i < n
    ensures Local(n, s, h, i, s.nodes[i].(soft := s.nodes[i].soft.(leaderId := leaderId)))
  {
    assert NodeOK(n, h, i, s.nodes[i]);
  }

  lemma HeardMove(n: nat, s: System, h: History, i: nat, p: Packet)
    requires Inv(n, s, h) && i < n && p in s.net && p.dst == i && p.msg.AppendReq?
    requires s.nodes[i].hard.term <= p.msg.term < INT_SPAN
    ensures var nd := Heard(s.nodes[i], p.msg);
            && Inv(n, Put(s, i, nd), h)
            && nd.soft.role == Follower && nd.hard.term == p.msg.term
            && p.msg.term in h.reigns && h.reigns[p.msg.term].node != i
  {
    var nd, m := s.nodes[i], p.msg;
    HeardLeader(n, s, h, i, p);
    if StepsDownFor(nd, m) {
      StepDownMove(n, s, h, i, m.term, m.leaderId);
    } else {
      LeaderIdLocal(n, s, h, i, m.leaderId);
      LocalMove(n, s, h, i, Heard(nd, m));
    }
  }

  // ---- AppendEntries: merging

  /** Node i follows the leader of its term, agrees with it below `at`, and is offered its next entries. */
  ghost predicate Offers(n: nat, s: System, h: History, i: nat, at: nat, entries: seq<Entry>) {
    && i < n == |s.nodes|
    && var nd := s.nodes[i];
    && nd.soft.role == Follower && nd.hard.term in h.reigns && h.reigns[nd.hard.term].node != i
    && var ref := h.reigns[nd.hard.term].log;
    && at <= |nd.hard.log| && at + |entries| <= |ref| && nd.hard.log[..at] == ref[..at]
    && entries == ref[at..at + |entries|]
  }

  lemma TermMatchExtends(n: nat, s: System, h: History, i: nat, at: nat, entries: seq<Entry>)
    requires Inv(n, s, h) && Offers(n, s, h, i, at, entries) && entries != []
    ensures var log, ref := s.nodes[i].hard.log, h.reigns[s.nodes[i].hard.term].log;
            && entries[0] == ref[at] && entries[1..] == ref[at + 1..at + |entries|]
            && |ref| < INT_SPAN
            && (at < |log| && log[at].term == entries[0].term ==> log[..at + 1] == ref[..at + 1])
  {
    var log, t := s.nodes[i].hard.log, s.nodes[i].hard.term;
    assert NodeOK(n, h, i, s.nodes[i]) && ReignOK(n, h, t);
    if at < |log| && log[at].term == entries[0].term {
      SameTermSamePrefix(h, log, h.reigns[t].log, at);
    }
  }

  lemma CutMove(n: nat, s: System, h: History, i: nat, at: nat, entries: seq<Entry>)
    requires Inv(n, s, h) && Offers(n, s, h, i, at, entries) && entries != []
    requires at < |s.nodes[i].hard.log| && s.nodes[i].hard.log[at].term != entries[0].term
    ensures var s' := Put(s, i, WithLog(s.nodes[i], s.nodes[i].hard.log[..at]));
            Inv(n, s', h) && Offers(n, s', h, i, at, entries)
  {
    TermMatchExtends(n, s, h, i, at, entries);
    assert Fits(s.nodes[i]);
    assert Cut(s.nodes[i].hard.log, h.reigns[s.nodes[i].hard.term].log, s.nodes[i].hard.log[..at]);
    FollowMove(n, s, h, i, s.nodes[i].hard.log[..at]);
  }

  lemma GrowMove(n: nat, s: System, h: History, i: nat, at: nat, entries: seq<Entry>)
    requires Inv(n, s, h) && Offers(n, s, h, i, at, entries) && entries != []
    requires at == |s.nodes[i].hard.log|
    ensures var s' := Put(s, i, WithLog(s.nodes[i], s.nodes[i].hard.log + [entries[0]]));
            Inv(n, s', h) && Offers(n, s', h, i, at + 1, entries[1..])
  {
    TermMatchExtends(n, s, h, i, at, entries);
    var log, ref := s.nodes[i].hard.log, h.reigns[s.nodes[i].hard.term].log;
    assert log == log[..at];
    assert log + [entries[0]] == ref[..at + 1];
    assert Grown(log, ref, log + [entries[0]]);
    FollowMove(n, s, h, i, log + [entries[0]]);
  }

  /** The log after the first w writes of the merge loop. */
  function MergedPart(d: Durable, at: nat, entries: seq<Entry>, w: nat): Durable
    requires w <= |MergeWrites(d.log, at, entries)|
  {
    ApplyWrites(d, MergeWrites(d.log, at, entries)[..w])
  }

  lemma MergedPartNone(d: Durable, at: nat, entries: seq<Entry>)
    ensures MergedPart(d, at, entries, 0) == d
  {
  }

  lemma MergedPartCut(d: Durable, at: nat, entries: seq<Entry>, w: nat)
    requires entries != [] && at < |d.log| && d.log[at].term != entries[0].term
    requires 1 <= w <= |MergeWrites(d.log, at, entries)|
    ensures var d1 := d.(log := d.log[..at]);
            var d2 := d.(log := d.log[..at] + [entries[0]]);
            if w == 1 then MergedPart(d, at, entries, w) == d1
            else w - 2 <= |MergeWrites(d2.log, at + 1, entries[1..])|
                 && MergedPart(d, at, entries, w) == MergedPart(d2, at + 1, entries[1..], w - 2)
  {
    var d2 := d.(log := d.log[..at] + [entries[0]]);
    var two := [Truncate(at), Append(entries[0])];
    var rest := MergeWrites(d2.log, at + 1, entries[1..]);
    assert MergeWrites(d.log, at, entries) == two + rest;
    ApplyWritesShort(d, Truncate(at), Append(entries[0]));
    if w == 1 {
      assert (two + rest)[..1] == [Truncate(at)];
    } else {
      assert (two + rest)[..w] == two + rest[..w - 2];
      ApplyWritesConcat(d, two, rest[..w - 2]);
    }
  }

  lemma MergedPartGrow(d: Durable, at: nat, entries: seq<Entry>, w: nat)
    requires entries != [] && at == |d.log| && 1 <= w <= |MergeWrites(d.log, at, entries)|
    ensures var d1 := d.(log := d.log + [entries[0]]);
            && w - 1 <= |MergeWrites(d1.log, at + 1, entries[1..])|
            && MergedPart(d, at, entries, w) == MergedPart(d1, at + 1, entries[1..], w - 1)
  {
    var d1 := d.(log := d.log + [entries[0]]);
    var rest := MergeWrites(d1.log, at + 1, entries[1..]);
    assert MergeWrites(d.log, at, entries) == [Append(entries[0])] + rest;
    assert ([Append(entries[0])] + rest)[..w] == [Append(entries[0])] + rest[..w - 1];
    ApplyWritesShort(d, Append(entries[0]), Append(entries[0]));
    ApplyWritesConcat(d, [Append(entries[0])], rest[..w - 1]);
  }

  function MergedNode(nd: Node, at: nat, entries: seq<Entry>, w: nat): Node
    requires w <= |MergeWrites(nd.hard.log, at, entries)|
  {
    nd.(hard := MergedPart(nd.hard, at, entries, w))
  }

  predicate Conflicts(log: seq<Entry>, at: nat, entries: seq<Entry>) {
    entries != [] && at < |log| && log[at].term != entries[0].term
  }

  /** One entry of the merge loop, unless the crash falls between its truncation and its append. */
  lemma MergeHead(n: nat, s: System, h: History, i: nat, at: nat, entries: seq<Entry>, w: nat)
    returns (s': System, w': nat)
    requires Inv(n, s, h) && Offers(n, s, h, i, at, entries)
    requires 1 <= w <= |MergeWrites(s.nodes[i].hard.log, at, entries)|
    requires !(w == 1 && Conflicts(s.nodes[i].hard.log, at, entries))
    ensures Inv(n, s', h) && Offers(n, s', h, i, at + 1, entries[1..])
    ensures w' <= |MergeWrites(s'.nodes[i].hard.log, at + 1, entries[1..])|
    ensures Put(s, i, MergedNode(s.nodes[i], at, entries, w))
            == Put(s', i, MergedNode(s'.nodes[i], at + 1, entries[1..], w'))
  {
    var nd := s.nodes[i];
    if Conflicts(nd.hard.log, at, entries) {
      MergedPartCut(nd.hard, at, entries, w);
      CutMove(n, s, h, i, at, entries);
      var s1 := Put(s, i, WithLog(nd, nd.hard.log[..at]));
      GrowMove(n, s1, h, i, at, entries);
      s' := Put(s1, i, WithLog(s1.nodes[i], nd.hard.log[..at] + [entries[0]]));
      w' := w - 2;
    } else if at < |nd.hard.log| {
      TermMatchExtends(n, s, h, i, at, entries);
      s', w' := s, w;
    } else {
      MergedPartGrow(nd.hard, at, entries, w);
      GrowMove(n, s, h, i, at, entries);
      s' := Put(s, i, WithLog(nd, nd.hard.log + [entries[0]]));
      w' := w - 1;
    }
  }

  /** The merge loop keeps the invariant after each of its writes. */
  lemma {:induction false} MergeMoves(n: nat, s: System, h: History, i: nat, at: nat, entries: seq<Entry>, w: nat)
    requires Inv(n, s, h) && Offers(n, s, h, i, at, entries)
    requires w <= |MergeWrites(s.nodes[i].hard.log, at, entries)|
    ensures Inv(n, Put(s, i, MergedNode(s.nodes[i], at, entries, w)), h)
    decreases |entries|
  {
    var nd := s.nodes[i];
    if w == 0 {
      MergedPartNone(nd.hard, at, entries);
      assert Put(s, i, nd) == s;
    } else if w == 1 && Conflicts(nd.hard.log, at, entries) {
      MergedPartCut(nd.hard, at, entries, w);
      CutMove(n, s, h, i, at, entries);
    } else {
      var s', w' := MergeHead(n, s, h, i, at, entries, w);
      MergeMoves(n, s', h, i, at + 1, entries[1..], w');
    }
  }

  /** The merged log agrees with the leader through the last entry offered. */
  lemma {:induction false} MergedAgrees(h: History, log: seq<Entry>, ref: seq<Entry>, at: nat, entries: seq<Entry>)
    requires LogOK(h, log) && LogOK(h, ref)
    requires at <= |log| && at + |entries| <= |ref| && log[..at] == ref[..at] && entries == ref[at..at + |entries|]
    ensures var r, end := Merged(log, at, entries), at + |entries|;
            end <= |r| && r[..end] == ref[..end]
    decreases |entries|
  {
    if entries != [] && at < |log| && log[at].term == entries[0].term {
      assert entries[0] == ref[at];
      SameTermSamePrefix(h, log, ref, at);
      assert entries[1..] == ref[at + 1..at + |entries|];
      MergedAgrees(h, log, ref, at + 1, entries[1..]);
    } else if entries != [] {
      assert log[..at] + entries == ref[..at + |entries|];
    }
  }

  // ---- AppendEntries: the whole handler

  /** What a request accepted by the prev check comes to, once heard. */
  predicate AcceptOutcome(cfg: Config, cur: u32, nd: Node, m: Message, o: Outcome, was: Node)
    requires cfg.Valid() && m.AppendReq?
  {
    && ToInt(m.prevLogIdx) + 1 <= |nd.hard.log|
    && var hard := nd.hard.(log := Merged(nd.hard.log, ToInt(m.prevLogIdx) + 1, m.entries));
    var ack := AppendReply(cfg, m.leaderId, cur, ToWord(m.prevLogIdx + |m.entries|), true);
    var p := Followed(cfg, hard, nd.soft, m);
    After(was, o) == Node(hard, p.soft) && o.sent == p.sent + [ack] && o.applied == p.applied
  }

  predicate RejectOutcome(cfg: Config, cur: u32, nd: Node, m: Message, o: Outcome, was: Node)
    requires cfg.Valid() && m.AppendReq?
  {
    After(was, o) == nd && o.sent == [AppendReply(cfg, m.leaderId, cur, 0, false)] && o.applied == []
  }

  /** The AppendEntries handler, said by its cases. */
  lemma AppendReqIs(cfg: Config, nd: Node, m: Message)
    requires cfg.Valid() && m.AppendReq? && ToInt(nd.hard.term) >= 0
    ensures var o := HandleAppendReq(cfg, nd, m);
            if m.term < nd.hard.term then RejectOutcome(cfg, nd.hard.term, nd, m, o, nd)
            else if PrevMatches(nd.hard.log, m) then AcceptOutcome(cfg, nd.hard.term, Heard(nd, m), m, o, nd)
            else RejectOutcome(cfg, nd.hard.term, Heard(nd, m), m, o, nd)
  {
    if m.term >= nd.hard.term {
      var ws := if StepsDownFor(nd, m) then StepDownWrites(m.term) else [];
      ApplyWritesShort(nd.hard, SetTerm(m.term), SetVote(NO_VOTE));
      assert ApplyWrites(nd.hard, ws) == Heard(nd, m).hard;
      if PrevMatches(nd.hard.log, m) {
        ApplyWritesConcat(nd.hard, ws, MergeWrites(nd.hard.log, ToInt(m.prevLogIdx) + 1, m.entries));
        MergeWritesMerge(Heard(nd, m).hard, ToInt(m.prevLogIdx) + 1, m.entries);
      }
    }
  }

  /** The prev check puts a follower in agreement with its leader below the new entries. */
  lemma PrevAgrees(n: nat, s: System, h: History, i: nat, m: Message, leader: u32)
    requires Inv(n, s, h) && i < n && m.AppendReq? && AppendReqOK(n, h, Packet(leader, i, m))
    requires s.nodes[i].soft.role == Follower && s.nodes[i].hard.term == m.term && PrevMatches(s.nodes[i].hard.log, m)
    ensures Offers(n, s, h, i, ToInt(m.prevLogIdx) + 1, m.entries)
  {
    assert NodeOK(n, h, i, s.nodes[i]) && ReignOK(n, h, m.term);
    PrevAgreesLogs(h, s.nodes[i].hard.log, h.reigns[m.term].log, m);
  }

  lemma PrevAgreesLogs(h: History, log: seq<Entry>, ref: seq<Entry>, m: Message)
    requires LogOK(h, log) && LogOK(h, ref) && m.AppendReq? && PrevMatches(log, m)
    requires ToInt(m.prevLogIdx) < |ref| && m.prevLogTerm == LogTerm(ref, ToInt(m.prevLogIdx))
    ensures var at := ToInt(m.prevLogIdx) + 1; at <= |log| && log[..at] == ref[..at]
  {
    if ToInt(m.prevLogIdx) >= 0 {
      SameTermSamePrefix(h, log, ref, ToInt(m.prevLogIdx));
    }
  }

  lemma MergeMove(n: nat, s: System, h: History, i: nat, at: nat, entries: seq<Entry>)
    requires Inv(n, s, h) && Offers(n, s, h, i, at, entries)
    ensures var nd := WithLog(s.nodes[i], Merged(s.nodes[i].hard.log, at, entries));
            && Inv(n, Put(s, i, nd), h)
            && var ref, end := h.reigns[nd.hard.term].log, at + |entries|;
            end <= |nd.hard.log| && nd.hard.log[..end] == ref[..end] && |ref| < INT_SPAN
  {
    var nd := s.nodes[i];
    var ws := MergeWrites(nd.hard.log, at, entries);
    MergeMoves(n, s, h, i, at, entries, |ws|);
    assert ws[..|ws|] == ws;
    MergeWritesMerge(nd.hard, at, entries);
    assert MergedNode(nd, at, entries, |ws|) == WithLog(nd, Merged(nd.hard.log, at, entries));
    assert NodeOK(n, h, i, nd) && ReignOK(n, h, nd.hard.term);
    MergedAgrees(h, nd.hard.log, h.reigns[nd.hard.term].log, at, entries);
  }

  /** The commit index a follower takes over is committed in its own log. */
  lemma FollowerCommitOK(n: nat, h: History, t: u32, log: seq<Entry>, ref: seq<Entry>, m: Message, c: int)
    requires m.AppendReq? && Committed(n, h, t, ref, m.leaderCommit) && -1 <= c <= m.leaderCommit
    requires c < |log| && c < |ref| && log[..c + 1] == ref[..c + 1]
    ensures Committed(n, h, t, log, c)
  {
    CommittedShorter(n, h, t, ref, m.leaderCommit, c);
    ExtendsRefl(h);
    CommittedMono(n, h, h, t, t, ref, log, c);
  }

  /** A success reply is on record when it carries the leader's term, and below that term otherwise. */
  lemma AckPacketOK(n: nat, h: History, nodes: seq<Node>, i: nat, m: Message, cur: u32)
    requires i < n < NO_VOTE && 2 <= n && m.AppendReq? && |nodes| == n == |h.counted|
    requires m.term in h.reigns && h.reigns[m.term].node == m.leaderId && m.leaderId != i && m.leaderId < n
    requires nodes[m.leaderId].hard.term >= m.term && cur <= m.term
    requires ToInt(m.prevLogIdx) + |m.entries| < INT_SPAN
    requires cur == m.term ==> Ack(cur, i, ToInt(m.prevLogIdx) + |m.entries|) in h.acks
    ensures PacketOK(n, h, nodes, AppendReply(Cfg(n, i), m.leaderId, cur, ToWord(m.prevLogIdx + |m.entries|), true))
  {
    LastNewIndex(m.prevLogIdx, |m.entries|);
  }

  /** The acknowledgement is true, and goes on record when it carries the current term. */
  lemma AckRecorded(n: nat, s: System, h: History, i: nat, m: Message, leader: u32, cur: u32) returns (h': History)
    requires Inv(n, s, h) && i < n && m.AppendReq? && AppendReqOK(n, h, Packet(leader, i, m))
    requires s.nodes[i].hard.term == m.term && cur <= m.term
    requires var end := ToInt(m.prevLogIdx) + 1 + |m.entries|;
             && end <= |s.nodes[i].hard.log| && s.nodes[i].hard.log[..end] == h.reigns[m.term].log[..end]
    ensures Extends(h, h') && Inv(n, s, h')
    ensures var q := AppendReply(Cfg(n, i), m.leaderId, cur, ToWord(m.prevLogIdx + |m.entries|), true);
            PacketOK(n, h', s.nodes, q) && !Countable(q)
  {
    h' := AckOnRecord(n, s, h, i, m, cur);
    AckSendable(n, s, h', i, m, leader, cur);
  }

  lemma AckOnRecord(n: nat, s: System, h: History, i: nat, m: Message, cur: u32) returns (h': History)
    requires Inv(n, s, h) && i < n && m.AppendReq? && m.term in h.reigns && s.nodes[i].hard.term == m.term
    requires cur == m.term ==> Acknowledges(n, s, h, i, ToInt(m.prevLogIdx) + |m.entries|)
    ensures Extends(h, h') && Inv(n, s, h')
    ensures m.term in h'.reigns && h'.reigns[m.term].node == h.reigns[m.term].node
    ensures cur == m.term ==> Ack(cur, i, ToInt(m.prevLogIdx) + |m.entries|) in h'.acks
  {
    h' := h;
    ExtendsRefl(h);
    if cur == m.term {
      h' := AckMove(n, s, h, i, ToInt(m.prevLogIdx) + |m.entries|);
    }
  }

  lemma AckSendable(n: nat, s: System, h: History, i: nat, m: Message, leader: u32, cur: u32)
    requires Inv(n, s, h) && i < n && m.AppendReq? && cur <= m.term
    requires m.term in h.reigns && h.reigns[m.term].node == leader == m.leaderId && leader != i
    requires ToInt(m.prevLogIdx) + 1 + |m.entries| <= |s.nodes[i].hard.log|
    requires cur == m.term ==> Ack(cur, i, ToInt(m.prevLogIdx) + |m.entries|) in h.acks
    ensures var q := AppendReply(Cfg(n, i), m.leaderId, cur, ToWord(m.prevLogIdx + |m.entries|), true);
            PacketOK(n, h, s.nodes, q) && !Countable(q)
  {
    assert Fits(s.nodes[i]);
    LeaderReached(n, s, h, m.term);
    AckPacketOK(n, h, s.nodes, i, m, cur);
  }

  lemma LeaderReached(n: nat, s: System, h: History, t: u32)
    requires Inv(n, s, h) && t in h.reigns
    ensures h.reigns[t].node < n && s.nodes[h.reigns[t].node].hard.term >= t
  {
    var l := h.reigns[t].node;
    assert ReignOK(n, h, t);
    assert NodeOK(n, h, l, s.nodes[l]);
    var v :| v in h.reigns[t].voters;
    assert Grant(t, v, l) in h.grants;
  }

  lemma CommitNode(n: nat, h: History, i: nat, nd: Node, m: Message)
    requires 2 <= n < NO_VOTE && NodeOK(n, h, i, nd) && nd.soft.role == Follower && m.AppendReq?
    requires nd.hard.term == m.term && m.term in h.reigns && m.leaderCommit > nd.soft.commitIndex
    requires Committed(n, h, m.term, h.reigns[m.term].log, m.leaderCommit)
    requires var end := ToInt(m.prevLogIdx) + 1 + |m.entries|;
             && end <= |nd.hard.log| && end <= |h.reigns[m.term].log|
             && nd.hard.log[..end] == h.reigns[m.term].log[..end]
    ensures NodeOK(n, h, i, Node(nd.hard, FollowerCommit(nd.soft, m)))
  {
    var ref := h.reigns[m.term].log;
    LastNewIndex(m.prevLogIdx, |m.entries|);
    CommittedIsPresent(n, h, m.term, ref, m.leaderCommit);
    CommittedIsPresent(n, h, nd.hard.term, nd.hard.log, nd.soft.commitIndex);
    var c := FollowerCommit(nd.soft, m).commitIndex;
    var end := ToInt(m.prevLogIdx) + 1 + |m.entries|;
    assert nd.hard.log[..c + 1] == nd.hard.log[..end][..c + 1] == ref[..end][..c + 1] == ref[..c + 1];
    FollowerCommitOK(n, h, m.term, nd.hard.log, ref, m, c);
  }

  /** A follower takes over the leader's commit index and applies up to it. */
  lemma CommitRuns(n: nat, s: System, h: History, i: nat, m: Message, leader: u32) returns (s': System)
    requires Inv(n, s, h) && i < n && m.AppendReq? && AppendReqOK(n, h, Packet(leader, i, m))
    requires s.nodes[i].hard.term == m.term && s.nodes[i].soft.role == Follower
    requires m.leaderCommit > s.nodes[i].soft.commitIndex
    requires var end := ToInt(m.prevLogIdx) + 1 + |m.entries|;
             && end <= |s.nodes[i].hard.log| && s.nodes[i].hard.log[..end] == h.reigns[m.term].log[..end]
    ensures s' == Progressed(n, Put(s, i, Node(s.nodes[i].hard, FollowerCommit(s.nodes[i].soft, m))), i)
    ensures Inv(n, s', h)
  {
    var nd' := Node(s.nodes[i].hard, FollowerCommit(s.nodes[i].soft, m));
    CommitNode(n, h, i, s.nodes[i], m);
    LocalMove(n, s, h, i, nd');
    var s1 := Put(s, i, nd');
    ProgressMove(n, s1, h, i);
    s' := Progressed(n, s1, i);
  }

  function Joined(nd: Node, m: Message): Node
    requires m.AppendReq? && ToInt(m.prevLogIdx) + 1 <= |nd.hard.log|
  {
    WithLog(Heard(nd, m), Merged(nd.hard.log, ToInt(m.prevLogIdx) + 1, m.entries))
  }

  lemma JoinMove(n: nat, s: System, h: History, i: nat, p: Packet)
    requires Inv(n, s, h) && Offered(n, s, i, Receive(p)) && p.msg.AppendReq?
    requires s.nodes[i].hard.term <= p.msg.term < INT_SPAN && PrevMatches(s.nodes[i].hard.log, p.msg)
    ensures var m, nd := p.msg, Joined(s.nodes[i], p.msg);
            && AppendReqOK(n, h, p) && Inv(n, Put(s, i, nd), h)
            && nd.hard.term == m.term && nd.soft.role == Follower
            && var end := ToInt(m.prevLogIdx) + 1 + |m.entries|;
            end <= |nd.hard.log| && nd.hard.log[..end] == h.reigns[m.term].log[..end]
  {
    assert PacketOK(n, h, s.nodes, p);
    HeardMove(n, s, h, i, p);
    var s1 := Put(s, i, Heard(s.nodes[i], p.msg));
    PrevAgrees(n, s1, h, i, p.msg, p.src);
    MergeMove(n, s1, h, i, ToInt(p.msg.prevLogIdx) + 1, p.msg.entries);
    assert Put(s, i, Joined(s.nodes[i], p.msg)) == Put(s1, i, Joined(s.nodes[i], p.msg));
  }

  /** A merged log, the commit update, and the applies it allows; the request is consumed. */
  function CaughtUp(n: nat, s: System, i: nat, p: Packet, nd: Node): System
    requires 2 <= n < NO_VOTE && i < n == |s.nodes| && p.msg.AppendReq?
  {
    var q := Followed(Cfg(n, i), nd.hard, nd.soft, p.msg);
    System(s.nodes[i := Node(nd.hard, q.soft)], s.net - multiset{p} + multiset(q.sent), s.trace + Events(i, q.applied))
  }

  /** Everything an accepted request does before the acknowledgement goes out. */
  function BeforeAck(n: nat, s: System, i: nat, p: Packet): System
    requires 2 <= n < NO_VOTE && i < n == |s.nodes| && p.msg.AppendReq?
    requires ToInt(p.msg.prevLogIdx) + 1 <= |s.nodes[i].hard.log|
  {
    CaughtUp(n, s, i, p, Joined(s.nodes[i], p.msg))
  }

  lemma ProgressSends(n: nat, s: System, i: nat, p: Packet)
    requires 2 <= n < NO_VOTE && i < n == |s.nodes| && p in s.net
    ensures var q := ApplyCommitted(Cfg(n, i), s.nodes[i].hard, s.nodes[i].soft);
            Progressed(n, s, i).net - multiset{p} == s.net - multiset{p} + multiset(q.sent)
  {
  }

  lemma MoreSent(net: multiset<Packet>, sent: seq<Packet>, ack: Packet)
    ensures net + multiset(sent + [ack]) == net + multiset(sent) + multiset([ack])
  {
  }

  lemma BeforeAckIs(n: nat, s: System, i: nat, p: Packet, o: Outcome)
    requires 2 <= n < NO_VOTE && i < n == |s.nodes| && p.msg.AppendReq? && p in s.net
    requires AcceptOutcome(Cfg(n, i), s.nodes[i].hard.term, Heard(s.nodes[i], p.msg), p.msg, o, s.nodes[i])
    ensures var s4 := BeforeAck(n, s, i, p);
            var ack := AppendReply(Cfg(n, i), p.msg.leaderId, s.nodes[i].hard.term,
                                   ToWord(p.msg.prevLogIdx + |p.msg.entries|), true);
            Done(s, i, Receive(p), o) == s4.(net := s4.net + multiset([ack]))
  {
    var nd := Joined(s.nodes[i], p.msg);
    var q := Followed(Cfg(n, i), nd.hard, nd.soft, p.msg);
    MoreSent(s.net - multiset{p}, q.sent, o.sent[|o.sent| - 1]);
  }

  /** The merge, the commit and what it lets apply, and the removal of the request, one after another. */
  lemma CaughtUpSteps(n: nat, s: System, i: nat, p: Packet, nd: Node)
    requires 2 <= n < NO_VOTE && i < n == |s.nodes| && p.msg.AppendReq? && p in s.net
    ensures var s1 := Put(s, i, nd);
            var s2 := if p.msg.leaderCommit > nd.soft.commitIndex
                      then Progressed(n, Put(s1, i, Node(nd.hard, FollowerCommit(nd.soft, p.msg))), i) else s1;
            CaughtUp(n, s, i, p, nd) == s2.(net := s2.net - multiset{p})
    ensures |CaughtUp(n, s, i, p, nd).nodes| == n && CaughtUp(n, s, i, p, nd).nodes[i].hard == nd.hard
  {
    if p.msg.leaderCommit > nd.soft.commitIndex {
      var on := Node(nd.hard, FollowerCommit(nd.soft, p.msg));
      assert Put(Put(s, i, nd), i, on) == Put(s, i, on);
      ProgressSends(n, Put(s, i, on), i, p);
    } else {
      assert s.trace + Events(i, []) == s.trace;
    }
  }

  /** The follower has caught up with the request; only the acknowledgement is missing. */
  ghost predicate ReadyToAck(n: nat, s: System, h: History, i: nat, p: Packet) {
    && Inv(n, s, h) && i < n && p.msg.AppendReq? && AppendReqOK(n, h, p) && p.dst == i
    && s.nodes[i].hard.term == p.msg.term
    && var end := ToInt(p.msg.prevLogIdx) + 1 + |p.msg.entries|;
    end <= |s.nodes[i].hard.log| && s.nodes[i].hard.log[..end] == h.reigns[p.msg.term].log[..end]
  }

  lemma BeforeAckMove(n: nat, s: System, h: History, i: nat, p: Packet)
    requires Inv(n, s, h) && Offered(n, s, i, Receive(p)) && p.msg.AppendReq?
    requires s.nodes[i].hard.term <= p.msg.term < INT_SPAN && PrevMatches(s.nodes[i].hard.log, p.msg)
    ensures ReadyToAck(n, BeforeAck(n, s, i, p), h, i, p)
  {
    var m, nd := p.msg, Joined(s.nodes[i], p.msg);
    JoinMove(n, s, h, i, p);
    var s1 := Put(s, i, nd);
    CaughtUpSteps(n, s, i, p, nd);
    if m.leaderCommit > nd.soft.commitIndex {
      var s2 := CommitRuns(n, s1, h, i, m, p.src);
      ConsumeMove(n, s2, h, p);
    } else {
      ConsumeMove(n, s1, h, p);
    }
  }

  lemma AckSent(n: nat, s: System, h: History, i: nat, p: Packet, cur: u32) returns (h': History)
    requires ReadyToAck(n, s, h, i, p) && cur <= p.msg.term
    ensures Extends(h, h')
    ensures var ack := AppendReply(Cfg(n, i), p.msg.leaderId, cur, ToWord(p.msg.prevLogIdx + |p.msg.entries|), true);
            Inv(n, s.(net := s.net + multiset([ack])), h')
  {
    assert p == Packet(p.src, i, p.msg);
    h' := AckRecorded(n, s, h, i, p.msg, p.src, cur);
    var ack := AppendReply(Cfg(n, i), p.msg.leaderId, cur, ToWord(p.msg.prevLogIdx + |p.msg.entries|), true);
    SendPlain(n, s, h', [ack]);
  }

  lemma RejectRuns(n: nat, s: System, h: History, i: nat, p: Packet, nd: Node, o: Outcome)
    requires Inv(n, s, h) && Offered(n, s, i, Receive(p)) && p.msg.AppendReq?
    requires Inv(n, Put(s, i, nd), h) && RejectOutcome(Cfg(n, i), s.nodes[i].hard.term, nd, p.msg, o, s.nodes[i])
    ensures Inv(n, Done(s, i, Receive(p), o), h)
  {
    var s' := Done(s, i, Receive(p), o);
    PlainReply(n, s, h, p, nd, i, o.sent[0]);
    assert s' == Put(s, i, nd).(net := s.net - multiset{p} + multiset{o.sent[0]});
  }

  lemma AppendReqRuns(n: nat, s: System, h: History, i: nat, p: Packet) returns (h': History)
    requires Inv(n, s, h) && Offered(n, s, i, Receive(p)) && p.msg.AppendReq?
    requires Sized(n, Done(s, i, Receive(p), HandleAppendReq(Cfg(n, i), s.nodes[i], p.msg)))
    ensures Extends(h, h')
    ensures Inv(n, Done(s, i, Receive(p), HandleAppendReq(Cfg(n, i), s.nodes[i], p.msg)), h')
  {
    var nd, m := s.nodes[i], p.msg;
    var o := HandleAppendReq(Cfg(n, i), nd, m);
    AppendReqIs(Cfg(n, i), nd, m);
    h' := h;
    ExtendsRefl(h);
    if m.term < nd.hard.term {
      assert Put(s, i, nd) == s;
      RejectRuns(n, s, h, i, p, nd, o);
    } else {
      assert Done(s, i, Receive(p), o).nodes[i].hard.term < INT_SPAN;
      if PrevMatches(nd.hard.log, m) {
        BeforeAckMove(n, s, h, i, p);
        BeforeAckIs(n, s, i, p, o);
        h' := AckSent(n, BeforeAck(n, s, i, p), h, i, p, nd.hard.term);
      } else {
        HeardMove(n, s, h, i, p);
        RejectRuns(n, s, h, i, p, Heard(nd, m), o);
      }
    }
  }
}
