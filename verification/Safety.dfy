/** The safety of the protocol, over every run. */
module Safety {
  import opened Words
  import opened Types
  import opened NodeSpec
  import opened NodeFacts
  import opened Cluster
  import opened Invariants
  import opened Growth
  import opened Moves
  import opened Elections
  import opened AppendHandlers
  import opened LeaderHandlers
  import opened VoteHandlers
  import opened Runs
  import opened Retention

  // ---- elections

  /** Election safety: whenever two nodes lead the same term, they are the same node. */
  lemma ElectionSafety(n: nat, run: seq<System>, a: nat, b: nat, i: nat, j: nat)
    requires IsRun(n, run) && a < |run| && b < |run| && i < n && j < n
    requires run[a].nodes[i].soft.role == Leader && run[b].nodes[j].soft.role == Leader
    requires run[a].nodes[i].hard.term == run[b].nodes[j].hard.term
    ensures i == j
  {
    var hs := RunHasHistory(n, run);
    assert Inv(n, run[a], hs[a]) && Inv(n, run[b], hs[b]);
    assert NodeOK(n, hs[a], i, run[a].nodes[i]) && NodeOK(n, hs[b], j, run[b].nodes[j]);
    if a <= b {
      assert Extends(hs[a], hs[b]);
    } else {
      assert Extends(hs[b], hs[a]);
    }
  }

  /** The message is the vote request of a candidate with this log that stands for the term after `term`. */
  predicate Asks(m: Message, term: u32, log: seq<Entry>) {
    m.VoteReq? && m.term == ToWord(term + 1)
    && m.lastLogIdx == ToWord(|log| - 1) && m.lastLogTerm == LogTerm(log, |log| - 1)
  }

  lemma HandlerAsks(cfg: Config, nd: Node, input: Input, p: Packet)
    requires cfg.Valid() && Shaped(cfg, nd.soft) && Fits(nd) && (input.Receive? ==> Deliverable(cfg, input.p))
    requires p in Handle(cfg, nd, input).sent && p.msg.VoteReq?
    ensures p.src == cfg.id && Asks(p.msg, nd.hard.term, nd.hard.log)
  {
    if input.Timeout? {
      if nd.soft.role == Leader {
        AppendRequestIs(cfg, nd, cfg.n, true, p);
      } else if ToInt(nd.hard.term) >= 0 {
        var ws := [SetTerm(ToWord(nd.hard.term + 1)), SetVote(cfg.id)];
        ApplyWritesShort(nd.hard, ws[0], ws[1]);
        VoteRequestsAre(cfg, ApplyWrites(nd.hard, ws), cfg.n);
      }
    } else if input.p.msg.AppendReq? {
      AppendReqSends(cfg, nd, input.p.msg, p);
    } else if input.p.msg.AppendRes? {
      AppendResSends(cfg, nd, input.p.src, input.p.msg, p);
    } else if input.p.msg.VoteRes? && nd.soft.role == Candidate {
      var nd' := nd.(soft := LeaderState(cfg, OneMoreVote(nd)));
      if p in AppendRequests(cfg, nd', cfg.n, true) {
        AppendRequestIs(cfg, nd', cfg.n, true, p);
      }
    } else if input.p.msg.ProcReq? && nd.soft.role == Leader {
      var ws := [Append(Entry(nd.hard.term, input.p.msg.clientId, input.p.msg.cmdSeqno, input.p.msg.cmd))];
      AppendRequestIs(cfg, Node(ApplyWrites(nd.hard, ws), Claim(nd.soft, |nd.hard.log|, input.p.msg)), cfg.n, false, p);
    }
  }

  /** The AppendEntries handler sends replies to clients, and one reply with the term it had on entry. */
  lemma AppendReqSends(cfg: Config, nd: Node, m: Message, p: Packet)
    requires cfg.Valid() && m.AppendReq? && p in HandleAppendReq(cfg, nd, m).sent
    ensures p.msg.ProcRes? || (p.msg.AppendRes? && p.src == cfg.id && p.dst == m.leaderId && p.msg.term == nd.hard.term)
  {
    if ToInt(nd.hard.term) >= 0 {
      AppendReqIs(cfg, nd, m);
      if m.term >= nd.hard.term && PrevMatches(nd.hard.log, m) && m.leaderCommit > Heard(nd, m).soft.commitIndex {
        var o := HandleAppendReq(cfg, nd, m);
        var r := ApplyCommitted(cfg, After(nd, o).hard, FollowerCommit(Heard(nd, m).soft, m));
        RepliesAnswer(cfg, After(nd, o).hard, FollowerCommit(Heard(nd, m).soft, m));
        assert o.sent == r.sent + [o.sent[|o.sent| - 1]];
        assert p in r.sent || p == o.sent[|o.sent| - 1];
      }
    }
  }

  lemma AppendResSends(cfg: Config, nd: Node, src: nat, m: Message, p: Packet)
    requires cfg.Valid() && Shaped(cfg, nd.soft) && Fits(nd) && m.AppendRes? && src < cfg.n
    requires p in HandleAppendRes(cfg, nd, src, m).sent
    ensures p.msg.ProcRes?
  {
    var matched := Matched(cfg, nd, src, ToInt(m.newMatchIndex));
    RepliesAnswer(cfg, nd.hard, matched.soft);
    if m.term <= nd.hard.term {
      assert HandleAppendRes(cfg, nd, src, m).sent == ApplyCommitted(cfg, nd.hard, matched.soft).sent;
    }
  }

  lemma StepAsks(n: nat, s: System, s': System, p: Packet)
    requires Sized(n, s) && Next(n, s, s') && p in s'.net && p !in s.net && p.msg.VoteReq?
    ensures p.src < n && Asks(p.msg, s.nodes[p.src].hard.term, s.nodes[p.src].hard.log)
  {
    var a :| Step(n, s, a, s');
    assert a.Run? || a.CrashIn?;
    HandlerAsks(Cfg(n, a.node), s.nodes[a.node], a.input, p);
  }

  /** Every vote request in flight was sent by a node that stood for its term with the log it states. */
  lemma {:induction false} VoteReqOrigin(n: nat, run: seq<System>, a: nat, p: Packet) returns (c: nat)
    requires IsRun(n, run) && a < |run| && p in run[a].net && p.msg.VoteReq?
    ensures p.src < n && c < a && Asks(p.msg, run[c].nodes[p.src].hard.term, run[c].nodes[p.src].hard.log)
    decreases a
  {
    if p in run[a - 1].net {
      c := VoteReqOrigin(n, run, a - 1, p);
    } else {
      AsksAt(n, run, a, p);
      c := a - 1;
    }
  }

  lemma AsksAt(n: nat, run: seq<System>, a: nat, p: Packet)
    requires IsRun(n, run) && 0 < a < |run| && p in run[a].net && p !in run[a - 1].net && p.msg.VoteReq?
    ensures p.src < n && Asks(p.msg, run[a - 1].nodes[p.src].hard.term, run[a - 1].nodes[p.src].hard.log)
  {
    assert NextAt(n, run, a);
    StepAsks(n, run[a - 1], run[a], p);
  }

  /**
   The vote check is the lexicographic order on logs: for every vote request in flight, whatever its
   candidate has become, it compares the log the candidate had when it stood for that term; and
   while it still stands that is the log it has.
   */
  lemma VoteCheckIsLexicographic(n: nat, run: seq<System>, a: nat, p: Packet, i: nat) returns (c: nat)
    requires IsRun(n, run) && a < |run| && p in run[a].net && p.msg.VoteReq? && i < n
    ensures p.src < n && c < a && p.msg.term == ToWord(run[c].nodes[p.src].hard.term + 1)
    ensures UpToDate(run[a].nodes[i].hard.log, p.msg.lastLogIdx, p.msg.lastLogTerm)
            <==> AtLeast(run[c].nodes[p.src].hard.log, run[a].nodes[i].hard.log)
    ensures CandidateAt(run[a].nodes, p.src, p.msg.term) ==>
              (UpToDate(run[a].nodes[i].hard.log, p.msg.lastLogIdx, p.msg.lastLogTerm)
               <==> AtLeast(run[a].nodes[p.src].hard.log, run[a].nodes[i].hard.log))
  {
    var hs := RunHasHistory(n, run);
    c := VoteReqOrigin(n, run, a, p);
    LogsPositive(n, run, hs, a, i);
    LogsPositive(n, run, hs, c, p.src);
    LogsPositive(n, run, hs, a, p.src);
    assert Inv(n, run[a], hs[a]);
    assert PacketOK(n, hs[a], run[a].nodes, p);
    UpToDateIsAtLeast(run[a].nodes[i].hard.log, run[c].nodes[p.src].hard.log);
    UpToDateIsAtLeast(run[a].nodes[i].hard.log, run[a].nodes[p.src].hard.log);
  }

  lemma LogsPositive(n: nat, run: seq<System>, hs: seq<History>, a: nat, i: nat)
    requires Explains(n, run, hs) && a < |run| && i < n
    ensures i < |run[a].nodes| && TermsPositive(run[a].nodes[i].hard.log) && |run[a].nodes[i].hard.log| < INT_SPAN
  {
    assert Inv(n, run[a], hs[a]);
    assert NodeOK(n, hs[a], i, run[a].nodes[i]);
    LogOKPositive(hs[a], run[a].nodes[i].hard.log);
  }

  /** Every stored entry carries a term of at least 1, and terms never decrease along a log. */
  lemma TermsArePositiveAndAscend(n: nat, run: seq<System>, a: nat, i: nat, j: nat, k: nat)
    requires IsRun(n, run) && a < |run| && i < n && j <= k < |run[a].nodes[i].hard.log|
    ensures 1 <= run[a].nodes[i].hard.log[j].term <= run[a].nodes[i].hard.log[k].term <= run[a].nodes[i].hard.term
  {
    var hs := RunHasHistory(n, run);
    assert Inv(n, run[a], hs[a]);
    assert NodeOK(n, hs[a], i, run[a].nodes[i]);
    LogOKPositive(hs[a], run[a].nodes[i].hard.log);
    TermsAscend(n, hs[a], run[a].nodes[i].hard.log, j, k);
  }

  // ---- logs

  /** Log matching: logs that hold the same term at an index, at whatever times, agree up to it. */
  lemma LogMatching(n: nat, run: seq<System>, a: nat, b: nat, i: nat, j: nat, k: nat)
    requires IsRun(n, run) && a < |run| && b < |run| && i < n && j < n
    requires k < |run[a].nodes[i].hard.log| && k < |run[b].nodes[j].hard.log|
    requires run[a].nodes[i].hard.log[k].term == run[b].nodes[j].hard.log[k].term
    ensures run[a].nodes[i].hard.log[..k + 1] == run[b].nodes[j].hard.log[..k + 1]
  {
    var hs := RunHasHistory(n, run);
    assert Inv(n, run[a], hs[a]) && Inv(n, run[b], hs[b]);
    var m := if a <= b then b else a;
    assert Extends(hs[a], hs[m]) && Extends(hs[b], hs[m]);
    assert NodeOK(n, hs[a], i, run[a].nodes[i]) && NodeOK(n, hs[b], j, run[b].nodes[j]);
    LogOKMono(hs[a], hs[m], run[a].nodes[i].hard.log);
    LogOKMono(hs[b], hs[m], run[b].nodes[j].hard.log);
    SameTermSamePrefix(hs[m], run[a].nodes[i].hard.log, run[b].nodes[j].hard.log, k);
  }

  /** Two chosen entries: the later leader's log contains the earlier leader's. */
  lemma ChosenPrefixes(n: nat, s: System, h: History, t: u32, k: int, t': u32, k': int)
    requires Inv(n, s, h) && Chosen(n, h, t, k) && Chosen(n, h, t', k') && t <= t'
    ensures Has(h.reigns[t'].log, h.reigns[t].log, k)
  {
    if t < t' {
      BaseKeeps(n, s.nodes, h, t, t', k);
      if Dead(s.nodes, h, t, k) {
        DeadIsNotChosen(n, s.nodes, h, t, k);
      }
    }
  }

  /** Entries at the same index below two chosen points are the same entry. */
  lemma ChosenAgree(n: nat, s: System, h: History, t: u32, k: int, t': u32, k': int, x: int)
    requires Inv(n, s, h) && Chosen(n, h, t, k) && Chosen(n, h, t', k') && 0 <= x <= k && x <= k'
    ensures h.reigns[t].log[x] == h.reigns[t'].log[x]
  {
    if t <= t' {
      ChosenPrefixes(n, s, h, t, k, t', k');
      HasShorter(h.reigns[t'].log, h.reigns[t].log, k, x);
    } else {
      ChosenPrefixes(n, s, h, t', k', t, k);
      HasShorter(h.reigns[t].log, h.reigns[t'].log, k', x);
    }
  }

  // ---- commitment

  /** The node counts index c as committed: it is at or below its commit index, or already applied. */
  predicate Settled(nd: Node, c: int) {
    0 <= c && (c <= nd.soft.commitIndex || c <= nd.soft.lastApplied)
  }

  lemma SettledIsCommitted(n: nat, h: History, i: nat, nd: Node, c: int)
    requires NodeOK(n, h, i, nd) && Settled(nd, c)
    ensures Committed(n, h, nd.hard.term, nd.hard.log, c)
  {
    if c <= nd.soft.commitIndex {
      CommittedShorter(n, h, nd.hard.term, nd.hard.log, nd.soft.commitIndex, c);
    } else {
      CommittedShorter(n, h, nd.hard.term, nd.hard.log, nd.soft.lastApplied, c);
    }
  }

  /**
   Leader completeness: what any node counts as committed in term t is in the log of every leader of
   every later term, from its election on, and of the leader of t itself from then on.
   */
  lemma LeaderCompleteness(n: nat, run: seq<System>, a: nat, b: nat, i: nat, j: nat, c: int)
    requires IsRun(n, run) && a < |run| && b < |run| && i < n && j < n
    requires run[b].nodes[j].soft.role == Leader && Settled(run[a].nodes[i], c)
    requires var t, t' := run[a].nodes[i].hard.term, run[b].nodes[j].hard.term; t < t' || (t == t' && a <= b)
    ensures Has(run[b].nodes[j].hard.log, run[a].nodes[i].hard.log, c)
  {
    var hs := RunHasHistory(n, run);
    assert Inv(n, run[a], hs[a]) && Inv(n, run[b], hs[b]);
    var m := if a <= b then b else a;
    assert Extends(hs[a], hs[m]) && Extends(hs[b], hs[m]);
    var nd, ld := run[a].nodes[i], run[b].nodes[j];
    assert NodeOK(n, hs[a], i, nd) && NodeOK(n, hs[b], j, ld);
    var t: u32, k := CommittedNow(n, hs[a], hs[m], i, nd, c);
    LeaderHasChosen(n, run[m], hs[m], hs[b], ld.hard.term, t, k, c, a <= b);
    HasTrans(ld.hard.log, hs[m].reigns[t].log, nd.hard.log, c);
  }

  lemma LeaderHasChosen(n: nat, s: System, h: History, h': History, t': u32, t: u32, k: int, c: int, now: bool)
    requires Inv(n, s, h) && Extends(h', h) && HistOK(n, h') && Chosen(n, h, t, k) && 0 <= c <= k
    requires t' in h'.reigns && (t < t' || (t == t' && now)) && (now ==> h' == h)
    ensures Has(h'.reigns[t'].log, h.reigns[t].log, c)
  {
    if t < t' {
      BaseKeeps(n, s.nodes, h, t, t', k);
      if Dead(s.nodes, h, t, k) {
        DeadIsNotChosen(n, s.nodes, h, t, k);
      }
      assert ReignOK(n, h', t');
      var base := h'.reigns[t'].base;
      HasOwnPrefix(base, h'.reigns[t'].log, k);
      HasTrans(h'.reigns[t'].log, base, h.reigns[t].log, k);
      HasShorter(h'.reigns[t'].log, h.reigns[t].log, k, c);
    }
  }

  /** Nodes agree on whatever both count as committed, at whatever times. */
  lemma CommittedPrefixesAgree(n: nat, run: seq<System>, a: nat, b: nat, i: nat, j: nat, x: int)
    requires IsRun(n, run) && a < |run| && b < |run| && i < n && j < n
    requires Settled(run[a].nodes[i], x) && Settled(run[b].nodes[j], x)
    ensures x < |run[a].nodes[i].hard.log| && x < |run[b].nodes[j].hard.log|
    ensures run[a].nodes[i].hard.log[x] == run[b].nodes[j].hard.log[x]
  {
    var hs := RunHasHistory(n, run);
    assert Inv(n, run[a], hs[a]) && Inv(n, run[b], hs[b]);
    var m := if a <= b then b else a;
    assert Extends(hs[a], hs[m]) && Extends(hs[b], hs[m]);
    assert NodeOK(n, hs[a], i, run[a].nodes[i]) && NodeOK(n, hs[b], j, run[b].nodes[j]);
    var t: u32, k := CommittedNow(n, hs[a], hs[m], i, run[a].nodes[i], x);
    var t': u32, k' := CommittedNow(n, hs[b], hs[m], j, run[b].nodes[j], x);
    ChosenAgree(n, run[m], hs[m], t, k, t', k', x);
  }

  /** The chosen entry behind an index a node counts as committed, seen from a later history. */
  lemma CommittedNow(n: nat, h: History, h': History, i: nat, nd: Node, x: int) returns (t: u32, k: int)
    requires Extends(h, h') && NodeOK(n, h, i, nd) && Settled(nd, x)
    ensures Chosen(n, h', t, k) && x <= k && t <= nd.hard.term && Has(nd.hard.log, h'.reigns[t].log, x)
    ensures x < |nd.hard.log| && nd.hard.log[x] == h'.reigns[t].log[x]
  {
    SettledIsCommitted(n, h, i, nd, x);
    CommittedIsPresent(n, h, nd.hard.term, nd.hard.log, x);
    CommittedMono(n, h, h', nd.hard.term, nd.hard.term, nd.hard.log, nd.hard.log, x);
    t, k :| CommittedVia(n, h', nd.hard.term, nd.hard.log, x, t, k);
  }

  /** Every node that stored a chosen entry has it still. */
  lemma ChosenIsStored(n: nat, s: System, h: History, t: u32, k: int, q: set<nat>, j: nat)
    requires Inv(n, s, h) && Chosen(n, h, t, k) && ChosenBy(n, h, t, k, q) && j in q
    ensures j < n && Has(s.nodes[j].hard.log, h.reigns[t].log, k)
  {
    assert Acked(h, t, j, k) && Own(h, t, k);
    assert Kept(s.nodes, h, s.nodes[j].hard.log, t, k);
    if Dead(s.nodes, h, t, k) {
      DeadIsNotChosen(n, s.nodes, h, t, k);
    }
  }

  lemma SettledOnMajority(n: nat, h: History, i: nat, nd: Node, c: int, s: System, h': History)
      returns (q: set<nat>)
    requires NodeOK(n, h, i, nd) && Settled(nd, c) && Extends(h, h') && Inv(n, s, h')
    ensures Majority(n, q) && forall j | j in q :: Has(s.nodes[j].hard.log, nd.hard.log, c)
  {
    var t: u32, k := CommittedNow(n, h, h', i, nd, c);
    q :| ChosenBy(n, h', t, k, q);
    forall j | j in q
      ensures Has(s.nodes[j].hard.log, nd.hard.log, c)
    {
      ChosenIsStored(n, s, h', t, k, q, j);
      HasShorter(s.nodes[j].hard.log, h'.reigns[t].log, k, c);
      HasTrans(s.nodes[j].hard.log, h'.reigns[t].log, nd.hard.log, c);
    }
  }

  /** Whatever any node counts as committed is stored by a majority of the nodes, then and ever after. */
  lemma CommittedOnMajority(n: nat, run: seq<System>, a: nat, b: nat, i: nat, c: int) returns (q: set<nat>)
    requires IsRun(n, run) && a <= b < |run| && i < n && Settled(run[a].nodes[i], c)
    ensures Majority(n, q)
    ensures forall j | j in q :: Has(run[b].nodes[j].hard.log, run[a].nodes[i].hard.log, c)
  {
    var hs := RunHasHistory(n, run);
    assert Inv(n, run[a], hs[a]) && Inv(n, run[b], hs[b]) && Extends(hs[a], hs[b]);
    assert NodeOK(n, hs[a], i, run[a].nodes[i]);
    q := SettledOnMajority(n, hs[a], i, run[a].nodes[i], c, run[b], hs[b]);
  }

  ghost predicate StoredBy(s: System, q: set<nat>, x: int, e: Entry) {
    forall j | j in q :: j < |s.nodes| && 0 <= x < |s.nodes[j].hard.log| && s.nodes[j].hard.log[x] == e
  }

  /** A majority of the nodes stores this entry at this index. */
  ghost predicate OnMajority(n: nat, s: System, x: int, e: Entry) {
    exists q :: Majority(n, q) && StoredBy(s, q, x, e)
  }

  lemma EventIsStored(n: nat, s: System, h: History, e: Event)
    requires Inv(n, s, h) && EventOK(n, h, e)
    ensures OnMajority(n, s, e.index, e.entry)
  {
    var t: u32, k :| EventVia(n, h, e, t, k);
    var q :| ChosenBy(n, h, t, k, q);
    forall j | j in q
      ensures j < n && 0 <= e.index < |s.nodes[j].hard.log| && s.nodes[j].hard.log[e.index] == e.entry
    {
      ChosenIsStored(n, s, h, t, k, q, j);
    }
    assert StoredBy(s, q, e.index, e.entry);
  }

  lemma EventsAgree(n: nat, s: System, h: History, e: Event, f: Event)
    requires Inv(n, s, h) && EventOK(n, h, e) && EventOK(n, h, f) && e.index == f.index
    ensures e.entry == f.entry
  {
    var t: u32, k :| EventVia(n, h, e, t, k);
    var t': u32, k' :| EventVia(n, h, f, t', k');
    ChosenAgree(n, s, h, t, k, t', k', e.index);
  }

  /** Committed entries are never removed: not by a truncation, not by a crash between any two writes. */
  lemma CommittedStays(n: nat, run: seq<System>, a: nat, b: nat, i: nat, c: int)
    requires IsRun(n, run) && a <= b < |run| && i < n && Settled(run[a].nodes[i], c)
    ensures Has(run[b].nodes[i].hard.log, run[a].nodes[i].hard.log, c)
  {
    var hs := RunHasHistory(n, run);
    assert Inv(n, run[a], hs[a]) && Inv(n, run[b], hs[b]);
    assert NodeOK(n, hs[a], i, run[a].nodes[i]);
    SettledIsCommitted(n, hs[a], i, run[a].nodes[i], c);
    CommittedStaysIn(n, run, hs, a, b, i, c);
  }

  lemma {:induction false} CommittedStaysIn(n: nat, run: seq<System>, hs: seq<History>, a: nat, b: nat, i: nat, c: int)
    requires IsRun(n, run) && a <= b < |run| == |hs| && i < n && c >= 0
    requires Explains(n, run, hs)
    requires Committed(n, hs[a], run[a].nodes[i].hard.term, run[a].nodes[i].hard.log, c)
    ensures Committed(n, hs[b], run[b].nodes[i].hard.term, run[b].nodes[i].hard.log, c)
    ensures Has(run[b].nodes[i].hard.log, run[a].nodes[i].hard.log, c)
    decreases b - a
  {
    if a == b {
      CommittedIsPresent(n, hs[a], run[a].nodes[i].hard.term, run[a].nodes[i].hard.log, c);
    } else {
      CommittedStaysIn(n, run, hs, a, b - 1, i, c);
      assert Inv(n, run[b - 1], hs[b - 1]) && Extends(hs[b - 1], hs[b]) && NextAt(n, run, b);
      CommittedStep(n, run[b - 1], run[b], hs[b - 1], hs[b], i, c);
      HasTrans(run[b].nodes[i].hard.log, run[b - 1].nodes[i].hard.log, run[a].nodes[i].hard.log, c);
    }
  }

  lemma CommittedStep(n: nat, s: System, s': System, h: History, h': History, i: nat, c: int)
    requires Inv(n, s, h) && Next(n, s, s') && Extends(h, h') && i < n && c >= 0
    requires Committed(n, h, s.nodes[i].hard.term, s.nodes[i].hard.log, c)
    ensures Committed(n, h', s'.nodes[i].hard.term, s'.nodes[i].hard.log, c)
    ensures Has(s'.nodes[i].hard.log, s.nodes[i].hard.log, c)
  {
    var a :| Step(n, s, a, s');
    StepRetains(n, s, a, s', h, i);
    StepRaisesTerm(n, s, a, s', i);
    CommittedMono(n, h, h', s.nodes[i].hard.term, s'.nodes[i].hard.term, s.nodes[i].hard.log, s'.nodes[i].hard.log, c);
  }

  /** The log reads of the apply loop and of the commit loop never fall outside the log. */
  lemma IndicesStayInsideLog(n: nat, run: seq<System>, a: nat, i: nat)
    requires IsRun(n, run) && a < |run| && i < n
    ensures -1 <= run[a].nodes[i].soft.commitIndex < |run[a].nodes[i].hard.log|
    ensures -1 <= run[a].nodes[i].soft.lastApplied < |run[a].nodes[i].hard.log|
  {
    var hs := RunHasHistory(n, run);
    assert Inv(n, run[a], hs[a]);
    var nd := run[a].nodes[i];
    assert NodeOK(n, hs[a], i, nd);
    CommittedIsPresent(n, hs[a], nd.hard.term, nd.hard.log, nd.soft.commitIndex);
    CommittedIsPresent(n, hs[a], nd.hard.term, nd.hard.log, nd.soft.lastApplied);
  }

  // ---- terms

  lemma {:induction false} WritesRaiseTerm(d: Durable, ws: seq<Write>)
    requires RaisesFirst(d, ws)
    ensures ApplyWrites(d, ws).term >= d.term
    decreases |ws|
  {
    if ws != [] {
      var rest := ws[1..];
      assert forall k | 0 <= k < |rest| :: !rest[k].SetTerm? by {
        assert forall k | 0 <= k < |rest| :: rest[k] == ws[k + 1];
      }
      WritesRaiseTerm(ApplyWrite(d, ws[0]), rest);
    }
  }

  /** If these writes set the term at all, their first one does, and not to a lower one. */
  predicate RaisesFirst(d: Durable, ws: seq<Write>) {
    forall k | 0 <= k < |ws| && ws[k].SetTerm? :: ws[k].term >= d.term && k == 0
  }

  lemma AppendReqRaises(cfg: Config, nd: Node, m: Message)
    requires cfg.Valid() && m.AppendReq?
    ensures RaisesFirst(nd.hard, HandleAppendReq(cfg, nd, m).writes)
  {
    var ws, down, join := HandleAppendReq(cfg, nd, m).writes, DownWrites(nd, m), JoinWrites(nd, m);
    AppendReqWrites(cfg, nd, m);
    MergeIsOfLog(nd.hard.log, ToInt(m.prevLogIdx) + 1, m.entries);
    if ws != [] && ws != down {
      forall k | |down| <= k < |ws|
        ensures !ws[k].SetTerm?
      {
        assert ws[k] == join[k - |down|] && join[k - |down|] in join;
      }
    }
  }

  lemma HandlerRaisesTerm(n: nat, s: System, i: nat, input: Input, w: nat)
    requires Sized(n, s) && Offered(n, s, i, input) && w <= |Handle(Cfg(n, i), s.nodes[i], input).writes|
    ensures ApplyWrites(s.nodes[i].hard, Handle(Cfg(n, i), s.nodes[i], input).writes[..w]).term
            >= s.nodes[i].hard.term
  {
    var nd := s.nodes[i];
    var ws := Handle(Cfg(n, i), nd, input).writes;
    assert nd.hard.term < INT_SPAN;
    assert RaisesFirst(nd.hard, ws) by {
      if input.Receive? && input.p.msg.AppendReq? {
        AppendReqRaises(Cfg(n, i), nd, input.p.msg);
      }
    }
    WritesRaiseTerm(nd.hard, ws[..w]);
  }

  lemma StepRaisesTerm(n: nat, s: System, a: Action, s': System, i: nat)
    requires Sized(n, s) && Step(n, s, a, s') && i < n
    ensures s'.nodes[i].hard.term >= s.nodes[i].hard.term
  {
    if a.Run? && a.node == i {
      var ws := Handle(Cfg(n, i), s.nodes[i], a.input).writes;
      assert ws[..|ws|] == ws;
      HandlerRaisesTerm(n, s, i, a.input, |ws|);
    } else if a.CrashIn? && a.node == i {
      HandlerRaisesTerm(n, s, i, a.input, a.writes);
    }
  }

  lemma NextRaisesTerm(n: nat, s: System, s': System, i: nat)
    requires Sized(n, s) && Next(n, s, s') && i < n && |s'.nodes| == n
    ensures s'.nodes[i].hard.term >= s.nodes[i].hard.term
  {
    var a :| Step(n, s, a, s');
    StepRaisesTerm(n, s, a, s', i);
  }

  /** A node's term never goes back, crashes included. */
  lemma {:induction false} TermsNeverGoBack(n: nat, run: seq<System>, a: nat, b: nat, i: nat)
    requires IsRun(n, run) && a <= b < |run| && i < n
    ensures run[a].nodes[i].hard.term <= run[b].nodes[i].hard.term
    decreases b - a
  {
    if a < b {
      TermsNeverGoBack(n, run, a, b - 1, i);
      assert NextAt(n, run, b);
      NextRaisesTerm(n, run[b - 1], run[b], i);
    }
  }

  // ---- the state machine

  /** State machine safety: whatever is applied at an index, by any node in any lifetime, is the same entry. */
  lemma StateMachineSafety(n: nat, run: seq<System>, a: nat, b: nat, e: Event, f: Event)
    requires IsRun(n, run) && a < |run| && b < |run| && e in run[a].trace && f in run[b].trace
    requires e.index == f.index
    ensures e.entry == f.entry
  {
    var hs := RunHasHistory(n, run);
    var m := if a <= b then b else a;
    assert Inv(n, run[m], hs[m]);
    EventLater(n, run, hs, a, m, e);
    EventLater(n, run, hs, b, m, f);
    EventsAgree(n, run[m], hs[m], e, f);
  }

  lemma EventLater(n: nat, run: seq<System>, hs: seq<History>, a: nat, m: nat, e: Event)
    requires Explains(n, run, hs) && a <= m < |run| && e in run[a].trace
    ensures EventOK(n, hs[m], e)
  {
    assert Inv(n, run[a], hs[a]) && Extends(hs[a], hs[m]);
    EventGrows(n, hs[a], hs[m], e);
  }

  // ---- replication state of a leader

  /**
   match_index is sound and stays sound: if the leader of a term counts node j as holding index m,
   then from then on, as long as node j is in that term, its log agrees with the leader's through m.
   */
  lemma MatchIndexSound(n: nat, run: seq<System>, a: nat, b: nat, i: nat, j: nat)
    requires IsRun(n, run) && a <= b < |run| && i < n && j < n && i != j
    requires run[a].nodes[i].soft.role == Leader && run[a].nodes[i].soft.matchIndex[j] >= 0
    requires run[b].nodes[j].hard.term == run[a].nodes[i].hard.term
    ensures Has(run[b].nodes[j].hard.log, run[a].nodes[i].hard.log, run[a].nodes[i].soft.matchIndex[j])
  {
    var hs := RunHasHistory(n, run);
    assert Inv(n, run[a], hs[a]) && Inv(n, run[b], hs[b]);
    var ld, m := run[a].nodes[i], run[a].nodes[i].soft.matchIndex[j];
    assert NodeOK(n, hs[a], i, ld) && NodeOK(n, hs[b], j, run[b].nodes[j]);
    assert Extends(hs[a], hs[b]);
    var ack := Ack(ld.hard.term, j, m);
    assert ack in hs[a].acks && ack in hs[b].acks;
    HasOwnPrefix(ld.hard.log, hs[b].reigns[ld.hard.term].log, m);
    HasTrans(run[b].nodes[j].hard.log, hs[b].reigns[ld.hard.term].log, ld.hard.log, m);
  }

  /**
   Whatever a follower replies to the first request of a new term, success or failure, carries its
   old term; whenever that reply reaches the leader, the leader drops it.
   */
  lemma StaleAckIsDropped(n: nat, run: seq<System>, a: nat, b: nat, p: Packet, r: Packet)
    requires IsRun(n, run) && a <= b < |run| && p in run[a].net && p.msg.AppendReq? && p.dst < n
    requires run[a].nodes[p.dst].hard.term < p.msg.term
    requires r in HandleAppendReq(Cfg(n, p.dst), run[a].nodes[p.dst], p.msg).sent && r.msg.AppendRes?
    ensures r.src == p.dst && r.dst == p.src < n && r.msg.term == run[a].nodes[p.dst].hard.term
    ensures var ld := run[b].nodes[p.src]; HandleAppendRes(Cfg(n, p.src), ld, r.src, r.msg) == Nothing(ld.soft)
  {
    var hs := RunHasHistory(n, run);
    AppendReqSends(Cfg(n, p.dst), run[a].nodes[p.dst], p.msg, r);
    LeaderIsInTerm(n, run, hs, a, b, p);
    StaleAckIgnored(Cfg(n, p.src), run[b].nodes[p.src], r.src, r.msg);
  }

  /** The sender of an AppendEntries has reached the term of the request, and never leaves it downwards. */
  lemma LeaderIsInTerm(n: nat, run: seq<System>, hs: seq<History>, a: nat, b: nat, p: Packet)
    requires Explains(n, run, hs) && a <= b < |run| && p in run[a].net && p.msg.AppendReq?
    ensures p.src == p.msg.leaderId && p.src < n == |run[b].nodes| && run[b].nodes[p.src].hard.term >= p.msg.term
  {
    assert Inv(n, run[a], hs[a]) && Inv(n, run[b], hs[b]) && Extends(hs[a], hs[b]);
    assert PacketOK(n, hs[a], run[a].nodes, p);
    LeaderReached(n, run[b], hs[b], p.msg.term);
  }

  lemma StaleAckIgnored(cfg: Config, ld: Node, src: nat, m: Message)
    requires cfg.Valid() && Shaped(cfg, ld.soft) && Fits(ld) && src < cfg.n && m.AppendRes? && m.term < ld.hard.term
    ensures HandleAppendRes(cfg, ld, src, m) == Nothing(ld.soft)
  {
  }

  /** A request that reaches its own leader's term never reaches the leader itself. */
  lemma LeaderNeverHearsItself(n: nat, run: seq<System>, a: nat, p: Packet)
    requires IsRun(n, run) && a < |run| && p in run[a].net && p.msg.AppendReq? && p.dst < n
    requires run[a].nodes[p.dst].soft.role == Leader
    ensures p.msg.term != run[a].nodes[p.dst].hard.term
  {
    var hs := RunHasHistory(n, run);
    assert Inv(n, run[a], hs[a]);
    assert PacketOK(n, hs[a], run[a].nodes, p);
    assert NodeOK(n, hs[a], p.dst, run[a].nodes[p.dst]);
  }
}
