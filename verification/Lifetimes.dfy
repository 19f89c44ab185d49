/** What one process lifetime applies and replies. */
module Lifetimes {
  import opened Words
  import opened Types
  import opened NodeSpec
  import opened NodeFacts
  import opened Cluster
  import opened Invariants
  import opened AppendHandlers
  import opened LeaderHandlers
  import opened Moves
  import opened Runs

  // ---- what one handler applies

  /** The outcome applies exactly the indices from the old last_applied to the new one, in order. */
  predicate AppliesInOrder(nd: Node, o: Outcome) {
    && -1 <= nd.soft.lastApplied <= o.soft.lastApplied < |After(nd, o).hard.log|
    && o.applied == Window(After(nd, o).hard.log, nd.soft.lastApplied, o.soft.lastApplied)
  }

  predicate Inside(nd: Node) {
    -1 <= nd.soft.commitIndex < |nd.hard.log| && -1 <= nd.soft.lastApplied < |nd.hard.log|
  }

  lemma NothingApplied(nd: Node, o: Outcome)
    requires Inside(nd) && o.applied == [] && o.soft.lastApplied == nd.soft.lastApplied
    requires |nd.hard.log| <= |After(nd, o).hard.log|
    ensures AppliesInOrder(nd, o)
  {
  }

  lemma AppendReqApplies(cfg: Config, nd: Node, m: Message)
    requires cfg.Valid() && m.AppendReq? && Inside(nd)
    requires Inside(After(nd, HandleAppendReq(cfg, nd, m)))
    ensures AppliesInOrder(nd, HandleAppendReq(cfg, nd, m))
  {
    var o := HandleAppendReq(cfg, nd, m);
    if ToInt(nd.hard.term) >= 0 {
      AppendReqIs(cfg, nd, m);
      if m.term >= nd.hard.term && PrevMatches(nd.hard.log, m) {
        var heard := Heard(nd, m);
        if m.leaderCommit > heard.soft.commitIndex {
          ApplyCommittedKeeps(cfg, After(nd, o).hard, FollowerCommit(heard.soft, m));
          ApplyCommittedIs(cfg, After(nd, o).hard, FollowerCommit(heard.soft, m));
        }
      }
    }
  }

  lemma AppendResApplies(cfg: Config, nd: Node, src: nat, m: Message)
    requires cfg.Valid() && Shaped(cfg, nd.soft) && Fits(nd) && m.AppendRes? && src < cfg.n && Inside(nd)
    ensures AppliesInOrder(nd, HandleAppendRes(cfg, nd, src, m))
  {
    var o := HandleAppendRes(cfg, nd, src, m);
    ApplyWritesShort(nd.hard, SetTerm(m.term), SetVote(NO_VOTE));
    if m.term <= nd.hard.term && nd.soft.role == Leader && m.term == nd.hard.term && m.success {
      var v := Matched(cfg, nd, src, ToInt(m.newMatchIndex)).soft;
      CommitPointIsGreatest(cfg, nd.hard, v.matchIndex, nd.soft.commitIndex, |nd.hard.log|);
      ApplyCommittedIs(cfg, nd.hard, v);
    }
  }

  lemma HandlerApplies(n: nat, s: System, i: nat, input: Input)
    requires Sized(n, s) && Offered(n, s, i, input) && Inside(s.nodes[i])
    requires Inside(After(s.nodes[i], Handle(Cfg(n, i), s.nodes[i], input)))
    ensures AppliesInOrder(s.nodes[i], Handle(Cfg(n, i), s.nodes[i], input))
  {
    var nd := s.nodes[i];
    if input.Receive? && input.p.msg.AppendReq? {
      AppendReqApplies(Cfg(n, i), nd, input.p.msg);
    } else if input.Receive? && input.p.msg.AppendRes? {
      AppendResApplies(Cfg(n, i), nd, input.p.src, input.p.msg);
    } else {
      var o := Handle(Cfg(n, i), nd, input);
      Retained(nd.hard, o.writes);
      NothingApplied(nd, o);
    }
  }

  lemma {:induction false} Retained(d: Durable, ws: seq<Write>)
    requires forall w | w in ws :: !w.Truncate?
    ensures |d.log| <= |ApplyWrites(d, ws).log|
    decreases |ws|
  {
    if ws != [] {
      Retained(ApplyWrite(d, ws[0]), ws[1..]);
    }
  }

  // ---- what one lifetime applies

  /** The events of node i, in order. */
  function EventsOf(trace: seq<Event>, i: nat): seq<Event> {
    if trace == [] then []
    else if trace[|trace| - 1].node == i then EventsOf(trace[..|trace| - 1], i) + [trace[|trace| - 1]]
    else EventsOf(trace[..|trace| - 1], i)
  }

  lemma {:induction false} EventsOfConcat(a: seq<Event>, b: seq<Event>, i: nat)
    ensures EventsOf(a + b, i) == EventsOf(a, i) + EventsOf(b, i)
    decreases |b|
  {
    if b == [] {
      assert a + b == a;
    } else {
      var c := b[..|b| - 1];
      assert (a + b)[..|a + b| - 1] == a + c;
      EventsOfConcat(a, c, i);
    }
  }

  lemma {:induction false} EventsOfOne(es: seq<Event>, i: nat, j: nat)
    requires forall e | e in es :: e.node == j
    ensures EventsOf(es, i) == if i == j then es else []
    decreases |es|
  {
    if es != [] {
      EventsOfOne(es[..|es| - 1], i, j);
      assert es == es[..|es| - 1] + [es[|es| - 1]];
    }
  }

  predicate Restarts(a: Action, i: nat) {
    (a.Crash? || a.CrashIn?) && a.node == i
  }

  /** A step in which node i does not crash. */
  ghost predicate Calm(n: nat, s: System, s': System, i: nat)
    requires Sized(n, s)
  {
    exists a :: Step(n, s, a, s') && !Restarts(a, i)
  }

  ghost predicate CalmAt(n: nat, run: seq<System>, k: nat, i: nat)
    requires 0 < k < |run| && Sized(n, run[k - 1])
  {
    Calm(n, run[k - 1], run[k], i)
  }

  /** The new events of node i are the indices after `from` up to `to`, each exactly once, in order. */
  predicate Consecutive(es: seq<Event>, i: nat, from: int, to: int) {
    && from <= to && |es| == to - from
    && forall q | 0 <= q < |es| :: es[q].node == i && es[q].index == from + 1 + q
  }

  /** From one state to another, node i has applied exactly the indices its last_applied has passed. */
  predicate Ordered(s: System, s': System, i: nat)
    requires i < |s.nodes| && i < |s'.nodes|
  {
    && s.trace <= s'.trace
    && Consecutive(NewEvents(s.trace, s'.trace, i), i, s.nodes[i].soft.lastApplied, s'.nodes[i].soft.lastApplied)
  }

  lemma RunApplies(n: nat, s: System, s': System, j: nat, input: Input, i: nat)
    requires Sized(n, s) && Step(n, s, Run(j, input), s') && i < n && Inside(s.nodes[i]) && Inside(s'.nodes[i])
    ensures Ordered(s, s', i)
  {
    var applied := Handle(Cfg(n, j), s.nodes[j], input).applied;
    EventsAdded(s, s', applied, i, j);
    if j == i {
      HandlerApplies(n, s, i, input);
    }
  }

  lemma EventsAdded(s: System, s': System, applied: seq<Applied>, i: nat, j: nat)
    requires s'.trace == s.trace + Events(j, applied)
    ensures s.trace <= s'.trace
    ensures NewEvents(s.trace, s'.trace, i) == if i == j then Events(j, applied) else []
  {
    NewEventsAre(s.trace, s'.trace, Events(j, applied), i);
    EventsOfOne(Events(j, applied), i, j);
  }

  lemma OtherCrashes(n: nat, s: System, s': System, j: nat, input: Input, w: nat, k: nat, m: nat, i: nat)
    requires Sized(n, s) && Step(n, s, CrashIn(j, input, w, k, m), s') && i < n && i != j
    ensures Ordered(s, s', i)
  {
    EventsAdded(s, s', Handle(Cfg(n, j), s.nodes[j], input).applied[..m], i, j);
  }

  lemma NewEventsAre(t: seq<Event>, t': seq<Event>, es: seq<Event>, i: nat)
    requires t' == t + es
    ensures t <= t' && NewEvents(t, t', i) == EventsOf(es, i)
  {
  }

  lemma CalmStepApplies(n: nat, s: System, s': System, h: History, h': History, i: nat)
    requires Inv(n, s, h) && Inv(n, s', h') && i < n && Calm(n, s, s', i)
    ensures Ordered(s, s', i)
  {
    NodesInside(n, s, h, i);
    NodesInside(n, s', h', i);
    var a :| Step(n, s, a, s') && !Restarts(a, i);
    if a.Run? {
      RunApplies(n, s, s', a.node, a.input, i);
    } else if a.CrashIn? {
      OtherCrashes(n, s, s', a.node, a.input, a.writes, a.sends, a.applies, i);
    } else {
      NewEventsAre(s.trace, s'.trace, [], i);
    }
  }

  lemma NodesInside(n: nat, s: System, h: History, i: nat)
    requires Inv(n, s, h) && i < n
    ensures Inside(s.nodes[i])
  {
    var nd := s.nodes[i];
    assert NodeOK(n, h, i, nd);
    CommittedIsPresent(n, h, nd.hard.term, nd.hard.log, nd.soft.commitIndex);
    CommittedIsPresent(n, h, nd.hard.term, nd.hard.log, nd.soft.lastApplied);
  }

  /** The events of node i added since an earlier trace. */
  function NewEvents(t: seq<Event>, t': seq<Event>, i: nat): seq<Event> {
    if |t| <= |t'| then EventsOf(t'[|t|..], i) else []
  }

  lemma NewEventsJoin(t0: seq<Event>, t1: seq<Event>, t2: seq<Event>, i: nat)
    requires t0 <= t1 <= t2
    ensures NewEvents(t0, t2, i) == NewEvents(t0, t1, i) + NewEvents(t1, t2, i)
  {
    assert t2[|t0|..] == t1[|t0|..] + t2[|t1|..];
    EventsOfConcat(t1[|t0|..], t2[|t1|..], i);
  }

  lemma OrderedJoin(s0: System, s1: System, s2: System, i: nat)
    requires i < |s0.nodes| && i < |s1.nodes| && i < |s2.nodes| && Ordered(s0, s1, i) && Ordered(s1, s2, i)
    ensures Ordered(s0, s2, i)
  {
    NewEventsJoin(s0.trace, s1.trace, s2.trace, i);
  }

  lemma {:induction false} CalmAppliesInOrder(n: nat, run: seq<System>, a: nat, b: nat, i: nat)
    requires IsRun(n, run) && a <= b < |run| && i < n
    requires forall k {:trigger CalmAt(n, run, k, i)} | a < k <= b :: CalmAt(n, run, k, i)
    ensures Ordered(run[a], run[b], i)
    decreases b - a
  {
    if a == b {
      assert run[b].trace[|run[a].trace|..] == [];
    } else {
      CalmAppliesInOrder(n, run, a, b - 1, i);
      assert CalmAt(n, run, b, i);
      CalmRunApplies(n, run, b, i);
      OrderedJoin(run[a], run[b - 1], run[b], i);
    }
  }

  lemma CalmRunApplies(n: nat, run: seq<System>, b: nat, i: nat)
    requires IsRun(n, run) && 0 < b < |run| && i < n && CalmAt(n, run, b, i)
    ensures Ordered(run[b - 1], run[b], i)
  {
    var hs := RunHasHistory(n, run);
    assert Inv(n, run[b - 1], hs[b - 1]) && Inv(n, run[b], hs[b]);
    CalmStepApplies(n, run[b - 1], run[b], hs[b - 1], hs[b], i);
  }

  /** The new events of node i follow its last_applied without a gap or a repetition. */
  predicate Follows(s: System, s': System, i: nat)
    requires i < |s.nodes|
  {
    var es, from := NewEvents(s.trace, s'.trace, i), s.nodes[i].soft.lastApplied;
    s.trace <= s'.trace && Consecutive(es, i, from, from + |es|)
  }

  /** A handler cut off by a crash has applied the first of the entries it would have applied. */
  lemma CrashApplies(n: nat, s: System, s': System, h: History, a: Action, i: nat)
    requires Inv(n, s, h) && Step(n, s, a, s') && Restarts(a, i) && i < n
    ensures Follows(s, s', i)
  {
    if a.CrashIn? && a.applies > 0 {
      EventsAdded(s, s', Handle(Cfg(n, i), s.nodes[i], a.input).applied[..a.applies], i, i);
      var h' := HandlerEnds(n, s, h, a, s');
      NodesInside(n, s, h, i);
      NodesInside(n, Completed(n, s, a), h', i);
      HandlerApplies(n, s, i, a.input);
    } else {
      NewEventsAre(s.trace, s'.trace, [], i);
    }
  }

  lemma StepFollows(n: nat, s: System, s': System, h: History, h': History, i: nat)
    requires Inv(n, s, h) && Inv(n, s', h') && Next(n, s, s') && i < n
    ensures Follows(s, s', i)
  {
    var a :| Step(n, s, a, s');
    if Restarts(a, i) {
      CrashApplies(n, s, s', h, a, i);
    } else {
      CalmStepApplies(n, s, s', h, h', i);
    }
  }

  lemma FollowsJoin(s0: System, s1: System, s2: System, i: nat)
    requires i < |s0.nodes| && i < |s1.nodes| && Ordered(s0, s1, i) && Follows(s1, s2, i)
    ensures Follows(s0, s2, i)
  {
    NewEventsJoin(s0.trace, s1.trace, s2.trace, i);
  }

  /**
   Apply discipline: within a lifetime, the handler in which it ends by a crash included, a node
   applies the indices above its last_applied consecutively, each once, although its commit_index
   may move backwards; and until the crash they are exactly those last_applied has passed.
   */
  lemma AppliedOnceInOrder(n: nat, run: seq<System>, a: nat, b: nat, i: nat)
    requires IsRun(n, run) && a <= b < |run| && i < n
    requires forall k {:trigger CalmAt(n, run, k, i)} | a < k < b :: CalmAt(n, run, k, i)
    ensures Follows(run[a], run[b], i)
    ensures a == b || CalmAt(n, run, b, i) ==> Ordered(run[a], run[b], i)
  {
    if a == b || CalmAt(n, run, b, i) {
      CalmAppliesInOrder(n, run, a, b, i);
    } else {
      AppliesUpToCrash(n, run, a, b, i);
    }
  }

  lemma AppliesUpToCrash(n: nat, run: seq<System>, a: nat, b: nat, i: nat)
    requires IsRun(n, run) && a < b < |run| && i < n
    requires forall k {:trigger CalmAt(n, run, k, i)} | a < k < b :: CalmAt(n, run, k, i)
    ensures Follows(run[a], run[b], i)
  {
    CalmAppliesInOrder(n, run, a, b - 1, i);
    LastFollows(n, run, b, i);
    FollowsJoin(run[a], run[b - 1], run[b], i);
  }

  lemma LastFollows(n: nat, run: seq<System>, b: nat, i: nat)
    requires IsRun(n, run) && 0 < b < |run| && i < n
    ensures Follows(run[b - 1], run[b], i)
  {
    var hs := RunHasHistory(n, run);
    assert Inv(n, run[b - 1], hs[b - 1]) && Inv(n, run[b], hs[b]) && NextAt(n, run, b);
    StepFollows(n, run[b - 1], run[b], hs[b - 1], hs[b], i);
  }
}
