/** Every step keeps the invariant, crashes included; so every run has a history. */
module Runs {
  import opened Words
  import opened Types
  import opened NodeSpec
  import opened NodeFacts
  import opened Cluster
  import opened Invariants
  import opened Growth
  import opened Moves
  import opened VoteHandlers
  import opened AppendHandlers
  import opened LeaderHandlers

  // ---- a handler run to its end

  lemma HandlerRuns(n: nat, s: System, h: History, i: nat, input: Input) returns (h': History)
    requires Inv(n, s, h) && Offered(n, s, i, input)
    requires Sized(n, Done(s, i, input, Handle(Cfg(n, i), s.nodes[i], input)))
    ensures Extends(h, h') && Inv(n, Done(s, i, input, Handle(Cfg(n, i), s.nodes[i], input)), h')
  {
    h' := h;
    ExtendsRefl(h);
    match input
    case Timeout(_) => h' := TimeoutRuns(n, s, h, i, input);
    case Receive(p) =>
      match p.msg
      case AppendReq(_, _, _, _, _, _) => h' := AppendReqRuns(n, s, h, i, p);
      case AppendRes(_, _, _) => AppendResRuns(n, s, h, i, p);
      case VoteReq(_, _, _, _) => h' := VoteReqRuns(n, s, h, i, p);
      case VoteRes(_, _) => h' := VoteResRuns(n, s, h, i, p);
      case ProcReq(_, _, _) => h' := ProcReqRuns(n, s, h, i, p);
      case ProcRes(_, _, _, _, _) => NothingRuns(n, s, h, i, p);
  }

  // ---- a handler stopped by a crash

  /** The node as the first w writes of a handler leave it on disk, restarted. */
  function Rebooted(nd: Node, o: Outcome, w: nat, v: Volatile): Node
    requires w <= |o.writes|
  {
    Node(ApplyWrites(nd.hard, o.writes[..w]), v)
  }

  lemma StepDownCrash(n: nat, s: System, h: History, i: nat, t: u32, ws: seq<Write>, v: Volatile)
    requires Inv(n, s, h) && i < n && Fresh(Cfg(n, i), v) && ws <= StepDownWrites(t)
    requires ws != [] ==> MayStepDown(h, s.nodes[i], t) && t < INT_SPAN
    ensures Inv(n, Put(s, i, Node(ApplyWrites(s.nodes[i].hard, ws), v)), h)
  {
    if ws != [] {
      assert ws == StepDownWrites(t)[..|ws|];
      StepDownYields(n, s, h, i, t, |ws|);
    }
    assert Fits(s.nodes[i]) && s.nodes[i].hard.term < INT_SPAN;
    YieldMove(n, s, h, i, Node(ApplyWrites(s.nodes[i].hard, ws), v));
  }

  lemma CampaignCrash(n: nat, s: System, h: History, i: nat, ws: seq<Write>, v: Volatile)
    requires Inv(n, s, h) && i < n && Fresh(Cfg(n, i), v)
    requires ws == [] || (ws == [SetTerm(s.nodes[i].hard.term + 1)] && s.nodes[i].hard.term + 1 < INT_SPAN)
    ensures Inv(n, Put(s, i, Node(ApplyWrites(s.nodes[i].hard, ws), v)), h)
  {
    assert Fits(s.nodes[i]) && s.nodes[i].hard.term < INT_SPAN;
    ApplyWritesShort(s.nodes[i].hard, SetTerm(s.nodes[i].hard.term + 1), SetVote(0));
    YieldMove(n, s, h, i, Node(ApplyWrites(s.nodes[i].hard, ws), v));
  }

  function DownWrites(nd: Node, m: Message): seq<Write>
    requires m.AppendReq?
  {
    if StepsDownFor(nd, m) then StepDownWrites(m.term) else []
  }

  function JoinWrites(nd: Node, m: Message): seq<Write>
    requires m.AppendReq?
  {
    MergeWrites(nd.hard.log, ToInt(m.prevLogIdx) + 1, m.entries)
  }

  /** The AppendEntries handler writes the step-down first and then merges. */
  lemma AppendReqWrites(cfg: Config, nd: Node, m: Message)
    requires cfg.Valid() && m.AppendReq?
    ensures var o, down := HandleAppendReq(cfg, nd, m), DownWrites(nd, m);
            || o.writes == []
            || (m.term >= nd.hard.term && o.writes == down)
            || (m.term >= nd.hard.term && PrevMatches(nd.hard.log, m) && o.writes == down + JoinWrites(nd, m))
    ensures m.term >= nd.hard.term ==> ApplyWrites(nd.hard, DownWrites(nd, m)) == Heard(nd, m).hard
  {
    ApplyWritesShort(nd.hard, SetTerm(m.term), SetVote(NO_VOTE));
  }

  lemma DownCrash(n: nat, s: System, h: History, i: nat, p: Packet, ws: seq<Write>, v: Volatile)
    requires Inv(n, s, h) && Offered(n, s, i, Receive(p)) && p.msg.AppendReq? && Fresh(Cfg(n, i), v)
    requires ws == [] || (p.msg.term >= s.nodes[i].hard.term && ws <= DownWrites(s.nodes[i], p.msg))
    requires ApplyWrites(s.nodes[i].hard, ws).term < INT_SPAN
    ensures Inv(n, Put(s, i, Node(ApplyWrites(s.nodes[i].hard, ws), v)), h)
  {
    assert PacketOK(n, h, s.nodes, p);
    CrashedTerm(s.nodes[i].hard, p.msg.term, ws);
    StepDownCrash(n, s, h, i, p.msg.term, ws, v);
  }

  /** A crash inside the AppendEntries handler: during the step-down, or during the merge. */
  lemma AppendReqCrash(n: nat, s: System, h: History, i: nat, p: Packet, w: nat, v: Volatile)
    requires Inv(n, s, h) && Offered(n, s, i, Receive(p)) && p.msg.AppendReq? && Fresh(Cfg(n, i), v)
    requires var o := HandleAppendReq(Cfg(n, i), s.nodes[i], p.msg);
             w <= |o.writes| && Rebooted(s.nodes[i], o, w, v).hard.term < INT_SPAN
    ensures Inv(n, Put(s, i, Rebooted(s.nodes[i], HandleAppendReq(Cfg(n, i), s.nodes[i], p.msg), w, v)), h)
  {
    var nd, m := s.nodes[i], p.msg;
    var o := HandleAppendReq(Cfg(n, i), nd, m);
    var down := DownWrites(nd, m);
    AppendReqWrites(Cfg(n, i), nd, m);
    if w <= |down| || o.writes == down {
      assert o.writes[..w] == [] || o.writes[..w] == down[..w];
      DownCrash(n, s, h, i, p, o.writes[..w], v);
    } else {
      var merge := JoinWrites(nd, m)[..w - |down|];
      assert o.writes[..w] == down + merge;
      ApplyWritesConcat(nd.hard, down, merge);
      MergeCrash(n, s, h, i, p, w - |down|, v);
    }
  }

  lemma CrashedTerm(d: Durable, t: u32, ws: seq<Write>)
    requires ws <= StepDownWrites(t)
    ensures ApplyWrites(d, ws).term == if ws == [] then d.term else t
  {
    ApplyWritesShort(d, SetTerm(t), SetVote(NO_VOTE));
    assert ws == [] || ws == [SetTerm(t)] || ws == [SetTerm(t), SetVote(NO_VOTE)];
  }

  lemma MergeKeepsTerm(d: Durable, at: nat, entries: seq<Entry>, w: nat)
    requires w <= |MergeWrites(d.log, at, entries)|
    ensures ApplyWrites(d, MergeWrites(d.log, at, entries)[..w]).term == d.term
  {
    var ws := MergeWrites(d.log, at, entries);
    MergeIsOfLog(d.log, at, entries);
    forall x | x in ws[..w]
      ensures !x.SetTerm?
    {
      assert x in ws;
    }
    BallotKept(d, ws[..w]);
  }

  lemma MergeCrash(n: nat, s: System, h: History, i: nat, p: Packet, w: nat, v: Volatile)
    requires Inv(n, s, h) && Offered(n, s, i, Receive(p)) && p.msg.AppendReq? && Fresh(Cfg(n, i), v)
    requires s.nodes[i].hard.term <= p.msg.term && PrevMatches(s.nodes[i].hard.log, p.msg)
    requires var ws := JoinWrites(s.nodes[i], p.msg);
             w <= |ws| && ApplyWrites(Heard(s.nodes[i], p.msg).hard, ws[..w]).term < INT_SPAN
    ensures var ws := JoinWrites(s.nodes[i], p.msg);
            Inv(n, Put(s, i, Node(ApplyWrites(Heard(s.nodes[i], p.msg).hard, ws[..w]), v)), h)
  {
    var nd, at := Heard(s.nodes[i], p.msg), ToInt(p.msg.prevLogIdx) + 1;
    assert PacketOK(n, h, s.nodes, p);
    MergeKeepsTerm(nd.hard, at, p.msg.entries, w);
    HeardMove(n, s, h, i, p);
    PrevAgrees(n, Put(s, i, nd), h, i, p.msg, p.src);
    MergeStop(n, Put(s, i, nd), h, i, at, p.msg.entries, w, v);
    assert Put(Put(s, i, nd), i, Node(MergedPart(nd.hard, at, p.msg.entries, w), v))
        == Put(s, i, Node(MergedPart(nd.hard, at, p.msg.entries, w), v));
  }

  lemma MergeStop(n: nat, s: System, h: History, i: nat, at: nat, entries: seq<Entry>, w: nat, v: Volatile)
    requires Inv(n, s, h) && Offers(n, s, h, i, at, entries) && Fresh(Cfg(n, i), v)
    requires w <= |MergeWrites(s.nodes[i].hard.log, at, entries)|
    ensures Inv(n, Put(s, i, Node(MergedPart(s.nodes[i].hard, at, entries, w), v)), h)
  {
    MergeMoves(n, s, h, i, at, entries, w);
    var s1 := Put(s, i, MergedNode(s.nodes[i], at, entries, w));
    RestartMove(n, s1, h, i, v);
    assert Put(s1, i, Node(s1.nodes[i].hard, v)) == Put(s, i, Node(MergedPart(s.nodes[i].hard, at, entries, w), v));
  }

  lemma OtherWrites(n: nat, s: System, i: nat, input: Input)
    requires Sized(n, s) && Offered(n, s, i, input) && (input.Receive? ==> !input.p.msg.AppendReq?)
    ensures var nd, ws := s.nodes[i], Handle(Cfg(n, i), s.nodes[i], input).writes;
            || ws == []
            || (input.Timeout? && ws == [SetTerm(ToWord(nd.hard.term + 1)), SetVote(i)])
            || (input.Receive? && |ws| == 1)
            || (input.Receive? && (input.p.msg.AppendRes? || input.p.msg.VoteReq? || input.p.msg.VoteRes?)
                && input.p.msg.term > nd.hard.term && |ws| <= 3 && ws[..2] == StepDownWrites(input.p.msg.term))
  {
  }

  /** Stopped before its last write, a handler leaves a state that keeps the invariant. */
  lemma HandlerStops(n: nat, s: System, h: History, i: nat, input: Input, w: nat, v: Volatile)
    requires Inv(n, s, h) && Offered(n, s, i, input) && Fresh(Cfg(n, i), v)
    requires var o := Handle(Cfg(n, i), s.nodes[i], input);
             w < |o.writes| && Rebooted(s.nodes[i], o, w, v).hard.term < INT_SPAN
    ensures Inv(n, Put(s, i, Rebooted(s.nodes[i], Handle(Cfg(n, i), s.nodes[i], input), w, v)), h)
  {
    var nd := s.nodes[i];
    var ws := Handle(Cfg(n, i), nd, input).writes;
    if input.Receive? && input.p.msg.AppendReq? {
      AppendReqCrash(n, s, h, i, input.p, w, v);
    } else {
      OtherWrites(n, s, i, input);
      assert Fits(nd) && nd.hard.term < INT_SPAN;
      if input.Receive? && |ws| > 1 {
        var t := input.p.msg.term;
        assert ws[..w] == ws[..2][..w];
        CrashedTerm(nd.hard, t, ws[..w]);
        StepDownCrash(n, s, h, i, t, ws[..w], v);
      } else {
        assert ws[..w] == [] || ws[..w] == [SetTerm(nd.hard.term + 1)];
        ApplyWritesShort(nd.hard, SetTerm(nd.hard.term + 1), SetVote(i));
        CampaignCrash(n, s, h, i, ws[..w], v);
      }
    }
  }

  // ---- steps

  lemma HandlerShape(n: nat, s: System, i: nat, input: Input)
    requires Sized(n, s) && Offered(n, s, i, input)
    ensures Shaped(Cfg(n, i), Handle(Cfg(n, i), s.nodes[i], input).soft)
  {
    var cfg, nd := Cfg(n, i), s.nodes[i];
    if input.Receive? {
      var m := input.p.msg;
      if m.AppendReq? {
        AppendReqShape(cfg, nd, m);
      } else if m.AppendRes? {
        ApplyCommittedKeeps(cfg, nd.hard, Matched(cfg, nd, input.p.src, ToInt(m.newMatchIndex)).soft);
      }
    }
  }

  lemma AppendReqShape(cfg: Config, nd: Node, m: Message)
    requires cfg.Valid() && Shaped(cfg, nd.soft) && m.AppendReq?
    ensures Shaped(cfg, HandleAppendReq(cfg, nd, m).soft)
  {
    var heard := Heard(nd, m).soft;
    var merge := JoinWrites(nd, m);
    ApplyCommittedKeeps(cfg, ApplyWrites(nd.hard, DownWrites(nd, m) + merge), FollowerCommit(heard, m));
  }

  /** After its last write a handler may still have got part of its packets and events out. */
  lemma StoppedLate(n: nat, d: System, h: History, i: nat, v: Volatile, net: multiset<Packet>, trace: seq<Event>)
    requires Inv(n, d, h) && i < n && Fresh(Cfg(n, i), v) && net <= d.net && trace <= d.trace
    ensures Inv(n, System(d.nodes[i := Node(d.nodes[i].hard, v)], net, trace), h)
  {
    RestartMove(n, d, h, i, v);
    FewerPackets(n, Put(d, i, Node(d.nodes[i].hard, v)), h, net, trace);
  }

  lemma StoppedEarly(n: nat, s: System, h: History, i: nat, input: Input, w: nat, v: Volatile)
    requires Inv(n, s, h) && Offered(n, s, i, input) && Fresh(Cfg(n, i), v)
    requires var o := Handle(Cfg(n, i), s.nodes[i], input);
             w < |o.writes| && Rebooted(s.nodes[i], o, w, v).hard.term < INT_SPAN
    ensures var o := Handle(Cfg(n, i), s.nodes[i], input);
            Inv(n, System(s.nodes[i := Rebooted(s.nodes[i], o, w, v)], Consumed(s.net, input), s.trace), h)
  {
    var o := Handle(Cfg(n, i), s.nodes[i], input);
    HandlerStops(n, s, h, i, input, w, v);
    FewerPackets(n, Put(s, i, Rebooted(s.nodes[i], o, w, v)), h, Consumed(s.net, input), s.trace);
  }

  lemma StoppedIs(s: System, i: nat, input: Input, o: Outcome, w: nat, k: nat, m: nat, v: Volatile)
    requires i < |s.nodes| && CrashPoint(o, w, k, m)
    ensures var s', d := Stopped(s, i, input, o, w, k, m, v), Done(s, i, input, o);
            if w == |o.writes| then
              && s' == System(d.nodes[i := Node(d.nodes[i].hard, v)], s'.net, s'.trace)
              && s'.net <= d.net && s'.trace <= d.trace
            else s' == System(s.nodes[i := Rebooted(s.nodes[i], o, w, v)], Consumed(s.net, input), s.trace)
  {
    if w == |o.writes| {
      assert o.writes[..w] == o.writes;
      assert o.sent == o.sent[..k] + o.sent[k..];
    } else {
      assert Stopped(s, i, input, o, w, k, m, v).trace == s.trace;
    }
  }

  lemma StoppedRuns(n: nat, s: System, h: History, i: nat, input: Input, w: nat, k: nat, m: nat, v: Volatile)
    returns (h': History)
    requires Inv(n, s, h) && Offered(n, s, i, input) && Fresh(Cfg(n, i), v)
    requires var o := Handle(Cfg(n, i), s.nodes[i], input);
             CrashPoint(o, w, k, m) && Sized(n, Stopped(s, i, input, o, w, k, m, v))
    ensures Extends(h, h')
    ensures Inv(n, Stopped(s, i, input, Handle(Cfg(n, i), s.nodes[i], input), w, k, m, v), h')
  {
    var o := Handle(Cfg(n, i), s.nodes[i], input);
    var s' := Stopped(s, i, input, o, w, k, m, v);
    StoppedIs(s, i, input, o, w, k, m, v);
    if w == |o.writes| {
      DoneIsSized(n, s, i, input, s');
      h' := HandlerRuns(n, s, h, i, input);
      StoppedLate(n, Done(s, i, input, o), h', i, v, s'.net, s'.trace);
    } else {
      h' := h;
      ExtendsRefl(h);
      assert s'.nodes[i].hard.term < INT_SPAN;
      StoppedEarly(n, s, h, i, input, w, v);
    }
  }

  lemma DoneIsSized(n: nat, s: System, i: nat, input: Input, s': System)
    requires Sized(n, s) && Offered(n, s, i, input) && Sized(n, s')
    requires s'.nodes[i].hard == After(s.nodes[i], Handle(Cfg(n, i), s.nodes[i], input)).hard
    ensures Sized(n, Done(s, i, input, Handle(Cfg(n, i), s.nodes[i], input)))
  {
    HandlerShape(n, s, i, input);
    var d := Done(s, i, input, Handle(Cfg(n, i), s.nodes[i], input));
    assert Fits(s'.nodes[i]) && s'.nodes[i].hard.term < INT_SPAN;
    forall j | 0 <= j < n
      ensures Fits(d.nodes[j]) && d.nodes[j].hard.term < INT_SPAN && Shaped(Cfg(n, j), d.nodes[j].soft)
    {
      assert j != i ==> d.nodes[j] == s.nodes[j];
    }
  }

  lemma StepKeepsInv(n: nat, s: System, a: Action, s': System, h: History) returns (h': History)
    requires Inv(n, s, h) && Step(n, s, a, s')
    ensures Extends(h, h') && Inv(n, s', h')
  {
    h' := h;
    ExtendsRefl(h);
    match a
    case Run(i, input) => h' := HandlerRuns(n, s, h, i, input);
    case CrashIn(i, input, w, k, m) => h' := StoppedRuns(n, s, h, i, input, w, k, m, s'.nodes[i].soft);
    case Crash(i) => RestartMove(n, s, h, i, s'.nodes[i].soft);
    case Lose(p) => ConsumeMove(n, s, h, p);
    case Submit(p) =>
      SendPlain(n, s, h, [p]);
      assert multiset([p]) == multiset{p};
  }

  /** The handler of this step, run to its end. */
  function Completed(n: nat, s: System, a: Action): System
    requires Sized(n, s) && (a.Run? || a.CrashIn?) && Offered(n, s, a.node, a.input)
  {
    Done(s, a.node, a.input, Handle(Cfg(n, a.node), s.nodes[a.node], a.input))
  }

  /** The step makes all the writes of its handler; it may still crash among the sends and applies. */
  ghost predicate EndsWrites(n: nat, s: System, a: Action, s': System)
    requires Sized(n, s)
  {
    && Step(n, s, a, s') && (a.Run? || a.CrashIn?)
    && (a.CrashIn? ==> a.writes == |Handle(Cfg(n, a.node), s.nodes[a.node], a.input).writes|)
  }

  /** One history serves the handler's end and the state the step leads to. */
  lemma HandlerEnds(n: nat, s: System, h: History, a: Action, s': System) returns (h': History)
    requires Inv(n, s, h) && EndsWrites(n, s, a, s')
    ensures Extends(h, h') && Inv(n, Completed(n, s, a), h') && Inv(n, s', h')
  {
    var d := Completed(n, s, a);
    match a
    case Run(i, input) => h' := HandlerRuns(n, s, h, i, input);
    case CrashIn(i, input, w, k, m) =>
      var o := Handle(Cfg(n, i), s.nodes[i], input);
      StoppedIs(s, i, input, o, w, k, m, s'.nodes[i].soft);
      DoneIsSized(n, s, i, input, s');
      h' := HandlerRuns(n, s, h, i, input);
      StoppedLate(n, d, h', i, s'.nodes[i].soft, s'.net, s'.trace);
  }

  // ---- runs

  function NoHistory(n: nat): History {
    History(map[], {}, {}, seq(n, i => {}))
  }

  lemma InitKeepsInv(n: nat, s: System)
    requires Init(n, s)
    ensures Inv(n, s, NoHistory(n))
  {
  }

  /** A history for each state of the run, each an extension of those before it. */
  ghost predicate Explains(n: nat, run: seq<System>, hs: seq<History>) {
    && |hs| == |run|
    && (forall k {:trigger Inv(n, run[k], hs[k])} | 0 <= k < |run| :: Inv(n, run[k], hs[k]))
    && forall j, k {:trigger Extends(hs[j], hs[k])} | 0 <= j <= k < |run| :: Extends(hs[j], hs[k])
  }

  lemma LongerHistory(n: nat, run: seq<System>, hs: seq<History>, s: System, h: History)
    requires Explains(n, run, hs) && |run| > 0 && Inv(n, s, h) && Extends(hs[|run| - 1], h)
    ensures Explains(n, run + [s], hs + [h])
  {
    var run', hs' := run + [s], hs + [h];
    ExtendsRefl(h);
    forall k | 0 <= k < |run'|
      ensures Inv(n, run'[k], hs'[k])
    {
      assert k < |run| ==> Inv(n, run[k], hs[k]);
    }
    forall j, k | 0 <= j <= k < |run'|
      ensures Extends(hs'[j], hs'[k])
    {
      if k < |run| {
        assert Extends(hs[j], hs[k]);
      } else if j < |run| {
        assert Extends(hs[j], hs[|run| - 1]);
        ExtendsTrans(hs[j], hs[|run| - 1], h);
      }
    }
  }

  lemma NextKeepsInv(n: nat, s: System, s': System, h: History) returns (h': History)
    requires Inv(n, s, h) && Next(n, s, s')
    ensures Extends(h, h') && Inv(n, s', h')
  {
    var a :| Step(n, s, a, s');
    h' := StepKeepsInv(n, s, a, s', h);
  }

  lemma PrefixIsRun(n: nat, run: seq<System>, m: nat)
    requires IsRun(n, run) && 0 < m <= |run|
    ensures IsRun(n, run[..m])
  {
    forall k | 0 < k < m
      ensures NextAt(n, run[..m], k)
    {
      assert NextAt(n, run, k);
    }
  }

  lemma OneMoreState(n: nat, run: seq<System>, hs: seq<History>, s: System) returns (hs': seq<History>)
    requires Explains(n, run, hs) && |run| > 0 && Sized(n, run[|run| - 1]) && Next(n, run[|run| - 1], s)
    ensures Explains(n, run + [s], hs')
  {
    assert Inv(n, run[|run| - 1], hs[|run| - 1]);
    var h := NextKeepsInv(n, run[|run| - 1], s, hs[|run| - 1]);
    LongerHistory(n, run, hs, s, h);
    hs' := hs + [h];
  }

  lemma FirstState(n: nat, s: System)
    requires Init(n, s)
    ensures Explains(n, [s], [NoHistory(n)])
  {
    InitKeepsInv(n, s);
    ExtendsRefl(NoHistory(n));
  }

  /** Every run has a history: it only grows, and every state satisfies the invariant with it. */
  lemma {:induction false} RunHasHistory(n: nat, run: seq<System>) returns (hs: seq<History>)
    requires IsRun(n, run)
    ensures Explains(n, run, hs)
    decreases |run|
  {
    var last := |run| - 1;
    if last == 0 {
      FirstState(n, run[0]);
      hs := [NoHistory(n)];
      assert run == [run[0]];
    } else {
      PrefixIsRun(n, run, last);
      var before := RunHasHistory(n, run[..last]);
      assert NextAt(n, run, last);
      hs := OneMoreState(n, run[..last], before, run[last]);
      assert run == run[..last] + [run[last]];
    }
  }

  /** Any history of one state of a run grows into one of each later state. */
  lemma {:induction false} HistoryFrom(n: nat, run: seq<System>, b: nat, d: nat, h: History) returns (h': History)
    requires IsRun(n, run) && b <= d < |run| && Inv(n, run[b], h)
    ensures Extends(h, h') && Inv(n, run[d], h')
    decreases d - b
  {
    if b == d {
      h' := h;
      ExtendsRefl(h);
    } else {
      var before := HistoryFrom(n, run, b, d - 1, h);
      assert NextAt(n, run, d);
      h' := NextKeepsInv(n, run[d - 1], run[d], before);
      ExtendsTrans(h, before, h');
    }
  }
}
