/** What clients are told, and what that is worth. */
module Clients {
  import opened Words
  import opened Types
  import opened NodeSpec
  import opened NodeFacts
  import opened Cluster
  import opened Invariants
  import opened AppendHandlers
  import opened LeaderHandlers
  import opened VoteHandlers
  import opened Moves
  import opened Runs
  import opened Safety
  import opened Lifetimes

  // ---- slots and replies

  function Active(slots: seq<Slot>): nat {
    if slots == [] then 0
    else Active(slots[..|slots| - 1]) + if slots[|slots| - 1].active then 1 else 0
  }

  lemma {:induction false} ActiveChange(slots: seq<Slot>, k: nat, s: Slot)
    requires k < |slots| && slots[k].active != s.active
    ensures Active(slots[k := s]) == if s.active then Active(slots) + 1 else Active(slots) - 1
    decreases |slots|
  {
    var last := |slots| - 1;
    if k < last {
      ActiveChange(slots[..last], k, s);
      assert slots[k := s][..last] == slots[..last][k := s];
    } else {
      assert slots[k := s][..last] == slots[..last];
    }
  }

  function Successes(ps: seq<Packet>): nat {
    if ps == [] then 0 else (if IsSuccess(ps[0]) then 1 else 0) + Successes(ps[1..])
  }

  lemma {:induction false} SuccessesConcat(a: seq<Packet>, b: seq<Packet>)
    ensures Successes(a + b) == Successes(a) + Successes(b)
    decreases |a|
  {
    if a == [] {
      assert a + b == b;
    } else {
      assert (a + b)[1..] == a[1..] + b;
      SuccessesConcat(a[1..], b);
    }
  }

  lemma {:induction false} NoSuccesses(ps: seq<Packet>)
    requires forall p | p in ps :: !IsSuccess(p)
    ensures Successes(ps) == 0
    decreases |ps|
  {
    if ps != [] {
      NoSuccesses(ps[1..]);
    }
  }

  lemma ApplyOneAccounts(cfg: Config, hard: Durable, v: Volatile)
    requires cfg.Valid()
    ensures var r := ApplyOne(cfg, hard, v); Active(r.soft.slots) + Successes(r.sent) == Active(v.slots)
  {
    var r, k := ApplyOne(cfg, hard, v), v.lastApplied + 1;
    if r.sent != [] {
      var e := hard.log[k];
      var f := FindSlot(v.slots, e, 0);
      FindSlotFinds(v.slots, e, 0);
      ActiveChange(v.slots, f, v.slots[f].(active := false));
      assert r.sent == [Reply(cfg, hard.term, e)] && r.sent[1..] == [];
    }
  }

  /** One pass releases one slot for each success it sends. */
  lemma {:induction false} ApplyCommittedAccounts(cfg: Config, hard: Durable, v: Volatile)
    requires cfg.Valid()
    ensures var r := ApplyCommitted(cfg, hard, v); Active(r.soft.slots) + Successes(r.sent) == Active(v.slots)
    decreases v.commitIndex - v.lastApplied
  {
    if v.lastApplied < v.commitIndex {
      var one := ApplyOne(cfg, hard, v);
      ApplyOneAccounts(cfg, hard, v);
      ApplyCommittedAccounts(cfg, hard, one.soft);
      SuccessesConcat(one.sent, ApplyCommitted(cfg, hard, one.soft).sent);
    }
  }

  /** A client request that a leader takes on. */
  predicate TakesOn(nd: Node, input: Input) {
    input.Receive? && input.p.msg.ProcReq? && nd.soft.role == Leader
  }

  /** What a handler owes its clients: every success answers an applied entry and releases one slot. */
  predicate Accounts(nd: Node, input: Input, o: Outcome) {
    && Active(o.soft.slots) + Successes(o.sent)
       == Active(nd.soft.slots) + (if TakesOn(nd, input) && FreeSlot(nd.soft.slots, 0) < |nd.soft.slots| then 1 else 0)
    && forall p | p in o.sent && IsSuccess(p) :: Answers(p, o.applied)
  }

  lemma AppendReqAccounts(cfg: Config, nd: Node, p: Packet)
    requires cfg.Valid() && p.msg.AppendReq?
    ensures Accounts(nd, Receive(p), HandleAppendReq(cfg, nd, p.msg))
  {
    var m := p.msg;
    var o := HandleAppendReq(cfg, nd, m);
    if ToInt(nd.hard.term) >= 0 {
      AppendReqIs(cfg, nd, m);
      var ack := o.sent[|o.sent| - 1];
      NoSuccesses([ack]);
      if m.term >= nd.hard.term && PrevMatches(nd.hard.log, m) && m.leaderCommit > Heard(nd, m).soft.commitIndex {
        var r := ApplyCommitted(cfg, After(nd, o).hard, FollowerCommit(Heard(nd, m).soft, m));
        ApplyCommittedAccounts(cfg, After(nd, o).hard, FollowerCommit(Heard(nd, m).soft, m));
        RepliesAnswer(cfg, After(nd, o).hard, FollowerCommit(Heard(nd, m).soft, m));
        SuccessesConcat(r.sent, [ack]);
        assert o.sent == r.sent + [ack];
      }
    }
  }

  lemma {:induction false} BroadcastsAreNoReplies(cfg: Config, nd: Node, upto: nat, heartbeat: bool)
    requires cfg.Valid() && Shaped(cfg, nd.soft) && upto <= cfg.n
    ensures Successes(AppendRequests(cfg, nd, upto, heartbeat)) == 0
    ensures forall p | p in AppendRequests(cfg, nd, upto, heartbeat) :: !IsSuccess(p)
  {
    forall p | p in AppendRequests(cfg, nd, upto, heartbeat)
      ensures !IsSuccess(p)
    {
      AppendRequestIs(cfg, nd, upto, heartbeat, p);
    }
    NoSuccesses(AppendRequests(cfg, nd, upto, heartbeat));
  }

  lemma ProcReqAccounts(cfg: Config, nd: Node, p: Packet)
    requires cfg.Valid() && Shaped(cfg, nd.soft) && Fits(nd) && p.msg.ProcReq?
    ensures Accounts(nd, Receive(p), HandleProcReq(cfg, nd, p.src, p.msg))
  {
    var o := HandleProcReq(cfg, nd, p.src, p.msg);
    if nd.soft.role == Leader {
      var k := FreeSlot(nd.soft.slots, 0);
      FreeSlotFinds(nd.soft.slots, 0);
      if k < |nd.soft.slots| {
        ActiveChange(nd.soft.slots, k, Slot(p.msg.clientId, p.msg.cmdSeqno, |nd.hard.log|, true));
      }
      BroadcastsAreNoReplies(cfg, Node(ApplyWrites(nd.hard, o.writes), o.soft), cfg.n, false);
    } else {
      NoSuccesses(o.sent);
    }
  }

  lemma QuietAccounts(cfg: Config, nd: Node, input: Input)
    requires cfg.Valid() && Shaped(cfg, nd.soft) && Fits(nd) && (input.Receive? ==> Deliverable(cfg, input.p))
    requires input.Receive? ==> !input.p.msg.AppendReq? && !input.p.msg.AppendRes? && !input.p.msg.ProcReq?
    ensures Accounts(nd, input, Handle(cfg, nd, input))
  {
    var o := Handle(cfg, nd, input);
    forall p | p in o.sent
      ensures !IsSuccess(p)
    {
      QuietSends(cfg, nd, input, p);
    }
    NoSuccesses(o.sent);
  }

  lemma QuietSends(cfg: Config, nd: Node, input: Input, p: Packet)
    requires cfg.Valid() && Shaped(cfg, nd.soft) && Fits(nd) && (input.Receive? ==> Deliverable(cfg, input.p))
    requires input.Receive? ==> !input.p.msg.AppendReq? && !input.p.msg.AppendRes? && !input.p.msg.ProcReq?
    requires p in Handle(cfg, nd, input).sent
    ensures !IsSuccess(p)
  {
    if input.Timeout? {
      if nd.soft.role == Leader {
        AppendRequestIs(cfg, nd, cfg.n, true, p);
      } else if ToInt(nd.hard.term) >= 0 {
        VoteRequestIsNoReply(cfg, ApplyWrites(nd.hard, [SetTerm(ToWord(nd.hard.term + 1)), SetVote(cfg.id)]), cfg.n, p);
      }
    } else if input.p.msg.VoteRes? && nd.soft.role == Candidate {
      var nd' := nd.(soft := LeaderState(cfg, OneMoreVote(nd)));
      if p in AppendRequests(cfg, nd', cfg.n, true) {
        AppendRequestIs(cfg, nd', cfg.n, true, p);
      }
    }
  }

  lemma {:induction false} VoteRequestIsNoReply(cfg: Config, hard: Durable, upto: nat, p: Packet)
    requires cfg.Valid() && upto <= cfg.n && p in VoteRequests(cfg, hard, upto)
    ensures p.msg.VoteReq?
  {
    if upto > 0 && p in VoteRequests(cfg, hard, upto - 1) {
      VoteRequestIsNoReply(cfg, hard, upto - 1, p);
    }
  }

  lemma SuccessAccounts(cfg: Config, nd: Node, p: Packet)
    requires cfg.Valid() && Shaped(cfg, nd.soft) && Fits(nd) && p.msg.AppendRes? && p.src < cfg.n
    requires p.msg.success && p.msg.term == nd.hard.term && nd.soft.role == Leader
    ensures Accounts(nd, Receive(p), HandleAppendRes(cfg, nd, p.src, p.msg))
  {
    var v := Matched(cfg, nd, p.src, ToInt(p.msg.newMatchIndex)).soft;
    ApplyCommittedAccounts(cfg, nd.hard, v);
    RepliesAnswer(cfg, nd.hard, v);
  }

  lemma AppendResAccounts(cfg: Config, nd: Node, p: Packet)
    requires cfg.Valid() && Shaped(cfg, nd.soft) && Fits(nd) && p.msg.AppendRes? && p.src < cfg.n
    ensures Accounts(nd, Receive(p), HandleAppendRes(cfg, nd, p.src, p.msg))
  {
    if p.msg.success && p.msg.term == nd.hard.term && nd.soft.role == Leader {
      SuccessAccounts(cfg, nd, p);
    }
  }

  lemma HandlerAccounts(cfg: Config, nd: Node, input: Input)
    requires cfg.Valid() && Shaped(cfg, nd.soft) && Fits(nd) && (input.Receive? ==> Deliverable(cfg, input.p))
    ensures Accounts(nd, input, Handle(cfg, nd, input))
  {
    if input.Receive? && input.p.msg.AppendReq? {
      AppendReqAccounts(cfg, nd, input.p);
    } else if input.Receive? && input.p.msg.AppendRes? {
      AppendResAccounts(cfg, nd, input.p);
    } else if input.Receive? && input.p.msg.ProcReq? {
      ProcReqAccounts(cfg, nd, input.p);
    } else {
      QuietAccounts(cfg, nd, input);
    }
  }

  /** The states a node goes through from one input to the next, without a crash. */
  predicate Lifetime(cfg: Config, nds: seq<Node>, inputs: seq<Input>) {
    && cfg.Valid() && |nds| == |inputs| + 1 && Fresh(cfg, nds[0].soft)
    && (forall k | 0 <= k < |nds| :: Shaped(cfg, nds[k].soft) && Fits(nds[k]))
    && (forall k | 0 <= k < |inputs| :: inputs[k].Receive? ==> Deliverable(cfg, inputs[k].p))
    && forall k {:trigger Handles(cfg, nds, inputs, k)} | 0 <= k < |inputs| :: Handles(cfg, nds, inputs, k)
  }

  predicate Handles(cfg: Config, nds: seq<Node>, inputs: seq<Input>, k: nat)
    requires cfg.Valid() && |nds| == |inputs| + 1 && k < |inputs|
    requires Shaped(cfg, nds[k].soft) && Fits(nds[k]) && (inputs[k].Receive? ==> Deliverable(cfg, inputs[k].p))
  {
    nds[k + 1] == After(nds[k], Handle(cfg, nds[k], inputs[k]))
  }

  function Replied(cfg: Config, nds: seq<Node>, inputs: seq<Input>, upto: nat): nat
    requires Lifetime(cfg, nds, inputs) && upto <= |inputs|
  {
    if upto == 0 then 0
    else Replied(cfg, nds, inputs, upto - 1) + Successes(Handle(cfg, nds[upto - 1], inputs[upto - 1]).sent)
  }

  function TakenOn(nds: seq<Node>, inputs: seq<Input>, upto: nat): nat
    requires |nds| == |inputs| + 1 && upto <= |inputs|
  {
    if upto == 0 then 0
    else TakenOn(nds, inputs, upto - 1) + if TakesOn(nds[upto - 1], inputs[upto - 1]) then 1 else 0
  }

  lemma {:induction false} NoneActive(slots: seq<Slot>)
    requires forall k | 0 <= k < |slots| :: !slots[k].active
    ensures Active(slots) == 0
    decreases |slots|
  {
    if slots != [] {
      NoneActive(slots[..|slots| - 1]);
    }
  }

  lemma {:induction false} RepliesBalance(cfg: Config, nds: seq<Node>, inputs: seq<Input>, upto: nat)
    requires Lifetime(cfg, nds, inputs) && upto <= |inputs|
    ensures Replied(cfg, nds, inputs, upto) + Active(nds[upto].soft.slots) <= TakenOn(nds, inputs, upto)
  {
    if upto == 0 {
      NoneActive(nds[0].soft.slots);
    } else {
      RepliesBalance(cfg, nds, inputs, upto - 1);
      assert Handles(cfg, nds, inputs, upto - 1);
      HandlerAccounts(cfg, nds[upto - 1], inputs[upto - 1]);
    }
  }

  /**
   Within one lifetime, success replies and waiting slots never outnumber the requests taken on; nor
   do they when the lifetime ends in a handler that a crash cuts off after k of its packets.
   */
  lemma NoSpuriousReplies(cfg: Config, nds: seq<Node>, inputs: seq<Input>, upto: nat, last: Input, k: nat)
    requires Lifetime(cfg, nds, inputs) && upto <= |inputs| && (last.Receive? ==> Deliverable(cfg, last.p))
    requires k <= |Handle(cfg, nds[upto], last).sent|
    ensures Replied(cfg, nds, inputs, upto) + Active(nds[upto].soft.slots) <= TakenOn(nds, inputs, upto)
    ensures Replied(cfg, nds, inputs, upto) + Successes(Handle(cfg, nds[upto], last).sent[..k])
            <= TakenOn(nds, inputs, upto) + if TakesOn(nds[upto], last) then 1 else 0
  {
    var sent := Handle(cfg, nds[upto], last).sent;
    RepliesBalance(cfg, nds, inputs, upto);
    HandlerAccounts(cfg, nds[upto], last);
    SuccessesConcat(sent[..k], sent[k..]);
    assert sent == sent[..k] + sent[k..];
  }

  // ---- replies over whole runs

  /** The step sends this packet from node i, whether or not the node crashes after that. */
  ghost predicate Sends(n: nat, s: System, a: Action, i: nat, p: Packet)
    requires Sized(n, s)
  {
    && (a.Run? || a.CrashIn?) && a.node == i && Offered(n, s, i, a.input)
    && var sent := Handle(Cfg(n, i), s.nodes[i], a.input).sent;
    && (a.CrashIn? ==> a.sends <= |sent|)
    && p in if a.CrashIn? then sent[..a.sends] else sent
  }

  /** The handler applies at place q of its applies the entry that the packet answers, and the log holds it. */
  predicate AppliesAnswer(n: nat, s: System, a: Action, s': System, p: Packet, q: nat)
    requires Sized(n, s) && (a.Run? || a.CrashIn?) && Offered(n, s, a.node, a.input) && a.node < |s'.nodes|
  {
    var applied, log := Handle(Cfg(n, a.node), s.nodes[a.node], a.input).applied, s'.nodes[a.node].hard.log;
    && q < |applied| && AnswersEntry(p, applied[q].entry)
    && 0 <= applied[q].index < |log| && log[applied[q].index] == applied[q].entry
    && Settled(Completed(n, s, a).nodes[a.node], applied[q].index)
    && (a.Run? || (a.CrashIn? && q < a.applies) ==>
          && |s.trace| + q < |s'.trace|
          && s'.trace[|s.trace| + q] == Event(a.node, applied[q].index, applied[q].entry))
  }

  lemma SendsAfterWrites(n: nat, s: System, a: Action, s': System, i: nat, p: Packet)
    requires Sized(n, s) && Step(n, s, a, s') && Sends(n, s, a, i, p)
    ensures EndsWrites(n, s, a, s') && p in Handle(Cfg(n, i), s.nodes[i], a.input).sent
    ensures s'.nodes[i].hard == Completed(n, s, a).nodes[i].hard
  {
    if a.CrashIn? {
      var o := Handle(Cfg(n, i), s.nodes[i], a.input);
      assert o.writes[..a.writes] == o.writes;
    }
  }

  lemma TraceOfStep(n: nat, s: System, a: Action, s': System, q: nat)
    requires Sized(n, s) && Step(n, s, a, s') && (a.Run? || a.CrashIn?)
    requires var applied := Handle(Cfg(n, a.node), s.nodes[a.node], a.input).applied;
             q < |applied| && (a.CrashIn? ==> q < a.applies)
    ensures var applied := Handle(Cfg(n, a.node), s.nodes[a.node], a.input).applied;
            |s.trace| + q < |s'.trace|
            && s'.trace[|s.trace| + q] == Event(a.node, applied[q].index, applied[q].entry)
  {
    var applied := Handle(Cfg(n, a.node), s.nodes[a.node], a.input).applied;
    EventPlace(s.trace, s'.trace, a.node, if a.Run? then applied else applied[..a.applies], q);
  }

  lemma EventPlace(t: seq<Event>, t': seq<Event>, i: nat, applied: seq<Applied>, q: nat)
    requires t' == t + Events(i, applied) && q < |applied|
    ensures |t| + q < |t'| && t'[|t| + q] == Event(i, applied[q].index, applied[q].entry)
  {
  }

  /** Whatever a handler applies in order is in its log afterwards, at or below last_applied. */
  lemma AppliedIsSettled(nd: Node, o: Outcome, q: nat)
    requires AppliesInOrder(nd, o) && q < |o.applied|
    ensures var x, log := o.applied[q].index, After(nd, o).hard.log;
            0 <= x < |log| && log[x] == o.applied[q].entry && Settled(After(nd, o), x)
  {
  }

  lemma AnswerFound(cfg: Config, nd: Node, input: Input, p: Packet) returns (q: nat)
    requires cfg.Valid() && Shaped(cfg, nd.soft) && Fits(nd) && (input.Receive? ==> Deliverable(cfg, input.p))
    requires p in Handle(cfg, nd, input).sent && IsSuccess(p)
    ensures var applied := Handle(cfg, nd, input).applied; q < |applied| && AnswersEntry(p, applied[q].entry)
  {
    var applied := Handle(cfg, nd, input).applied;
    HandlerAccounts(cfg, nd, input);
    q :| 0 <= q < |applied| && AnswersEntry(p, applied[q].entry);
  }

  lemma AnswerPlaced(n: nat, s: System, a: Action, s': System, i: nat, p: Packet) returns (q: nat)
    requires Sized(n, s) && Step(n, s, a, s') && Sends(n, s, a, i, p) && IsSuccess(p)
    requires Inside(s.nodes[i]) && Inside(Completed(n, s, a).nodes[i])
    ensures AppliesAnswer(n, s, a, s', p, q)
  {
    SendsAfterWrites(n, s, a, s', i, p);
    HandlerApplies(n, s, i, a.input);
    q := AnswerFound(Cfg(n, i), s.nodes[i], a.input, p);
    AppliedIsSettled(s.nodes[i], Handle(Cfg(n, i), s.nodes[i], a.input), q);
    if a.Run? || q < a.applies {
      TraceOfStep(n, s, a, s', q);
    }
  }

  lemma AnswerApplied(n: nat, s: System, h: History, a: Action, s': System, i: nat, p: Packet)
      returns (h': History, q: nat)
    requires Inv(n, s, h) && Step(n, s, a, s') && Sends(n, s, a, i, p) && IsSuccess(p)
    ensures Extends(h, h') && Inv(n, Completed(n, s, a), h') && Inv(n, s', h')
    ensures AppliesAnswer(n, s, a, s', p, q)
  {
    SendsAfterWrites(n, s, a, s', i, p);
    h' := HandlerEnds(n, s, h, a, s');
    NodesInside(n, s, h, i);
    NodesInside(n, Completed(n, s, a), h', i);
    q := AnswerPlaced(n, s, a, s', i, p);
  }

  /**
   A success reply is sent only by a handler that applies an entry with that pair, which its log
   still holds after the step, be the handler cut off by a crash or not.
   */
  lemma ReplyMeansApplied(n: nat, run: seq<System>, b: nat, a: Action, i: nat, p: Packet) returns (q: nat)
    requires IsRun(n, run) && 0 < b < |run| && Step(n, run[b - 1], a, run[b])
    requires Sends(n, run[b - 1], a, i, p) && IsSuccess(p)
    ensures AppliesAnswer(n, run[b - 1], a, run[b], p, q)
  {
    var hs := RunHasHistory(n, run);
    assert Inv(n, run[b - 1], hs[b - 1]);
    var h', k := AnswerApplied(n, run[b - 1], hs[b - 1], a, run[b], i, p);
    q := k;
  }

  /**
   What a client is told is durable: a success reply answers an entry that a majority of the nodes
   stores, at the index where it was applied, from then on, even if the sender dies in that handler.
   */
  lemma AcknowledgedIsDurable(n: nat, run: seq<System>, b: nat, d: nat, a: Action, i: nat, p: Packet)
      returns (x: int, q: set<nat>)
    requires IsRun(n, run) && 0 < b <= d < |run| && Step(n, run[b - 1], a, run[b])
    requires Sends(n, run[b - 1], a, i, p) && IsSuccess(p)
    ensures 0 <= x < |run[b].nodes[i].hard.log| && AnswersEntry(p, run[b].nodes[i].hard.log[x])
    ensures Majority(n, q) && forall j | j in q :: Has(run[d].nodes[j].hard.log, run[b].nodes[i].hard.log, x)
  {
    var hs := RunHasHistory(n, run);
    assert Inv(n, run[b - 1], hs[b - 1]);
    var h', k := AnswerApplied(n, run[b - 1], hs[b - 1], a, run[b], i, p);
    SendsAfterWrites(n, run[b - 1], a, run[b], i, p);
    var nd := Completed(n, run[b - 1], a).nodes[i];
    x := Handle(Cfg(n, i), run[b - 1].nodes[i], a.input).applied[k].index;
    assert NodeOK(n, h', i, nd);
    var later := HistoryFrom(n, run, b, d, h');
    q := SettledOnMajority(n, h', i, nd, x, run[d], later);
  }

  /** Whoever applies this index, at any time of the run, applies this entry. */
  predicate AppliedAs(run: seq<System>, x: int, e: Entry) {
    forall c, f | 0 <= c < |run| && f in run[c].trace && f.index == x :: f.entry == e
  }

  /**
   Every success reply in the network, whatever has become of its sender, answers an entry that has
   its place for good: a majority stores it there now and ever after, and nobody ever applies
   another entry at that index.
   */
  lemma RepliesAreDurable(n: nat, run: seq<System>, b: nat, p: Packet) returns (x: int, e: Entry)
    requires IsRun(n, run) && b < |run| && p in run[b].net && IsSuccess(p)
    ensures AnswersEntry(p, e) && AppliedAs(run, x, e)
    ensures forall d | b <= d < |run| :: OnMajority(n, run[d], x, e)
  {
    var hs := RunHasHistory(n, run);
    assert Inv(n, run[b], hs[b]);
    assert PacketOK(n, hs[b], run[b].nodes, p);
    var v :| ReplyVia(n, hs[b], p, v);
    x, e := v.index, v.entry;
    forall d | b <= d < |run|
      ensures OnMajority(n, run[d], x, e)
    {
      assert Inv(n, run[d], hs[d]) && Extends(hs[b], hs[d]);
      EventGrows(n, hs[b], hs[d], v);
      EventIsStored(n, run[d], hs[d], v);
    }
    forall c, f | 0 <= c < |run| && f in run[c].trace && f.index == x
      ensures f.entry == e
    {
      EventsAgreeLater(n, run, hs, b, c, v, f);
    }
  }

  lemma EventsAgreeLater(n: nat, run: seq<System>, hs: seq<History>, b: nat, c: nat, v: Event, f: Event)
    requires Explains(n, run, hs) && b < |run| && c < |run| && EventOK(n, hs[b], v) && f in run[c].trace
    requires f.index == v.index
    ensures f.entry == v.entry
  {
    var m := if b <= c then c else b;
    assert Inv(n, run[m], hs[m]) && Extends(hs[b], hs[m]);
    EventGrows(n, hs[b], hs[m], v);
    EventLater(n, run, hs, c, m, f);
    EventsAgree(n, run[m], hs[m], v, f);
  }
}
