/** Who is answered, and when. */
module Answering {
  import opened Words
  import opened Types
  import opened NodeSpec
  import opened NodeFacts
  import opened HandlerLaws
  import opened Cluster
  import opened Invariants
  import opened AppendHandlers
  import opened LeaderHandlers
  import opened Runs
  import opened Lifetimes
  import opened Clients

  // ---- one entry

  /** The client of this slot waits for an entry with this pair. */
  predicate Waits(s: Slot, clientId: u32, cmdSeqno: u32) {
    s.active && s.clientId == clientId && s.cmdSeqno == cmdSeqno
  }

  predicate SomeWaits(slots: seq<Slot>, clientId: u32, cmdSeqno: u32) {
    exists k :: 0 <= k < |slots| && Waits(slots[k], clientId, cmdSeqno)
  }

  /** The packet tells the client that its command has been applied in this term. */
  predicate Success(cfg: Config, term: u32, clientId: u32, cmdSeqno: u32, p: Packet) {
    && p.src == cfg.id && p.dst == clientId && p.msg.ProcRes? && p.msg.success
    && p.msg.clientId == clientId && p.msg.cmdSeqno == cmdSeqno && p.msg.leaderHint == cfg.id && p.msg.term == term
  }

  /** The first slot that waits for the pair has been released, and no other has changed. */
  predicate Released(slots: seq<Slot>, slots': seq<Slot>, clientId: u32, cmdSeqno: u32) {
    && |slots'| == |slots|
    && forall k | 0 <= k < |slots| ::
         if Waits(slots[k], clientId, cmdSeqno) && forall q | 0 <= q < k :: !Waits(slots[q], clientId, cmdSeqno)
         then slots'[k] == slots[k].(active := false) else slots'[k] == slots[k]
  }

  /** An entry has been applied: the client that waits for it at a leader is answered, once, and nobody else. */
  predicate Served(cfg: Config, leads: bool, term: u32, e: Entry, slots: seq<Slot>, slots': seq<Slot>,
                   ps: seq<Packet>)
  {
    if leads && SomeWaits(slots, e.clientId, e.cmdSeqno) then
      |ps| == 1 && Success(cfg, term, e.clientId, e.cmdSeqno, ps[0]) && Released(slots, slots', e.clientId, e.cmdSeqno)
    else ps == [] && slots' == slots
  }

  lemma ApplyOneServes(cfg: Config, hard: Durable, v: Volatile)
    requires cfg.Valid()
    ensures var k, r := v.lastApplied + 1, ApplyOne(cfg, hard, v);
            && r.soft == v.(lastApplied := k, slots := r.soft.slots)
            && (0 <= k < |hard.log| ==>
                  && r.applied == [Applied(k, hard.log[k])]
                  && Served(cfg, v.role == Leader, hard.term, hard.log[k], v.slots, r.soft.slots, r.sent))
            && (!(0 <= k < |hard.log|) ==> r.applied == [] && r.sent == [] && r.soft.slots == v.slots)
  {
    var k := v.lastApplied + 1;
    if 0 <= k < |hard.log| {
      FindSlotFinds(v.slots, hard.log[k], 0);
    }
  }

  // ---- one handler

  /** The entries of a handler are served one after another: tables and replies, entry by entry. */
  predicate Serves(cfg: Config, leads: bool, term: u32, applied: seq<Applied>,
                   tables: seq<seq<Slot>>, replies: seq<seq<Packet>>)
  {
    && |replies| == |applied| && |tables| == |applied| + 1
    && forall q {:trigger replies[q]} | 0 <= q < |applied| ::
         Served(cfg, leads, term, applied[q].entry, tables[q], tables[q + 1], replies[q])
  }

  function Flat(replies: seq<seq<Packet>>): seq<Packet> {
    if replies == [] then [] else replies[0] + Flat(replies[1..])
  }

  lemma {:induction false} PassServes(cfg: Config, hard: Durable, v: Volatile)
      returns (tables: seq<seq<Slot>>, replies: seq<seq<Packet>>)
    requires cfg.Valid()
    ensures var r := ApplyCommitted(cfg, hard, v);
            && Serves(cfg, v.role == Leader, hard.term, r.applied, tables, replies)
            && tables[0] == v.slots && tables[|tables| - 1] == r.soft.slots && Flat(replies) == r.sent
    decreases v.commitIndex - v.lastApplied
  {
    if v.lastApplied >= v.commitIndex {
      tables, replies := [v.slots], [];
    } else {
      var one := ApplyOne(cfg, hard, v);
      ApplyOneServes(cfg, hard, v);
      tables, replies := PassServes(cfg, hard, one.soft);
      if one.applied != [] {
        var ts, rs := tables, replies;
        tables, replies := [v.slots] + ts, [one.sent] + rs;
        assert replies[1..] == rs;
      }
    }
  }

  /** The success replies among these packets. */
  function SuccessesIn(ps: seq<Packet>): seq<Packet> {
    if ps == [] then []
    else if IsSuccess(ps[0]) then [ps[0]] + SuccessesIn(ps[1..])
    else SuccessesIn(ps[1..])
  }

  lemma {:induction false} AllSuccesses(ps: seq<Packet>, more: seq<Packet>)
    requires (forall p | p in ps :: IsSuccess(p)) && forall p | p in more :: !IsSuccess(p)
    ensures SuccessesIn(ps + more) == ps
    decreases |ps| + |more|
  {
    if ps != [] {
      assert (ps + more)[1..] == ps[1..] + more;
      AllSuccesses(ps[1..], more);
      assert ps == [ps[0]] + ps[1..];
    } else if more != [] {
      assert ps + more == more && [] + more[1..] == more[1..];
      AllSuccesses([], more[1..]);
    }
  }

  /**
   Every handler that does not take a request on serves what it applies, entry by entry, from the slots
   it finds to those it leaves, as a leader if it ends as one; these are all the successes it sends.
   */
  lemma HandlerServes(cfg: Config, nd: Node, input: Input) returns (tables: seq<seq<Slot>>, replies: seq<seq<Packet>>)
    requires cfg.Valid() && Shaped(cfg, nd.soft) && Fits(nd) && (input.Receive? ==> Deliverable(cfg, input.p))
    requires !TakesOn(nd, input)
    ensures var o := Handle(cfg, nd, input);
            var nd' := After(nd, o);
            && Serves(cfg, nd'.soft.role == Leader, nd'.hard.term, o.applied, tables, replies)
            && tables[0] == nd.soft.slots && tables[|tables| - 1] == nd'.soft.slots
            && SuccessesIn(o.sent) == Flat(replies)
  {
    if input.Receive? && input.p.msg.AppendReq? {
      tables, replies := AppendReqServes(cfg, nd, input.p.msg);
    } else if input.Receive? && input.p.msg.AppendRes? {
      tables, replies := AppendResServes(cfg, nd, input.p.src, input.p.msg);
    } else {
      tables, replies := [nd.soft.slots], [];
      QuietServes(cfg, nd, input);
    }
  }

  lemma QuietServes(cfg: Config, nd: Node, input: Input)
    requires cfg.Valid() && Shaped(cfg, nd.soft) && Fits(nd) && (input.Receive? ==> Deliverable(cfg, input.p))
    requires !TakesOn(nd, input) && (input.Receive? ==> !input.p.msg.AppendReq? && !input.p.msg.AppendRes?)
    ensures var o := Handle(cfg, nd, input);
            o.applied == [] && o.soft.slots == nd.soft.slots && SuccessesIn(o.sent) == []
  {
    match input {
      case Timeout(suspect) => TimeoutLaw(cfg, nd, suspect);
      case Receive(p) =>
        match p.msg {
          case VoteReq(_, _, _, _) => VoteReqLaw(cfg, nd, p);
          case VoteRes(_, _) => VoteResLaw(cfg, nd, p);
          case ProcReq(_, _, _) => ProcReqLaw(cfg, nd, p);
          case _ =>
        }
    }
    QuietTellsNobody(cfg, nd, input);
  }

  lemma QuietTellsNobody(cfg: Config, nd: Node, input: Input)
    requires cfg.Valid() && Shaped(cfg, nd.soft) && Fits(nd) && (input.Receive? ==> Deliverable(cfg, input.p))
    requires !TakesOn(nd, input) && (input.Receive? ==> !input.p.msg.AppendReq? && !input.p.msg.AppendRes?)
    ensures SuccessesIn(Handle(cfg, nd, input).sent) == []
  {
    var sent := Handle(cfg, nd, input).sent;
    forall p | p in sent
      ensures !IsSuccess(p)
    {
      if !(input.Receive? && input.p.msg.ProcReq?) {
        QuietSends(cfg, nd, input, p);
      }
    }
    AllSuccesses([], sent);
    assert [] + sent == sent;
  }

  lemma AppendReqServes(cfg: Config, nd: Node, m: Message) returns (tables: seq<seq<Slot>>, replies: seq<seq<Packet>>)
    requires cfg.Valid() && m.AppendReq?
    ensures var o := HandleAppendReq(cfg, nd, m);
            var nd' := After(nd, o);
            && Serves(cfg, nd'.soft.role == Leader, nd'.hard.term, o.applied, tables, replies)
            && tables[0] == nd.soft.slots && tables[|tables| - 1] == nd'.soft.slots
            && SuccessesIn(o.sent) == Flat(replies)
  {
    tables, replies := [nd.soft.slots], [];
    if ToInt(nd.hard.term) >= 0 {
      AppendReqIs(cfg, nd, m);
      var o := HandleAppendReq(cfg, nd, m);
      var ack := o.sent[|o.sent| - 1];
      if m.term >= nd.hard.term && PrevMatches(nd.hard.log, m) && m.leaderCommit > Heard(nd, m).soft.commitIndex {
        var v := FollowerCommit(Heard(nd, m).soft, m);
        tables, replies := PassServes(cfg, After(nd, o).hard, v);
        RepliesAnswer(cfg, After(nd, o).hard, v);
        ApplyCommittedKeeps(cfg, After(nd, o).hard, v);
        AllSuccesses(ApplyCommitted(cfg, After(nd, o).hard, v).sent, [ack]);
      } else {
        AllSuccesses([], [ack]);
        assert o.sent == [] + [ack];
      }
    }
  }

  lemma AppendResServes(cfg: Config, nd: Node, src: nat, m: Message)
      returns (tables: seq<seq<Slot>>, replies: seq<seq<Packet>>)
    requires cfg.Valid() && Shaped(cfg, nd.soft) && Fits(nd) && m.AppendRes? && src < cfg.n
    ensures var o := HandleAppendRes(cfg, nd, src, m);
            var nd' := After(nd, o);
            && Serves(cfg, nd'.soft.role == Leader, nd'.hard.term, o.applied, tables, replies)
            && tables[0] == nd.soft.slots && tables[|tables| - 1] == nd'.soft.slots
            && SuccessesIn(o.sent) == Flat(replies)
  {
    tables, replies := [nd.soft.slots], [];
    if m.term == nd.hard.term && nd.soft.role == Leader && m.success {
      var v := Matched(cfg, nd, src, ToInt(m.newMatchIndex)).soft;
      tables, replies := PassServes(cfg, nd.hard, v);
      RepliesAnswer(cfg, nd.hard, v);
      ApplyCommittedKeeps(cfg, nd.hard, v);
      var sent := ApplyCommitted(cfg, nd.hard, v).sent;
      AllSuccesses(sent, []);
      assert sent + [] == sent;
    }
  }

  // ---- one client

  predicate OfClient(e: Entry, clientId: u32, cmdSeqno: u32) {
    e.clientId == clientId && e.cmdSeqno == cmdSeqno
  }

  predicate Told(cfg: Config, term: u32, clientId: u32, cmdSeqno: u32, ps: seq<Packet>) {
    exists p :: p in ps && Success(cfg, term, clientId, cmdSeqno, p)
  }

  /** A client that waits at a leader is told, or goes on waiting and no entry of its was applied. */
  lemma {:induction false} ToldOrWaiting(cfg: Config, term: u32, applied: seq<Applied>, tables: seq<seq<Slot>>,
                                         replies: seq<seq<Packet>>, c: u32, q: u32)
    requires Serves(cfg, true, term, applied, tables, replies) && SomeWaits(tables[0], c, q)
    ensures Told(cfg, term, c, q, Flat(replies))
            || (&& SomeWaits(tables[|tables| - 1], c, q)
                && forall k | 0 <= k < |applied| :: !OfClient(applied[k].entry, c, q))
    decreases |applied|
  {
    if applied != [] {
      var e := applied[0].entry;
      assert Served(cfg, true, term, e, tables[0], tables[1], replies[0]);
      if OfClient(e, c, q) {
        assert replies[0][0] in Flat(replies);
      } else {
        var k :| 0 <= k < |tables[0]| && Waits(tables[0][k], c, q);
        assert Waits(tables[1][k], c, q);
        ServesOn(cfg, term, applied, tables, replies);
        ToldOrWaiting(cfg, term, applied[1..], tables[1..], replies[1..], c, q);
        if Told(cfg, term, c, q, Flat(replies[1..])) {
          ToldMore(cfg, term, c, q, replies);
        }
      }
    }
  }

  lemma ServesOn(cfg: Config, term: u32, applied: seq<Applied>, tables: seq<seq<Slot>>, replies: seq<seq<Packet>>)
    requires Serves(cfg, true, term, applied, tables, replies) && applied != []
    ensures Serves(cfg, true, term, applied[1..], tables[1..], replies[1..])
  {
    forall k | 0 <= k < |applied[1..]|
      ensures Served(cfg, true, term, applied[1..][k].entry, tables[1..][k], tables[1..][k + 1], replies[1..][k])
    {
      assert replies[1..][k] == replies[k + 1];
    }
  }

  lemma ToldMore(cfg: Config, term: u32, c: u32, q: u32, replies: seq<seq<Packet>>)
    requires replies != [] && Told(cfg, term, c, q, Flat(replies[1..]))
    ensures Told(cfg, term, c, q, Flat(replies))
  {
    var p :| p in Flat(replies[1..]) && Success(cfg, term, c, q, p);
    assert p in Flat(replies);
  }

  lemma {:induction false} SuccessesAreIn(ps: seq<Packet>)
    ensures forall p | p in SuccessesIn(ps) :: p in ps
    decreases |ps|
  {
    if ps != [] {
      SuccessesAreIn(ps[1..]);
    }
  }

  lemma HandlerAnswers(cfg: Config, nd: Node, input: Input, c: u32, q: u32)
    requires cfg.Valid() && Shaped(cfg, nd.soft) && Fits(nd) && (input.Receive? ==> Deliverable(cfg, input.p))
    requires After(nd, Handle(cfg, nd, input)).soft.role == Leader && SomeWaits(nd.soft.slots, c, q)
    ensures var o := Handle(cfg, nd, input);
            || Told(cfg, After(nd, o).hard.term, c, q, o.sent)
            || (SomeWaits(o.soft.slots, c, q) && forall k | 0 <= k < |o.applied| :: !OfClient(o.applied[k].entry, c, q))
  {
    var o := Handle(cfg, nd, input);
    var term := After(nd, o).hard.term;
    if TakesOn(nd, input) {
      ProcReqLaw(cfg, nd, input.p);
      var k :| 0 <= k < |nd.soft.slots| && Waits(nd.soft.slots[k], c, q);
      assert Waits(o.soft.slots[k], c, q);
    } else {
      var tables, replies := HandlerServes(cfg, nd, input);
      ToldOrWaiting(cfg, term, o.applied, tables, replies, c, q);
      SuccessesAreIn(o.sent);
      if Told(cfg, term, c, q, Flat(replies)) {
        var p :| p in Flat(replies) && Success(cfg, term, c, q, p);
        assert p in o.sent;
      }
    }
  }

  // ---- an entry that nobody is told of

  /** A leader of term 2 whose log still holds a command of term 1, with an empty table. */
  function Heir(): Node {
    Node(Durable(2, 0, [Entry(1, 5, 7, 9)]),
         Volatile(Leader, -1, -1, NO_LEADER, 2, [1, 1], [-1, -1],
                  seq(MAX_OUTSTANDING_REQUESTS, i => Slot(0, 0, 0, false))))
  }

  lemma {:induction false} TwoForOne(cfg: Config, hard: Durable, v: Volatile, c: u32, q: u32)
    requires cfg.Valid() && v.role == Leader && v.lastApplied == -1 && v.commitIndex == 1 && |hard.log| == 2
    requires OfClient(hard.log[0], c, q) && OfClient(hard.log[1], c, q)
    requires |v.slots| > 0 && Waits(v.slots[0], c, q) && forall k | 0 < k < |v.slots| :: !Waits(v.slots[k], c, q)
    ensures var r := ApplyCommitted(cfg, hard, v);
            r.applied == [Applied(0, hard.log[0]), Applied(1, hard.log[1])] && |r.sent| == 1
  {
    var one := ApplyOne(cfg, hard, v);
    ApplyOneServes(cfg, hard, v);
    assert one.applied == [Applied(0, hard.log[0])] && |one.sent| == 1 && !SomeWaits(one.soft.slots, c, q);
    var two := ApplyOne(cfg, hard, one.soft);
    ApplyOneServes(cfg, hard, one.soft);
    assert two.applied == [Applied(1, hard.log[1])] && two.sent == [];
    assert ApplyCommitted(cfg, hard, two.soft) == Progress(two.soft, [], []);
    assert ApplyCommitted(cfg, hard, one.soft) == Progress(two.soft, two.sent + [], two.applied + []);
  }

  /**
   A client that repeats its command to a new leader is answered once, for the old entry: when the new
   one is applied, its slot is gone.
   */
  lemma {:induction false} OldEntryTakesTheSlot() returns (nd: Node, o: Outcome)
    ensures nd == After(Heir(), HandleProcReq(Config(0, 2), Heir(), 2, ProcReq(5, 7, 9)))
    ensures SomeWaits(nd.soft.slots, 5, 7) && nd.hard.log == [Entry(1, 5, 7, 9), Entry(2, 5, 7, 9)]
    ensures o == HandleAppendRes(Config(0, 2), nd, 1, AppendRes(2, 1, true))
    ensures o.applied == [Applied(0, nd.hard.log[0]), Applied(1, nd.hard.log[1])] && |o.sent| == 1
  {
    var cfg := Config(0, 2);
    nd := After(Heir(), HandleProcReq(cfg, Heir(), 2, ProcReq(5, 7, 9)));
    ProcReqLaw(cfg, Heir(), Packet(2, 0, ProcReq(5, 7, 9)));
    assert Waits(nd.soft.slots[0], 5, 7);
    var ack := AppendRes(2, 1, true);
    o := HandleAppendRes(cfg, nd, 1, ack);
    AppendResLaw(cfg, nd, Packet(1, 0, ack));
    assert HoldersOf(cfg, o.soft.matchIndex, 1) == {0, 1};
    assert HeldByMost(cfg, nd.hard, o.soft.matchIndex, 1);
    TwoForOne(cfg, nd.hard, Matched(cfg, nd, 1, 1).soft, 5, 7);
  }

  // ---- one reign

  /** Node i leads term t in each of these states. */
  predicate Reigns(run: seq<System>, i: nat, t: u32, a: nat, b: nat)
    requires b < |run|
  {
    forall d {:trigger LeadsTerm(run[d], i, t)} | a <= d <= b :: LeadsTerm(run[d], i, t)
  }

  predicate SlotFree(slots: seq<Slot>) {
    exists k :: 0 <= k < |slots| && !slots[k].active
  }

  /** The entry is in the log, has not been applied, and its client has a slot. */
  predicate Pending(nd: Node, e: Entry, x: int) {
    && SomeWaits(nd.soft.slots, e.clientId, e.cmdSeqno)
    && -1 <= nd.soft.lastApplied < x < |nd.hard.log| && nd.hard.log[x] == e
  }

  /** The step is a handler of node i that tells the client. */
  predicate Tells(n: nat, s: System, input: Input, s': System, i: nat, t: u32, e: Entry)
    requires Sized(n, s)
  {
    && Step(n, s, Run(i, input), s')
    && Told(Cfg(n, i), t, e.clientId, e.cmdSeqno, Handle(Cfg(n, i), s.nodes[i], input).sent)
  }

  predicate TellsAt(n: nat, run: seq<System>, c: nat, input: Input, i: nat, t: u32, e: Entry)
    requires 0 < c < |run| && Sized(n, run[c - 1])
  {
    Tells(n, run[c - 1], input, run[c], i, t, e)
  }

  lemma LeaderLogGrows(n: nat, s: System, h: History, s': System, h': History, i: nat)
    requires Inv(n, s, h) && Inv(n, s', h') && Extends(h, h') && i < n
    requires s.nodes[i].soft.role == Leader && s'.nodes[i].soft.role == Leader
    requires s.nodes[i].hard.term == s'.nodes[i].hard.term
    ensures s.nodes[i].hard.log <= s'.nodes[i].hard.log
  {
    assert NodeOK(n, h, i, s.nodes[i]) && NodeOK(n, h', i, s'.nodes[i]);
  }

  lemma HandlerTells(n: nat, s: System, input: Input, s': System, i: nat, t: u32, e: Entry, x: int)
    requires Sized(n, s) && Step(n, s, Run(i, input), s') && Inside(s.nodes[i]) && Inside(s'.nodes[i])
    requires LeadsTerm(s', i, t) && s.nodes[i].hard.log <= s'.nodes[i].hard.log
    requires Pending(s.nodes[i], e, x)
    ensures Pending(s'.nodes[i], e, x) || Tells(n, s, input, s', i, t, e)
  {
    var nd := s.nodes[i];
    var o := Handle(Cfg(n, i), nd, input);
    HandlerApplies(n, s, i, input);
    HandlerAnswers(Cfg(n, i), nd, input, e.clientId, e.cmdSeqno);
    if !Told(Cfg(n, i), t, e.clientId, e.cmdSeqno, o.sent) {
      StillPending(nd, o, e, x);
    }
  }

  lemma StillPending(nd: Node, o: Outcome, e: Entry, x: int)
    requires Pending(nd, e, x) && AppliesInOrder(nd, o) && nd.hard.log <= After(nd, o).hard.log
    requires SomeWaits(o.soft.slots, e.clientId, e.cmdSeqno)
    requires forall k | 0 <= k < |o.applied| :: !OfClient(o.applied[k].entry, e.clientId, e.cmdSeqno)
    ensures Pending(After(nd, o), e, x)
  {
    if o.soft.lastApplied >= x {
      AppliedThere(nd, o, x);
    }
  }

  lemma AppliedThere(nd: Node, o: Outcome, x: int)
    requires AppliesInOrder(nd, o) && nd.soft.lastApplied < x <= o.soft.lastApplied
    ensures var k := x - nd.soft.lastApplied - 1;
            k < |o.applied| && o.applied[k].entry == After(nd, o).hard.log[x]
  {
  }

  lemma StepTells(n: nat, s: System, h: History, a: Action, s': System, h': History, i: nat, e: Entry, x: int)
    requires Inv(n, s, h) && Inv(n, s', h') && Extends(h, h') && Step(n, s, a, s') && i < n
    requires s.nodes[i].soft.role == Leader && s'.nodes[i].soft.role == Leader
    requires s.nodes[i].hard.term == s'.nodes[i].hard.term && Pending(s.nodes[i], e, x)
    ensures Pending(s'.nodes[i], e, x) || (a.Run? && Tells(n, s, a.input, s', i, s.nodes[i].hard.term, e))
  {
    if a.Run? && a.node == i {
      LeaderLogGrows(n, s, h, s', h', i);
      NodesInside(n, s, h, i);
      NodesInside(n, s', h', i);
      HandlerTells(n, s, a.input, s', i, s.nodes[i].hard.term, e, x);
    }
  }

  lemma {:induction false} ToldByThen(n: nat, run: seq<System>, hs: seq<History>, a: nat, b: nat, i: nat, t: u32,
                                      e: Entry, x: int)
      returns (told: bool, c: nat, input: Input)
    requires IsRun(n, run) && Explains(n, run, hs) && a <= b < |run| && i < n
    requires Reigns(run, i, t, a, b) && Pending(run[a].nodes[i], e, x)
    ensures told ==> a < c <= b && TellsAt(n, run, c, input, i, t, e)
    ensures !told ==> Pending(run[b].nodes[i], e, x)
    decreases b - a
  {
    told, c, input := false, a, Timeout(false);
    if a < b {
      assert Reigns(run, i, t, a, b - 1) && Reigns(run, i, t, b - 1, b);
      told, c, input := ToldByThen(n, run, hs, a, b - 1, i, t, e, x);
      if !told {
        told, input := ToldNow(n, run, hs, b, i, t, e, x);
        c := b;
      }
    }
  }

  lemma ToldNow(n: nat, run: seq<System>, hs: seq<History>, b: nat, i: nat, t: u32, e: Entry, x: int)
      returns (told: bool, input: Input)
    requires IsRun(n, run) && Explains(n, run, hs) && 0 < b < |run| && i < n
    requires Reigns(run, i, t, b - 1, b) && Pending(run[b - 1].nodes[i], e, x)
    ensures if told then TellsAt(n, run, b, input, i, t, e) else Pending(run[b].nodes[i], e, x)
  {
    assert NextAt(n, run, b) && LeadsTerm(run[b - 1], i, t) && LeadsTerm(run[b], i, t);
    var act :| Step(n, run[b - 1], act, run[b]);
    assert Inv(n, run[b - 1], hs[b - 1]) && Inv(n, run[b], hs[b]) && Extends(hs[b - 1], hs[b]);
    StepTells(n, run[b - 1], hs[b - 1], act, run[b], hs[b], i, e, x);
    told := !Pending(run[b].nodes[i], e, x);
    input := if told then act.input else Timeout(false);
  }

  /**
   A leader keeps its word: while it goes on leading the term in which it took a request into a slot, it
   tells the client of its success no later than in the handler that applies the request's own entry.
   */
  lemma TakenIsAnswered(n: nat, run: seq<System>, a: nat, b: nat, i: nat, t: u32, p: Packet)
      returns (c: nat, input: Input)
    requires IsRun(n, run) && 0 < a <= b < |run| && i < n && p.msg.ProcReq?
    requires Step(n, run[a - 1], Run(i, Receive(p)), run[a]) && Reigns(run, i, t, a - 1, b)
    requires SlotFree(run[a - 1].nodes[i].soft.slots)
    requires run[b].nodes[i].soft.lastApplied >= |run[a - 1].nodes[i].hard.log|
    ensures a < c <= b && Step(n, run[c - 1], Run(i, input), run[c])
    ensures Told(Cfg(n, i), t, p.msg.clientId, p.msg.cmdSeqno, Handle(Cfg(n, i), run[c - 1].nodes[i], input).sent)
  {
    var hs := RunHasHistory(n, run);
    assert Inv(n, run[a - 1], hs[a - 1]) && LeadsTerm(run[a - 1], i, t) && Reigns(run, i, t, a, b);
    NodesInside(n, run[a - 1], hs[a - 1], i);
    var x := |run[a - 1].nodes[i].hard.log|;
    var e := TakenIsPending(n, run[a - 1], run[a], i, p);
    var told;
    told, c, input := ToldByThen(n, run, hs, a, b, i, t, e, x);
  }

  lemma TakenIsPending(n: nat, s: System, s': System, i: nat, p: Packet) returns (e: Entry)
    requires Sized(n, s) && Step(n, s, Run(i, Receive(p)), s') && p.msg.ProcReq? && s.nodes[i].soft.role == Leader
    requires Inside(s.nodes[i])
    requires SlotFree(s.nodes[i].soft.slots)
    ensures OfClient(e, p.msg.clientId, p.msg.cmdSeqno) && Pending(s'.nodes[i], e, |s.nodes[i].hard.log|)
  {
    ProcReqLaw(Cfg(n, i), s.nodes[i], p);
    e := s'.nodes[i].hard.log[|s.nodes[i].hard.log|];
    FirstFree(s.nodes[i].soft.slots, s'.nodes[i].soft.slots, p.msg, |s.nodes[i].hard.log|);
  }

  lemma FirstFree(slots: seq<Slot>, slots': seq<Slot>, m: Message, idx: int)
    requires m.ProcReq? && Claims(slots, slots', m, idx) && SlotFree(slots)
    ensures SomeWaits(slots', m.clientId, m.cmdSeqno)
  {
    FreeSlotFinds(slots, 0);
    assert Waits(slots'[FreeSlot(slots, 0)], m.clientId, m.cmdSeqno);
  }
}
