/** The whole system: N nodes, the packets in flight, and what has been applied so far. */
module Cluster {
  import opened Words
  import opened Types
  import opened NodeSpec

  /** A state machine saw `entry` at `index`; the node may have restarted since. */
  datatype Event = Event(node: nat, index: int, entry: Entry)

  datatype System = System(nodes: seq<Node>, net: multiset<Packet>, trace: seq<Event>)

  function Cfg(n: nat, i: nat): Config {
    Config(i, n)
  }

  /** No term and no log length has left the range of a non-negative `int`. */
  predicate InRange(s: System) {
    forall i | 0 <= i < |s.nodes| :: Fits(s.nodes[i]) && s.nodes[i].hard.term < INT_SPAN
  }

  predicate Sized(n: nat, s: System) {
    && 2 <= n < NO_VOTE
    && |s.nodes| == n
    && InRange(s)
    && forall i | 0 <= i < n :: Shaped(Cfg(n, i), s.nodes[i].soft)
  }

  predicate LeadsTerm(s: System, i: nat, t: u32) {
    i < |s.nodes| && s.nodes[i].soft.role == Leader && s.nodes[i].hard.term == t
  }

  /** Empty logs, term 0 and no vote: the files persistent_fields_init and log_init create. */
  predicate Init(n: nat, s: System) {
    && Sized(n, s)
    && s.net == multiset{} && s.trace == []
    && forall i | 0 <= i < n ::
         s.nodes[i].hard == Durable(0, NO_VOTE, []) && Fresh(Cfg(n, i), s.nodes[i].soft)
  }

  /** What may happen to the system. `Crash` also covers a restart between two handlers. */
  datatype Action =
    | Run(node: nat, input: Input)
    | CrashIn(node: nat, input: Input, writes: nat, sends: nat, applies: nat)
    | Crash(node: nat)
    | Lose(packet: Packet)
    | Submit(packet: Packet)

  /** The input is there to be handled: its packet is in flight and addressed to this node. */
  predicate Offered(n: nat, s: System, i: nat, input: Input)
    requires Sized(n, s)
  {
    && i < n
    && (input.Receive? ==> input.p in s.net && Deliverable(Cfg(n, i), input.p))
  }

  /** A received packet is consumed: it is never delivered a second time. */
  function Consumed(net: multiset<Packet>, input: Input): multiset<Packet> {
    match input
    case Receive(p) => net - multiset{p}
    case Timeout(_) => net
  }

  function Events(i: nat, applied: seq<Applied>): seq<Event>
  {
    seq(|applied|, k requires 0 <= k < |applied| => Event(i, applied[k].index, applied[k].entry))
  }

  /** A crash stops the handler after some of its writes; it sends and applies only after the last. */
  predicate CrashPoint(o: Outcome, writes: nat, sends: nat, applies: nat) {
    && writes <= |o.writes| && sends <= |o.sent| && applies <= |o.applied|
    && (sends > 0 || applies > 0 ==> writes == |o.writes|)
  }

  /** The handler ran to its end. */
  function Done(s: System, i: nat, input: Input, o: Outcome): System
    requires i < |s.nodes|
  {
    System(s.nodes[i := After(s.nodes[i], o)], Consumed(s.net, input) + multiset(o.sent),
           s.trace + Events(i, o.applied))
  }

  /** The handler stopped at a crash point and the node restarted with fresh volatile state. */
  function Stopped(s: System, i: nat, input: Input, o: Outcome, w: nat, k: nat, m: nat, restarted: Volatile): System
    requires i < |s.nodes| && CrashPoint(o, w, k, m)
  {
    System(s.nodes[i := Node(ApplyWrites(s.nodes[i].hard, o.writes[..w]), restarted)],
           Consumed(s.net, input) + multiset(o.sent[..k]), s.trace + Events(i, o.applied[..m]))
  }

  predicate Step(n: nat, s: System, a: Action, s': System)
    requires Sized(n, s)
  {
    && Sized(n, s')
    && match a
       case Run(i, input) =>
         && Offered(n, s, i, input)
         && s' == Done(s, i, input, Handle(Cfg(n, i), s.nodes[i], input))
       case CrashIn(i, input, w, k, m) =>
         && Offered(n, s, i, input)
         && var o := Handle(Cfg(n, i), s.nodes[i], input);
         && CrashPoint(o, w, k, m)
         && Fresh(Cfg(n, i), s'.nodes[i].soft)
         && s' == Stopped(s, i, input, o, w, k, m, s'.nodes[i].soft)
       case Crash(i) =>
         && i < n
         && Fresh(Cfg(n, i), s'.nodes[i].soft)
         && s' == s.(nodes := s.nodes[i := Node(s.nodes[i].hard, s'.nodes[i].soft)])
       case Lose(p) => p in s.net && s' == s.(net := s.net - multiset{p})
       case Submit(p) => p.msg.ProcReq? && s' == s.(net := s.net + multiset{p})
  }

  ghost predicate Next(n: nat, s: System, s': System)
    requires Sized(n, s)
  {
    exists a :: Step(n, s, a, s')
  }

  ghost predicate NextAt(n: nat, run: seq<System>, k: nat)
    requires 0 < k < |run| && Sized(n, run[k - 1])
  {
    Next(n, run[k - 1], run[k])
  }

  /** A finite run: consecutive states of the system from an initial one. */
  ghost predicate IsRun(n: nat, run: seq<System>) {
    && |run| > 0
    && (forall k | 0 <= k < |run| :: Sized(n, run[k]))
    && Init(n, run[0])
    && forall k {:trigger NextAt(n, run, k)} | 0 < k < |run| :: NextAt(n, run, k)
  }
}
