/** Two runs in which the departures happen. */
module Schedules {
  import opened Words
  import opened Types
  import opened NodeSpec
  import opened NodeFacts
  import opened Cluster
  import opened AppendHandlers
  import opened LeaderHandlers
  import opened VoteHandlers
  import opened Departures

  // ---- building a run

  /** The run has led to these nodes, and at least these packets are in flight. */
  ghost predicate LedTo(n: nat, run: seq<System>, nodes: seq<Node>, bag: multiset<Packet>) {
    IsRun(n, run) && run[|run| - 1].nodes == nodes && bag <= run[|run| - 1].net
  }

  /** One more state, reached from the last one. */
  ghost predicate OneMore(run: seq<System>, run': seq<System>) {
    |run'| == |run| + 1 && run'[..|run|] == run
  }

  lemma AddState(n: nat, run: seq<System>, s: System)
    requires IsRun(n, run) && Sized(n, s) && Next(n, run[|run| - 1], s)
    ensures IsRun(n, run + [s]) && OneMore(run, run + [s])
  {
    var run' := run + [s];
    forall k | 0 < k < |run'|
      ensures NextAt(n, run', k)
    {
      assert k < |run| ==> NextAt(n, run, k);
    }
  }

  /** A node handles an input; it keeps its shape and its numbers stay in range. */
  lemma Turn(n: nat, run: seq<System>, nodes: seq<Node>, bag: multiset<Packet>, i: nat, input: Input, o: Outcome)
      returns (run': seq<System>)
    requires LedTo(n, run, nodes, bag) && i < n == |nodes|
    requires Shaped(Cfg(n, i), nodes[i].soft) && Fits(nodes[i]) && 2 <= n < NO_VOTE
    requires input.Receive? ==> input.p in bag && Deliverable(Cfg(n, i), input.p)
    requires o == Handle(Cfg(n, i), nodes[i], input)
    requires Shaped(Cfg(n, i), o.soft) && Fits(After(nodes[i], o)) && After(nodes[i], o).hard.term < INT_SPAN
    ensures OneMore(run, run')
    ensures LedTo(n, run', nodes[i := After(nodes[i], o)], Consumed(bag, input) + multiset(o.sent))
  {
    var s := run[|run| - 1];
    assert input.Receive? ==> input.p in s.net;
    var s' := Done(s, i, input, o);
    assert Sized(n, s);
    forall j | 0 <= j < n
      ensures Fits(s'.nodes[j]) && s'.nodes[j].hard.term < INT_SPAN && Shaped(Cfg(n, j), s'.nodes[j].soft)
    {
      assert j != i ==> s'.nodes[j] == s.nodes[j];
    }
    assert Step(n, s, Run(i, input), s');
    AddState(n, run, s');
    run' := run + [s'];
  }

  /** A client's request enters the network. */
  lemma Ask(n: nat, run: seq<System>, nodes: seq<Node>, bag: multiset<Packet>, p: Packet) returns (run': seq<System>)
    requires LedTo(n, run, nodes, bag) && p.msg.ProcReq?
    ensures OneMore(run, run') && LedTo(n, run', nodes, bag + multiset{p})
  {
    var s := run[|run| - 1];
    assert Sized(n, s);
    var s' := s.(net := s.net + multiset{p});
    assert Step(n, s, Submit(p), s');
    AddState(n, run, s');
    run' := run + [s'];
  }

  // ---- the first state

  function FirstNode(n: nat): Node {
    Node(Durable(0, NO_VOTE, []),
         Volatile(Follower, -1, -1, NO_LEADER, 0, seq(n, i => 0), seq(n, i => -1),
                  seq(MAX_OUTSTANDING_REQUESTS, i => Slot(0, 0, 0, false))))
  }

  lemma Start(n: nat) returns (run: seq<System>)
    requires 2 <= n < NO_VOTE
    ensures |run| == 1 && LedTo(n, run, seq(n, i => FirstNode(n)), multiset{})
  {
    var s := System(seq(n, i => FirstNode(n)), multiset{}, []);
    assert Init(n, s);
    run := [s];
  }

  // ---- an election in term 1

  function Ballot(i: nat): Message
    requires i < NO_VOTE
  {
    VoteReq(1, i, 0xFFFF_FFFF, 0)
  }

  /** A candidate of term 1 with its own vote only and nothing in its log. */
  predicate Campaigns(n: nat, i: nat, nd: Node) {
    && 2 <= n < NO_VOTE && i < n && Shaped(Cfg(n, i), nd.soft)
    && nd.hard == Durable(1, i, []) && nd.soft.role == Candidate && nd.soft.votesReceived == 1
    && nd.soft.commitIndex == -1
  }

  /** A leader of term 1 with this log, and what it believes of node j. */
  predicate Rules(n: nat, i: nat, nd: Node, log: seq<Entry>, commit: int) {
    && 2 <= n < NO_VOTE && i < n && Shaped(Cfg(n, i), nd.soft)
    && nd.hard == Durable(1, i, log) && nd.soft.role == Leader && nd.soft.commitIndex == commit
  }

  /** A follower in term 1 with this vote, log and commit index. */
  predicate Obeys(n: nat, j: nat, nd: Node, vote: u32, log: seq<Entry>, commit: int) {
    && 2 <= n < NO_VOTE && j < n && Shaped(Cfg(n, j), nd.soft)
    && nd.hard == Durable(1, vote, log) && nd.soft.role == Follower && nd.soft.commitIndex == commit
  }

  function Outcomes(n: nat, i: nat, nd: Node, input: Input): Outcome
    requires 2 <= n < NO_VOTE && Shaped(Cfg(n, i), nd.soft) && Fits(nd) && i < n
    requires input.Receive? ==> Deliverable(Cfg(n, i), input.p)
  {
    Handle(Cfg(n, i), nd, input)
  }

  lemma {:induction false} BallotsTo(n: nat, i: nat, upto: nat, j: nat)
    requires 2 <= n < NO_VOTE && i < n && upto <= n && j < upto && j != i
    ensures Packet(i, j, Ballot(i)) in VoteRequests(Cfg(n, i), Durable(1, i, []), upto)
  {
    if j < upto - 1 {
      BallotsTo(n, i, upto - 1, j);
    }
  }

  lemma Campaign(n: nat, i: nat) returns (o: Outcome)
    requires 2 <= n < NO_VOTE && i < n
    ensures o == Outcomes(n, i, FirstNode(n), Timeout(true)) && Campaigns(n, i, After(FirstNode(n), o))
    ensures forall j: nat | j < n && j != i :: Packet(i, j, Ballot(i)) in o.sent
  {
    o := Outcomes(n, i, FirstNode(n), Timeout(true));
    ApplyWritesShort(Durable(0, NO_VOTE, []), SetTerm(1), SetVote(i));
    forall j: nat | j < n && j != i
      ensures Packet(i, j, Ballot(i)) in o.sent
    {
      BallotsTo(n, i, n, j);
    }
  }

  lemma Granted(n: nat, i: nat, j: nat) returns (o: Outcome)
    requires 2 <= n < NO_VOTE && i < n && j < n && i != j
    ensures o == Outcomes(n, j, FirstNode(n), Receive(Packet(i, j, Ballot(i))))
    ensures Obeys(n, j, After(FirstNode(n), o), i, [], -1) && o.sent == [Packet(j, i, VoteRes(1, true))]
  {
    o := Outcomes(n, j, FirstNode(n), Receive(Packet(i, j, Ballot(i))));
    VoteReqIs(Cfg(n, j), FirstNode(n), i, Ballot(i));
  }

  /** The request of a leader of term 1 that carries these entries behind the first `next` ones. */
  function Request(i: nat, log: seq<Entry>, next: Len, commit: int, entries: seq<Entry>): Message
    requires i < NO_VOTE
  {
    AppendReq(1, i, Before(next), LogTerm(log, (next as int) - 1), commit, entries)
  }

  lemma {:induction false} BeatsTo(n: nat, i: nat, nd: Node, upto: nat, j: nat)
    requires 2 <= n < NO_VOTE && i < n && upto <= n && j < upto && j != i && Shaped(Cfg(n, i), nd.soft)
    ensures AppendRequest(Cfg(n, i), nd, j, true) in AppendRequests(Cfg(n, i), nd, upto, true)
  {
    if j < upto - 1 {
      BeatsTo(n, i, nd, upto - 1, j);
    }
  }

  /** With two or three nodes, one vote beside one's own makes a leader. */
  lemma Elected(n: nat, i: nat, nd: Node, j: nat) returns (o: Outcome)
    requires Campaigns(n, i, nd) && n <= 3 && j < n && j != i
    ensures o == Outcomes(n, i, nd, Receive(Packet(j, i, VoteRes(1, true))))
    ensures var nd' := After(nd, o);
            && Rules(n, i, nd', [], -1)
            && forall k | 0 <= k < n :: nd'.soft.nextIndex[k] == 0 && nd'.soft.matchIndex[k] == -1
    ensures forall k: nat | k < n && k != i :: Packet(i, k, Request(i, [], 0, -1, [])) in o.sent
  {
    o := Outcomes(n, i, nd, Receive(Packet(j, i, VoteRes(1, true))));
    var v := nd.soft.(votesReceived := 2);
    var nd' := Node(nd.hard, LeaderState(Cfg(n, i), nd.(soft := v)));
    assert o == BecomeLeader(Cfg(n, i), nd.(soft := v));
    assert After(nd, o) == nd';
    forall k: nat | k < n && k != i
      ensures Packet(i, k, Request(i, [], 0, -1, [])) in o.sent
    {
      BeatsTo(n, i, nd', n, k);
    }
  }

  // ---- a node votes twice in one term

  lemma Cleared(n: nat, i: nat, nd: Node, l: nat) returns (o: Outcome)
    requires Campaigns(n, i, nd) && l < n && l != i
    ensures o == Outcomes(n, i, nd, Receive(Packet(l, i, Request(l, [], 0, -1, []))))
    ensures Obeys(n, i, After(nd, o), NO_VOTE, [], -1)
  {
    o := Outcomes(n, i, nd, Receive(Packet(l, i, Request(l, [], 0, -1, []))));
    AppendReqIs(Cfg(n, i), nd, Request(l, [], 0, -1, []));
  }

  lemma VotesAgain(n: nat, i: nat, nd: Node, l: nat) returns (o: Outcome)
    requires Obeys(n, i, nd, NO_VOTE, [], -1) && l < n && l != i
    ensures o == Outcomes(n, i, nd, Receive(Packet(l, i, Ballot(l)))) && Obeys(n, i, After(nd, o), l, [], -1)
  {
    o := Outcomes(n, i, nd, Receive(Packet(l, i, Ballot(l))));
    VoteReqIs(Cfg(n, i), nd, l, Ballot(l));
  }

  lemma StartsCampaign(n: nat, run: seq<System>, nodes: seq<Node>, i: nat)
      returns (run': seq<System>, nd: Node, bag: multiset<Packet>)
    requires 2 <= n < NO_VOTE && |nodes| == n && i < n && nodes[i] == FirstNode(n) && LedTo(n, run, nodes, multiset{})
    ensures LedTo(n, run', nodes[i := nd], bag) && Campaigns(n, i, nd)
    ensures forall j: nat | j < n && j != i :: Packet(i, j, Ballot(i)) in bag
  {
    var o := Campaign(n, i);
    run' := Turn(n, run, nodes, multiset{}, i, Timeout(true), o);
    nd, bag := After(FirstNode(n), o), multiset(o.sent);
  }

  lemma TwoCampaigns() returns (run: seq<System>, nodes: seq<Node>, bag: multiset<Packet>)
    ensures LedTo(3, run, nodes, bag) && |nodes| == 3
    ensures Campaigns(3, 0, nodes[0]) && Campaigns(3, 1, nodes[1]) && nodes[2] == FirstNode(3)
    ensures bag == multiset{Packet(1, 0, Ballot(1)), Packet(1, 2, Ballot(1))}
  {
    run := Start(3);
    var first := seq(3, i => FirstNode(3));
    var c0, c1;
    run, c0, bag := StartsCampaign(3, run, first, 0);
    run, c1, bag := StartsCampaign(3, run, first[0 := c0], 1);
    nodes := first[0 := c0][1 := c1];
    var few := multiset{Packet(1, 0, Ballot(1)), Packet(1, 2, Ballot(1))};
    assert Packet(1, 0, Ballot(1)) in bag && Packet(1, 2, Ballot(1)) in bag;
    assert few <= bag;
    bag := few;
  }

  /** Three nodes; node 1 leads term 1, and nodes 0 and 1 were its candidates. */
  lemma SplitElection() returns (run: seq<System>, nodes: seq<Node>)
    ensures |nodes| == 3 && Campaigns(3, 0, nodes[0])
    ensures LedTo(3, run, nodes, multiset{Packet(1, 0, Ballot(1)), Packet(1, 0, Request(1, [], 0, -1, []))})
  {
    var bag, kept, ballot := multiset{}, Packet(1, 0, Ballot(1)), Packet(1, 2, Ballot(1));
    run, nodes, bag := TwoCampaigns();
    var g := Granted(3, 1, 2);
    run := Turn(3, run, nodes, bag, 2, Receive(ballot), g);
    nodes := nodes[2 := After(nodes[2], g)];
    var vote := Packet(2, 1, VoteRes(1, true));
    bag := multiset{kept, vote};
    assert LedTo(3, run, nodes, bag);
    var e := Elected(3, 1, nodes[1], 2);
    run := Turn(3, run, nodes, bag, 1, Receive(vote), e);
    nodes := nodes[1 := After(nodes[1], e)];
    assert multiset{kept, Packet(1, 0, Request(1, [], 0, -1, []))} <= bag - multiset{vote} + multiset(e.sent);
  }

  /** A run in which a node votes for itself, takes that back, and votes for another, all in term 1. */
  lemma VotesTwiceInOneTerm() returns (run: seq<System>, b: nat)
    ensures IsRun(3, run) && 0 < b < |run| - 1
    ensures run[b - 1].nodes[0].hard == Durable(1, 0, [])
    ensures TakenBack(run[b - 1].nodes[0].hard, run[b].nodes[0].hard)
    ensures run[b + 1].nodes[0].hard == Durable(1, 1, [])
  {
    var before, nodes := SplitElection();
    b := |before|;
    var beat, ballot := Packet(1, 0, Request(1, [], 0, -1, [])), Packet(1, 0, Ballot(1));
    var bag := multiset{ballot, beat};
    var c := Cleared(3, 0, nodes[0], 1);
    var middle := Turn(3, before, nodes, bag, 0, Receive(beat), c);
    nodes, bag := nodes[0 := After(nodes[0], c)], bag - multiset{beat} + multiset(c.sent);
    var v := VotesAgain(3, 0, nodes[0], 1);
    run := Turn(3, middle, nodes, bag, 0, Receive(ballot), v);
    assert run[b] == middle[b] && run[b - 1] == middle[b - 1] == before[b - 1];
  }

  // ---- a follower's commit index moves back

  /** A leader of term 1 of two nodes, with what it believes of the other one. */
  predicate Tracks(nd: Node, log: seq<Entry>, next: int, match_: int, commit: int) {
    Rules(2, 0, nd, log, commit) && nd.soft.nextIndex[1] == next && nd.soft.matchIndex[1] == match_
  }

  predicate OfTermOne(log: seq<Entry>) {
    |log| <= MAX_APPEND_ENTRIES && forall k | 0 <= k < |log| :: log[k].term == 1
  }

  function To(m: Message): Packet {
    Packet(0, 1, m)
  }

  function From(m: Message): Packet {
    Packet(1, 0, m)
  }

  lemma Broadcast(nd: Node, heartbeat: bool)
    requires Shaped(Cfg(2, 0), nd.soft)
    ensures AppendRequests(Cfg(2, 0), nd, 2, heartbeat) == [AppendRequest(Cfg(2, 0), nd, 1, heartbeat)]
  {
    assert AppendRequests(Cfg(2, 0), nd, 1, heartbeat) == AppendRequests(Cfg(2, 0), nd, 0, heartbeat) == [];
  }

  lemma Beats(nd: Node, log: seq<Entry>, next: Len, match_: int, commit: int) returns (o: Outcome)
    requires Tracks(nd, log, next, match_, commit) && OfTermOne(log)
    ensures o == Outcomes(2, 0, nd, Timeout(false)) && After(nd, o) == nd
    ensures o.sent == [To(Request(0, log, next, commit, []))]
  {
    o := Outcomes(2, 0, nd, Timeout(false));
    Broadcast(nd, true);
  }

  lemma {:induction false} Takes(nd: Node, log: seq<Entry>, next: Len, match_: int, commit: int, cmd: u32)
      returns (o: Outcome)
    requires Tracks(nd, log, next, match_, commit) && OfTermOne(log) && next <= |log| < MAX_APPEND_ENTRIES
    ensures o == Outcomes(2, 0, nd, Receive(Packet(2, 0, ProcReq(2, cmd, cmd))))
    ensures var log' := log + [Entry(1, 2, cmd, cmd)];
            && Tracks(After(nd, o), log', next, match_, commit) && OfTermOne(log')
            && o.sent == [To(Request(0, log', next, commit, log'[next..]))]
  {
    var e, p := Entry(1, 2, cmd, cmd), Packet(2, 0, ProcReq(2, cmd, cmd));
    o := Outcomes(2, 0, nd, Receive(p));
    ApplyWritesShort(nd.hard, Append(e), Append(e));
    var log' := log + [e];
    assert o.writes == [Append(e)] && After(nd, o).hard.log == log';
    Broadcast(After(nd, o), false);
    Asks(After(nd, o), log', next, match_, commit);
  }

  lemma {:induction false} Asks(nd: Node, log: seq<Entry>, next: Len, match_: int, commit: int)
    requires Tracks(nd, log, next, match_, commit) && OfTermOne(log) && next <= |log|
    ensures AppendRequest(Cfg(2, 0), nd, 1, false) == To(Request(0, log, next, commit, log[next..]))
  {
    assert log[next..next + (|log| - next)] == log[next..];
  }

  lemma HearsAck(nd: Node, log: seq<Entry>, next: Len, match_: int, commit: int, m: int) returns (o: Outcome)
    requires Tracks(nd, log, next, match_, commit) && OfTermOne(log) && -1 <= commit < |log| && -1 <= m < |log|
    ensures o == Outcomes(2, 0, nd, Receive(From(AppendRes(1, ToWord(m), true))))
    ensures Tracks(After(nd, o), log, |log|, m, Max(commit, m))
  {
    o := Outcomes(2, 0, nd, Receive(From(AppendRes(1, ToWord(m), true))));
    var nd' := Matched(Cfg(2, 0), nd, 1, m);
    TwoNodeCommit(nd.hard, nd'.soft.matchIndex, commit, m);
    ApplyCommittedKeeps(Cfg(2, 0), nd.hard, nd'.soft);
    assert ToInt(ToWord(m)) == m;
    assert After(nd, o) == Node(nd.hard, ApplyCommitted(Cfg(2, 0), nd.hard, nd'.soft).soft);
  }

  lemma TwoNodeCommit(hard: Durable, mi: seq<int>, commit: int, m: int)
    requires |mi| == 2 && mi[1] == m && hard.term == 1 && OfTermOne(hard.log)
    requires -1 <= commit < |hard.log| && -1 <= m < |hard.log|
    ensures CommitPoint(Cfg(2, 0), hard, mi, commit, |hard.log|) == Max(commit, m)
  {
    CommitPointIsGreatest(Cfg(2, 0), hard, mi, commit, |hard.log|);
    forall k | 0 <= k < |hard.log|
      ensures Committable(Cfg(2, 0), hard, mi, k) <==> k <= m
    {
      assert Holders(Cfg(2, 0), mi, k, 1) == Holders(Cfg(2, 0), mi, k, 0) == 0;
    }
    if m > commit {
      assert Committable(Cfg(2, 0), hard, mi, m);
    }
  }

  lemma HearsNack(nd: Node, log: seq<Entry>, next: Len, match_: int, commit: int) returns (o: Outcome)
    requires Tracks(nd, log, next, match_, commit) && OfTermOne(log) && next > 0
    ensures o == Outcomes(2, 0, nd, Receive(From(AppendRes(1, 0, false))))
    ensures Tracks(After(nd, o), log, next - 1, match_, commit)
  {
    o := Outcomes(2, 0, nd, Receive(From(AppendRes(1, 0, false))));
  }

  lemma Rejects(nd: Node, flog: seq<Entry>, fc: int, log: seq<Entry>, next: Len, commit: int) returns (o: Outcome)
    requires Obeys(2, 1, nd, 0, flog, fc) && |flog| < next <= |log| && OfTermOne(flog) && OfTermOne(log)
    ensures o == Outcomes(2, 1, nd, Receive(To(Request(0, log, next, commit, []))))
    ensures Obeys(2, 1, After(nd, o), 0, flog, fc) && o.sent == [From(AppendRes(1, 0, false))]
  {
    BeforeIsPredecessor(next);
    o := Outcomes(2, 1, nd, Receive(To(Request(0, log, next, commit, []))));
    AppendReqIs(Cfg(2, 1), nd, Request(0, log, next, commit, []));
  }

  lemma Accepts(nd: Node, flog: seq<Entry>, fc: int, log: seq<Entry>, next: Len, commit: int, es: seq<Entry>)
      returns (o: Outcome)
    requires Obeys(2, 1, nd, 0, flog, fc) && next <= |flog| && next <= |log| && OfTermOne(flog) && OfTermOne(log)
    requires |es| <= MAX_APPEND_ENTRIES
    ensures o == Outcomes(2, 1, nd, Receive(To(Request(0, log, next, commit, es))))
    ensures Obeys(2, 1, After(nd, o), 0, Merged(flog, next, es),
                  if commit <= fc then fc else if commit < next - 1 + |es| then commit else next - 1 + |es|)
    ensures From(AppendRes(1, ToWord(next - 1 + |es|), true)) in o.sent
  {
    var m := Request(0, log, next, commit, es);
    BeforeIsPredecessor(next);
    LastNewIndex(Before(next), |es|);
    o := Outcomes(2, 1, nd, Receive(To(m)));
    AppendReqIs(Cfg(2, 1), nd, m);
    assert o.sent[|o.sent| - 1] == AppendReply(Cfg(2, 1), 0, 1, ToWord(Before(next) + |es|), true);
    if commit > fc {
      ApplyCommittedKeeps(Cfg(2, 1), After(nd, o).hard, FollowerCommit(Heard(nd, m).soft, m));
    }
  }

  lemma LeaderTurn(run: seq<System>, x: Node, y: Node, bag: multiset<Packet>, input: Input, o: Outcome)
      returns (run': seq<System>)
    requires LedTo(2, run, [x, y], bag) && Shaped(Cfg(2, 0), x.soft) && Fits(x)
    requires input.Receive? ==> input.p in bag && Deliverable(Cfg(2, 0), input.p)
    requires o == Outcomes(2, 0, x, input)
    requires Shaped(Cfg(2, 0), o.soft) && Fits(After(x, o)) && After(x, o).hard.term < INT_SPAN
    ensures OneMore(run, run') && LedTo(2, run', [After(x, o), y], Consumed(bag, input) + multiset(o.sent))
  {
    run' := Turn(2, run, [x, y], bag, 0, input, o);
    assert [x, y][0 := After(x, o)] == [After(x, o), y];
  }

  lemma FollowerTurn(run: seq<System>, x: Node, y: Node, bag: multiset<Packet>, input: Input, o: Outcome)
      returns (run': seq<System>)
    requires LedTo(2, run, [x, y], bag) && Shaped(Cfg(2, 1), y.soft) && Fits(y)
    requires input.Receive? ==> input.p in bag && Deliverable(Cfg(2, 1), input.p)
    requires o == Outcomes(2, 1, y, input)
    requires Shaped(Cfg(2, 1), o.soft) && Fits(After(y, o)) && After(y, o).hard.term < INT_SPAN
    ensures OneMore(run, run') && LedTo(2, run', [x, After(y, o)], Consumed(bag, input) + multiset(o.sent))
  {
    run' := Turn(2, run, [x, y], bag, 1, input, o);
    assert [x, y][1 := After(y, o)] == [x, After(y, o)];
  }

  const TWO: seq<Entry> := [Entry(1, 2, 0, 0), Entry(1, 2, 1, 1)]

  lemma Standing() returns (run: seq<System>, x: Node)
    ensures Campaigns(2, 0, x) && LedTo(2, run, [x, FirstNode(2)], multiset{To(Ballot(0))})
  {
    var f, bag := FirstNode(2), multiset{};
    run := Start(2);
    assert seq(2, i => FirstNode(2)) == [f, f];
    run, x, bag := StartsCampaign(2, run, [f, f], 0);
    assert [f, f][0 := x] == [x, f];
    assert Packet(0, 1, Ballot(0)) in bag;
    assert multiset{To(Ballot(0))} <= bag;
  }

  lemma Voted() returns (run: seq<System>, x: Node, y: Node)
    ensures Campaigns(2, 0, x) && Obeys(2, 1, y, 0, [], -1)
    ensures LedTo(2, run, [x, y], multiset{From(VoteRes(1, true))})
  {
    run, x := Standing();
    var g := Granted(2, 0, 1);
    run := FollowerTurn(run, x, FirstNode(2), multiset{To(Ballot(0))}, Receive(To(Ballot(0))), g);
    y := After(FirstNode(2), g);
  }

  /** Node 0 leads, node 1 follows, and the leader's first heartbeat is in flight. */
  lemma Established() returns (run: seq<System>, x: Node, y: Node)
    ensures Tracks(x, [], 0, -1, -1) && Obeys(2, 1, y, 0, [], -1)
    ensures LedTo(2, run, [x, y], multiset{To(Request(0, [], 0, -1, []))})
  {
    var vote, beat := From(VoteRes(1, true)), To(Request(0, [], 0, -1, []));
    run, x, y := Voted();
    var e := Elected(2, 0, x, 1);
    run := LeaderTurn(run, x, y, multiset{vote}, Receive(vote), e);
    x := After(x, e);
    assert Packet(0, 1, Request(0, [], 0, -1, [])) in e.sent;
    assert multiset{beat} <= multiset(e.sent);
  }

  lemma AskAndTake(run: seq<System>, x: Node, y: Node, bag: multiset<Packet>, log: seq<Entry>, cmd: u32)
      returns (run': seq<System>, x': Node)
    requires LedTo(2, run, [x, y], bag) && Tracks(x, log, 0, -1, -1) && OfTermOne(log) && |log| < MAX_APPEND_ENTRIES
    ensures var log' := log + [Entry(1, 2, cmd, cmd)];
            && Tracks(x', log', 0, -1, -1) && OfTermOne(log')
            && LedTo(2, run', [x', y], bag + multiset{To(Request(0, log', 0, -1, log'))})
  {
    var p := Packet(2, 0, ProcReq(2, cmd, cmd));
    run' := Ask(2, run, [x, y], bag, p);
    var o := Takes(x, log, 0, -1, -1, cmd);
    run' := LeaderTurn(run', x, y, bag + multiset{p}, Receive(p), o);
    x' := After(x, o);
    var log' := log + [Entry(1, 2, cmd, cmd)];
    assert log'[0..] == log';
    assert bag + multiset{p} - multiset{p} + multiset(o.sent) == bag + multiset{To(Request(0, log', 0, -1, log'))};
  }

  /** The leader has two entries, and the request that carries both is in flight. */
  lemma Requested() returns (run: seq<System>, x: Node, y: Node)
    ensures Tracks(x, TWO, 0, -1, -1) && Obeys(2, 1, y, 0, [], -1) && OfTermOne(TWO)
    ensures LedTo(2, run, [x, y], multiset{To(Request(0, [], 0, -1, [])), To(Request(0, TWO, 0, -1, TWO))})
  {
    var beat := To(Request(0, [], 0, -1, []));
    run, x, y := Established();
    run, x := AskAndTake(run, x, y, multiset{beat}, [], 0);
    assert [] + [Entry(1, 2, 0, 0)] == [Entry(1, 2, 0, 0)];
    assert LedTo(2, run, [x, y], multiset{beat});
    run, x := AskAndTake(run, x, y, multiset{beat}, [Entry(1, 2, 0, 0)], 1);
    assert [Entry(1, 2, 0, 0)] + [Entry(1, 2, 1, 1)] == TWO;
  }

  lemma Answered() returns (run: seq<System>, x: Node, y: Node)
    ensures Tracks(x, TWO, 0, -1, -1) && Obeys(2, 1, y, 0, [], -1) && OfTermOne(TWO)
    ensures LedTo(2, run, [x, y], multiset{To(Request(0, TWO, 0, -1, TWO)), From(AppendRes(1, ToWord(-1), true))})
  {
    var beat, ack, both := To(Request(0, [], 0, -1, [])), From(AppendRes(1, ToWord(-1), true)),
                           To(Request(0, TWO, 0, -1, TWO));
    run, x, y := Requested();
    var a := Accepts(y, [], -1, [], 0, -1, []);
    run := FollowerTurn(run, x, y, multiset{beat, both}, Receive(beat), a);
    y := After(y, a);
    assert Merged([], 0, []) == [];
    assert multiset{both, ack} <= multiset{beat, both} - multiset{beat} + multiset(a.sent);
  }

  /** The heartbeat's acknowledgement has made next_index jump to the end of the leader's log. */
  lemma Jumped() returns (run: seq<System>, x: Node, y: Node)
    ensures Tracks(x, TWO, 2, -1, -1) && Obeys(2, 1, y, 0, [], -1) && OfTermOne(TWO)
    ensures LedTo(2, run, [x, y], multiset{To(Request(0, TWO, 0, -1, TWO))})
  {
    var ack, both := From(AppendRes(1, ToWord(-1), true)), To(Request(0, TWO, 0, -1, TWO));
    run, x, y := Answered();
    var h := HearsAck(x, TWO, 0, -1, -1, -1);
    run := LeaderTurn(run, x, y, multiset{both, ack}, Receive(ack), h);
    x := After(x, h);
    assert multiset{both} <= multiset{both, ack} - multiset{ack} + multiset(h.sent);
  }

  /** A heartbeat goes out at the end of the log and is refused; the refusal stays in flight. */
  lemma Refused(run: seq<System>, x: Node, y: Node, bag: multiset<Packet>) returns (run': seq<System>, y': Node)
    requires LedTo(2, run, [x, y], bag) && OfTermOne(TWO) && Tracks(x, TWO, 2, -1, -1) && Obeys(2, 1, y, 0, [], -1)
    ensures Obeys(2, 1, y', 0, [], -1) && LedTo(2, run', [x, y'], bag + multiset{From(AppendRes(1, 0, false))})
  {
    var beat := To(Request(0, TWO, 2, -1, []));
    var b := Beats(x, TWO, 2, -1, -1);
    run' := LeaderTurn(run, x, y, bag, Timeout(false), b);
    var r := Rejects(y, [], -1, TWO, 2, -1);
    assert multiset(b.sent) == multiset{beat};
    run' := FollowerTurn(run', x, y, bag + multiset{beat}, Receive(beat), r);
    y' := After(y, r);
    assert bag + multiset{beat} - multiset{beat} + multiset(r.sent) == bag + multiset{From(AppendRes(1, 0, false))};
  }

  lemma TwoRefusals() returns (run: seq<System>, x: Node, y: Node)
    ensures Tracks(x, TWO, 2, -1, -1) && Obeys(2, 1, y, 0, [], -1) && OfTermOne(TWO)
    ensures var nack := From(AppendRes(1, 0, false));
            LedTo(2, run, [x, y], multiset{To(Request(0, TWO, 0, -1, TWO)), nack, nack})
  {
    var nack, both := From(AppendRes(1, 0, false)), To(Request(0, TWO, 0, -1, TWO));
    run, x, y := Jumped();
    run, y := Refused(run, x, y, multiset{both});
    assert multiset{both} + multiset{nack} == multiset{both, nack};
    run, y := Refused(run, x, y, multiset{both, nack});
    assert multiset{both, nack} + multiset{nack} == multiset{both, nack, nack};
  }

  lemma Stored() returns (run: seq<System>, x: Node, y: Node)
    ensures Tracks(x, TWO, 2, -1, -1) && Obeys(2, 1, y, 0, TWO, -1) && OfTermOne(TWO)
    ensures var nack := From(AppendRes(1, 0, false));
            LedTo(2, run, [x, y], multiset{nack, nack, From(AppendRes(1, ToWord(1), true))})
  {
    var nack, ack, both := From(AppendRes(1, 0, false)), From(AppendRes(1, ToWord(1), true)),
                           To(Request(0, TWO, 0, -1, TWO));
    run, x, y := TwoRefusals();
    var a := Accepts(y, [], -1, TWO, 0, -1, TWO);
    run := FollowerTurn(run, x, y, multiset{both, nack, nack}, Receive(both), a);
    y := After(y, a);
    assert Merged([], 0, TWO) == TWO;
    assert multiset{nack, nack, ack} <= multiset{both, nack, nack} - multiset{both} + multiset(a.sent);
  }

  /** The leader has committed both entries, with two refusals still on their way to it. */
  lemma CommittedBoth() returns (run: seq<System>, x: Node, y: Node)
    ensures Tracks(x, TWO, 2, 1, 1) && Obeys(2, 1, y, 0, TWO, -1) && OfTermOne(TWO)
    ensures LedTo(2, run, [x, y], multiset{From(AppendRes(1, 0, false)), From(AppendRes(1, 0, false))})
  {
    var nack, ack := From(AppendRes(1, 0, false)), From(AppendRes(1, ToWord(1), true));
    run, x, y := Stored();
    var h := HearsAck(x, TWO, 2, -1, -1, 1);
    run := LeaderTurn(run, x, y, multiset{nack, nack, ack}, Receive(ack), h);
    x := After(x, h);
    assert multiset{nack, nack} <= multiset{nack, nack, ack} - multiset{ack} + multiset(h.sent);
  }

  /** A late refusal arrives, and the next heartbeat goes out one place lower. */
  lemma Lowered(run: seq<System>, x: Node, y: Node, bag: multiset<Packet>, next: Len)
      returns (run': seq<System>, x': Node)
    requires LedTo(2, run, [x, y], bag + multiset{From(AppendRes(1, 0, false))}) && OfTermOne(TWO)
    requires Tracks(x, TWO, next, 1, 1) && 0 < next <= 2
    ensures Tracks(x', TWO, next - 1, 1, 1)
    ensures LedTo(2, run', [x', y], bag + multiset{To(Request(0, TWO, next - 1, 1, []))})
  {
    var nack := From(AppendRes(1, 0, false));
    var h := HearsNack(x, TWO, next, 1, 1);
    run' := LeaderTurn(run, x, y, bag + multiset{nack}, Receive(nack), h);
    x' := After(x, h);
    assert bag <= bag + multiset{nack} - multiset{nack} + multiset(h.sent);
    var b := Beats(x', TWO, next - 1, 1, 1);
    run' := LeaderTurn(run', x', y, bag, Timeout(false), b);
    assert multiset(b.sent) == multiset{To(Request(0, TWO, next - 1, 1, []))};
  }

  /** Two heartbeats of a leader that has committed both entries: one behind the first, one before the log. */
  lemma TwoHeartbeats() returns (run: seq<System>, x: Node, y: Node)
    ensures Obeys(2, 1, y, 0, TWO, -1) && OfTermOne(TWO)
    ensures LedTo(2, run, [x, y], multiset{To(Request(0, TWO, 1, 1, [])), To(Request(0, TWO, 0, 1, []))})
  {
    var nack, one, none := From(AppendRes(1, 0, false)), To(Request(0, TWO, 1, 1, [])), To(Request(0, TWO, 0, 1, []));
    run, x, y := CommittedBoth();
    assert multiset{nack, nack} == multiset{nack} + multiset{nack};
    run, x := Lowered(run, x, y, multiset{nack}, 2);
    assert multiset{nack} + multiset{one} == multiset{one} + multiset{nack};
    run, x := Lowered(run, x, y, multiset{one}, 1);
    assert multiset{one} + multiset{none} == multiset{one, none};
  }

  /** A run of two nodes in which a follower's commit index falls from 0 to -1. */
  lemma CommitMovesBack() returns (run: seq<System>, b: nat)
    ensures IsRun(2, run) && 0 < b < |run|
    ensures run[b - 1].nodes[1].soft.commitIndex == 0 && run[b].nodes[1].soft.commitIndex == -1
  {
    var one, none := To(Request(0, TWO, 1, 1, [])), To(Request(0, TWO, 0, 1, []));
    var before, x, y := TwoHeartbeats();
    var a := Accepts(y, TWO, -1, TWO, 1, 1, []);
    var middle := FollowerTurn(before, x, y, multiset{one, none}, Receive(one), a);
    var y' := After(y, a);
    assert multiset{none} <= multiset{one, none} - multiset{one} + multiset(a.sent);
    var c := Accepts(y', TWO, 0, TWO, 0, 1, []);
    run := FollowerTurn(middle, x, y', multiset{none}, Receive(none), c);
    b := |middle|;
    assert run[b - 1] == run[..b][b - 1] == middle[b - 1];
    assert middle[b - 1].nodes == [x, y'] && run[b].nodes == [x, After(y', c)];
  }
}
