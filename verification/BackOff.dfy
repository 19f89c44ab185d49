/** How a leader finds where a follower agrees. */
module BackOff {
  import opened Words
  import opened Types
  import opened NodeSpec
  import opened NodeFacts
  import opened AppendHandlers
  import opened LeaderHandlers
  import opened Cluster
  import opened Runs
  import opened Safety

  /** A leader i and a follower j in one term, with nothing else in flight between them. */
  predicate Pair(n: nat, i: nat, j: nat, ld: Node, fl: Node) {
    && 2 <= n < NO_VOTE && i < n && j < n && i != j
    && Shaped(Config(i, n), ld.soft) && Shaped(Config(j, n), fl.soft) && Fits(ld) && Fits(fl)
    && ld.soft.role == Leader && fl.soft.role == Follower
    && ld.hard.term == fl.hard.term < INT_SPAN
    && ld.soft.nextIndex[j] <= |ld.hard.log|
  }

  /** The two logs hold the same term at p; the place before the first entry counts as common. */
  predicate Agree(ld: Node, fl: Node, p: int) {
    p == -1 || (0 <= p < |ld.hard.log| && p < |fl.hard.log| && ld.hard.log[p].term == fl.hard.log[p].term)
  }

  datatype Exchange = Exchange(ld: Node, fl: Node, accepted: bool)

  /** One lossless round trip: the leader's request, the follower's reply, the leader's bookkeeping. */
  function Probe(n: nat, i: nat, j: nat, ld: Node, fl: Node, heartbeat: bool): Exchange {
    if !Pair(n, i, j, ld, fl) then Exchange(ld, fl, false)
    else
      var o := HandleAppendReq(Config(j, n), fl, AppendRequest(Config(i, n), ld, j, heartbeat).msg);
      if o.sent == [] || !o.sent[|o.sent| - 1].msg.AppendRes? then Exchange(ld, After(fl, o), false)
      else
        var reply := o.sent[|o.sent| - 1].msg;
        Exchange(After(ld, HandleAppendRes(Config(i, n), ld, j, reply)), After(fl, o), reply.success)
  }

  function NextFor(ld: Node, j: nat): int
    requires j < |ld.soft.nextIndex|
  {
    ld.soft.nextIndex[j]
  }

  /** The greatest index below `next` at which the logs agree. */
  function MeetingPoint(ld: Node, fl: Node, next: nat): (p: int)
    ensures -1 <= p < next && Agree(ld, fl, p)
    ensures forall q | p < q < next :: !Agree(ld, fl, q)
  {
    if next == 0 then -1
    else if Agree(ld, fl, next - 1) then next - 1
    else MeetingPoint(ld, fl, next - 1)
  }

  function Heeds(fl: Node, i: nat): Node
    requires i < NO_VOTE
  {
    fl.(soft := fl.soft.(leaderId := i))
  }

  lemma RequestIs(n: nat, i: nat, j: nat, ld: Node, fl: Node, heartbeat: bool)
    requires Pair(n, i, j, ld, fl) && TermsPositive(ld.hard.log) && TermsPositive(fl.hard.log)
    ensures var m := AppendRequest(Config(i, n), ld, j, heartbeat).msg;
            && m.AppendReq? && m.term == fl.hard.term && m.leaderId == i && ToInt(m.prevLogIdx) == NextFor(ld, j) - 1
            && |m.entries| == BatchSize(|ld.hard.log|, NextFor(ld, j), heartbeat)
            && (PrevMatches(fl.hard.log, m) <==> Agree(ld, fl, NextFor(ld, j) - 1))
            && Heard(fl, m) == Heeds(fl, i)
  {
  }

  /** A rejected probe moves next_index down by exactly one and leaves both logs alone. */
  lemma RejectedProbe(n: nat, i: nat, j: nat, ld: Node, fl: Node, heartbeat: bool)
    requires Pair(n, i, j, ld, fl) && TermsPositive(ld.hard.log) && TermsPositive(fl.hard.log)
    requires !Agree(ld, fl, NextFor(ld, j) - 1)
    ensures NextFor(ld, j) > 0
    ensures Probe(n, i, j, ld, fl, heartbeat)
            == Exchange(ld.(soft := ld.soft.(nextIndex := ld.soft.nextIndex[j := NextFor(ld, j) - 1])),
                        Heeds(fl, i), false)
  {
  }

  /** The follower's side of an accepted probe. */
  lemma FollowerAccepts(n: nat, i: nat, j: nat, ld: Node, fl: Node, heartbeat: bool)
    requires Pair(n, i, j, ld, fl) && TermsPositive(ld.hard.log) && TermsPositive(fl.hard.log)
    requires Agree(ld, fl, NextFor(ld, j) - 1)
    ensures var m := AppendRequest(Config(i, n), ld, j, heartbeat).msg;
            var sent := HandleAppendReq(Config(j, n), fl, m).sent;
            && sent != [] && sent[|sent| - 1].msg.AppendRes? && sent[|sent| - 1].msg.success
            && sent[|sent| - 1].msg.term == fl.hard.term
            && ToInt(sent[|sent| - 1].msg.newMatchIndex)
               == NextFor(ld, j) - 1 + BatchSize(|ld.hard.log|, NextFor(ld, j), heartbeat)
  {
    var m := AppendRequest(Config(i, n), ld, j, heartbeat).msg;
    RequestIs(n, i, j, ld, fl, heartbeat);
    AppendReqIs(Config(j, n), fl, m);
    LastNewIndex(m.prevLogIdx, |m.entries|);
  }

  /** The leader's side of an accepted probe. */
  lemma LeaderRecords(cfg: Config, ld: Node, j: nat, ack: Message)
    requires cfg.Valid() && Shaped(cfg, ld.soft) && Fits(ld) && j < cfg.n && ld.soft.role == Leader
    requires ack.AppendRes? && ack.term == ld.hard.term && ack.success
    ensures var r := After(ld, HandleAppendRes(cfg, ld, j, ack));
            && r.hard == ld.hard && |r.soft.matchIndex| == |r.soft.nextIndex| == cfg.n
            && r.soft.matchIndex[j] == ToInt(ack.newMatchIndex) && NextFor(r, j) == |ld.hard.log|
  {
    ApplyCommittedKeeps(cfg, ld.hard, Matched(cfg, ld, j, ToInt(ack.newMatchIndex)).soft);
  }

  /** An accepted probe records in match_index the last index the request carried. */
  lemma AcceptedProbe(n: nat, i: nat, j: nat, ld: Node, fl: Node, heartbeat: bool)
    requires Pair(n, i, j, ld, fl) && TermsPositive(ld.hard.log) && TermsPositive(fl.hard.log)
    requires Agree(ld, fl, NextFor(ld, j) - 1)
    ensures var x := Probe(n, i, j, ld, fl, heartbeat);
            && Accepted(ld, j, NextFor(ld, j) - 1 + BatchSize(|ld.hard.log|, NextFor(ld, j), heartbeat), x)
            && |x.ld.soft.nextIndex| == n && NextFor(x.ld, j) == |ld.hard.log|
  {
    var sent := HandleAppendReq(Config(j, n), fl, AppendRequest(Config(i, n), ld, j, heartbeat).msg).sent;
    FollowerAccepts(n, i, j, ld, fl, heartbeat);
    LeaderRecords(Config(i, n), ld, j, sent[|sent| - 1].msg);
  }

  /** After k rejections next_index is k lower and neither log has changed. */
  predicate Rejected(ld: Node, fl: Node, j: nat, k: nat, x: Exchange)
    requires j < |ld.soft.nextIndex|
  {
    && !x.accepted && |x.ld.soft.nextIndex| == |ld.soft.nextIndex|
    && NextFor(x.ld, j) == NextFor(ld, j) - k
    && x.ld.hard == ld.hard && x.fl.hard == fl.hard
  }

  predicate Accepted(ld: Node, j: nat, last: int, x: Exchange) {
    && x.accepted && x.ld.hard == ld.hard
    && j < |x.ld.soft.matchIndex| && x.ld.soft.matchIndex[j] == last
  }

  predicate Ready(n: nat, i: nat, j: nat, ld: Node, fl: Node) {
    Pair(n, i, j, ld, fl) && TermsPositive(ld.hard.log) && TermsPositive(fl.hard.log)
  }

  predicate ProbeAt(n: nat, i: nat, j: nat, heartbeat: bool, xs: seq<Exchange>, k: nat)
    requires 0 < k < |xs|
  {
    xs[k] == Probe(n, i, j, xs[k - 1].ld, xs[k - 1].fl, heartbeat)
  }

  /** A lossless run of round trips, one at a time. */
  predicate ProbeRun(n: nat, i: nat, j: nat, heartbeat: bool, xs: seq<Exchange>) {
    && |xs| > 0 && !xs[0].accepted
    && forall k {:trigger ProbeAt(n, i, j, heartbeat, xs, k)} | 0 < k < |xs| :: ProbeAt(n, i, j, heartbeat, xs, k)
  }

  /** Until the meeting point every round trip is rejected and lowers next_index by exactly one. */
  lemma {:induction false} BackOffDescends(n: nat, i: nat, j: nat, heartbeat: bool, xs: seq<Exchange>, k: nat)
    requires ProbeRun(n, i, j, heartbeat, xs) && k < |xs| && Ready(n, i, j, xs[0].ld, xs[0].fl)
    requires k < NextFor(xs[0].ld, j) - MeetingPoint(xs[0].ld, xs[0].fl, NextFor(xs[0].ld, j))
    ensures Rejected(xs[0].ld, xs[0].fl, j, k, xs[k]) && Ready(n, i, j, xs[k].ld, xs[k].fl)
    decreases k
  {
    if k > 0 {
      BackOffDescends(n, i, j, heartbeat, xs, k - 1);
      assert ProbeAt(n, i, j, heartbeat, xs, k);
      var x := xs[k - 1];
      assert Agree(x.ld, x.fl, NextFor(x.ld, j) - 1) == Agree(xs[0].ld, xs[0].fl, NextFor(x.ld, j) - 1);
      RejectedProbe(n, i, j, x.ld, x.fl, heartbeat);
    }
  }

  /**
   Back-off terminates at the common prefix: after as many rejections as next_index is above the
   place behind the greatest agreeing index p, the next round trip is accepted at p, at the latest
   at the place before the log.
   */
  lemma {:induction false} BackOffTerminates(n: nat, i: nat, j: nat, heartbeat: bool, xs: seq<Exchange>)
    requires ProbeRun(n, i, j, heartbeat, xs) && Ready(n, i, j, xs[0].ld, xs[0].fl)
    requires |xs| > NextFor(xs[0].ld, j) - MeetingPoint(xs[0].ld, xs[0].fl, NextFor(xs[0].ld, j))
    ensures var p := MeetingPoint(xs[0].ld, xs[0].fl, NextFor(xs[0].ld, j));
            && (forall k | 0 <= k < NextFor(xs[0].ld, j) - p :: Rejected(xs[0].ld, xs[0].fl, j, k, xs[k]))
            && Accepted(xs[0].ld, j, p + BatchSize(|xs[0].ld.hard.log|, p + 1, heartbeat), xs[NextFor(xs[0].ld, j) - p])
  {
    var p := MeetingPoint(xs[0].ld, xs[0].fl, NextFor(xs[0].ld, j));
    var k := NextFor(xs[0].ld, j) - p;
    AllRejected(n, i, j, heartbeat, xs, k);
    BackOffDescends(n, i, j, heartbeat, xs, k - 1);
    assert ProbeAt(n, i, j, heartbeat, xs, k);
    AcceptedThere(n, i, j, heartbeat, xs[0].ld, xs[0].fl, xs[k - 1], p);
  }

  lemma {:induction false} AllRejected(n: nat, i: nat, j: nat, heartbeat: bool, xs: seq<Exchange>, k: nat)
    requires ProbeRun(n, i, j, heartbeat, xs) && Ready(n, i, j, xs[0].ld, xs[0].fl)
    requires k == NextFor(xs[0].ld, j) - MeetingPoint(xs[0].ld, xs[0].fl, NextFor(xs[0].ld, j)) && k < |xs|
    ensures forall q | 0 <= q < k :: Rejected(xs[0].ld, xs[0].fl, j, q, xs[q])
  {
    forall q | 0 <= q < k
      ensures Rejected(xs[0].ld, xs[0].fl, j, q, xs[q])
    {
      BackOffDescends(n, i, j, heartbeat, xs, q);
    }
  }

  /** The round trip after the last rejection. */
  lemma {:induction false} AcceptedThere(n: nat, i: nat, j: nat, heartbeat: bool, ld: Node, fl: Node, x: Exchange,
                                         p: int)
    requires Ready(n, i, j, x.ld, x.fl) && j < |ld.soft.nextIndex| && p <= NextFor(ld, j) - 1
    requires Rejected(ld, fl, j, NextFor(ld, j) - p - 1, x) && Agree(ld, fl, p)
    ensures Accepted(ld, j, p + BatchSize(|ld.hard.log|, p + 1, heartbeat), Probe(n, i, j, x.ld, x.fl, heartbeat))
  {
    AcceptedProbe(n, i, j, x.ld, x.fl, heartbeat);
  }

  /** The first q entries of the two logs are the same. */
  predicate SamePrefix(ld: Node, fl: Node, q: nat) {
    q <= |ld.hard.log| && q <= |fl.hard.log| && ld.hard.log[..q] == fl.hard.log[..q]
  }

  /** Between two nodes of a run, an agreeing place is one behind a common prefix, and the other way round. */
  lemma AgreeIsSamePrefix(n: nat, run: seq<System>, a: nat, i: nat, j: nat, q: nat)
    requires IsRun(n, run) && a < |run| && i < n && j < n
    ensures Agree(run[a].nodes[i], run[a].nodes[j], q - 1) <==> SamePrefix(run[a].nodes[i], run[a].nodes[j], q)
  {
    var ld, fl := run[a].nodes[i], run[a].nodes[j];
    if q > 0 && Agree(ld, fl, q - 1) {
      LogMatching(n, run, a, a, i, j, q - 1);
    }
    if q > 0 && SamePrefix(ld, fl, q) {
      assert ld.hard.log[..q][q - 1] == fl.hard.log[..q][q - 1];
    }
  }

  lemma RunLogsPositive(n: nat, run: seq<System>, a: nat, i: nat)
    requires IsRun(n, run) && a < |run| && i < n
    ensures TermsPositive(run[a].nodes[i].hard.log)
  {
    var hs := RunHasHistory(n, run);
    LogsPositive(n, run, hs, a, i);
  }

  /**
   For a leader and a follower as they stand in a run, back-off terminates at their common prefix:
   the place where the next round trip is accepted is behind the longest one below next_index.
   */
  lemma {:induction false} BackOffMeetsAtCommonPrefix(n: nat, run: seq<System>, a: nat, i: nat, j: nat,
                                                      heartbeat: bool, xs: seq<Exchange>)
    requires IsRun(n, run) && a < |run| && ProbeRun(n, i, j, heartbeat, xs)
    requires i < n && j < n && xs[0].ld == run[a].nodes[i] && xs[0].fl == run[a].nodes[j]
    requires Pair(n, i, j, xs[0].ld, xs[0].fl)
    requires |xs| > NextFor(xs[0].ld, j) - MeetingPoint(xs[0].ld, xs[0].fl, NextFor(xs[0].ld, j))
    ensures var ld, fl, next := xs[0].ld, xs[0].fl, NextFor(xs[0].ld, j);
            var p := MeetingPoint(ld, fl, next);
            && SamePrefix(ld, fl, p + 1) && (forall q | p + 1 < q <= next :: !SamePrefix(ld, fl, q))
            && (forall k | 0 <= k < next - p :: Rejected(ld, fl, j, k, xs[k]))
            && Accepted(ld, j, p + BatchSize(|ld.hard.log|, p + 1, heartbeat), xs[next - p])
  {
    var ld, fl, next := xs[0].ld, xs[0].fl, NextFor(xs[0].ld, j);
    var p := MeetingPoint(ld, fl, next);
    RunLogsPositive(n, run, a, i);
    RunLogsPositive(n, run, a, j);
    BackOffTerminates(n, i, j, heartbeat, xs);
    AgreeIsSamePrefix(n, run, a, i, j, p + 1);
    forall q | p + 1 < q <= next
      ensures !SamePrefix(ld, fl, q)
    {
      AgreeIsSamePrefix(n, run, a, i, j, q);
    }
  }
}
