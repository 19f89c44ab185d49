/** When a follower gives up. */
module Detection {
  import opened Words
  import opened Types
  import opened NodeSpec
  import opened HandlerLaws
  import opened RaftNode
  import Accrual

  /**
   The detector starts afresh whenever a message changes the node's term or role, and hears a heartbeat
   whenever a message of a current leader carries no entries and leaves the node a follower.
   */
  lemma BeatsLaw(cfg: Config, nd: Node, p: Packet, now: Accrual.u64, beats: seq<Accrual.u64>)
    requires cfg.Valid() && Shaped(cfg, nd.soft) && Fits(nd) && Deliverable(cfg, p)
    ensures var nd' := After(nd, Handle(cfg, nd, Receive(p)));
            var m := p.msg;
            var same := nd'.soft.role == nd.soft.role && nd'.hard.term == nd.hard.term;
            var heartbeat := && m.AppendReq? && m.entries == [] && nd.hard.term <= m.term && nd.hard.term < INT_SPAN
                             && nd'.soft.role == Follower;
            BeatsAfter(cfg, nd, m, now, beats) == (if same then beats else []) + (if heartbeat then [now] else [])
  {
    match p.msg
    case AppendReq(_, _, _, _, _, _) => AppendReqLaw(cfg, nd, p);
    case AppendRes(_, _, _) => AppendResLaw(cfg, nd, p);
    case VoteReq(_, _, _, _) => VoteReqLaw(cfg, nd, p);
    case VoteRes(_, _) => VoteResLaw(cfg, nd, p);
    case ProcReq(_, _, _) => ProcReqLaw(cfg, nd, p);
    case ProcRes(_, _, _, _, _) =>
      ApplyWritesShort(nd.hard, SetVote(0), SetVote(0));
  }

  /** The time since the last heartbeat, against the time the last num intervals took together. */
  predicate Overlong(beats: seq<Accrual.u64>, num: nat, threshold: real, now: Accrual.u64)
    requires 0 < num < |beats|
  {
    var last, first := beats[|beats| - 1], beats[|beats| - 1 - num];
    && Accrual.Minus(last, first) > 0
    && Accrual.Minus(now, last) as real * Accrual.LOG10_E * num as real > threshold * Accrual.Minus(last, first) as real
  }

  /**
   A follower whose timer fires stands for the next term exactly if it waits by the plain timeout, or its
   window is still ramping up, or by the heartbeats heard its leader is overdue.
   */
  lemma FollowerStandsIff(cfg: Config, nd: Node, scheme: u32, rampSize: u32, size: nat, threshold: real,
                          beats: seq<Accrual.u64>, now: Accrual.u64)
    requires cfg.Valid() && Shaped(cfg, nd.soft) && Fits(nd) && nd.soft.role == Follower && nd.hard.term < INT_SPAN
    requires size > 0 && Accrual.Positive(beats)
    ensures var suspect := Suspects(scheme, rampSize, Accrual.Heard(size, beats), threshold, now);
            var nd' := After(nd, Handle(cfg, nd, Timeout(suspect)));
            var num := if Accrual.Gaps(beats) < size then Accrual.Gaps(beats) else size;
            var overdue := num > 0 && Overlong(beats, num, threshold, now);
            var stands := scheme == TS_TIMEOUT || num < rampSize || (scheme == TS_ACCRUAL && overdue);
            && (stands ==> Stood(cfg, nd, nd'))
            && (!stands ==> nd' == nd)
  {
    SuspectsIffGivesUp(scheme, rampSize, size, threshold, beats, now);
    if beats != [] {
      OverdueIs(size, threshold, beats, now);
    }
    TimeoutLaw(cfg, nd, Suspects(scheme, rampSize, Accrual.Heard(size, beats), threshold, now));
  }

  lemma OverdueIs(size: nat, threshold: real, beats: seq<Accrual.u64>, now: Accrual.u64)
    requires beats != []
    ensures var num := if Accrual.Gaps(beats) < size then Accrual.Gaps(beats) else size;
            Accrual.Overdue(size, beats, threshold, now) <==> num > 0 && Overlong(beats, num, threshold, now)
  {
  }

  /** With fewer intervals heard than the ramp takes, it always stands. */
  lemma RampingUpStands(cfg: Config, nd: Node, scheme: u32, rampSize: u32, size: nat, threshold: real,
                        beats: seq<Accrual.u64>, now: Accrual.u64)
    requires cfg.Valid() && Shaped(cfg, nd.soft) && Fits(nd) && nd.soft.role == Follower && nd.hard.term < INT_SPAN
    requires size > 0 && Accrual.Gaps(beats) < rampSize
    ensures var suspect := Suspects(scheme, rampSize, Accrual.Heard(size, beats), threshold, now);
            Stood(cfg, nd, After(nd, Handle(cfg, nd, Timeout(suspect))))
  {
    SuspectsIffGivesUp(scheme, rampSize, size, threshold, beats, now);
    TimeoutLaw(cfg, nd, Suspects(scheme, rampSize, Accrual.Heard(size, beats), threshold, now));
  }
}
