/** Departures from the published protocol. */
module Departures {
  import opened Words
  import opened Types
  import opened NodeSpec
  import opened NodeFacts
  import opened Cluster
  import opened Invariants
  import opened AppendHandlers
  import opened Runs

  // ---- commit_index moves backwards

  /**
   commit_index is not monotone. It moves back exactly when an accepted request ends below it while
   the leader's commit index is above it.
   */
  lemma CommitMovesBackIff(cfg: Config, nd: Node, m: Message)
    requires cfg.Valid() && m.AppendReq? && ToInt(nd.hard.term) >= 0
    requires ToInt(m.prevLogIdx) + |m.entries| < INT_SPAN
    ensures HandleAppendReq(cfg, nd, m).soft.commitIndex < nd.soft.commitIndex
            <==> m.term >= nd.hard.term && PrevMatches(nd.hard.log, m)
                 && ToInt(m.prevLogIdx) + |m.entries| < nd.soft.commitIndex < m.leaderCommit
  {
    var o := HandleAppendReq(cfg, nd, m);
    AppendReqIs(cfg, nd, m);
    if m.term >= nd.hard.term && PrevMatches(nd.hard.log, m) && m.leaderCommit > nd.soft.commitIndex {
      LastNewIndex(m.prevLogIdx, |m.entries|);
      ApplyCommittedKeeps(cfg, After(nd, o).hard, FollowerCommit(Heard(nd, m).soft, m));
    }
  }

  // ---- a vote is cleared within its term

  /** A candidate that hears the leader of its term votes again in that term, for whoever asks next. */
  lemma SecondVoteInTerm(cfg: Config, nd: Node, m: Message, req: Message, src: u32)
    requires cfg.Valid() && nd.soft.role == Candidate && m.AppendReq? && m.term == nd.hard.term < INT_SPAN
    requires req.VoteReq? && req.term == m.term
    requires UpToDate(After(nd, HandleAppendReq(cfg, nd, m)).hard.log, req.lastLogIdx, req.lastLogTerm)
    ensures var nd' := After(nd, HandleAppendReq(cfg, nd, m));
            var o := HandleVoteReq(cfg, nd', src, req);
            && nd'.hard.term == nd.hard.term && nd'.hard.vote == NO_VOTE
            && o.sent == [Packet(cfg.id, req.candidateId, VoteRes(nd.hard.term, true))]
            && After(nd', o).hard.vote == req.candidateId
  {
    AppendReqIs(cfg, nd, m);
    var nd' := After(nd, HandleAppendReq(cfg, nd, m));
    assert nd'.hard.term == nd.hard.term && nd'.hard.vote == NO_VOTE;
    assert HandleVoteReq(cfg, nd', src, req).writes == [SetVote(req.candidateId)];
    ApplyWritesShort(After(nd, HandleAppendReq(cfg, nd, m)).hard, SetVote(req.candidateId), SetVote(req.candidateId));
  }

  /** Writes that begin with a new term leave the old one as soon as one of them is made. */
  lemma TermLeft(d: Durable, ws: seq<Write>, k: nat)
    requires 0 < k <= |ws| && ws[0].SetTerm? && forall j | 0 < j < |ws| :: !ws[j].SetTerm?
    ensures ApplyWrites(d, ws[..k]).term == ws[0].term
  {
    var rest := ws[..k][1..];
    forall w | w in rest
      ensures !w.SetTerm?
    {
      var j :| 0 <= j < |rest| && rest[j] == w;
      assert w == ws[j + 1];
    }
    BallotKept(ApplyWrite(d, ws[0]), rest);
  }

  /** The vote cast in a term was taken back without leaving the term. */
  predicate TakenBack(d: Durable, d': Durable) {
    d'.term == d.term && d.vote != NO_VOTE && d'.vote != d.vote
  }

  predicate HearsRival(nd: Node, input: Input) {
    && input.Receive? && input.p.msg.AppendReq? && input.p.msg.term == nd.hard.term
    && nd.soft.role == Candidate
  }

  lemma {:induction false} AppendReqBallot(cfg: Config, nd: Node, p: Packet, k: nat)
    requires cfg.Valid() && p.msg.AppendReq?
    requires k <= |HandleAppendReq(cfg, nd, p.msg).writes|
    ensures var d := ApplyWrites(nd.hard, HandleAppendReq(cfg, nd, p.msg).writes[..k]);
            && (TakenBack(nd.hard, d) <==> HearsRival(nd, Receive(p)) && nd.hard.vote != NO_VOTE && k >= 2)
            && (TakenBack(nd.hard, d) ==> d.vote == NO_VOTE)
  {
    var m, ws := p.msg, HandleAppendReq(cfg, nd, p.msg).writes;
    var merge := AppendReqWrites(cfg, nd, m);
    if ToInt(nd.hard.term) >= 0 && m.term >= nd.hard.term && StepsDownFor(nd, m) {
      SteppedBallot(nd.hard, m.term, merge, k);
    } else {
      forall w | w in ws[..k]
        ensures w in merge
      {
        assert w in ws;
      }
      BallotKept(nd.hard, ws[..k]);
    }
  }

  /** The handler writes a step-down, if it steps down, and then only to the log. */
  lemma {:induction false} AppendReqWrites(cfg: Config, nd: Node, m: Message) returns (merge: seq<Write>)
    requires cfg.Valid() && m.AppendReq?
    ensures forall w | w in merge :: w.Truncate? || w.Append?
    ensures HandleAppendReq(cfg, nd, m).writes
            == (if ToInt(nd.hard.term) >= 0 && m.term >= nd.hard.term && StepsDownFor(nd, m)
                then StepDownWrites(m.term) + merge else merge)
  {
    merge := [];
    if ToInt(nd.hard.term) >= 0 && m.term >= nd.hard.term && PrevMatches(nd.hard.log, m) {
      merge := MergeWrites(nd.hard.log, ToInt(m.prevLogIdx) + 1, m.entries);
      MergeIsOfLog(nd.hard.log, ToInt(m.prevLogIdx) + 1, m.entries);
    }
  }

  lemma {:induction false} SteppedBallot(d: Durable, term: u32, merge: seq<Write>, k: nat)
    requires k <= 2 + |merge| && forall w | w in merge :: w.Truncate? || w.Append?
    ensures var r := ApplyWrites(d, (StepDownWrites(term) + merge)[..k]);
            r.vote == (if k >= 2 then NO_VOTE else d.vote) && r.term == (if k > 0 then term else d.term)
  {
    var ws := StepDownWrites(term) + merge;
    if k > 0 {
      forall j | 0 < j < |ws|
        ensures !ws[j].SetTerm?
      {
        assert j > 1 ==> ws[j] == merge[j - 2] && merge[j - 2] in merge;
      }
      TermLeft(d, ws, k);
      if k > 1 {
        var rest := ws[..k][1..][1..];
        assert ApplyWrites(d, ws[..k]) == ApplyWrites(ApplyWrite(d, ws[0]), ws[..k][1..])
            == ApplyWrites(ApplyWrite(ApplyWrite(d, ws[0]), ws[1]), rest);
        forall w | w in rest
          ensures w in merge
        {
          var j :| 0 <= j < |rest| && rest[j] == w;
          assert rest[j] == merge[j];
        }
        BallotKept(ApplyWrite(ApplyWrite(d, ws[0]), ws[1]), rest);
      } else {
        assert ws[..1] == [ws[0]];
        ApplyWritesShort(d, ws[0], ws[0]);
      }
    }
  }

  /**
   However far a handler gets, it has taken back a vote exactly if it is the handler of a candidate
   that hears its term's leader, and both writes of its step-down are made; the vote is then cleared.
   */
  lemma VoteTakenBackIff(cfg: Config, nd: Node, input: Input, k: nat)
    requires cfg.Valid() && Shaped(cfg, nd.soft) && Fits(nd)
    requires input.Receive? ==> Deliverable(cfg, input.p)
    requires k <= |Handle(cfg, nd, input).writes|
    ensures var d := ApplyWrites(nd.hard, Handle(cfg, nd, input).writes[..k]);
            && (TakenBack(nd.hard, d) <==> HearsRival(nd, input) && nd.hard.vote != NO_VOTE && k >= 2)
            && (TakenBack(nd.hard, d) ==> d.vote == NO_VOTE)
  {
    var ws := Handle(cfg, nd, input).writes;
    if input.Receive? && input.p.msg.AppendReq? {
      AppendReqBallot(cfg, nd, input.p, k);
    } else if k > 0 && ws[0].SetTerm? {
      TermLeft(nd.hard, ws, k);
    } else if k > 0 {
      assert ws[..k] == [ws[0]];
      ApplyWritesShort(nd.hard, ws[0], ws[0]);
    }
  }

  /** A handler that runs to its end takes back a vote exactly if it is a candidate's that hears its term's leader. */
  lemma HandlerTakesBackIff(cfg: Config, nd: Node, input: Input)
    requires cfg.Valid() && Shaped(cfg, nd.soft) && Fits(nd)
    requires input.Receive? ==> Deliverable(cfg, input.p)
    ensures TakenBack(nd.hard, After(nd, Handle(cfg, nd, input)).hard)
            <==> HearsRival(nd, input) && nd.hard.vote != NO_VOTE && ToInt(nd.hard.term) >= 0
  {
    var ws := Handle(cfg, nd, input).writes;
    assert ws[..|ws|] == ws;
    VoteTakenBackIff(cfg, nd, input, |ws|);
  }

  /** Whoever leads this term, at any time of the run, is node l. */
  predicate OnlyLeader(n: nat, run: seq<System>, t: u32, l: nat)
    requires forall c | 0 <= c < |run| :: |run[c].nodes| == n
  {
    forall c, j {:trigger LeadsTerm(run[c], j, t)} | 0 <= c < |run| && 0 <= j < n && LeadsTerm(run[c], j, t) :: j == l
  }

  lemma StepTakesBack(n: nat, s: System, s': System, i: nat) returns (input: Input)
    requires Sized(n, s) && Sized(n, s') && Next(n, s, s') && i < n && TakenBack(s.nodes[i].hard, s'.nodes[i].hard)
    ensures Offered(n, s, i, input) && HearsRival(s.nodes[i], input) && s'.nodes[i].hard.vote == NO_VOTE
  {
    var a :| Step(n, s, a, s');
    assert (a.Run? || a.CrashIn?) && a.node == i;
    input := a.input;
    var ws := Handle(Cfg(n, i), s.nodes[i], input).writes;
    assert ws[..|ws|] == ws;
    VoteTakenBackIff(Cfg(n, i), s.nodes[i], input, if a.Run? then |ws| else a.writes);
  }

  /** From time b on, every node of this majority that is still in term t has its vote for l, and none is behind. */
  predicate VotesStand(n: nat, run: seq<System>, b: nat, t: u32, l: nat, q: set<nat>)
    requires forall c | 0 <= c < |run| :: |run[c].nodes| == n
  {
    && Majority(n, q)
    && forall c, j {:trigger run[c].nodes[j]} | b <= c < |run| && j in q ::
         run[c].nodes[j].hard.term >= t && (run[c].nodes[j].hard.term == t ==> run[c].nodes[j].hard.vote == l)
  }

  /**
   The votes that elected a leader are never cleared: the nodes of some majority, whenever they are
   still in its term, have their votes for it, and no crash or AppendEntries changes that.
   */
  lemma WinningVotesStand(n: nat, run: seq<System>, a: nat, l: nat) returns (q: set<nat>)
    requires IsRun(n, run) && a < |run| && l < n && run[a].nodes[l].soft.role == Leader
    ensures VotesStand(n, run, a, run[a].nodes[l].hard.term, l, q)
  {
    var hs := RunHasHistory(n, run);
    assert Inv(n, run[a], hs[a]);
    assert NodeOK(n, hs[a], l, run[a].nodes[l]);
    q := ReignVotesStand(n, run, hs, a, run[a].nodes[l].hard.term);
  }

  lemma ReignVotesStand(n: nat, run: seq<System>, hs: seq<History>, b: nat, t: u32) returns (q: set<nat>)
    requires IsRun(n, run) && Explains(n, run, hs) && b < |run| && t in hs[b].reigns
    ensures VotesStand(n, run, b, t, hs[b].reigns[t].node, q)
  {
    assert Inv(n, run[b], hs[b]);
    assert ReignOK(n, hs[b], t);
    q := hs[b].reigns[t].voters;
    forall c, j | b <= c < |run| && j in q
      ensures run[c].nodes[j].hard.term >= t
      ensures run[c].nodes[j].hard.term == t ==> run[c].nodes[j].hard.vote == hs[b].reigns[t].node
    {
      assert Inv(n, run[c], hs[c]) && Extends(hs[b], hs[c]);
      assert NodeOK(n, hs[c], j, run[c].nodes[j]);
      assert Grant(t, j, hs[b].reigns[t].node) in hs[c].grants;
    }
  }

  /**
   Whenever a node of a run takes back a vote within its term, it had voted for itself and the vote
   is cleared; and by then the term has a leader, another node: its AppendEntries of the term is in
   flight, the votes of a majority that elected it stand for good, and nobody else ever leads the term.
   */
  lemma ClearedVoteWasOwn(n: nat, run: seq<System>, b: nat, i: nat) returns (l: nat, p: Packet, q: set<nat>)
    requires IsRun(n, run) && 0 < b < |run| && i < n
    requires TakenBack(run[b - 1].nodes[i].hard, run[b].nodes[i].hard)
    ensures run[b - 1].nodes[i].hard.vote == i && run[b].nodes[i].hard.vote == NO_VOTE
    ensures l < n && l != i && OnlyLeader(n, run, run[b].nodes[i].hard.term, l)
    ensures p in run[b - 1].net && p.src == l && p.dst == i && p.msg.AppendReq? && p.msg.leaderId == l
    ensures p.msg.term == run[b].nodes[i].hard.term
    ensures VotesStand(n, run, b - 1, run[b].nodes[i].hard.term, l, q)
  {
    var hs := RunHasHistory(n, run);
    p := TakenBackAt(n, run, hs, b, i);
    l := p.src;
    LeaderIsSettled(n, run, hs, b - 1, run[b].nodes[i].hard.term);
    q := ReignVotesStand(n, run, hs, b - 1, run[b].nodes[i].hard.term);
  }

  /** This request of the node's own term is on its way to it from the one that reigns there. */
  predicate FromRival(s: System, h: History, i: nat, p: Packet)
    requires i < |s.nodes|
  {
    && p in s.net && p.dst == i && p.src != i && p.msg.AppendReq? && p.msg.leaderId == p.src
    && p.msg.term == s.nodes[i].hard.term
    && p.msg.term in h.reigns && h.reigns[p.msg.term].node == p.src
  }

  lemma TakenBackAt(n: nat, run: seq<System>, hs: seq<History>, b: nat, i: nat) returns (p: Packet)
    requires IsRun(n, run) && Explains(n, run, hs) && 0 < b < |run| && i < n
    requires TakenBack(run[b - 1].nodes[i].hard, run[b].nodes[i].hard)
    ensures run[b - 1].nodes[i].hard.vote == i && run[b].nodes[i].hard.vote == NO_VOTE
    ensures p.src < n && FromRival(run[b - 1], hs[b - 1], i, p)
  {
    assert Inv(n, run[b - 1], hs[b - 1]) && NextAt(n, run, b);
    p := TakenBackIn(n, run[b - 1], run[b], hs[b - 1], i);
  }

  lemma TakenBackIn(n: nat, s: System, s': System, h: History, i: nat) returns (p: Packet)
    requires Inv(n, s, h) && Sized(n, s') && Next(n, s, s') && i < n
    requires TakenBack(s.nodes[i].hard, s'.nodes[i].hard)
    ensures s.nodes[i].hard.vote == i && s'.nodes[i].hard.vote == NO_VOTE
    ensures p.src < n && FromRival(s, h, i, p)
  {
    var input := StepTakesBack(n, s, s', i);
    p := input.p;
    RivalLeads(n, s, h, i, p);
  }

  lemma RivalLeads(n: nat, s: System, h: History, i: nat, p: Packet)
    requires Inv(n, s, h) && i < n && Offered(n, s, i, Receive(p)) && HearsRival(s.nodes[i], Receive(p))
    ensures s.nodes[i].hard.vote == i && p.src < n && FromRival(s, h, i, p)
  {
    assert PacketOK(n, h, s.nodes, p) && NodeOK(n, h, i, s.nodes[i]);
    assert ReignOK(n, h, s.nodes[i].hard.term);
  }

  lemma LeaderIsSettled(n: nat, run: seq<System>, hs: seq<History>, b: nat, t: u32)
    requires IsRun(n, run) && Explains(n, run, hs) && b < |run| && t in hs[b].reigns
    ensures OnlyLeader(n, run, t, hs[b].reigns[t].node)
  {
    forall c, j | 0 <= c < |run| && 0 <= j < n && LeadsTerm(run[c], j, t)
      ensures j == hs[b].reigns[t].node
    {
      LeaderIsReigning(n, run, hs, b, c, j, t);
    }
  }

  lemma LeaderIsReigning(n: nat, run: seq<System>, hs: seq<History>, b: nat, c: nat, j: nat, t: u32)
    requires IsRun(n, run) && Explains(n, run, hs) && b < |run| && c < |run| && j < n
    requires t in hs[b].reigns && LeadsTerm(run[c], j, t)
    ensures j == hs[b].reigns[t].node
  {
    assert Inv(n, run[c], hs[c]);
    assert NodeOK(n, hs[c], j, run[c].nodes[j]);
    if c <= b {
      assert Extends(hs[c], hs[b]);
    } else {
      assert Extends(hs[b], hs[c]);
    }
  }
}
