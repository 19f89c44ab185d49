/** What the handlers compute, without loops. */
module NodeFacts {
  import opened Words
  import opened Types
  import opened NodeSpec

  // ---- index words

  /** The index after the last new entry survives the trip through unsigned arithmetic. */
  lemma LastNewIndex(prev: IndexWord, n: nat)
    requires ToInt(prev) + n < INT_SPAN
    ensures ToInt(ToWord(prev + n)) == ToInt(prev) + n
  {
  }

  lemma BeforeIsPredecessor(next: Len)
    ensures ToInt(Before(next)) == next - 1
  {
  }

  // ---- broadcasts

  lemma {:induction false} AppendRequestIs(cfg: Config, nd: Node, upto: nat, heartbeat: bool, p: Packet)
    requires cfg.Valid() && Shaped(cfg, nd.soft) && upto <= cfg.n
    requires p in AppendRequests(cfg, nd, upto, heartbeat)
    ensures p.dst < upto && p.dst != cfg.id && p == AppendRequest(cfg, nd, p.dst, heartbeat)
    decreases upto
  {
    if p in AppendRequests(cfg, nd, upto - 1, heartbeat) {
      AppendRequestIs(cfg, nd, upto - 1, heartbeat, p);
    } else {
      assert p == AppendRequest(cfg, nd, upto - 1, heartbeat);
    }
  }

  // ---- the apply loop

  function Max(a: int, b: int): int {
    if a < b then b else a
  }

  /** The entries strictly above `from` up to and including `to`, in order. */
  function Window(log: seq<Entry>, from: int, to: int): seq<Applied>
    requires -1 <= from && to < |log|
  {
    seq(Max(0, to - from), j requires 0 <= j < Max(0, to - from) => Applied(from + 1 + j, log[from + 1 + j]))
  }

  /** One pass applies exactly the indices above last_applied up to commit_index, consecutively. */
  lemma {:induction false} ApplyCommittedIs(cfg: Config, hard: Durable, v: Volatile)
    requires cfg.Valid() && -1 <= v.lastApplied && v.commitIndex < |hard.log|
    ensures var r := ApplyCommitted(cfg, hard, v);
            && r.soft == v.(lastApplied := Max(v.lastApplied, v.commitIndex), slots := r.soft.slots)
            && |r.soft.slots| == |v.slots|
            && r.applied == Window(hard.log, v.lastApplied, v.commitIndex)
            && (forall p | p in r.sent :: p.msg.ProcRes?)
    decreases v.commitIndex - v.lastApplied
  {
    if v.lastApplied < v.commitIndex {
      var one := ApplyOne(cfg, hard, v);
      ApplyCommittedIs(cfg, hard, one.soft);
      var w := Window(hard.log, v.lastApplied, v.commitIndex);
      assert w == [w[0]] + w[1..];
      assert w[1..] == Window(hard.log, v.lastApplied + 1, v.commitIndex);
    }
  }

  lemma {:induction false} ApplyCommittedKeeps(cfg: Config, hard: Durable, v: Volatile)
    requires cfg.Valid()
    ensures var r := ApplyCommitted(cfg, hard, v).soft;
            r == v.(lastApplied := r.lastApplied, slots := r.slots) && |r.slots| == |v.slots|
    decreases v.commitIndex - v.lastApplied
  {
    if v.lastApplied < v.commitIndex {
      ApplyCommittedKeeps(cfg, hard, ApplyOne(cfg, hard, v).soft);
    }
  }

  // ---- the commit rule

  /** One pass lands on the greatest committable index above the old commit_index, if there is one. */
  lemma {:induction false} CommitPointIsGreatest(cfg: Config, hard: Durable, mi: seq<int>, commit: int, hi: int)
    requires |mi| == cfg.n && commit < hi
    ensures var c := CommitPoint(cfg, hard, mi, commit, hi);
            && commit <= c < hi
            && (c == commit || Committable(cfg, hard, mi, c))
            && (forall k | c < k < hi :: !Committable(cfg, hard, mi, k))
    decreases hi - commit
  {
    if hi > commit + 1 && !Committable(cfg, hard, mi, hi - 1) {
      CommitPointIsGreatest(cfg, hard, mi, commit, hi - 1);
    }
  }

  /** The counter of the commit rule is the size of a set of nodes. */
  lemma {:induction false} HoldersAreASet(cfg: Config, mi: seq<int>, k: int, upto: nat) returns (q: set<nat>)
    requires upto <= |mi|
    ensures |q| == Holders(cfg, mi, k, upto)
    ensures forall j: nat :: j in q <==> j < upto && j != cfg.id && mi[j] >= k
  {
    if upto == 0 {
      q := {};
    } else {
      q := HoldersAreASet(cfg, mi, k, upto - 1);
      if upto - 1 != cfg.id && mi[upto - 1] >= k {
        q := q + {upto - 1};
      }
    }
  }

  // ---- the merge loop

  /** The log after the merge loop, said by its first disagreement instead of by writes. */
  function Merged(log: seq<Entry>, at: nat, entries: seq<Entry>): (r: seq<Entry>)
    requires at <= |log|
    decreases |entries|
  {
    if entries == [] then log
    else if at < |log| && log[at].term == entries[0].term then Merged(log, at + 1, entries[1..])
    else log[..at] + entries
  }

  lemma {:induction false} AppendingAll(d: Durable, entries: seq<Entry>)
    ensures ApplyWrites(d, MergeWrites(d.log, |d.log|, entries)) == d.(log := d.log + entries)
    decreases |entries|
  {
    if entries == [] {
      assert d.log + entries == d.log;
    } else {
      var d' := d.(log := d.log + [entries[0]]);
      var rest := MergeWrites(d'.log, |d'.log|, entries[1..]);
      var ws := MergeWrites(d.log, |d.log|, entries);
      assert ws == [Append(entries[0])] + rest;
      assert ws[1..] == rest;
      AppendingAll(d', entries[1..]);
      assert d'.log + entries[1..] == d.log + entries;
    }
  }

  /** The loop of single writes computes the merged log. */
  lemma {:induction false} MergeWritesMerge(d: Durable, at: nat, entries: seq<Entry>)
    requires at <= |d.log|
    ensures ApplyWrites(d, MergeWrites(d.log, at, entries)) == d.(log := Merged(d.log, at, entries))
    decreases |entries|
  {
    if entries != [] {
      var e := entries[0];
      if at < |d.log| && d.log[at].term == e.term {
        MergeWritesMerge(d, at + 1, entries[1..]);
      } else if at < |d.log| {
        var cut := d.(log := d.log[..at]);
        var grown := d.(log := d.log[..at] + [e]);
        var ws := MergeWrites(d.log, at, entries);
        var rest := MergeWrites(grown.log, at + 1, entries[1..]);
        assert ws == [Truncate(at), Append(e)] + rest;
        assert ws[1..][1..] == rest && ws[1..][0] == Append(e);
        AppendingAll(grown, entries[1..]);
        assert grown.log + entries[1..] == d.log[..at] + entries;
      } else {
        AppendingAll(d, entries);
        assert d.log[..at] == d.log;
      }
    }
  }

  /** The merge loop touches the log only. */
  lemma {:induction false} MergeIsOfLog(log: seq<Entry>, at: nat, entries: seq<Entry>)
    ensures forall w | w in MergeWrites(log, at, entries) :: w.Truncate? || w.Append?
    decreases |entries|
  {
    if entries != [] {
      var e := entries[0];
      if at < |log| && log[at].term == e.term {
        MergeIsOfLog(log, at + 1, entries[1..]);
      } else if at < |log| {
        MergeIsOfLog(log[..at] + [e], at + 1, entries[1..]);
      } else {
        MergeIsOfLog(log + [e], at + 1, entries[1..]);
      }
    }
  }

  lemma {:induction false} BallotKept(d: Durable, ws: seq<Write>)
    ensures (forall w | w in ws :: !w.SetTerm?) ==> ApplyWrites(d, ws).term == d.term
    ensures (forall w | w in ws :: !w.SetVote?) ==> ApplyWrites(d, ws).vote == d.vote
    decreases |ws|
  {
    if ws != [] {
      BallotKept(ApplyWrite(d, ws[0]), ws[1..]);
    }
  }

  predicate TermsPositive(log: seq<Entry>) {
    forall k | 0 <= k < |log| :: log[k].term >= 1
  }

  // ---- what clients are told

  lemma {:induction false} FindSlotFinds(slots: seq<Slot>, e: Entry, from: nat)
    requires from <= |slots|
    ensures var k := FindSlot(slots, e, from);
            && (k < |slots| ==> slots[k].active && slots[k].clientId == e.clientId && slots[k].cmdSeqno == e.cmdSeqno)
            && (forall q | from <= q < k ::
                  !(slots[q].active && slots[q].clientId == e.clientId && slots[q].cmdSeqno == e.cmdSeqno))
    decreases |slots| - from
  {
    if from < |slots|
       && !(slots[from].active && slots[from].clientId == e.clientId && slots[from].cmdSeqno == e.cmdSeqno) {
      FindSlotFinds(slots, e, from + 1);
    }
  }

  lemma {:induction false} FreeSlotFinds(slots: seq<Slot>, from: nat)
    requires from <= |slots|
    ensures var k := FreeSlot(slots, from);
            && (k < |slots| ==> !slots[k].active)
            && (forall q | from <= q < k :: slots[q].active)
    decreases |slots| - from
  {
    if from < |slots| && slots[from].active {
      FreeSlotFinds(slots, from + 1);
    }
  }

  predicate IsSuccess(p: Packet) {
    p.msg.ProcRes? && p.msg.success
  }

  predicate AnswersEntry(p: Packet, e: Entry) {
    p.dst == e.clientId && p.msg.ProcRes? && p.msg.clientId == e.clientId && p.msg.cmdSeqno == e.cmdSeqno
  }

  /** The packet answers one of these applied entries. */
  predicate Answers(p: Packet, applied: seq<Applied>) {
    exists q :: 0 <= q < |applied| && AnswersEntry(p, applied[q].entry)
  }

  /** One pass sends success replies only, and only for entries it applies. */
  lemma {:induction false} RepliesAnswer(cfg: Config, hard: Durable, v: Volatile)
    requires cfg.Valid()
    ensures var r := ApplyCommitted(cfg, hard, v);
            forall p | p in r.sent :: IsSuccess(p) && Answers(p, r.applied)
    decreases v.commitIndex - v.lastApplied
  {
    if v.lastApplied < v.commitIndex {
      var one := ApplyOne(cfg, hard, v);
      var rest := ApplyCommitted(cfg, hard, one.soft);
      ReplyAnswers(cfg, hard, v);
      RepliesAnswer(cfg, hard, one.soft);
      AllAnswer(one.sent, rest.sent, one.applied, rest.applied);
    }
  }

  lemma AllAnswer(ps: seq<Packet>, qs: seq<Packet>, a: seq<Applied>, b: seq<Applied>)
    requires forall p | p in ps :: IsSuccess(p) && Answers(p, a)
    requires forall p | p in qs :: IsSuccess(p) && Answers(p, b)
    ensures forall p | p in ps + qs :: IsSuccess(p) && Answers(p, a + b)
  {
    forall p | p in ps + qs
      ensures IsSuccess(p) && Answers(p, a + b)
    {
      assert p in ps || p in qs;
      AnswersMore(p, a, b);
    }
  }

  lemma ReplyAnswers(cfg: Config, hard: Durable, v: Volatile)
    requires cfg.Valid()
    ensures var r := ApplyOne(cfg, hard, v);
            forall p | p in r.sent :: IsSuccess(p) && Answers(p, r.applied)
  {
    var r, k := ApplyOne(cfg, hard, v), v.lastApplied + 1;
    if r.sent != [] {
      FindSlotFinds(v.slots, hard.log[k], 0);
      assert r.sent == [Reply(cfg, hard.term, hard.log[k])] && r.applied[0].entry == hard.log[k];
      assert AnswersEntry(r.sent[0], r.applied[0].entry);
    }
  }

  lemma AnswersMore(p: Packet, a: seq<Applied>, b: seq<Applied>)
    requires Answers(p, a) || Answers(p, b)
    ensures Answers(p, a + b)
  {
    if Answers(p, a) {
      var q :| 0 <= q < |a| && AnswersEntry(p, a[q].entry);
      assert (a + b)[q] == a[q];
    } else {
      var q :| 0 <= q < |b| && AnswersEntry(p, b[q].entry);
      assert (a + b)[|a| + q] == b[q];
    }
  }
}
