/** Laws of the AppendEntries merge. */
module MergeLaws {
  import opened Types
  import opened NodeSpec
  import opened NodeFacts
  import opened AppendHandlers

  /** Every new entry is already there, as far as terms tell. */
  predicate Covered(log: seq<Entry>, at: nat, entries: seq<Entry>) {
    at + |entries| <= |log| && forall q | 0 <= q < |entries| :: log[at + q].term == entries[q].term
  }

  predicate ConflictAt(log: seq<Entry>, at: nat, entries: seq<Entry>, q: nat) {
    q < |entries| && at + q < |log| && log[at + q].term != entries[q].term
  }

  /** Some new entry meets an existing one of another term. */
  ghost predicate Conflict(log: seq<Entry>, at: nat, entries: seq<Entry>) {
    exists q: nat :: ConflictAt(log, at, entries, q)
  }

  lemma ConflictTail(log: seq<Entry>, at: nat, entries: seq<Entry>)
    requires entries != [] && at < |log| && log[at].term == entries[0].term
    ensures Conflict(log, at, entries) <==> Conflict(log, at + 1, entries[1..])
  {
    if Conflict(log, at, entries) {
      var q: nat :| ConflictAt(log, at, entries, q);
      assert ConflictAt(log, at + 1, entries[1..], q - 1);
    }
    if Conflict(log, at + 1, entries[1..]) {
      var q: nat :| ConflictAt(log, at + 1, entries[1..], q);
      assert ConflictAt(log, at, entries, q + 1);
    }
  }

  /** The merged log keeps everything below the new entries and holds their terms at their indices. */
  lemma {:induction false} MergedHolds(log: seq<Entry>, at: nat, entries: seq<Entry>)
    requires at <= |log|
    ensures var r := Merged(log, at, entries); at <= |r| && r[..at] == log[..at] && Covered(r, at, entries)
    decreases |entries|
  {
    if entries != [] && at < |log| && log[at].term == entries[0].term {
      MergedHolds(log, at + 1, entries[1..]);
      var r := Merged(log, at, entries);
      assert r[..at] == r[..at + 1][..at] && log[..at] == log[..at + 1][..at];
      assert r[at] == r[..at + 1][at] == log[..at + 1][at] == log[at];
      forall q | 0 <= q < |entries|
        ensures r[at + q].term == entries[q].term
      {
        assert q > 0 ==> r[at + 1 + (q - 1)].term == entries[1..][q - 1].term;
      }
    }
  }

  /** The merge changes nothing exactly when every new entry is already there. */
  lemma {:induction false} MergeIsNoOpIffCovered(log: seq<Entry>, at: nat, entries: seq<Entry>)
    requires at <= |log|
    ensures Merged(log, at, entries) == log <==> Covered(log, at, entries)
    decreases |entries|
  {
    MergedHolds(log, at, entries);
    if entries != [] && Covered(log, at, entries) {
      assert log[at + 0].term == entries[0].term;
      forall q | 0 <= q < |entries[1..]|
        ensures log[at + 1 + q].term == entries[1..][q].term
      {
        assert log[at + (q + 1)].term == entries[q + 1].term;
      }
      MergeIsNoOpIffCovered(log, at + 1, entries[1..]);
    }
  }

  /** The existing log survives as a prefix exactly when no new entry conflicts with it. */
  lemma {:induction false} SuffixKeptIffNoConflict(log: seq<Entry>, at: nat, entries: seq<Entry>)
    requires at <= |log|
    ensures log <= Merged(log, at, entries) <==> !Conflict(log, at, entries)
    decreases |entries|
  {
    if entries == [] {
    } else if at < |log| && log[at].term == entries[0].term {
      ConflictTail(log, at, entries);
      SuffixKeptIffNoConflict(log, at + 1, entries[1..]);
    } else if at < |log| {
      assert ConflictAt(log, at, entries, 0);
      assert (log[..at] + entries)[at] == entries[0];
    } else {
      assert log[..at] == log;
    }
  }

  /** Unless it was a no-op, the merge ends exactly with the last new entry. */
  lemma {:induction false} MergedEnds(log: seq<Entry>, at: nat, entries: seq<Entry>)
    requires at <= |log| && !Covered(log, at, entries)
    ensures |Merged(log, at, entries)| == at + |entries|
    decreases |entries|
  {
    if entries != [] && at < |log| && log[at].term == entries[0].term {
      if Covered(log, at + 1, entries[1..]) {
        forall q | 0 <= q < |entries|
          ensures log[at + q].term == entries[q].term
        {
          assert q > 0 ==> log[at + 1 + (q - 1)].term == entries[1..][q - 1].term;
        }
        assert false;
      }
      MergedEnds(log, at + 1, entries[1..]);
    }
  }

  lemma CoveredPart(r: seq<Entry>, at: nat, entries: seq<Entry>, j: nat, k: nat)
    requires Covered(r, at, entries) && j <= k <= |entries|
    ensures Covered(r, at + j, entries[j..k])
  {
  }

  /** A stale request, any part of one already merged, changes nothing: it is idempotent in particular. */
  lemma StaleRequestIsNoOp(log: seq<Entry>, at: nat, entries: seq<Entry>, j: nat, k: nat)
    requires at <= |log| && j <= k <= |entries|
    ensures var r := Merged(log, at, entries);
            at + j <= |r| && Merged(r, at + j, entries[j..k]) == r
  {
    var r := Merged(log, at, entries);
    MergedHolds(log, at, entries);
    CoveredPart(r, at, entries, j, k);
    MergeIsNoOpIffCovered(r, at + j, entries[j..k]);
  }

  /** What the next write of the loop does to a log of this length. */
  predicate Lands(log: seq<Entry>, w: Write, at: nat, entries: seq<Entry>) {
    match w
    case Append(e) => at <= |log| < at + |entries| && e == entries[|log| - at]
    case Truncate(len) => at <= len < |log| && len - at < |entries| && log[len].term != entries[len - at].term
    case _ => false
  }

  /** Every append lands at the current end of the log, every truncation on a conflicting entry. */
  lemma {:induction false} WritesLand(d: Durable, at: nat, entries: seq<Entry>, k: nat)
    requires at <= |d.log| && k < |MergeWrites(d.log, at, entries)|
    ensures Lands(MergedPart(d, at, entries, k).log, MergeWrites(d.log, at, entries)[k], at, entries)
    decreases |entries|
  {
    var e := entries[0];
    if at < |d.log| && d.log[at].term == e.term {
      WritesLand(d, at + 1, entries[1..], k);
    } else if at < |d.log| {
      var d2 := d.(log := d.log[..at] + [e]);
      assert MergeWrites(d.log, at, entries) == [Truncate(at), Append(e)] + MergeWrites(d2.log, at + 1, entries[1..]);
      if k > 0 {
        MergedPartCut(d, at, entries, k);
      }
      if k >= 2 {
        WritesLand(d2, at + 1, entries[1..], k - 2);
      }
    } else {
      var d1 := d.(log := d.log + [e]);
      assert MergeWrites(d.log, at, entries) == [Append(e)] + MergeWrites(d1.log, at + 1, entries[1..]);
      if k > 0 {
        MergedPartGrow(d, at, entries, k);
        WritesLand(d1, at + 1, entries[1..], k - 1);
      }
    }
  }
}
