/** What a node keeps on disk. */
module Storage {
  import opened Words
  import opened Types
  import opened Bytes
  import opened Codec
  import FileLog
  import StateFile

  /** This is what the first k writes make of d, for some k. */
  ghost predicate Reached(d: Durable, ws: seq<Write>, found: Durable) {
    exists k | 0 <= k <= |ws| :: found == ApplyWrites(d, ws[..k])
  }

  /** What a restart finds after each system call of one write: only an append takes two calls to show. */
  function AfterCalls(d: Durable, w: Write): (r: seq<Durable>)
    ensures |r| == (if w.SetTerm? || w.SetVote? then 1 else 2)
    ensures r[|r| - 1] == ApplyWrite(d, w) && forall i | 0 <= i < |r| :: r[i] == d || r[i] == ApplyWrite(d, w)
  {
    var d' := ApplyWrite(d, w);
    match w
    case SetTerm(_) => [d']
    case SetVote(_) => [d']
    case Truncate(_) => [d', d']
    case Append(_) => [d, d']
  }

  function CallCount(ws: seq<Write>): nat {
    if ws == [] then 0
    else CallCount(ws[..|ws| - 1]) + if ws[|ws| - 1].SetTerm? || ws[|ws| - 1].SetVote? then 1 else 2
  }

  /** What a restart finds after each system call of these writes, in order. */
  function AfterAll(d: Durable, ws: seq<Write>): (r: seq<Durable>)
    ensures |r| == CallCount(ws)
    decreases |ws|
  {
    if ws == [] then []
    else AfterAll(d, ws[..|ws| - 1]) + AfterCalls(ApplyWrites(d, ws[..|ws| - 1]), ws[|ws| - 1])
  }

  lemma OneMore(d: Durable, ws: seq<Write>, w: Write)
    ensures ApplyWrites(d, ws + [w]) == ApplyWrite(ApplyWrites(d, ws), w)
    ensures AfterAll(d, ws + [w]) == AfterAll(d, ws) + AfterCalls(ApplyWrites(d, ws), w)
  {
    ApplyWritesConcat(d, ws, [w]);
    ApplyWritesShort(ApplyWrites(d, ws), w, w);
    assert (ws + [w])[..|ws|] == ws;
  }

  /** The record is complete, said state by state. */
  ghost predicate Covers(d: Durable, ws: seq<Write>, found: seq<Durable>) {
    |found| == CallCount(ws) && forall i {:trigger found[i]} | 0 <= i < |found| :: found[i] == AfterAll(d, ws)[i]
  }

  lemma CoversIs(d: Durable, ws: seq<Write>, found: seq<Durable>)
    ensures Covers(d, ws, found) <==> found == AfterAll(d, ws)
  {
  }

  lemma {:induction false} AfterAllReached(d: Durable, ws: seq<Write>)
    ensures forall i | 0 <= i < |AfterAll(d, ws)| :: Reached(d, ws, AfterAll(d, ws)[i])
    decreases |ws|
  {
    if ws != [] {
      var before, w := ws[..|ws| - 1], ws[|ws| - 1];
      AfterAllReached(d, before);
      assert ws == before + [w];
      forall i | 0 <= i < |AfterAll(d, ws)|
        ensures Reached(d, ws, AfterAll(d, ws)[i])
      {
        ReachedOneMore(d, before, w, i);
      }
    }
  }

  lemma AfterAllEnds(d: Durable, ws: seq<Write>)
    requires ws != []
    ensures AfterAll(d, ws) != [] && AfterAll(d, ws)[|AfterAll(d, ws)| - 1] == ApplyWrites(d, ws)
  {
    var before, w := ws[..|ws| - 1], ws[|ws| - 1];
    assert ws == before + [w];
    OneMore(d, before, w);
  }

  lemma {:induction false} AfterAllGrows(d: Durable, ws: seq<Write>, k: nat)
    requires k <= |ws|
    ensures AfterAll(d, ws[..k]) <= AfterAll(d, ws)
    decreases |ws|
  {
    if k < |ws| {
      var before := ws[..|ws| - 1];
      AfterAllGrows(d, before, k);
      assert before[..k] == ws[..k];
    } else {
      assert ws[..k] == ws;
    }
  }

  /**
   The system calls of a handler, seen from the disk: each leaves the state some prefix of the writes
   makes, every prefix but the empty one is left by one of them, in order, and the last leaves the whole.
   */
  lemma AfterAllCovers(d: Durable, ws: seq<Write>)
    ensures forall i | 0 <= i < |AfterAll(d, ws)| :: Reached(d, ws, AfterAll(d, ws)[i])
    ensures forall k | 0 < k <= |ws| ::
              ApplyWrites(d, ws[..k]) in AfterAll(d, ws) && AfterAll(d, ws[..k]) <= AfterAll(d, ws)
    ensures if ws == [] then AfterAll(d, ws) == []
            else AfterAll(d, ws) != [] && AfterAll(d, ws)[|AfterAll(d, ws)| - 1] == ApplyWrites(d, ws)
  {
    AfterAllReached(d, ws);
    forall k | 0 < k <= |ws|
      ensures ApplyWrites(d, ws[..k]) in AfterAll(d, ws) && AfterAll(d, ws[..k]) <= AfterAll(d, ws)
    {
      AfterAllEnds(d, ws[..k]);
      AfterAllGrows(d, ws, k);
    }
    if ws != [] {
      AfterAllEnds(d, ws);
    }
  }

  lemma ReachedOneMore(d: Durable, ws: seq<Write>, w: Write, i: nat)
    requires i < |AfterAll(d, ws + [w])|
    requires i < |AfterAll(d, ws)| ==> Reached(d, ws, AfterAll(d, ws)[i])
    ensures Reached(d, ws + [w], AfterAll(d, ws + [w])[i])
  {
    OneMore(d, ws, w);
    var all := ws + [w];
    assert all[..|ws|] == ws && all[..|ws| + 1] == all;
    if i < |AfterAll(d, ws)| {
      var k :| 0 <= k <= |ws| && AfterAll(d, ws)[i] == ApplyWrites(d, ws[..k]);
      assert all[..k] == ws[..k];
    }
  }

  /** What restarts find while the state file passes through `seen`. */
  ghost function Fields(hard: Durable, seen: seq<seq<u8>>): (r: seq<Durable>)
    requires forall i | 0 <= i < |seen| :: |seen[i]| >= StateFile.STATE_SIZE
  {
    seq(|seen|, i requires 0 <= i < |seen| && |seen[i]| >= StateFile.STATE_SIZE =>
      var fs := StateFile.Recover(seen[i]); hard.(term := fs.term, vote := fs.vote))
  }

  /** What restarts find while the entry and length files pass through `seen`. */
  ghost function Logs(hard: Durable, seen: seq<FileLog.Disk>): (r: seq<Durable>)
  {
    seq(|seen|, i requires 0 <= i < |seen| =>
      hard.(log := if FileLog.Sound(seen[i]) then FileLog.Recover(seen[i]) else []))
  }

  lemma TwoLogs(hard: Durable, seen: seq<FileLog.Disk>, a: seq<Entry>, b: seq<Entry>)
    requires |seen| == 2 && FileLog.Recovers(seen[0], a) && FileLog.Recovers(seen[1], b)
    ensures Logs(hard, seen) == [hard.(log := a), hard.(log := b)]
  {
  }

  lemma AppendFound(hard: Durable, d: FileLog.Disk, e: Entry)
    requires FileLog.Shows(d, hard.log) && |hard.log| < INT_SPAN
    ensures Logs(hard, FileLog.Calls(d, FileLog.Op.Write(|hard.log|, e))) == AfterCalls(hard, Append(e))
  {
    FileLog.AppendCalls(d, hard.log, e);
    TwoLogs(hard, FileLog.Calls(d, FileLog.Op.Write(|hard.log|, e)), hard.log, hard.log + [e]);
  }

  lemma TruncateFound(hard: Durable, d: FileLog.Disk, n: int)
    requires FileLog.Shows(d, hard.log) && 0 < n <= |hard.log|
    ensures Logs(hard, FileLog.Calls(d, FileLog.RemoveLast(n))) == AfterCalls(hard, Truncate(|hard.log| - n))
  {
    FileLog.RemoveLastCalls(d, hard.log, n);
    var log := hard.log[..|hard.log| - n];
    TwoLogs(hard, FileLog.Calls(d, FileLog.RemoveLast(n)), log, log);
  }

  class Store {
    const log: FileLog.Log
    const fields: StateFile.State
    /** The durable state when the current handler began, and its writes since. */
    ghost var start: Durable
    ghost var writes: seq<Write>
    /** What a restart would have found after each system call since then. */
    ghost var found: seq<Durable>

    ghost function Hard(): Durable
      reads log, fields
    {
      Durable(fields.contents.term, fields.contents.vote, log.contents)
    }

    ghost predicate Valid()
      reads this, log, fields
    {
      && log.Valid() && fields.Valid()
      && Hard() == ApplyWrites(start, writes)
      && Covers(start, writes, found)
    }

    /** Opens the files a node left behind, or none. */
    constructor (files: FileLog.Disk, state: seq<u8>)
      requires FileLog.Sound(files)
      ensures Valid() && fresh(log) && fresh(fields) && writes == [] && start == Hard()
      ensures Hard().log == FileLog.Recover(files)
      ensures |state| >= StateFile.STATE_SIZE ==>
                StateFile.Fields(Hard().term, Hard().vote) == StateFile.Recover(state)
      ensures |state| < StateFile.STATE_SIZE ==> Hard().term == 0 && Hard().vote == NO_VOTE
    {
      log := new FileLog.Log(files);
      fields := new StateFile.State(state);
      new;
      start := Hard();
      writes, found := [], [];
    }

    /** A new handler begins. */
    ghost method Begin()
      requires Valid()
      modifies this
      ensures Valid() && start == Hard() == old(Hard()) && writes == [] && found == []
    {
      start := Hard();
      writes, found := [], [];
    }

    /** A write has run its system calls, and restarts after them find these states. */
    ghost method Record(w: Write, before: Durable, seen: seq<Durable>)
      requires log.Valid() && fields.Valid()
      requires before == ApplyWrites(start, writes) && Covers(start, writes, found)
      requires Hard() == ApplyWrite(before, w) && seen == AfterCalls(before, w)
      modifies this
      ensures Valid() && Hard() == old(Hard()) && start == old(start)
      ensures writes == old(writes) + [w] && found == old(found) + seen
    {
      CoversIs(start, writes, found);
      OneMore(start, writes, w);
      writes, found := writes + [w], found + seen;
      CoversIs(start, writes, found);
    }

    method SetTerm(term: u32)
      requires Valid()
      modifies this, fields
      ensures Valid() && start == old(start) && writes == old(writes) + [Write.SetTerm(term)]
      ensures Hard() == old(Hard()).(term := term)
      ensures |fields.file| >= StateFile.STATE_SIZE && found == old(found) + Fields(old(Hard()), [fields.file])
      ensures fields.file == StateFile.Called(old(fields.file), StateFile.CURRENT_TERM, term)
    {
      ghost var before := Hard();
      ghost var seen := fields.Set(StateFile.CURRENT_TERM, term);
      StateFile.ShowsIsRecovers(fields.file, fields.contents);
      Record(Write.SetTerm(term), before, Fields(before, seen));
    }

    method SetVote(vote: u32)
      requires Valid()
      modifies this, fields
      ensures Valid() && start == old(start) && writes == old(writes) + [Write.SetVote(vote)]
      ensures Hard() == old(Hard()).(vote := vote)
      ensures |fields.file| >= StateFile.STATE_SIZE && found == old(found) + Fields(old(Hard()), [fields.file])
      ensures fields.file == StateFile.Called(old(fields.file), StateFile.VOTED_FOR, vote)
    {
      ghost var before := Hard();
      ghost var seen := fields.Set(StateFile.VOTED_FOR, vote);
      StateFile.ShowsIsRecovers(fields.file, fields.contents);
      Record(Write.SetVote(vote), before, Fields(before, seen));
    }

    /** A new term and the vote that goes with it, in the order in which they reach the disk. */
    method EnterTerm(term: u32, vote: u32)
      requires Valid()
      modifies this, fields
      ensures Valid() && start == old(start)
      ensures writes == old(writes) + [Write.SetTerm(term), Write.SetVote(vote)]
      ensures Hard() == old(Hard()).(term := term, vote := vote)
    {
      SetTerm(term);
      SetVote(vote);
    }

    /** The write of one entry at the end of the log: the only place this program writes to. */
    method WriteAt(idx: Int32, entry: Entry)
      requires Valid() && idx == |Hard().log|
      modifies this, log
      ensures Valid() && start == old(start) && writes == old(writes) + [Append(entry)]
      ensures Hard() == old(Hard()).(log := old(Hard()).log + [entry])
      ensures found == old(found) + Logs(old(Hard()), FileLog.Calls(old(log.OnDisk()), FileLog.Op.Write(idx, entry)))
    {
      ghost var before := Hard();
      AppendFound(before, log.OnDisk(), entry);
      var code;
      ghost var seen;
      code, seen := log.Write(idx, entry);
      Record(Append(entry), before, Logs(before, seen));
    }

    /** The removal of the last n entries. */
    method RemoveLastN(n: Int32)
      requires Valid() && 0 < n <= |Hard().log|
      modifies this, log
      ensures Valid() && start == old(start) && writes == old(writes) + [Truncate(|old(Hard()).log| - n)]
      ensures Hard() == old(Hard()).(log := old(Hard()).log[..|old(Hard()).log| - n])
      ensures found == old(found) + Logs(old(Hard()), FileLog.Calls(old(log.OnDisk()), FileLog.RemoveLast(n)))
    {
      ghost var before := Hard();
      TruncateFound(before, log.OnDisk(), n);
      var removed;
      ghost var seen;
      removed, seen := log.RemoveLastN(n);
      Record(Truncate(|before.log| - n), before, Logs(before, seen));
    }
  }
}
