/** The durable log, in two files. */
module FileLog {
  import opened Words
  import opened Types
  import opened Bytes
  import opened Codec

  const EOBND: int := -51
  const LENGTH_SIZE: nat := 4

  /** The contents of the two files between two system calls. */
  datatype Disk = Disk(data: seq<u8>, meta: seq<u8>)

  // ---- what is on disk

  /** The length log_init starts from: a length file too short to hold one counts as 0. */
  function StoredLength(d: Disk): u32 {
    if |d.meta| < LENGTH_SIZE then 0 else FromNative(d.meta[..LENGTH_SIZE])
  }

  /** The entry file holds at least the entries in use; whatever follows them is stale. */
  predicate Sound(d: Disk) {
    ENTRY_SIZE * StoredLength(d) <= |d.data|
  }

  /** The log a process that opens these files sees. */
  function Recover(d: Disk): (s: seq<Entry>)
    requires Sound(d)
    ensures |s| == StoredLength(d)
  {
    DecodeEntries(d.data, 0, StoredLength(d))
  }

  predicate Recovers(d: Disk, s: seq<Entry>) {
    Sound(d) && Recover(d) == s
  }

  /** Where the length and the entries stand in the two files. */
  lemma {:induction false} FileLayout(d: Disk, i: nat)
    requires |d.meta| >= LENGTH_SIZE && Sound(d) && i < StoredLength(d)
    ensures StoredLength(d) == d.meta[0] as int + d.meta[1] as int * 0x100 + d.meta[2] as int * 0x1_0000
                               + d.meta[3] as int * 0x100_0000
    ensures EntryStandsAt(d.data, 16 * i, Recover(d)[i])
  {
    DecodeAt(d.data, StoredLength(d), i);
    EntryBytes(d.data, ENTRY_SIZE * i);
    EntryWords(Recover(d)[i], d.data, ENTRY_SIZE * i);
  }

  predicate Initialised(d: Disk) {
    |d.meta| >= LENGTH_SIZE
  }

  // ---- the operations, as sequences and as system calls

  datatype Op = Write(idx: int, entry: Entry) | RemoveLast(n: int)

  function Min(a: int, b: int): int {
    if a < b then a else b
  }

  /** What an operation means for the sequence of entries. */
  function Meaning(s: seq<Entry>, op: Op): seq<Entry> {
    match op
    case Write(idx, e) =>
      if idx < 0 || idx > |s| then s else if idx == |s| then s + [e] else s[idx := e]
    case RemoveLast(n) =>
      if n <= 0 then s else s[..|s| - Min(n, |s|)]
  }

  function WithLength(d: Disk, length: u32): Disk {
    d.(meta := Splice(d.meta, 0, Native(length)))
  }

  /** The files after each system call of an operation that changes them; damaged files stay as they are. */
  function Calls(d: Disk, op: Op): seq<Disk> {
    var length := StoredLength(d);
    match op
    case Write(idx, e) =>
      if idx < 0 || idx > length || !Sound(d) then []
      else
        var written := d.(data := Splice(d.data, ENTRY_SIZE * idx, EncodeEntry(e)));
        if idx == length then [written, WithLength(written, ToWord(length + 1))] else [written]
    case RemoveLast(n) =>
      if n <= 0 || !Sound(d) then []
      else
        var shorter := WithLength(d, length - Min(n, length));
        [shorter, shorter.(data := d.data[..ENTRY_SIZE * (length - Min(n, length))])]
  }

  /** The files once the operation has run to its end. */
  function Finished(d: Disk, op: Op): Disk {
    var calls := Calls(d, op);
    if calls == [] then d else calls[|calls| - 1]
  }

  /** The files once log_init has run. */
  function Booted(d: Disk): Disk {
    if Initialised(d) then d else WithLength(d, 0)
  }

  // ---- decoding through writes

  function EntryAt(b: seq<u8>, i: nat): Entry
    requires ENTRY_SIZE * (i + 1) <= |b|
  {
    DecodeEntry(b, ENTRY_SIZE * i)
  }

  lemma {:induction false} DecodeAt(b: seq<u8>, k: nat, i: nat)
    requires i < k && ENTRY_SIZE * k <= |b|
    ensures DecodeEntries(b, 0, k)[i] == EntryAt(b, i)
    decreases k
  {
    if i < k - 1 {
      DecodeAt(b, k - 1, i);
    }
  }

  lemma DecodeSpread(b: seq<u8>, k: nat, s: seq<Entry>)
    requires ENTRY_SIZE * k <= |b| && |s| == k
    requires forall i: nat | i < k :: EntryAt(b, i) == s[i]
    ensures DecodeEntries(b, 0, k) == s
  {
    forall i: nat | i < k
      ensures DecodeEntries(b, 0, k)[i] == s[i]
    {
      DecodeAt(b, k, i);
    }
  }

  /** An entry written anywhere is read back, and the other entries read as before. */
  lemma DecodeSpliced(b: seq<u8>, idx: nat, e: Entry, i: nat)
    requires ENTRY_SIZE * idx <= |b| && (i == idx || ENTRY_SIZE * (i + 1) <= |b|)
    ensures var r := Splice(b, ENTRY_SIZE * idx, EncodeEntry(e));
            ENTRY_SIZE * (i + 1) <= |r| && EntryAt(r, i) == if i == idx then e else EntryAt(b, i)
  {
    var at, p := ENTRY_SIZE * idx, ENTRY_SIZE * i;
    var r := Splice(b, at, EncodeEntry(e));
    if i == idx {
      EntryRoundTrip(e, r, at);
    } else {
      if i < idx {
        assert r[..at][p..p + ENTRY_SIZE] == b[..at][p..p + ENTRY_SIZE];
      } else {
        SpliceBeyond(b, at, EncodeEntry(e), p, ENTRY_SIZE);
      }
      assert r[p..p + ENTRY_SIZE] == b[p..p + ENTRY_SIZE];
      SameEntry(r, b, p);
    }
  }

  lemma SpliceBeyond(b: seq<u8>, at: nat, w: seq<u8>, p: nat, n: nat)
    requires at + |w| <= p && p + n <= |b|
    ensures Splice(b, at, w)[p..p + n] == b[p..p + n]
  {
  }

  lemma SameEntry(a: seq<u8>, b: seq<u8>, p: nat)
    requires p + ENTRY_SIZE <= |a| && p + ENTRY_SIZE <= |b| && a[p..p + ENTRY_SIZE] == b[p..p + ENTRY_SIZE]
    ensures DecodeEntry(a, p) == DecodeEntry(b, p)
  {
    EntryBytes(a, p);
    EntryRoundTrip(DecodeEntry(a, p), b, p);
  }

  lemma LengthStored(d: Disk, length: u32)
    ensures Initialised(WithLength(d, length)) && StoredLength(WithLength(d, length)) == length
  {
    NativeRoundTrip(length);
    assert WithLength(d, length).meta[..LENGTH_SIZE] == WithLength(d, length).meta[0..0 + LENGTH_SIZE];
  }

  // ---- crashes between system calls

  predicate Usable(d: Disk) {
    Sound(d) && Initialised(d)
  }

  /** Every state is the one log or the other in full, and none is the first after the second. */
  predicate Atomic(calls: seq<Disk>, s: seq<Entry>, s': seq<Entry>) {
    && (forall k | 0 <= k < |calls| :: Usable(calls[k]) && (Recover(calls[k]) == s || Recover(calls[k]) == s'))
    && (forall j, k | 0 <= j < k < |calls| :: Recover(calls[j]) == s' ==> Recover(calls[k]) == s')
  }

  lemma Overwrite(d: Disk, idx: nat, e: Entry)
    requires Usable(d) && idx < StoredLength(d)
    ensures Recovers(d.(data := Splice(d.data, ENTRY_SIZE * idx, EncodeEntry(e))), Recover(d)[idx := e])
  {
    var data, length := Splice(d.data, ENTRY_SIZE * idx, EncodeEntry(e)), StoredLength(d);
    forall i: nat | i < length
      ensures EntryAt(data, i) == Recover(d)[idx := e][i]
    {
      DecodeSpliced(d.data, idx, e, i);
      DecodeAt(d.data, length, i);
    }
    DecodeSpread(data, length, Recover(d)[idx := e]);
  }

  lemma AppendData(d: Disk, e: Entry)
    requires Usable(d)
    ensures var length := StoredLength(d);
            var data := Splice(d.data, ENTRY_SIZE * length, EncodeEntry(e));
            && ENTRY_SIZE * (length + 1) <= |data|
            && DecodeEntries(data, 0, length) == Recover(d)
            && DecodeEntries(data, 0, length + 1) == Recover(d) + [e]
  {
    var length: nat := StoredLength(d);
    var data := Splice(d.data, ENTRY_SIZE * length, EncodeEntry(e));
    DecodeSpliced(d.data, length, e, length);
    forall i: nat | i < length
      ensures EntryAt(data, i) == Recover(d)[i]
    {
      DecodeSpliced(d.data, length, e, i);
      DecodeAt(d.data, length, i);
    }
    DecodeSpread(data, length, Recover(d));
  }

  lemma RecoverIs(d: Disk, n: u32, s: seq<Entry>)
    requires Initialised(d) && StoredLength(d) == n && ENTRY_SIZE * n <= |d.data| && DecodeEntries(d.data, 0, n) == s
    ensures Usable(d) && Recover(d) == s
  {
  }

  lemma {:induction false} Grow(d: Disk, e: Entry, written: Disk, grown: Disk)
    requires Usable(d) && StoredLength(d) < INT_SPAN
    requires written == d.(data := Splice(d.data, ENTRY_SIZE * StoredLength(d), EncodeEntry(e)))
    requires grown == WithLength(written, ToWord(StoredLength(d) + 1))
    ensures Usable(written) && Usable(grown) && StoredLength(grown) == StoredLength(d) + 1
    ensures Recover(written) == Recover(d) && Recover(grown) == Recover(d) + [e]
  {
    var n := StoredLength(d);
    AppendData(d, e);
    LengthStored(written, ToWord(n + 1));
    assert grown.data == written.data;
    RecoverIs(written, n, Recover(d));
    RecoverIs(grown, n + 1, Recover(d) + [e]);
  }

  lemma {:induction false} EntryBelowCut(data: seq<u8>, left: nat, i: nat)
    requires i < left && ENTRY_SIZE * left <= |data|
    ensures EntryAt(data[..ENTRY_SIZE * left], i) == EntryAt(data, i)
  {
    var cut, p := data[..ENTRY_SIZE * left], ENTRY_SIZE * i;
    assert cut[p..p + ENTRY_SIZE] == data[p..p + ENTRY_SIZE];
    SameEntry(cut, data, p);
  }

  lemma {:induction false} DecodeFewer(d: Disk, left: nat)
    requires Usable(d) && left <= StoredLength(d)
    ensures DecodeEntries(d.data, 0, left) == Recover(d)[..left]
    ensures DecodeEntries(d.data[..ENTRY_SIZE * left], 0, left) == Recover(d)[..left]
  {
    var cut := d.data[..ENTRY_SIZE * left];
    forall i: nat | i < left
      ensures EntryAt(d.data, i) == EntryAt(cut, i) == Recover(d)[..left][i]
    {
      DecodeAt(d.data, StoredLength(d), i);
      EntryBelowCut(d.data, left, i);
    }
    DecodeSpread(d.data, left, Recover(d)[..left]);
    DecodeSpread(cut, left, Recover(d)[..left]);
  }

  lemma Shorten(d: Disk, left: nat, shorter: Disk, cut: Disk)
    requires Usable(d) && left <= StoredLength(d)
    requires shorter == WithLength(d, left) && cut == shorter.(data := d.data[..ENTRY_SIZE * left])
    ensures Usable(shorter) && Usable(cut) && StoredLength(cut) == left
    ensures Recover(shorter) == Recover(cut) == Recover(d)[..left]
  {
    DecodeFewer(d, left);
    LengthStored(d, left);
    assert shorter.data == d.data && cut.meta == shorter.meta;
    RecoverIs(shorter, left, Recover(d)[..left]);
    RecoverIs(cut, left, Recover(d)[..left]);
  }

  /** An operation the callers can ask for: indices and counts are `int`. */
  predicate Askable(op: Op) {
    match op
    case Write(idx, _) => -INT_SPAN <= idx < INT_SPAN
    case RemoveLast(n) => -INT_SPAN <= n < INT_SPAN
  }

  lemma AtomicTwo(a: Disk, b: Disk, s: seq<Entry>, s': seq<Entry>)
    requires Usable(a) && Usable(b) && (Recover(a) == s || Recover(a) == s') && Recover(b) == s'
    ensures Atomic([a, b], s, s') && Atomic([b], s, s')
  {
  }

  lemma WriteAtomic(d: Disk, idx: int, e: Entry)
    requires Usable(d) && idx < INT_SPAN
    ensures Atomic(Calls(d, Write(idx, e)), Recover(d), Meaning(Recover(d), Write(idx, e)))
    ensures Usable(Finished(d, Write(idx, e)))
    ensures Recover(Finished(d, Write(idx, e))) == Meaning(Recover(d), Write(idx, e))
  {
    var s, calls := Recover(d), Calls(d, Write(idx, e));
    if 0 <= idx < StoredLength(d) {
      Overwrite(d, idx, e);
      AtomicTwo(calls[0], calls[0], s, s[idx := e]);
    } else if idx == StoredLength(d) {
      Grow(d, e, calls[0], calls[1]);
      AtomicTwo(calls[0], calls[1], s, s + [e]);
    }
  }

  lemma RemoveAtomic(d: Disk, n: int)
    requires Usable(d)
    ensures Atomic(Calls(d, RemoveLast(n)), Recover(d), Meaning(Recover(d), RemoveLast(n)))
    ensures Usable(Finished(d, RemoveLast(n)))
    ensures Recover(Finished(d, RemoveLast(n))) == Meaning(Recover(d), RemoveLast(n))
  {
    if n > 0 {
      var calls := Calls(d, RemoveLast(n));
      Shorten(d, StoredLength(d) - Min(n, StoredLength(d)), calls[0], calls[1]);
      AtomicTwo(calls[0], calls[1], Recover(d), Recover(calls[1]));
    }
  }

  /**
   Between any two system calls the files hold exactly the old or the new log, never the old one
   after the new one, and at the end they hold the new one.
   */
  lemma CrashAtomic(d: Disk, op: Op)
    requires Usable(d) && Askable(op)
    ensures Atomic(Calls(d, op), Recover(d), Meaning(Recover(d), op))
    ensures Usable(Finished(d, op)) && Recover(Finished(d, op)) == Meaning(Recover(d), op)
  {
    match op
    case Write(idx, e) => WriteAtomic(d, idx, e);
    case RemoveLast(n) => RemoveAtomic(d, n);
  }

  /** Opening the files changes nothing a later opening could see. */
  lemma BootKeeps(d: Disk)
    requires Sound(d)
    ensures Initialised(Booted(d)) && Recovers(Booted(d), Recover(d))
  {
  }

  // ---- whole lives

  /** An operation that returned, or one cut off after some of its system calls and a restart. */
  datatype Act = Returned(op: Op) | CutOff(op: Op, calls: nat)

  function ActOn(d: Disk, a: Act): Disk {
    match a
    case Returned(op) => Finished(d, op)
    case CutOff(op, k) =>
      var calls := Calls(d, op);
      if k == 0 || |calls| == 0 then Booted(d) else Booted(calls[Min(k, |calls|) - 1])
  }

  /** The operations of a life that count: all that returned, and some of those cut off. */
  predicate Counting(acts: seq<Act>, counted: seq<bool>) {
    |counted| == |acts| && forall i | 0 <= i < |acts| && acts[i].Returned? :: counted[i]
  }

  function Replay(acts: seq<Act>, counted: seq<bool>): seq<Entry>
    requires |counted| == |acts|
    decreases |acts|
  {
    if acts == [] then []
    else
      var n := |acts| - 1;
      var before := Replay(acts[..n], counted[..n]);
      if counted[n] then Meaning(before, acts[n].op) else before
  }

  /** The files at the end of a life that began with none. */
  function FilesAfter(acts: seq<Act>): Disk
    decreases |acts|
  {
    if acts == [] then Booted(Disk([], []))
    else ActOn(FilesAfter(acts[..|acts| - 1]), acts[|acts| - 1])
  }

  lemma ActAtomic(d: Disk, a: Act)
    requires Usable(d) && Askable(a.op)
    ensures Usable(ActOn(d, a))
    ensures Recover(ActOn(d, a)) == Meaning(Recover(d), a.op) || (a.CutOff? && Recover(ActOn(d, a)) == Recover(d))
  {
    CrashAtomic(d, a.op);
    if a.CutOff? {
      var calls := Calls(d, a.op);
      BootKeeps(d);
      if |calls| > 0 && a.calls > 0 {
        BootKeeps(calls[Min(a.calls, |calls|) - 1]);
      }
    }
  }

  /**
   Whatever crashes a life went through, its files hold the sequence that the operations which
   returned, and some of the ones cut off, make in order; nothing else, and nothing in part.
   */
  lemma {:induction false} LifeIsReplay(acts: seq<Act>) returns (counted: seq<bool>)
    requires forall i | 0 <= i < |acts| :: Askable(acts[i].op)
    ensures Counting(acts, counted)
    ensures Usable(FilesAfter(acts)) && Recover(FilesAfter(acts)) == Replay(acts, counted)
    decreases |acts|
  {
    if acts == [] {
      BootKeeps(Disk([], []));
      counted := [];
    } else {
      var n := |acts| - 1;
      var before := FilesAfter(acts[..n]);
      var earlier := LifeIsReplay(acts[..n]);
      ActAtomic(before, acts[n]);
      counted := earlier + [Recover(FilesAfter(acts)) == Meaning(Recover(before), acts[n].op)];
      CountOneMore(acts, earlier, counted);
    }
  }

  lemma CountOneMore(acts: seq<Act>, earlier: seq<bool>, counted: seq<bool>)
    requires |acts| > 0 && Counting(acts[..|acts| - 1], earlier) && |counted| == |acts|
    requires counted[..|acts| - 1] == earlier && (acts[|acts| - 1].Returned? ==> counted[|acts| - 1])
    ensures Counting(acts, counted)
    ensures Replay(acts, counted)
            == var before := Replay(acts[..|acts| - 1], earlier);
               if counted[|acts| - 1] then Meaning(before, acts[|acts| - 1].op) else before
  {
  }

  // ---- the open log

  /** The files hold the entries of s, said byte by byte and entry by entry. */
  ghost predicate Shows(d: Disk, s: seq<Entry>) {
    && |s| < WORD_SPAN && |d.meta| >= LENGTH_SIZE && ENTRY_SIZE * |s| <= |d.data|
    && (forall k {:trigger d.meta[k]} | 0 <= k < LENGTH_SIZE :: d.meta[k] == Native(|s|)[k])
    && (forall i: nat {:trigger EntryAt(d.data, i)} | i < |s| :: EntryAt(d.data, i) == s[i])
  }

  lemma ShowsRecovers(d: Disk, s: seq<Entry>)
    requires Shows(d, s)
    ensures Usable(d) && Recover(d) == s
  {
    assert d.meta[..LENGTH_SIZE] == Native(|s|);
    NativeRoundTrip(|s|);
    DecodeSpread(d.data, |s|, s);
  }

  lemma RecoversShows(d: Disk)
    requires Usable(d)
    ensures Shows(d, Recover(d))
  {
    FromNativeRoundTrip(d.meta[..LENGTH_SIZE]);
    forall i: nat | i < StoredLength(d)
      ensures EntryAt(d.data, i) == Recover(d)[i]
    {
      DecodeAt(d.data, StoredLength(d), i);
    }
  }

  lemma Shown(d: Disk, s: seq<Entry>, op: Op)
    requires Shows(d, s) && Askable(op)
    ensures StoredLength(d) == |s| && Sound(d) && Atomic(Calls(d, op), s, Meaning(s, op))
    ensures Shows(Finished(d, op), Meaning(s, op))
  {
    ShowsRecovers(d, s);
    CrashAtomic(d, op);
    RecoversShows(Finished(d, op));
  }

  /** The files after each system call of an append: first the old log still, then the longer one. */
  lemma AppendCalls(d: Disk, s: seq<Entry>, e: Entry)
    requires Shows(d, s) && |s| < INT_SPAN
    ensures var calls := Calls(d, Write(|s|, e));
            |calls| == 2 && Recovers(calls[0], s) && Recovers(calls[1], s + [e])
  {
    ShowsRecovers(d, s);
    var calls := Calls(d, Write(|s|, e));
    Grow(d, e, calls[0], calls[1]);
  }

  /** The files after each system call of a removal: the shorter log both times. */
  lemma RemoveLastCalls(d: Disk, s: seq<Entry>, n: int)
    requires Shows(d, s) && 0 < n <= |s|
    ensures var calls := Calls(d, RemoveLast(n));
            |calls| == 2 && Recovers(calls[0], s[..|s| - n]) && Recovers(calls[1], s[..|s| - n])
  {
    ShowsRecovers(d, s);
    var calls := Calls(d, RemoveLast(n));
    Shorten(d, |s| - n, calls[0], calls[1]);
  }

  class Log {
    var data: seq<u8>
    var meta: seq<u8>
    var length: u32

    /** The entries the files hold. */
    ghost var contents: seq<Entry>

    /** The length kept in memory is the one on disk, and the entries it counts are there. */
    ghost predicate Valid()
      reads this
    {
      Shows(OnDisk(), contents) && length == |contents|
    }

    ghost function OnDisk(): Disk
      reads this
    {
      Disk(data, meta)
    }

    /** log_init on whatever files are there. */
    constructor (files: Disk)
      ensures OnDisk() == Booted(files) && length == StoredLength(files)
      ensures Sound(files) ==> Valid() && contents == Recover(files)
    {
      data := files.data;
      if |files.meta| < LENGTH_SIZE {
        length := 0;
        meta := Splice(files.meta, 0, Native(0));
      } else {
        length := FromNative(files.meta[..LENGTH_SIZE]);
        meta := files.meta;
      }
      new;
      LengthStored(files, 0);
      if Sound(files) {
        BootKeeps(files);
        contents := Recover(files);
        RecoversShows(OnDisk());
      }
    }

    /** f_log_read: the entry and the byte count asked for, or a negative code. */
    method Read(idx: Int32, n: int) returns (code: int, entry: Entry)
      ensures idx < 0 || idx >= length ==> code == EOBND
      ensures Valid() && 0 <= idx < length ==> code == n && entry == contents[idx]
    {
      entry := Entry(0, 0, 0, 0);
      if idx < 0 || ToWord(idx) >= length {
        return EOBND, entry;
      }
      if |data| < ENTRY_SIZE * idx + ENTRY_SIZE {
        return -1, entry;
      }
      var bytes := data[ENTRY_SIZE * idx..ENTRY_SIZE * idx + ENTRY_SIZE];
      var buf := new u8[ENTRY_SIZE](i requires 0 <= i < ENTRY_SIZE => bytes[i]);
      assert buf[..] == bytes;
      var next: nat;
      entry, next := UnpackEntry(buf, 0);
      code := n;
      if Valid() {
        assert EntryAt(data, idx) == contents[idx];
        EntryBytes(data, ENTRY_SIZE * idx);
        assert buf[..][0..ENTRY_SIZE] == bytes;
        EntryRoundTrip(DecodeEntry(data, ENTRY_SIZE * idx), buf[..], 0);
      }
    }

    /** The `write` of one entry at its place in the entry file. */
    method WriteData(idx: nat, entry: Entry)
      requires ENTRY_SIZE * idx <= |data|
      modifies `data
      ensures data == Splice(old(data), ENTRY_SIZE * idx, EncodeEntry(entry))
    {
      var buf := new u8[ENTRY_SIZE];
      var next := PackEntry(buf, 0, entry);
      assert buf[..] == EncodeEntry(entry);
      data := Splice(data, ENTRY_SIZE * idx, buf[..]);
    }

    /** The `write` of the length at the start of the length file. */
    method WriteLength()
      modifies `meta
      ensures OnDisk() == WithLength(old(OnDisk()), length)
    {
      meta := Splice(meta, 0, Native(length));
    }

    /** The system calls of an accepted write. */
    method WriteCalls(idx: Int32, entry: Entry) returns (ghost seen: seq<Disk>)
      requires 0 <= idx <= length && Sound(OnDisk()) && StoredLength(OnDisk()) == length
      modifies this
      ensures contents == old(contents) && length == if idx == old(length) then ToWord(idx + 1) else old(length)
      ensures seen == Calls(old(OnDisk()), Op.Write(idx, entry)) && |seen| > 0 && OnDisk() == seen[|seen| - 1]
    {
      WriteData(idx, entry);
      seen := [OnDisk()];
      if ToWord(idx) == length {
        length := ToWord(length + 1);
        WriteLength();
        seen := seen + [OnDisk()];
      }
    }

    /** f_log_write: overwrites an entry or appends one; `seen` holds the files after each system call. */
    method Write(idx: Int32, entry: Entry) returns (code: int, ghost seen: seq<Disk>)
      requires Valid()
      modifies this
      ensures Valid() && seen == Calls(old(OnDisk()), Op.Write(idx, entry))
      ensures contents == Meaning(old(contents), Op.Write(idx, entry))
      ensures code == if 0 <= idx <= old(length) then 0 else EOBND
      ensures code != 0 ==> OnDisk() == old(OnDisk())
      ensures Atomic(seen, old(contents), contents)
    {
      Shown(OnDisk(), contents, Op.Write(idx, entry));
      seen := [];
      if idx < 0 || ToWord(idx) > length {
        return EOBND, seen;
      }
      seen := WriteCalls(idx, entry);
      contents := Meaning(contents, Op.Write(idx, entry));
      code := 0;
    }

    method Length() returns (n: int)
      ensures n == ToInt(length)
    {
      n := ToInt(length);
    }

    /** The system calls of a removal. */
    method RemoveCalls(n: int, removed: nat) returns (ghost seen: seq<Disk>)
      requires 0 < n && removed == Min(n, length) && Sound(OnDisk()) && StoredLength(OnDisk()) == length
      modifies this
      ensures contents == old(contents) && length == old(length) - removed
      ensures seen == Calls(old(OnDisk()), RemoveLast(n)) && |seen| > 0 && OnDisk() == seen[|seen| - 1]
    {
      length := length - removed;
      WriteLength();
      seen := [OnDisk()];
      data := data[..ENTRY_SIZE * length];
      seen := seen + [OnDisk()];
    }

    /** f_log_remove_last_n: removes at most the whole log and returns how many entries it removed. */
    method RemoveLastN(n: Int32) returns (removed: int, ghost seen: seq<Disk>)
      requires Valid()
      modifies this
      ensures Valid() && seen == Calls(old(OnDisk()), RemoveLast(n))
      ensures contents == Meaning(old(contents), RemoveLast(n))
      ensures removed == old(length) - length
      ensures Atomic(seen, old(contents), contents)
    {
      seen := [];
      if n <= 0 {
        return 0, seen;
      }
      removed := n;
      if ToWord(n) > length {
        removed := ToInt(length);
      }
      Shown(OnDisk(), contents, RemoveLast(n));
      seen := RemoveCalls(n, removed);
      contents := Meaning(contents, RemoveLast(n));
    }
  }
}
