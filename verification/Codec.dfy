/** Entries and AppendEntries requests as bytes. */
module Codec {
  import opened Words
  import opened Types
  import opened Bytes

  const ENTRY_SIZE: nat := 16
  const HEADER_SIZE: nat := 24
  const MAX_PAYLOAD: nat := 1024

  type Int32 = x: int | -0x8000_0000 <= x < 0x8000_0000

  /** append_entries_req_t, with the entries in use as a sequence. */
  datatype AppendWire = AppendWire(term: u32, leaderId: u32, prevLogIdx: u32, prevLogTerm: u32,
                                   leaderCommit: Int32, entries: seq<Entry>)

  datatype Parsed = Bad | Good(req: AppendWire)

  // ---- entries

  function EncodeEntry(e: Entry): (b: seq<u8>)
    ensures |b| == ENTRY_SIZE
  {
    BigEndian(e.term) + BigEndian(e.clientId) + BigEndian(e.cmdSeqno) + BigEndian(e.cmd)
  }

  function WordAt(b: seq<u8>, p: nat): u32
    requires p + 4 <= |b|
  {
    FromBigEndian(b[p..p + 4])
  }

  function DecodeEntry(b: seq<u8>, p: nat): Entry
    requires p + ENTRY_SIZE <= |b|
  {
    Entry(WordAt(b, p), WordAt(b, p + 4), WordAt(b, p + 8), WordAt(b, p + 12))
  }

  lemma FourWords(a: seq<u8>, b: seq<u8>, c: seq<u8>, d: seq<u8>)
    requires |a| == |b| == |c| == |d| == 4
    ensures var s := a + b + c + d; s[0..4] == a && s[4..8] == b && s[8..12] == c && s[12..16] == d
  {
  }

  lemma EntryRoundTrip(e: Entry, b: seq<u8>, p: nat)
    requires p + ENTRY_SIZE <= |b| && b[p..p + ENTRY_SIZE] == EncodeEntry(e)
    ensures DecodeEntry(b, p) == e
  {
    FourWords(BigEndian(e.term), BigEndian(e.clientId), BigEndian(e.cmdSeqno), BigEndian(e.cmd));
    WordRoundTrip(b, p, 0, e.term);
    WordRoundTrip(b, p, 4, e.clientId);
    WordRoundTrip(b, p, 8, e.cmdSeqno);
    WordRoundTrip(b, p, 12, e.cmd);
  }

  lemma WordRoundTrip(b: seq<u8>, p: nat, i: nat, v: u32)
    requires p + ENTRY_SIZE <= |b| && i + 4 <= ENTRY_SIZE && b[p..p + ENTRY_SIZE][i..i + 4] == BigEndian(v)
    ensures WordAt(b, p + i) == v
  {
    SliceOfSlice(b, p, ENTRY_SIZE, i, i + 4);
    BigEndianRoundTrip(v);
  }

  lemma EntryBytes(b: seq<u8>, p: nat)
    requires p + ENTRY_SIZE <= |b|
    ensures EncodeEntry(DecodeEntry(b, p)) == b[p..p + ENTRY_SIZE]
  {
    FromBigEndianRoundTrip(b[p..p + 4]);
    FromBigEndianRoundTrip(b[p + 4..p + 8]);
    FromBigEndianRoundTrip(b[p + 8..p + 12]);
    FromBigEndianRoundTrip(b[p + 12..p + 16]);
    assert b[p..p + 16] == b[p..p + 4] + b[p + 4..p + 8] + b[p + 8..p + 12] + b[p + 12..p + 16];
  }

  /** Entries one after another. */
  function EncodeEntries(es: seq<Entry>): (b: seq<u8>)
    ensures |b| == ENTRY_SIZE * |es|
  {
    if es == [] then [] else EncodeEntries(es[..|es| - 1]) + EncodeEntry(es[|es| - 1])
  }

  /** The k entries whose bytes start at p. */
  function DecodeEntries(b: seq<u8>, p: nat, k: nat): (es: seq<Entry>)
    requires p + ENTRY_SIZE * k <= |b|
    ensures |es| == k
  {
    if k == 0 then [] else DecodeEntries(b, p, k - 1) + [DecodeEntry(b, p + ENTRY_SIZE * (k - 1))]
  }

  lemma {:induction false} LastEntry(es: seq<Entry>, b: seq<u8>, p: nat)
    requires es != [] && p + ENTRY_SIZE * |es| <= |b| && b[p..p + ENTRY_SIZE * |es|] == EncodeEntries(es)
    ensures b[p..p + ENTRY_SIZE * (|es| - 1)] == EncodeEntries(es[..|es| - 1])
    ensures b[p + ENTRY_SIZE * (|es| - 1)..p + ENTRY_SIZE * |es|] == EncodeEntry(es[|es| - 1])
  {
    var k := |es| - 1;
    TwoSlices(b, p, EncodeEntries(es[..k]), EncodeEntry(es[k]));
  }

  lemma TwoSlices(b: seq<u8>, p: nat, x: seq<u8>, y: seq<u8>)
    requires p + |x| + |y| <= |b| && b[p..p + |x| + |y|] == x + y
    ensures b[p..p + |x|] == x && b[p + |x|..p + |x| + |y|] == y
  {
    SliceOfSlice(b, p, |x| + |y|, 0, |x|);
    SliceOfSlice(b, p, |x| + |y|, |x|, |x| + |y|);
    assert (x + y)[0..|x|] == x && (x + y)[|x|..|x| + |y|] == y;
  }

  lemma {:induction false} EntriesRoundTrip(es: seq<Entry>, b: seq<u8>, p: nat)
    requires p + ENTRY_SIZE * |es| <= |b| && b[p..p + ENTRY_SIZE * |es|] == EncodeEntries(es)
    ensures DecodeEntries(b, p, |es|) == es
    decreases |es|
  {
    if es != [] {
      var k := |es| - 1;
      LastEntry(es, b, p);
      EntriesRoundTrip(es[..k], b, p);
      EntryRoundTrip(es[k], b, p + ENTRY_SIZE * k);
    }
  }

  lemma Adjacent(b: seq<u8>, i: nat, j: nat, k: nat)
    requires i <= j <= k <= |b|
    ensures b[i..k] == b[i..j] + b[j..k]
  {
  }

  lemma {:induction false} EntriesBytes(b: seq<u8>, p: nat, k: nat)
    requires p + ENTRY_SIZE * k <= |b|
    ensures EncodeEntries(DecodeEntries(b, p, k)) == b[p..p + ENTRY_SIZE * k]
    decreases k
  {
    if k > 0 {
      var at := p + ENTRY_SIZE * (k - 1);
      EntriesBytes(b, p, k - 1);
      EntryBytes(b, at);
      var es := DecodeEntries(b, p, k);
      assert es[..k - 1] == DecodeEntries(b, p, k - 1) && es[k - 1] == DecodeEntry(b, at);
      Adjacent(b, p, at, at + ENTRY_SIZE);
    }
  }

  // ---- requests

  function EncodeHeader(r: AppendWire): (b: seq<u8>)
    ensures |b| == HEADER_SIZE
  {
    BigEndian(r.term) + BigEndian(r.leaderId) + BigEndian(r.prevLogIdx) + BigEndian(r.prevLogTerm)
    + BigEndian(ToWord(r.leaderCommit)) + BigEndian(ToWord(|r.entries|))
  }

  function Encode(r: AppendWire): seq<u8> {
    EncodeHeader(r) + EncodeEntries(r.entries)
  }

  /** What the unpacker makes of a payload buffer and its stated size. */
  function Decode(b: seq<u8>, n: nat): Parsed
    requires |b| == MAX_PAYLOAD
  {
    if n < HEADER_SIZE then Bad
    else
      var k := WordAt(b, 20);
      if k > MAX_APPEND_ENTRIES || n < HEADER_SIZE + ENTRY_SIZE * k then Bad
      else Good(AppendWire(WordAt(b, 0), WordAt(b, 4), WordAt(b, 8), WordAt(b, 12), ToInt(WordAt(b, 16)),
                           DecodeEntries(b, HEADER_SIZE, k)))
  }

  lemma HeaderRoundTrip(r: AppendWire, b: seq<u8>)
    requires |r.entries| <= MAX_APPEND_ENTRIES && |b| == MAX_PAYLOAD && b[..HEADER_SIZE] == EncodeHeader(r)
    ensures WordAt(b, 0) == r.term && WordAt(b, 4) == r.leaderId && WordAt(b, 8) == r.prevLogIdx
    ensures WordAt(b, 12) == r.prevLogTerm && ToInt(WordAt(b, 16)) == r.leaderCommit && WordAt(b, 20) == |r.entries|
  {
    var c := EncodeHeader(r);
    assert b[0..4] == c[0..4] == BigEndian(r.term);
    assert b[4..8] == c[4..8] == BigEndian(r.leaderId);
    assert b[8..12] == c[8..12] == BigEndian(r.prevLogIdx);
    assert b[12..16] == c[12..16] == BigEndian(r.prevLogTerm);
    assert b[16..20] == c[16..20] == BigEndian(ToWord(r.leaderCommit));
    assert b[20..24] == c[20..24] == BigEndian(ToWord(|r.entries|));
    BigEndianRoundTrip(r.term);
    BigEndianRoundTrip(r.leaderId);
    BigEndianRoundTrip(r.prevLogIdx);
    BigEndianRoundTrip(r.prevLogTerm);
    BigEndianRoundTrip(ToWord(r.leaderCommit));
    BigEndianRoundTrip(ToWord(|r.entries|));
  }

  /** Whatever stands behind the encoding in the buffer, decoding gives the request back. */
  lemma DecodeEncode(r: AppendWire, b: seq<u8>)
    requires |r.entries| <= MAX_APPEND_ENTRIES && |b| == MAX_PAYLOAD && Encode(r) <= b
    ensures |Encode(r)| == HEADER_SIZE + ENTRY_SIZE * |r.entries| <= MAX_PAYLOAD
    ensures Decode(b, |Encode(r)|) == Good(r)
  {
    var size := HEADER_SIZE + ENTRY_SIZE * |r.entries|;
    assert b[..size] == Encode(r);
    assert b[..HEADER_SIZE] == b[..size][..HEADER_SIZE] == EncodeHeader(r);
    assert b[HEADER_SIZE..size] == b[..size][HEADER_SIZE..] == EncodeEntries(r.entries);
    HeaderRoundTrip(r, b);
    EntriesRoundTrip(r.entries, b, HEADER_SIZE);
  }

  lemma WordBytes(b: seq<u8>, p: nat)
    requires p + 4 <= |b|
    ensures BigEndian(WordAt(b, p)) == b[p..p + 4]
  {
    FromBigEndianRoundTrip(b[p..p + 4]);
  }

  lemma {:induction false} HeaderBytes(b: seq<u8>, n: nat)
    requires |b| == MAX_PAYLOAD && Decode(b, n).Good?
    ensures EncodeHeader(Decode(b, n).req) == b[..HEADER_SIZE]
  {
    WordBytes(b, 0);
    WordBytes(b, 4);
    WordBytes(b, 8);
    WordBytes(b, 12);
    WordBytes(b, 16);
    WordBytes(b, 20);
    assert b[..24] == b[0..4] + b[4..8] + b[8..12] + b[12..16] + b[16..20] + b[20..24];
  }

  /** Every request the unpacker accepts is the one whose encoding the buffer starts with. */
  lemma {:induction false} EncodeDecode(b: seq<u8>, n: nat)
    requires |b| == MAX_PAYLOAD && Decode(b, n).Good?
    ensures var r := Decode(b, n).req; |r.entries| <= MAX_APPEND_ENTRIES && Encode(r) <= b && |Encode(r)| <= n
  {
    var r := Decode(b, n).req;
    HeaderBytes(b, n);
    EntriesBytes(b, HEADER_SIZE, |r.entries|);
    var size := HEADER_SIZE + ENTRY_SIZE * |r.entries|;
    assert b[..size] == b[..HEADER_SIZE] + b[HEADER_SIZE..size];
    assert Encode(r) == b[..size];
  }

  // ---- the layout

  /** The word v stands at byte p, the most significant byte first. */
  predicate StandsAt(b: seq<u8>, p: nat, v: int) {
    && p + 4 <= |b|
    && v == b[p] as int * 0x100_0000 + b[p + 1] as int * 0x1_0000 + b[p + 2] as int * 0x100 + b[p + 3] as int
  }

  predicate EntryStandsAt(b: seq<u8>, p: nat, e: Entry) {
    && StandsAt(b, p, e.term) && StandsAt(b, p + 4, e.clientId)
    && StandsAt(b, p + 8, e.cmdSeqno) && StandsAt(b, p + 12, e.cmd)
  }

  lemma {:induction false} EntryPlace(es: seq<Entry>, i: nat)
    requires i < |es|
    ensures EncodeEntries(es)[ENTRY_SIZE * i..ENTRY_SIZE * i + ENTRY_SIZE] == EncodeEntry(es[i])
    decreases |es|
  {
    var k := |es| - 1;
    if i < k {
      EntryPlace(es[..k], i);
      assert EncodeEntries(es)[ENTRY_SIZE * i..ENTRY_SIZE * i + ENTRY_SIZE]
          == EncodeEntries(es[..k])[ENTRY_SIZE * i..ENTRY_SIZE * i + ENTRY_SIZE];
    }
  }

  lemma EntryWords(e: Entry, b: seq<u8>, p: nat)
    requires p + ENTRY_SIZE <= |b| && b[p..p + ENTRY_SIZE] == EncodeEntry(e)
    ensures EntryStandsAt(b, p, e)
  {
    EntryRoundTrip(e, b, p);
  }

  lemma EntryInPlace(r: AppendWire, i: nat)
    requires i < |r.entries|
    ensures EntryStandsAt(Encode(r), HEADER_SIZE + ENTRY_SIZE * i, r.entries[i])
  {
    var p := HEADER_SIZE + ENTRY_SIZE * i;
    EntryPlace(r.entries, i);
    assert Encode(r)[p..p + ENTRY_SIZE] == EncodeEntries(r.entries)[ENTRY_SIZE * i..ENTRY_SIZE * i + ENTRY_SIZE];
    EntryWords(r.entries[i], Encode(r), p);
  }

  /** Where every field of a request stands in the payload. */
  lemma WireLayout(r: AppendWire)
    requires |r.entries| <= MAX_APPEND_ENTRIES
    ensures var b := Encode(r);
            && StandsAt(b, 0, r.term) && StandsAt(b, 4, r.leaderId)
            && StandsAt(b, 8, r.prevLogIdx) && StandsAt(b, 12, r.prevLogTerm)
            && StandsAt(b, 16, if r.leaderCommit < 0 then r.leaderCommit + WORD_SPAN else r.leaderCommit)
            && StandsAt(b, 20, |r.entries|)
            && forall i: nat {:trigger r.entries[i]} | i < |r.entries| :: EntryStandsAt(b, 24 + 16 * i, r.entries[i])
  {
    var b := Encode(r);
    var payload := b + seq(MAX_PAYLOAD - |b|, i => 0);
    assert payload[..HEADER_SIZE] == EncodeHeader(r);
    HeaderRoundTrip(r, payload);
    assert b[..HEADER_SIZE] == payload[..HEADER_SIZE];
    forall i: nat | i < |r.entries|
      ensures EntryStandsAt(b, 24 + 16 * i, r.entries[i])
    {
      EntryInPlace(r, i);
    }
  }

  // ---- packing in place

  method WriteWord(buf: array<u8>, p: nat, v: u32)
    requires p + 4 <= buf.Length
    modifies buf
    ensures buf[..] == Splice(old(buf[..]), p, BigEndian(v))
  {
    buf[p] := Byte(v / 0x100_0000);
    buf[p + 1] := Byte(v / 0x1_0000);
    buf[p + 2] := Byte(v / 0x100);
    buf[p + 3] := Byte(v);
  }

  method WriteFour(buf: array<u8>, p: nat, u: u32, v: u32, w: u32, x: u32)
    requires p + 16 <= buf.Length
    modifies buf
    ensures buf[..] == Splice(old(buf[..]), p, BigEndian(u) + BigEndian(v) + BigEndian(w) + BigEndian(x))
  {
    ghost var b := buf[..];
    WriteWord(buf, p, u);
    WriteWord(buf, p + 4, v);
    SpliceAdjacent(b, p, BigEndian(u), BigEndian(v));
    WriteWord(buf, p + 8, w);
    SpliceAdjacent(b, p, BigEndian(u) + BigEndian(v), BigEndian(w));
    WriteWord(buf, p + 12, x);
    SpliceAdjacent(b, p, BigEndian(u) + BigEndian(v) + BigEndian(w), BigEndian(x));
  }

  method PackEntry(buf: array<u8>, p: nat, e: Entry) returns (p': nat)
    requires p + ENTRY_SIZE <= buf.Length
    modifies buf
    ensures p' == p + ENTRY_SIZE
    ensures buf[..] == Splice(old(buf[..]), p, EncodeEntry(e))
  {
    WriteFour(buf, p, e.term, e.clientId, e.cmdSeqno, e.cmd);
    p' := p + 16;
  }

  method PackHeader(buf: array<u8>, r: AppendWire)
    requires buf.Length == MAX_PAYLOAD && |r.entries| < WORD_SPAN
    modifies buf
    ensures buf[..] == Splice(old(buf[..]), 0, EncodeHeader(r))
  {
    ghost var b := buf[..];
    ghost var four := BigEndian(r.term) + BigEndian(r.leaderId) + BigEndian(r.prevLogIdx) + BigEndian(r.prevLogTerm);
    ghost var c, n := BigEndian(ToWord(r.leaderCommit)), BigEndian(ToWord(|r.entries|));
    WriteFour(buf, 0, r.term, r.leaderId, r.prevLogIdx, r.prevLogTerm);
    WriteWord(buf, 16, ToWord(r.leaderCommit));
    SpliceAdjacent(b, 0, four, c);
    WriteWord(buf, 20, ToWord(|r.entries|));
    SpliceAdjacent(b, 0, four + c, n);
  }

  /** One more entry behind those already packed. */
  lemma PackStep(b: seq<u8>, head: seq<u8>, es: seq<Entry>, i: nat)
    requires i < |es| && |head| + ENTRY_SIZE * (i + 1) <= |b|
    ensures Splice(Splice(b, 0, head + EncodeEntries(es[..i])), |head| + ENTRY_SIZE * i, EncodeEntry(es[i]))
            == Splice(b, 0, head + EncodeEntries(es[..i + 1]))
  {
    var done, one := EncodeEntries(es[..i]), EncodeEntry(es[i]);
    EncodeOneMore(es, i);
    Associative(head, done, one);
    SpliceAdjacent(b, 0, head + done, one);
  }

  lemma EncodeOneMore(es: seq<Entry>, i: nat)
    requires i < |es|
    ensures EncodeEntries(es[..i + 1]) == EncodeEntries(es[..i]) + EncodeEntry(es[i])
  {
    assert es[..i + 1][..i] == es[..i];
  }

  lemma Associative(a: seq<u8>, b: seq<u8>, c: seq<u8>)
    ensures a + b + c == a + (b + c)
  {
  }

  /** Packs a request; more than 32 entries are refused once the header is written. */
  method PackAppendReq(buf: array<u8>, r: AppendWire) returns (ok: bool, payloadN: nat)
    requires buf.Length == MAX_PAYLOAD && |r.entries| < WORD_SPAN
    modifies buf
    ensures ok <==> |r.entries| <= MAX_APPEND_ENTRIES
    ensures ok ==> payloadN == |Encode(r)| <= MAX_PAYLOAD && buf[..] == Splice(old(buf[..]), 0, Encode(r))
    ensures !ok ==> buf[..] == Splice(old(buf[..]), 0, EncodeHeader(r))
  {
    PackHeader(buf, r);
    payloadN := 0;
    if |r.entries| > MAX_APPEND_ENTRIES {
      return false, payloadN;
    }
    var p := HEADER_SIZE;
    var i := 0;
    assert EncodeHeader(r) + EncodeEntries(r.entries[..i]) == EncodeHeader(r);
    while i < |r.entries|
      invariant 0 <= i <= |r.entries| && p == HEADER_SIZE + ENTRY_SIZE * i
      invariant buf[..] == Splice(old(buf[..]), 0, EncodeHeader(r) + EncodeEntries(r.entries[..i]))
    {
      p := PackEntry(buf, p, r.entries[i]);
      PackStep(old(buf[..]), EncodeHeader(r), r.entries, i);
      i := i + 1;
    }
    assert r.entries[..i] == r.entries;
    payloadN := p;
    if payloadN > MAX_PAYLOAD {
      return false, payloadN;
    }
    ok := true;
  }

  // ---- unpacking

  method ReadWord(buf: array<u8>, p: nat) returns (v: u32)
    requires p + 4 <= buf.Length
    ensures v == WordAt(buf[..], p)
  {
    v := Word(buf[p], buf[p + 1], buf[p + 2], buf[p + 3]);
  }

  method UnpackEntry(buf: array<u8>, p: nat) returns (e: Entry, p': nat)
    requires p + ENTRY_SIZE <= buf.Length
    ensures e == DecodeEntry(buf[..], p) && p' == p + ENTRY_SIZE
  {
    var term := ReadWord(buf, p);
    var clientId := ReadWord(buf, p + 4);
    var cmdSeqno := ReadWord(buf, p + 8);
    var cmd := ReadWord(buf, p + 12);
    e, p' := Entry(term, clientId, cmdSeqno, cmd), p + 16;
  }

  /** The entry loop of the unpacker. */
  method UnpackEntries(buf: array<u8>, nEntries: nat) returns (entries: seq<Entry>)
    requires HEADER_SIZE + ENTRY_SIZE * nEntries <= buf.Length
    ensures entries == DecodeEntries(buf[..], HEADER_SIZE, nEntries)
  {
    entries := [];
    var p := HEADER_SIZE;
    var i := 0;
    while i < nEntries
      invariant 0 <= i <= nEntries && p == HEADER_SIZE + ENTRY_SIZE * i
      invariant entries == DecodeEntries(buf[..], HEADER_SIZE, i)
    {
      var e;
      e, p := UnpackEntry(buf, p);
      entries := entries + [e];
      i := i + 1;
    }
  }

  /** Unpacks a request, or refuses a payload too short for its header or for its stated entries. */
  method UnpackAppendReq(buf: array<u8>, payloadN: nat) returns (r: Parsed)
    requires buf.Length == MAX_PAYLOAD
    ensures r == Decode(buf[..], payloadN)
  {
    if payloadN < HEADER_SIZE {
      return Bad;
    }
    var term := ReadWord(buf, 0);
    var leaderId := ReadWord(buf, 4);
    var prevLogIdx := ReadWord(buf, 8);
    var prevLogTerm := ReadWord(buf, 12);
    var leaderCommit := ReadWord(buf, 16);
    var nEntries := ReadWord(buf, 20);
    if nEntries > MAX_APPEND_ENTRIES {
      return Bad;
    }
    if payloadN < HEADER_SIZE + ENTRY_SIZE * nEntries {
      return Bad;
    }
    var entries := UnpackEntries(buf, nEntries);
    r := Good(AppendWire(term, leaderId, prevLogIdx, prevLogTerm, ToInt(leaderCommit), entries));
  }

  /** Pack then unpack, in one buffer, gives every sendable request back. */
  method PackUnpack(buf: array<u8>, r: AppendWire) returns (back: Parsed)
    requires buf.Length == MAX_PAYLOAD && |r.entries| <= MAX_APPEND_ENTRIES
    modifies buf
    ensures back == Good(r)
  {
    var ok, payloadN := PackAppendReq(buf, r);
    assert Encode(r) <= buf[..];
    DecodeEncode(r, buf[..]);
    back := UnpackAppendReq(buf, payloadN);
  }
}
