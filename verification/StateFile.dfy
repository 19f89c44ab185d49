/** The durable term and vote. */
module StateFile {
  import opened Words
  import opened Types
  import opened Bytes

  const CURRENT_TERM: nat := 0
  const VOTED_FOR: nat := 1
  const STATE_SIZE: nat := 8

  datatype Fields = Fields(term: u32, vote: u32)

  /** What a process that opens the file sees. */
  function Recover(file: seq<u8>): Fields
    requires |file| >= STATE_SIZE
  {
    Fields(FromNative(file[..4]), FromNative(file[4..8]))
  }

  /** The file once persistent_fields_init has run: one too short is overwritten with term 0 and no vote. */
  function Booted(file: seq<u8>): seq<u8> {
    if |file| < STATE_SIZE then Splice(file, 0, Native(0) + Native(NO_VOTE)) else file
  }

  function With(fs: Fields, f: nat, v: u32): Fields {
    if f == CURRENT_TERM then fs.(term := v) else fs.(vote := v)
  }

  function Called(file: seq<u8>, f: nat, v: u32): seq<u8>
    requires 4 * f <= |file|
  {
    Splice(file, 4 * f, Native(v))
  }

  /** Where the two words stand in the file, the least significant byte first, and where a set writes. */
  lemma StateLayout(file: seq<u8>, f: nat, v: u32)
    requires |file| >= STATE_SIZE && f <= VOTED_FOR
    ensures Recover(file).term
            == file[0] as int + file[1] as int * 0x100 + file[2] as int * 0x1_0000 + file[3] as int * 0x100_0000
    ensures Recover(file).vote
            == file[4] as int + file[5] as int * 0x100 + file[6] as int * 0x1_0000 + file[7] as int * 0x100_0000
    ensures |Called(file, f, v)| == |file|
    ensures forall k | 0 <= k < |file| && !(4 * f <= k < 4 * f + 4) :: Called(file, f, v)[k] == file[k]
  {
    assert Called(file, f, v)[..4 * f] == file[..4 * f] && Called(file, f, v)[4 * f + 4..] == file[4 * f + 4..];
  }

  lemma BootRecovers(file: seq<u8>)
    ensures |Booted(file)| >= STATE_SIZE
    ensures Recover(Booted(file)) == if |file| < STATE_SIZE then Fields(0, NO_VOTE) else Recover(file)
  {
  }

  /** The one system call of a set stores that field and keeps the other; before it the file is untouched. */
  lemma SetRecovers(file: seq<u8>, f: nat, v: u32)
    requires |file| >= STATE_SIZE && f <= VOTED_FOR
    ensures |Called(file, f, v)| >= STATE_SIZE && Recover(Called(file, f, v)) == With(Recover(file), f, v)
  {
    var r := Called(file, f, v);
    NativeRoundTrip(v);
    assert r[4 * f..4 * f + 4] == Native(v);
    if f == CURRENT_TERM {
      assert r[4..8] == r[4..][..4] == file[4..][..4] == file[4..8];
    } else {
      assert r[..4] == file[..4];
    }
  }

  /** The file holds these two words, said byte by byte. */
  ghost predicate Shows(file: seq<u8>, fs: Fields) {
    && |file| >= STATE_SIZE
    && (forall k {:trigger file[k]} | 0 <= k < 4 :: file[k] == Native(fs.term)[k])
    && (forall k {:trigger file[k]} | 4 <= k < 8 :: file[k] == Native(fs.vote)[k - 4])
  }

  lemma ShowsIsRecovers(file: seq<u8>, fs: Fields)
    ensures Shows(file, fs) <==> |file| >= STATE_SIZE && Recover(file) == fs
  {
    if Shows(file, fs) {
      assert file[..4] == Native(fs.term) && file[4..8] == Native(fs.vote);
      NativeRoundTrip(fs.term);
      NativeRoundTrip(fs.vote);
    }
    if |file| >= STATE_SIZE && Recover(file) == fs {
      FromNativeRoundTrip(file[..4]);
      FromNativeRoundTrip(file[4..8]);
      assert forall k | 4 <= k < 8 :: file[k] == file[4..8][k - 4];
    }
  }

  class State {
    var file: seq<u8>

    /** The term and vote the file holds. */
    ghost var contents: Fields

    ghost predicate Valid()
      reads this
    {
      Shows(file, contents)
    }

    /** persistent_fields_init on whatever file is there. */
    constructor (found: seq<u8>)
      ensures Valid() && file == Booted(found)
      ensures contents == if |found| < STATE_SIZE then Fields(0, NO_VOTE) else Recover(found)
    {
      file := if |found| < STATE_SIZE then Splice(found, 0, Native(0) + Native(NO_VOTE)) else found;
      new;
      BootRecovers(found);
      contents := Recover(file);
      ShowsIsRecovers(file, contents);
    }

    /** pf_get: the word, read as an `int`. */
    method Get(f: nat) returns (v: int)
      requires Valid() && f <= VOTED_FOR
      ensures v == ToInt(if f == CURRENT_TERM then contents.term else contents.vote)
    {
      ShowsIsRecovers(file, contents);
      var word := file[4 * f..4 * f + 4];
      v := ToInt(FromNative(word));
    }

    /** pf_set: `seen` holds the file after each system call that changes it. */
    method Set(f: nat, v: u32) returns (ghost seen: seq<seq<u8>>)
      requires Valid() && f <= VOTED_FOR
      modifies this
      ensures Valid() && contents == With(old(contents), f, v)
      ensures seen == [file] == [Called(old(file), f, v)]
    {
      ShowsIsRecovers(file, contents);
      SetRecovers(file, f, v);
      file := Splice(file, 4 * f, Native(v));
      contents := With(contents, f, v);
      ShowsIsRecovers(file, contents);
      seen := [file];
    }
  }
}
