/** The records of the node, its log and its messages. */
module Types {
  import opened Words

  const NO_VOTE: u32 := 0x7FFF_FFFF
  const NO_LEADER: u32 := 0xFFFF_FFFF
  const MAX_APPEND_ENTRIES: nat := 32
  const MAX_OUTSTANDING_REQUESTS: nat := 128

  datatype Entry = Entry(term: u32, clientId: u32, cmdSeqno: u32, cmd: u32)

  datatype Message =
    | AppendReq(term: u32, leaderId: u32, prevLogIdx: IndexWord, prevLogTerm: u32,
                leaderCommit: int, entries: seq<Entry>)
    | AppendRes(term: u32, newMatchIndex: u32, success: bool)
    | VoteReq(term: u32, candidateId: u32, lastLogIdx: u32, lastLogTerm: u32)
    | VoteRes(term: u32, granted: bool)
    | ProcReq(clientId: u32, cmdSeqno: u32, cmd: u32)
    | ProcRes(clientId: u32, cmdSeqno: u32, success: bool, leaderHint: u32, term: u32)

  datatype Packet = Packet(src: u32, dst: u32, msg: Message)

  datatype Role = Follower | Candidate | Leader

  /** One row of the table of client requests waiting to be applied. */
  datatype Slot = Slot(clientId: u32, cmdSeqno: u32, logIdx: u32, active: bool)

  /** What survives a crash. */
  datatype Durable = Durable(term: u32, vote: u32, log: seq<Entry>)

  /** What a crash loses. */
  datatype Volatile = Volatile(role: Role, commitIndex: int, lastApplied: int, leaderId: u32,
                               votesReceived: nat, nextIndex: seq<Len>, matchIndex: seq<int>,
                               slots: seq<Slot>)

  datatype Node = Node(hard: Durable, soft: Volatile)

  datatype Config = Config(id: nat, n: nat) {
    /** Node ids are below the cluster size and distinct from the no-vote sentinel. */
    predicate Valid() {
      id < n && 2 <= n < NO_VOTE
    }
  }

  /** One synchronous write to stable storage. */
  datatype Write = SetTerm(term: u32) | SetVote(vote: u32) | Truncate(len: nat) | Append(entry: Entry)

  /** An entry handed to the state machine. */
  datatype Applied = Applied(index: int, entry: Entry)

  /** Everything a handler does: its writes in order, then its sends and applies. */
  datatype Outcome = Outcome(writes: seq<Write>, soft: Volatile, sent: seq<Packet>, applied: seq<Applied>)

  function ApplyWrite(d: Durable, w: Write): Durable {
    match w
    case SetTerm(t) => d.(term := t)
    case SetVote(v) => d.(vote := v)
    case Truncate(len) => d.(log := if len <= |d.log| then d.log[..len] else d.log)
    case Append(e) => d.(log := d.log + [e])
  }

  function ApplyWrites(d: Durable, ws: seq<Write>): Durable
    decreases |ws|
  {
    if ws == [] then d else ApplyWrites(ApplyWrite(d, ws[0]), ws[1..])
  }

  lemma {:induction false} ApplyWritesConcat(d: Durable, a: seq<Write>, b: seq<Write>)
    ensures ApplyWrites(d, a + b) == ApplyWrites(ApplyWrites(d, a), b)
    decreases |a|
  {
    if a == [] {
      assert a + b == b;
    } else {
      assert (a + b)[0] == a[0] && (a + b)[1..] == a[1..] + b;
      ApplyWritesConcat(ApplyWrite(d, a[0]), a[1..], b);
    }
  }

  lemma ApplyWritesShort(d: Durable, a: Write, b: Write)
    ensures ApplyWrites(d, []) == d
    ensures ApplyWrites(d, [a]) == ApplyWrite(d, a)
    ensures ApplyWrites(d, [a, b]) == ApplyWrite(ApplyWrite(d, a), b)
  {
    assert [a][1..] == [] && [a, b][1..] == [b] && [b][1..] == [];
    assert ApplyWrites(ApplyWrite(d, a), [b]) == ApplyWrite(ApplyWrite(d, a), b);
  }
}
