/** The node as it runs, over its files. */
module RaftNode {
  import opened Words
  import opened Types
  import opened NodeSpec
  import opened Storage
  import HandlerLaws
  import opened Bytes
  import Accrual
  import FileLog
  import StateFile

  /** What a node is and what it has done since its handler began. */
  datatype Moment = Moment(node: Node, start: Durable, writes: seq<Write>,
                           outbox: seq<Packet>, delivered: seq<Applied>, said: nat)

  /** The moment after the specification's outcome, and nothing else, has happened. */
  ghost function Then(m: Moment, o: Outcome): Moment {
    Moment(After(m.node, o), m.start, m.writes + o.writes, m.outbox + o.sent, m.delivered + o.applied, m.said)
  }

  /** What one turn of the merge loop writes, and the log it leaves. */
  ghost predicate Merges(log: seq<Entry>, at: nat, e: Entry, ws: seq<Write>, ws': seq<Write>, log': seq<Entry>) {
    if at < |log| && log[at].term == e.term then ws' == ws && log' == log
    else if at < |log| then ws' == ws + [Truncate(at), Append(e)] && log' == log[..at] + [e]
    else ws' == ws + [Append(e)] && log' == log + [e]
  }

  lemma MergesOn(log: seq<Entry>, at: nat, es: seq<Entry>, ws: seq<Write>, ws': seq<Write>, log': seq<Entry>)
    requires es != [] && Merges(log, at, es[0], ws, ws', log')
    ensures ws + MergeWrites(log, at, es) == ws' + MergeWrites(log', at + 1, es[1..])
  {
  }

  /** One outcome after another, as one. */
  ghost function Both(a: Outcome, b: Outcome): Outcome {
    Outcome(a.writes + b.writes, b.soft, a.sent + b.sent, a.applied + b.applied)
  }

  lemma ThenBoth(m: Moment, a: Outcome, b: Outcome)
    ensures Then(Then(m, a), b) == Then(m, Both(a, b))
  {
    ApplyWritesConcat(m.node.hard, a.writes, b.writes);
    assert m.writes + (a.writes + b.writes) == m.writes + a.writes + b.writes;
    assert m.outbox + (a.sent + b.sent) == m.outbox + a.sent + b.sent;
    assert m.delivered + (a.applied + b.applied) == m.delivered + a.applied + b.applied;
  }

  lemma ThenNothing(m: Moment)
    ensures Then(m, Nothing(m.node.soft)) == m
  {
  }

  /** A handler that began with no writes has run: the record of its system calls is that of its outcome. */
  lemma Reported(m: Moment, m1: Moment, o: Outcome, found: seq<Durable>)
    requires m.writes == [] && m.start == m.node.hard && m1 == Then(m, o) && Covers(m1.start, m1.writes, found)
    ensures found == AfterAll(m.node.hard, o.writes) && m1.writes == o.writes
    ensures |m1.outbox| + |m1.delivered| == |m.outbox| + |m.delivered| + |o.sent| + |o.applied|
  {
    assert m1.writes == m.writes + o.writes == o.writes;
    CoversIs(m1.start, m1.writes, found);
  }

  /** What the unpacker lets through: at most 32 entries, and indices that are `int`. */
  predicate Sendable(m: Message)
    requires m.AppendReq?
  {
    |m.entries| <= MAX_APPEND_ENTRIES && -INT_SPAN <= m.leaderCommit < INT_SPAN
  }

  /** The rest of a request whose prev check has passed. */
  ghost function Taken(cfg: Config, nd: Node, m: Message, ackTerm: u32): Outcome
    requires cfg.Valid() && m.AppendReq?
  {
    var merge := MergeWrites(nd.hard.log, ToInt(m.prevLogIdx) + 1, m.entries);
    var p := Followed(cfg, ApplyWrites(nd.hard, merge), nd.soft, m);
    Outcome(merge, p.soft, p.sent + [AppendReply(cfg, m.leaderId, ackTerm, ToWord(m.prevLogIdx + |m.entries|), true)],
            p.applied)
  }

  lemma TakenInTurn(cfg: Config, m: Moment, m1: Moment, m2: Moment, req: Message, ackTerm: u32)
    requires cfg.Valid() && req.AppendReq?
    requires var merge := MergeWrites(m.node.hard.log, ToInt(req.prevLogIdx) + 1, req.entries);
             m1 == Then(m, Outcome(merge, m.node.soft, [], []))
    requires var p := Followed(cfg, m1.node.hard, m1.node.soft, req);
             m2 == Then(m1, Outcome([], p.soft, p.sent, p.applied))
    ensures var ack := AppendReply(cfg, req.leaderId, ackTerm, ToWord(req.prevLogIdx + |req.entries|), true);
            m2.(outbox := m2.outbox + [ack]) == Then(m, Taken(cfg, m.node, req, ackTerm))
  {
  }

  /** The prev check of a request, and what follows it. */
  ghost function Considered(cfg: Config, nd: Node, m: Message, ackTerm: u32): Outcome
    requires cfg.Valid() && m.AppendReq?
  {
    if PrevMatches(nd.hard.log, m) then Taken(cfg, nd, m, ackTerm)
    else Outcome([], nd.soft, [AppendReply(cfg, m.leaderId, ackTerm, 0, false)], [])
  }

  ghost function Heeded(nd: Node, m: Message): Outcome
    requires m.AppendReq?
  {
    if StepsDownFor(nd, m) then StepDown(nd.soft, m.term, m.leaderId) else Nothing(nd.soft.(leaderId := m.leaderId))
  }

  /** A request whose term is current is heeded, and then considered. */
  lemma HeededThenConsidered(cfg: Config, nd: Node, req: Message)
    requires cfg.Valid() && req.AppendReq? && ToInt(nd.hard.term) >= 0 && req.term >= nd.hard.term
    ensures var heeded := Heeded(nd, req);
            HandleAppendReq(cfg, nd, req) == Both(heeded, Considered(cfg, After(nd, heeded), req, nd.hard.term))
  {
    var heeded := Heeded(nd, req);
    var nd1 := After(nd, heeded);
    ApplyWritesShort(nd.hard, SetTerm(req.term), SetVote(NO_VOTE));
    assert nd1.hard.log == nd.hard.log;
    if PrevMatches(nd.hard.log, req) {
      var merge := MergeWrites(nd.hard.log, ToInt(req.prevLogIdx) + 1, req.entries);
      ApplyWritesConcat(nd.hard, heeded.writes, merge);
      assert ApplyWrites(nd1.hard, merge) == ApplyWrites(nd.hard, heeded.writes + merge);
    }
  }

  lemma ConsideredAfterHeeding(cfg: Config, m: Moment, m1: Moment, req: Message)
    requires cfg.Valid() && req.AppendReq? && ToInt(m.node.hard.term) >= 0 && req.term >= m.node.hard.term
    requires m1 == Then(m, Heeded(m.node, req))
    ensures Then(m1, Considered(cfg, m1.node, req, m.node.hard.term)) == Then(m, HandleAppendReq(cfg, m.node, req))
  {
    HeededThenConsidered(cfg, m.node, req);
    ThenBoth(m, Heeded(m.node, req), Considered(cfg, m1.node, req, m.node.hard.term));
  }

  /** A vote request of the node's own term. */
  ghost function Voted(cfg: Config, nd: Node, m: Message): Outcome
    requires cfg.Valid() && m.VoteReq?
  {
    if ToInt(nd.hard.vote) < 0 then Nothing(nd.soft)
    else if !Grants(nd, m) then Outcome([], nd.soft, [Packet(cfg.id, m.candidateId, VoteRes(m.term, false))], [])
    else Outcome([SetVote(m.candidateId)], nd.soft, [Packet(cfg.id, m.candidateId, VoteRes(m.term, true))], [])
  }

  predicate Grants(nd: Node, m: Message)
    requires m.VoteReq?
  {
    (nd.hard.vote == NO_VOTE || nd.hard.vote == m.candidateId) && UpToDate(nd.hard.log, m.lastLogIdx, m.lastLogTerm)
  }

  /** The vote, if any, and then the reply. */
  lemma VotedInTurn(cfg: Config, m: Moment, m1: Moment, req: Message)
    requires cfg.Valid() && req.VoteReq? && ToInt(m.node.hard.vote) >= 0
    requires m1 == if Grants(m.node, req) then Then(m, Outcome([SetVote(req.candidateId)], m.node.soft, [], [])) else m
    ensures var reply := Packet(cfg.id, req.candidateId, VoteRes(req.term, Grants(m.node, req)));
            m1.(outbox := m1.outbox + [reply]) == Then(m, Voted(cfg, m.node, req))
  {
    ThenNothing(m);
  }

  lemma VotedAfterSteppingDown(cfg: Config, m: Moment, m1: Moment, src: u32, req: Message)
    requires cfg.Valid() && req.VoteReq? && ToInt(m.node.hard.term) >= 0 && req.term >= m.node.hard.term
    requires m1 == if req.term > m.node.hard.term then Then(m, StepDown(m.node.soft, req.term, src)) else m
    ensures Then(m1, Voted(cfg, m1.node, req)) == Then(m, HandleVoteReq(cfg, m.node, src, req))
  {
    if req.term > m.node.hard.term {
      var down := StepDown(m.node.soft, req.term, src);
      ApplyWritesShort(m.node.hard, SetTerm(req.term), SetVote(NO_VOTE));
      var vote := Voted(cfg, m1.node, req);
      assert vote.writes == [] ==> down.writes + vote.writes == down.writes;
      ThenBoth(m, down, vote);
      assert HandleVoteReq(cfg, m.node, src, req) == Both(down, vote);
    } else {
      assert [] + [SetVote(req.candidateId)] == [SetVote(req.candidateId)];
    }
  }

  const TS_TIMEOUT: u32 := 50
  const TS_ACCRUAL: u32 := 51

  /** Whether a follower's timer makes it a candidate: by the plain timeout, while ramping up, or by the detector. */
  predicate Suspects(scheme: u32, rampSize: u32, w: Accrual.Window, threshold: real, now: Accrual.u64)
    requires Accrual.Shaped(w)
  {
    scheme == TS_TIMEOUT || w.num < rampSize || (scheme == TS_ACCRUAL && Accrual.Suspects(w, threshold, now))
  }

  /** What that comes to, said of the heartbeats heard since the detector was reset. */
  predicate GivesUp(scheme: u32, rampSize: u32, size: nat, threshold: real, beats: seq<Accrual.u64>, now: Accrual.u64) {
    || scheme == TS_TIMEOUT
    || Accrual.Counted(size, beats) < rampSize
    || (scheme == TS_ACCRUAL && beats != [] && Accrual.Overdue(size, beats, threshold, now))
  }

  lemma SuspectsIffGivesUp(scheme: u32, rampSize: u32, size: nat, threshold: real, beats: seq<Accrual.u64>,
                           now: Accrual.u64)
    requires size > 0
    ensures Accrual.Positive(beats) ==>
              (Suspects(scheme, rampSize, Accrual.Heard(size, beats), threshold, now)
               <==> GivesUp(scheme, rampSize, size, threshold, beats, now))
    ensures scheme == TS_TIMEOUT || Accrual.Gaps(beats) < rampSize ==>
              Suspects(scheme, rampSize, Accrual.Heard(size, beats), threshold, now)
  {
    Accrual.CountsAtMost(size, beats);
    if Accrual.Positive(beats) {
      Accrual.WindowHoldsLastGaps(size, beats);
      if beats != [] {
        Accrual.SuspectsIff(size, beats, threshold, now);
      }
    }
  }

  /** The heartbeats the detector has heard once a node has handled a message at time `now`. */
  function BeatsAfter(cfg: Config, nd: Node, m: Message, now: Accrual.u64, beats: seq<Accrual.u64>): seq<Accrual.u64> {
    var cur := nd.hard.term;
    match m
    case AppendReq(_, _, _, _, _, _) => if ToInt(cur) < 0 || m.term < cur then beats else BeatsHeard(nd, m, now, beats)
    case AppendRes(_, _, _) => if m.term > cur then [] else beats
    case VoteReq(_, _, _, _) => if ToInt(cur) >= 0 && m.term > cur then [] else beats
    case VoteRes(_, _) =>
      if nd.soft.role == Candidate
         && (m.term > cur || (m.term == cur && m.granted && nd.soft.votesReceived + 1 > cfg.n / 2)) then []
      else beats
    case _ => beats
  }

  /** A request of the leader of this term counts as a heartbeat of a follower if it carries no entries. */
  function BeatsHeard(nd: Node, m: Message, now: Accrual.u64, beats: seq<Accrual.u64>): seq<Accrual.u64>
    requires m.AppendReq?
  {
    var kept := if StepsDownFor(nd, m) then [] else beats;
    if (StepsDownFor(nd, m) || nd.soft.role == Follower) && m.entries == [] then kept + [now] else kept
  }

  /** What raft_run waits for. */
  datatype Arrival = Arrived(p: Packet) | TimerFired

  class Raft {
    const cfg: Config
    const store: Store
    var role: Role
    var commitIndex: int
    var lastApplied: int
    var leaderId: u32
    var votesReceived: nat
    const nextIndex: array<Len>
    const matchIndex: array<int>
    const slots: array<Slot>
    /** What the transport was given, and what the state machine was given. */
    var outbox: seq<Packet>
    ghost var delivered: seq<Applied>
    /** How much of both there was when the current handler began. */
    ghost var said: nat
    /** How many system calls had changed a file when the first packet was sent or the first entry applied since. */
    ghost var spokeAt: nat
    /** The failure detector, and when a follower's timer listens to it. */
    const telemetry: Accrual.Telemetry
    const scheme: u32
    const rampSize: u32

    ghost predicate Valid()
      reads `lastApplied, `commitIndex, `outbox, `delivered, `said, `spokeAt, store, store.log, store.fields
    {
      && cfg.Valid() && store.Valid() && Spoken()
      && nextIndex.Length == matchIndex.Length == cfg.n && slots.Length == MAX_OUTSTANDING_REQUESTS
      && -1 <= lastApplied < INT_SPAN && -1 <= commitIndex < INT_SPAN
    }

    /** No file has changed since the first packet was sent or the first entry applied. */
    ghost predicate Spoken()
      reads `outbox, `delivered, `said, `spokeAt, store
    {
      && said <= |outbox| + |delivered|
      && (Silent() || spokeAt == |store.found|)
    }

    ghost function Soft(): (v: Volatile)
      reads `role, `commitIndex, `lastApplied, `leaderId, `votesReceived, nextIndex, matchIndex, slots
    {
      Volatile(role, commitIndex, lastApplied, leaderId, votesReceived, nextIndex[..], matchIndex[..], slots[..])
    }

    ghost function Hard(): Durable
      reads store.log, store.fields
    {
      store.Hard()
    }

    /** The node this object is, as the specification sees it. */
    ghost function State(): Node
      reads `role, `commitIndex, `lastApplied, `leaderId, `votesReceived, nextIndex, matchIndex, slots
      reads store, store.log, store.fields
    {
      Node(Hard(), Soft())
    }

    /** The length of the log is a non-negative `int`. */
    ghost predicate Fitting()
      reads store.log, store.fields
    {
      |Hard().log| < INT_SPAN
    }

    /** And it still is once the entries of one more request have been appended. */
    ghost predicate HasRoom()
      reads store.log, store.fields
    {
      |Hard().log| + MAX_APPEND_ENTRIES < INT_SPAN
    }

    /** The current handler has sent nothing and applied nothing yet, so it may still write. */
    ghost predicate Silent()
      reads `outbox, `delivered, `said
    {
      |outbox| + |delivered| == said
    }

    /** Everything a handler can have changed. */
    ghost function Now(): Moment
      reads `role, `commitIndex, `lastApplied, `leaderId, `votesReceived, nextIndex, matchIndex, slots
      reads store, store.log, store.fields, `outbox, `delivered, `said
    {
      Moment(State(), store.start, store.writes, outbox, delivered, said)
    }

    /** raft_create over the files this node left behind. */
    constructor (config: Config, files: FileLog.Disk, state: seq<u8>, timeoutScheme: u32, threshold: real,
                 windowSize: nat, ramp: u32)
      requires config.Valid() && FileLog.Sound(files) && windowSize > 0
      ensures telemetry.Valid() && telemetry.beats == [] && telemetry.size == windowSize
      ensures telemetry.threshold == threshold && scheme == timeoutScheme && rampSize == ramp
      ensures Valid() && cfg == config && Fresh(cfg, Soft()) && outbox == [] && delivered == []
      ensures role == Follower && leaderId == NO_LEADER && votesReceived == 0 && commitIndex == lastApplied == -1
      ensures slots.Length == 128 && forall k | 0 <= k < slots.Length :: !slots[k].active
      ensures Hard().log == FileLog.Recover(files)
      ensures |state| >= StateFile.STATE_SIZE ==> StateFile.Fields(Hard().term, Hard().vote) == StateFile.Recover(state)
      ensures |state| < StateFile.STATE_SIZE ==> Hard().term == 0 && Hard().vote == NO_VOTE
    {
      nextIndex := new Len[config.n];
      matchIndex := new int[config.n];
      cfg := config;
      role := Follower;
      store := new Store(files, state);
      commitIndex, lastApplied := -1, -1;
      leaderId := NO_LEADER;
      votesReceived := 0;
      slots := new Slot[MAX_OUTSTANDING_REQUESTS](i => Slot(0, 0, 0, false));
      outbox, delivered := [], [];
      said := 0;
      telemetry := new Accrual.Telemetry(threshold, windowSize);
      scheme, rampSize := timeoutScheme, ramp;
    }

    // ---- reading the log

    /** raft_get_log_term */
    method GetLogTerm(idx: int) returns (term: u32)
      requires store.Valid() && Fitting() && -INT_SPAN <= idx < INT_SPAN
      ensures term == LogTerm(Hard().log, idx)
    {
      term := 0;
      if idx < 0 {
        return;
      }
      var logLen := store.log.Length();
      if idx >= logLen {
        return;
      }
      var n, ent := store.log.Read(idx, 16);
      if n == 16 {
        term := ent.term;
      }
    }

    /** log_is_up_to_date */
    method LogIsUpToDate(reqLastIdx: u32, reqLastTerm: u32) returns (yes: bool)
      requires Valid() && Fitting()
      ensures yes == UpToDate(Hard().log, reqLastIdx, reqLastTerm)
    {
      var logLen := store.log.Length();
      var myLastTerm := GetLogTerm(logLen - 1);
      if myLastTerm < reqLastTerm {
        return true;
      }
      if myLastTerm == reqLastTerm {
        return ToWord(logLen - 1) <= reqLastIdx;
      }
      yes := false;
    }

    // ---- broadcasts

    method Send(p: Packet)
      requires Valid()
      modifies `outbox, `spokeAt
      ensures Valid() && outbox == old(outbox) + [p]
    {
      spokeAt := if Silent() then |store.found| else spokeAt;
      outbox := outbox + [p];
    }

    method BroadcastRequestVote()
      requires Valid() && Fitting()
      modifies `outbox, `spokeAt
      ensures Valid() && outbox == old(outbox) + VoteRequests(cfg, Hard(), cfg.n)
    {
      var logLen := store.log.Length();
      var term := store.fields.Get(StateFile.CURRENT_TERM);
      var lastTerm := GetLogTerm(logLen - 1);
      var req := VoteReq(ToWord(term), cfg.id, ToWord(logLen - 1), lastTerm);
      ghost var hard := Hard();
      for i := 0 to cfg.n
        invariant Valid() && outbox == old(outbox) + VoteRequests(cfg, hard, i)
      {
        if i != cfg.id {
          Send(Packet(cfg.id, i, req));
        }
      }
    }

    /** The entries of one request: a batch read one by one from next_index on. */
    method ReadBatch(next: Len, count: nat) returns (entries: seq<Entry>)
      requires Valid() && Fitting() && next + count <= |Hard().log|
      ensures entries == Hard().log[next..next + count]
    {
      entries := [];
      for j := 0 to count
        invariant entries == Hard().log[next..next + j]
      {
        var n, ent := store.log.Read(next + j, 16);
        entries := entries + [ent];
      }
    }

    /** As many entries as there are from next_index on, up to what one request holds. */
    method NextBatch(next: Len) returns (entries: seq<Entry>)
      requires Valid() && Fitting()
      ensures var k := BatchSize(|Hard().log|, next, false);
              entries == if k == 0 then [] else Hard().log[next..next + k]
    {
      var logLen := store.log.Length();
      var nToSend := logLen - next;
      if nToSend > MAX_APPEND_ENTRIES {
        nToSend := MAX_APPEND_ENTRIES;
      }
      if nToSend < 0 {
        nToSend := 0;
      }
      entries := [];
      if nToSend > 0 {
        entries := ReadBatch(next, nToSend);
      }
    }

    /** The request a broadcast sends to one peer. */
    method RequestFor(i: nat) returns (p: Packet)
      requires Valid() && Fitting() && i < cfg.n
      ensures p == AppendRequest(cfg, State(), i, false)
    {
      var curTerm := store.fields.Get(StateFile.CURRENT_TERM);
      var next: int := nextIndex[i];
      var prevTerm := GetLogTerm(next - 1);
      var entries := NextBatch(next);
      p := Packet(cfg.id, i, AppendReq(ToWord(curTerm), cfg.id, Before(next), prevTerm, commitIndex, entries));
    }

    method HeartbeatFor(i: nat) returns (p: Packet)
      requires Valid() && Fitting() && i < cfg.n
      ensures p == AppendRequest(cfg, State(), i, true)
    {
      var curTerm := store.fields.Get(StateFile.CURRENT_TERM);
      var next: int := nextIndex[i];
      var prevTerm := GetLogTerm(next - 1);
      p := Packet(cfg.id, i, AppendReq(ToWord(curTerm), cfg.id, Before(next), prevTerm, commitIndex, []));
    }

    method SendRequest(i: nat)
      requires Valid() && Fitting() && i < cfg.n && i != cfg.id
      modifies `outbox, `spokeAt
      ensures Valid()
      ensures outbox == old(outbox) + [AppendRequest(cfg, State(), i, false)]
    {
      var p := RequestFor(i);
      Send(p);
    }

    /** broadcast_append_entries */
    method BroadcastAppendEntries()
      requires Valid() && Fitting()
      modifies `outbox, `spokeAt
      ensures Valid()
      ensures outbox == old(outbox) + (if role == Leader then AppendRequests(cfg, State(), cfg.n, false) else [])
    {
      if role != Leader {
        return;
      }
      ghost var nd := State();
      for i := 0 to cfg.n
        invariant Valid() && outbox == old(outbox) + AppendRequests(cfg, nd, i, false)
      {
        ghost var before := AppendRequests(cfg, nd, i, false);
        if i != cfg.id {
          SendRequest(i);
          assert AppendRequests(cfg, nd, i + 1, false) == before + [AppendRequest(cfg, nd, i, false)];
        }
      }
    }

    /** send_heartbeats */
    method SendHeartbeats()
      requires Valid() && Fitting()
      modifies `outbox, `spokeAt
      ensures Valid()
      ensures outbox == old(outbox) + (if role == Leader then AppendRequests(cfg, State(), cfg.n, true) else [])
    {
      if role != Leader {
        return;
      }
      ghost var nd := State();
      for i := 0 to cfg.n
        invariant Valid() && outbox == old(outbox) + AppendRequests(cfg, nd, i, true)
      {
        ghost var before := AppendRequests(cfg, nd, i, true);
        if i != cfg.id {
          var p := HeartbeatFor(i);
          Send(p);
          assert AppendRequests(cfg, nd, i + 1, true) == before + [p];
        }
      }
    }

    // ---- the state machine

    /** Answers the client waiting for this entry, if one of the slots holds it. */
    method AnswerClient(entry: Entry)
      requires Valid()
      modifies slots, `outbox, `spokeAt
      ensures Valid()
      ensures var k := FindSlot(old(slots[..]), entry, 0);
              if k < slots.Length then
                && slots[..] == old(slots[..])[k := old(slots[..])[k].(active := false)]
                && outbox == old(outbox) + [Reply(cfg, Hard().term, entry)]
              else slots[..] == old(slots[..]) && outbox == old(outbox)
    {
      for i := 0 to MAX_OUTSTANDING_REQUESTS
        invariant Valid() && slots[..] == old(slots[..]) && outbox == old(outbox)
        invariant FindSlot(slots[..], entry, 0) == FindSlot(slots[..], entry, i)
      {
        if slots[i].active && slots[i].clientId == entry.clientId && slots[i].cmdSeqno == entry.cmdSeqno {
          var term := store.fields.Get(StateFile.CURRENT_TERM);
          Send(Packet(cfg.id, entry.clientId, ProcRes(entry.clientId, entry.cmdSeqno, true, cfg.id, ToWord(term))));
          slots[i] := slots[i].(active := false);
          break;
        }
      }
    }

    /** The state machine is given the entry at last_applied. */
    method Deliver(entry: Entry)
      requires Valid()
      modifies `spokeAt, `delivered
      ensures Valid() && delivered == old(delivered) + [Applied(lastApplied, entry)]
    {
      spokeAt := if Silent() then |store.found| else spokeAt;
      delivered := delivered + [Applied(lastApplied, entry)];
    }

    /** One turn of the apply loop. */
    method ApplyNext()
      requires Valid() && Fitting() && lastApplied < commitIndex
      modifies `lastApplied, `outbox, `spokeAt, `delivered, slots
      ensures Valid()
      ensures var one := ApplyOne(cfg, Hard(), old(Soft()));
              Soft() == one.soft && outbox == old(outbox) + one.sent && delivered == old(delivered) + one.applied
    {
      lastApplied := lastApplied + 1;
      var n, entry := store.log.Read(lastApplied, 16);
      if n == 16 {
        Deliver(entry);
        if role == Leader {
          AnswerClient(entry);
        }
      }
    }

    /** apply_to_state_machine */
    method ApplyToStateMachine()
      requires Valid() && Fitting()
      modifies `lastApplied, `outbox, `spokeAt, `delivered, slots
      ensures Valid()
      ensures var p := ApplyCommitted(cfg, Hard(), old(Soft()));
              Soft() == p.soft && outbox == old(outbox) + p.sent && delivered == old(delivered) + p.applied
    {
      ghost var hard, p := Hard(), ApplyCommitted(cfg, Hard(), Soft());
      while lastApplied < commitIndex
        invariant Valid()
        invariant EndsIn(hard, Soft(), outbox, delivered, p, old(outbox), old(delivered))
        decreases commitIndex - lastApplied
      {
        ghost var v, sent, given := Soft(), outbox, delivered;
        ApplyNext();
        EndsInOn(hard, v, sent, given, Soft(), outbox, delivered, p, old(outbox), old(delivered));
      }
    }

    /** The loop will end in p, counted from `sent` and `given`. */
    ghost predicate EndsIn(hard: Durable, v: Volatile, sent: seq<Packet>, given: seq<Applied>, p: Progress,
                          sent0: seq<Packet>, given0: seq<Applied>)
      requires cfg.Valid()
    {
      var rest := ApplyCommitted(cfg, hard, v);
      rest.soft == p.soft && sent + rest.sent == sent0 + p.sent && given + rest.applied == given0 + p.applied
    }

    lemma EndsInOn(hard: Durable, v: Volatile, sent: seq<Packet>, given: seq<Applied>,
                  v': Volatile, sent': seq<Packet>, given': seq<Applied>, p: Progress,
                  sent0: seq<Packet>, given0: seq<Applied>)
      requires cfg.Valid() && v.lastApplied < v.commitIndex && EndsIn(hard, v, sent, given, p, sent0, given0)
      requires var one := ApplyOne(cfg, hard, v);
               v' == one.soft && sent' == sent + one.sent && given' == given + one.applied
      ensures EndsIn(hard, v', sent', given', p, sent0, given0)
    {
    }

    // ---- roles

    method EnterTerm(term: u32, vote: u32)
      requires Silent()
      requires Valid()
      modifies store, store.fields
      ensures Valid()
      ensures Now() == Then(old(Now()), Outcome([SetTerm(term), SetVote(vote)], old(Soft()), [], []))
    {
      ApplyWritesShort(Hard(), SetTerm(term), SetVote(vote));
      store.EnterTerm(term, vote);
    }

    /** become_follower */
    method BecomeFollower(term: u32, leader: u32)
      requires Silent()
      requires Valid()
      requires telemetry.Valid()
      modifies `role, `leaderId, `votesReceived, store, store.fields, telemetry, telemetry.intervals
      ensures Valid() && Now() == Then(old(Now()), StepDown(old(Soft()), term, leader))
      ensures telemetry.Valid() && telemetry.beats == []
    {
      EnterTerm(term, NO_VOTE);
      role, leaderId, votesReceived := Follower, leader, 0;
      telemetry.Reset();
    }

    /** start_election */
    method StartElection()
      requires Silent()
      requires Valid() && Fitting()
      modifies `votesReceived, `outbox, `spokeAt, store, store.fields
      ensures Valid() && Now() == Then(old(Now()), NodeSpec.StartElection(cfg, old(State())))
    {
      var curTerm := store.fields.Get(StateFile.CURRENT_TERM);
      if curTerm < 0 {
        return;
      }
      EnterTerm(ToWord(curTerm + 1), cfg.id);
      votesReceived := 1;
      BroadcastRequestVote();
    }

    /** A candidate's own record of itself. */
    method Stand()
      requires Valid() && telemetry.Valid()
      modifies `role, `leaderId, `votesReceived, telemetry, telemetry.intervals
      ensures Valid() && Soft() == old(Soft()).(role := Candidate, leaderId := NO_LEADER, votesReceived := 0)
      ensures telemetry.Valid() && telemetry.beats == []
    {
      role := Candidate;
      leaderId := NO_LEADER;
      votesReceived := 0;
      telemetry.Reset();
    }

    /** become_candidate */
    method BecomeCandidate()
      requires Silent()
      requires Valid() && Fitting()
      requires telemetry.Valid()
      modifies `role, `leaderId, `votesReceived, `outbox, `spokeAt, store, store.fields, telemetry, telemetry.intervals
      ensures Valid() && Now() == Then(old(Now()), NodeSpec.BecomeCandidate(cfg, old(State())))
      ensures telemetry.Valid() && telemetry.beats == []
    {
      Stand();
      StartElection();
    }

    method InitPeers(logLen: Len)
      requires cfg.Valid() && nextIndex.Length == matchIndex.Length == cfg.n
      modifies nextIndex, matchIndex
      ensures nextIndex[..] == seq(cfg.n, i => logLen) && matchIndex[..] == seq(cfg.n, i => -1)
    {
      for i := 0 to cfg.n
        invariant forall k | 0 <= k < i :: nextIndex[k] == logLen && matchIndex[k] == -1
      {
        nextIndex[i] := logLen;
        matchIndex[i] := -1;
      }
    }

    /** A leader's own record of itself and of its peers. */
    method Lead()
      requires Valid() && Fitting()
      modifies `role, `leaderId, nextIndex, matchIndex
      ensures Valid() && Soft() == LeaderState(cfg, old(State()))
      ensures HandlerLaws.SetsOut(cfg, old(State()), State())
    {
      role := Leader;
      leaderId := NO_LEADER;
      var logLen := store.log.Length();
      InitPeers(logLen);
    }

    /** become_leader */
    method BecomeLeader()
      requires Valid() && Fitting()
      requires telemetry.Valid()
      modifies `role, `leaderId, `outbox, `spokeAt, nextIndex, matchIndex, telemetry, telemetry.intervals
      ensures Valid() && Now() == Then(old(Now()), NodeSpec.BecomeLeader(cfg, old(State())))
      ensures HandlerLaws.SetsOut(cfg, old(State()), State())
      ensures telemetry.Valid() && telemetry.beats == []
    {
      telemetry.Reset();
      Lead();
      SendHeartbeats();
    }

    // ---- AppendEntries

    method SendAppendReply(leader: u32, term: u32, newMatch: u32, success: bool)
      requires Valid()
      modifies `outbox, `spokeAt
      ensures Valid() && outbox == old(outbox) + [AppendReply(cfg, leader, term, newMatch, success)]
    {
      Send(Packet(cfg.id, leader, AppendRes(term, newMatch, success)));
    }

    method Cut(logLen: int, at: u32)
      requires Silent()
      requires store.Valid() && at < logLen == |Hard().log| < INT_SPAN
      modifies store, store.log
      ensures store.Valid() && store.start == old(store.start)
      ensures store.writes == old(store.writes) + [Truncate(at)] && Hard().log == old(Hard()).log[..at]
    {
      store.RemoveLastN(logLen - at);
    }

    method Put(at: u32, entry: Entry)
      requires Silent()
      requires store.Valid() && at == |Hard().log| < INT_SPAN
      modifies store, store.log
      ensures store.Valid() && store.start == old(store.start)
      ensures store.writes == old(store.writes) + [Append(entry)] && Hard().log == old(Hard()).log + [entry]
    {
      store.WriteAt(at, entry);
    }

    /** One turn of the merge loop: keep an entry of the same term, else cut and write. */
    method MergeOne(logIdx: u32, logLen: int, entry: Entry) returns (newLen: int)
      requires Silent()
      requires store.Valid() && Fitting() && logIdx <= logLen == |Hard().log| < INT_SPAN - 1
      modifies store, store.log
      ensures store.Valid() && newLen == |Hard().log| && logIdx < newLen <= logLen + 1
      ensures store.start == old(store.start)
      ensures Merges(old(Hard()).log, logIdx, entry, old(store.writes), store.writes, Hard().log)
    {
      newLen := logLen;
      if logIdx < logLen {
        var term := GetLogTerm(logIdx);
        if term == entry.term {
          return;
        }
        Cut(logLen, logIdx);
        newLen := logIdx;
      }
      Put(logIdx, entry);
      newLen := newLen + 1;
    }

    /** The merge loop, in the unsigned arithmetic of its indices. */
    method MergeFrom(newIdx: u32, entries: seq<Entry>)
      requires Silent()
      requires store.Valid() && HasRoom() && newIdx <= |Hard().log| && |entries| <= MAX_APPEND_ENTRIES
      modifies store, store.log
      ensures store.Valid() && Fitting() && store.start == old(store.start)
      ensures store.writes == old(store.writes) + MergeWrites(old(Hard()).log, newIdx, entries)
    {
      ghost var total := store.writes + MergeWrites(Hard().log, newIdx, entries);
      ghost var len0 := |Hard().log|;
      var logLen := store.log.Length();
      assert entries[0..] == entries;
      for i := 0 to |entries|
        invariant store.Valid() && store.start == old(store.start)
        invariant logLen == |Hard().log| <= len0 + i && newIdx + i <= logLen
        invariant total == store.writes + MergeWrites(Hard().log, newIdx + i, entries[i..])
      {
        ghost var log, ws := Hard().log, store.writes;
        logLen := MergeOne(ToWord(newIdx + i), logLen, entries[i]);
        MergesOn(log, newIdx + i, entries[i..], ws, store.writes, Hard().log);
        assert entries[i..][1..] == entries[i + 1..];
      }
      assert entries[|entries|..] == [];
    }

    method MergeEntries(prevLogIdx: IndexWord, entries: seq<Entry>)
      requires Silent()
      requires store.Valid() && HasRoom() && ToInt(prevLogIdx) < |Hard().log| && |entries| <= MAX_APPEND_ENTRIES
      modifies store, store.log
      ensures store.Valid() && Fitting() && store.start == old(store.start)
      ensures var merge := MergeWrites(old(Hard()).log, ToInt(prevLogIdx) + 1, entries);
              store.writes == old(store.writes) + merge && Hard() == ApplyWrites(old(Hard()), merge)
    {
      var newIdx := ToWord(prevLogIdx + 1);
      MergeFrom(newIdx, entries);
      ApplyWritesConcat(store.start, old(store.writes), MergeWrites(old(Hard()).log, newIdx, entries));
    }

    /** Takes the sender for the leader of its term, stepping down if that is news. */
    method Heed(req: Message)
      requires Silent()
      requires Valid() && req.AppendReq?
      requires telemetry.Valid()
      modifies `role, `leaderId, `votesReceived, store, store.fields, telemetry, telemetry.intervals
      ensures Valid()
      ensures Now() == Then(old(Now()), Heeded(old(State()), req))
      ensures telemetry.Valid()
      ensures telemetry.beats == if StepsDownFor(old(State()), req) then [] else old(telemetry.beats)
    {
      var curTerm := store.fields.Get(StateFile.CURRENT_TERM);
      if req.term > ToWord(curTerm) || (req.term == ToWord(curTerm) && role == Candidate) {
        BecomeFollower(req.term, req.leaderId);
      } else {
        leaderId := req.leaderId;
      }
    }

    /** The commit update of a follower, which may move backwards, and the applies it allows. */
    method FollowCommit(req: Message)
      requires Valid() && Fitting() && req.AppendReq? && req.leaderCommit < INT_SPAN
      requires ToInt(req.prevLogIdx) + |req.entries| < INT_SPAN
      modifies `commitIndex, `lastApplied, `outbox, `spokeAt, `delivered, slots
      ensures Valid()
      ensures var p := Followed(cfg, Hard(), old(Soft()), req);
              Now() == Then(old(Now()), Outcome([], p.soft, p.sent, p.applied))
    {
      if req.leaderCommit > commitIndex {
        var lastNew := ToInt(ToWord(req.prevLogIdx + |req.entries|));
        commitIndex := if req.leaderCommit < lastNew then req.leaderCommit else lastNew;
        assert Soft() == FollowerCommit(old(Soft()), req);
        ApplyToStateMachine();
      }
    }

    // ---- acknowledgements

    /** How many nodes, this one included, are known to hold index n. */
    method CountHolders(n: int) returns (count: nat)
      requires cfg.Valid() && matchIndex.Length == cfg.n
      ensures count == 1 + Holders(cfg, matchIndex[..], n, cfg.n)
    {
      count := 1;
      for i := 0 to cfg.n
        invariant count == 1 + Holders(cfg, matchIndex[..], n, i)
      {
        if i != cfg.id && matchIndex[i] >= n {
          count := count + 1;
        }
      }
    }

    /** The commit loop of a leader. */
    method AdvanceCommit(curTerm: u32, logLen: int)
      requires Valid() && Fitting() && curTerm == Hard().term && logLen == |Hard().log|
      modifies `commitIndex
      ensures Valid()
      ensures Soft() == old(Soft()).(commitIndex := CommitPoint(cfg, Hard(), matchIndex[..], old(commitIndex), logLen))
      ensures HandlerLaws.CommitsTo(cfg, Hard(), matchIndex[..], old(commitIndex), commitIndex)
    {
      HandlerLaws.CommitPointLaw(cfg, Hard(), matchIndex[..], commitIndex);
      ghost var c := commitIndex;
      var n := commitIndex + 1;
      while n < logLen
        invariant c < n && (n <= logLen || n == c + 1)
        invariant -1 <= commitIndex < n && commitIndex < INT_SPAN
        invariant commitIndex == CommitPoint(cfg, Hard(), matchIndex[..], c, n)
      {
        var term := GetLogTerm(n);
        if term == curTerm {
          var count := CountHolders(n);
          if count > cfg.n / 2 {
            commitIndex := n;
          }
        }
        n := n + 1;
      }
    }

    // ---- handlers

    method Merge(req: Message)
      requires Silent()
      requires Valid() && HasRoom() && req.AppendReq? && Sendable(req) && ToInt(req.prevLogIdx) < |Hard().log|
      modifies store, store.log
      ensures Valid() && Fitting()
      ensures var merge := MergeWrites(old(Hard()).log, ToInt(req.prevLogIdx) + 1, req.entries);
              Now() == Then(old(Now()), Outcome(merge, old(Soft()), [], []))
    {
      MergeEntries(req.prevLogIdx, req.entries);
    }

    /** handle_append_entries_request, past the check of the request's term. */
    method TakeEntries(req: Message, curTerm: u32)
      requires Silent()
      requires Valid() && HasRoom() && req.AppendReq? && Sendable(req) && ToInt(req.prevLogIdx) < |Hard().log|
      modifies `commitIndex, `lastApplied, `outbox, `spokeAt, `delivered, slots, store, store.log
      ensures Valid() && Now() == Then(old(Now()), Taken(cfg, old(State()), req, curTerm))
    {
      ghost var m := Now();
      Merge(req);
      ghost var m1 := Now();
      FollowCommit(req);
      ghost var m2 := Now();
      SendAppendReply(req.leaderId, curTerm, ToWord(req.prevLogIdx + |req.entries|), true);
      TakenInTurn(cfg, m, m1, m2, req, curTerm);
    }

    /** The prev check of handle_append_entries_request, and what follows it. */
    method ConsiderEntries(req: Message, curTerm: u32)
      requires Silent()
      requires Valid() && HasRoom() && req.AppendReq? && Sendable(req)
      modifies `commitIndex, `lastApplied, `outbox, `spokeAt, `delivered, slots, store, store.log
      ensures Valid() && Now() == Then(old(Now()), Considered(cfg, old(State()), req, curTerm))
    {
      var logLen := store.log.Length();
      var prevTerm := GetLogTerm(ToInt(req.prevLogIdx));
      if ToInt(req.prevLogIdx) >= logLen || prevTerm != req.prevLogTerm {
        SendAppendReply(req.leaderId, curTerm, 0, false);
      } else {
        TakeEntries(req, curTerm);
      }
    }

    /** A follower hears a heartbeat. */
    method Listen(req: Message, now: Accrual.u64)
      requires req.AppendReq? && telemetry.Valid()
      modifies telemetry, telemetry.intervals
      ensures telemetry.Valid()
      ensures telemetry.beats == old(telemetry.beats) + if role == Follower && req.entries == [] then [now] else []
    {
      if role == Follower && |req.entries| == 0 {
        telemetry.RecordInterval(now);
      }
    }

    /** handle_append_entries_request, once the term of the request has been found current. */
    method HearLeader(req: Message, now: Accrual.u64, curTerm: u32)
      requires Silent()
      requires Valid() && HasRoom() && req.AppendReq? && Sendable(req) && telemetry.Valid()
      requires curTerm == Hard().term <= req.term && ToInt(curTerm) >= 0
      modifies this, slots, store, store.log, store.fields, telemetry, telemetry.intervals
      ensures Valid() && Now() == Then(old(Now()), HandleAppendReq(cfg, old(State()), req))
      ensures telemetry.Valid() && telemetry.beats == BeatsHeard(old(State()), req, now, old(telemetry.beats))
    {
      ghost var m := Now();
      Heed(req);
      ghost var m1 := Now();
      Listen(req, now);
      ConsiderEntries(req, curTerm);
      ConsideredAfterHeeding(cfg, m, m1, req);
    }

    /** handle_append_entries_request */
    method HandleAppendEntriesRequest(req: Message, now: Accrual.u64)
      requires Silent()
      requires Valid() && HasRoom() && req.AppendReq? && Sendable(req) && telemetry.Valid()
      modifies this, slots, store, store.log, store.fields, telemetry, telemetry.intervals
      ensures Valid() && Now() == Then(old(Now()), HandleAppendReq(cfg, old(State()), req))
      ensures telemetry.Valid() && telemetry.beats == BeatsAfter(cfg, old(State()), req, now, old(telemetry.beats))
    {
      var curTerm := store.fields.Get(StateFile.CURRENT_TERM);
      if curTerm < 0 {
        ThenNothing(Now());
      } else if req.term < ToWord(curTerm) {
        SendAppendReply(req.leaderId, ToWord(curTerm), 0, false);
      } else {
        HearLeader(req, now, ToWord(curTerm));
      }
    }

    /** A success: the follower holds the log through the acknowledged index. */
    method RecordMatch(src: nat, resp: Message, curTerm: u32)
      requires Valid() && Fitting() && resp.AppendRes? && src < cfg.n && curTerm == Hard().term
      modifies `commitIndex, `lastApplied, `outbox, `spokeAt, `delivered, slots, nextIndex, matchIndex
      ensures Valid()
      ensures var nd := old(State());
              var mi := nd.soft.matchIndex[src := ToInt(resp.newMatchIndex)];
              var p := ApplyCommitted(cfg, nd.hard, nd.soft.(matchIndex := mi,
                         nextIndex := nd.soft.nextIndex[src := |nd.hard.log|],
                         commitIndex := CommitPoint(cfg, nd.hard, mi, nd.soft.commitIndex, |nd.hard.log|)));
              Now() == Then(old(Now()), Outcome([], p.soft, p.sent, p.applied))
    {
      var logLen := store.log.Length();
      matchIndex[src] := ToInt(resp.newMatchIndex);
      nextIndex[src] := logLen;
      AdvanceCommit(curTerm, logLen);
      ApplyToStateMachine();
    }

    /** handle_append_entries_response */
    method HandleAppendEntriesResponse(src: nat, resp: Message)
      requires Silent()
      requires Valid() && Fitting() && resp.AppendRes? && src < cfg.n && telemetry.Valid()
      modifies this, slots, nextIndex, matchIndex, store, store.fields, telemetry, telemetry.intervals
      ensures Valid() && Now() == Then(old(Now()), HandleAppendRes(cfg, old(State()), src, resp))
      ensures telemetry.Valid() && telemetry.beats == BeatsAfter(cfg, old(State()), resp, 0, old(telemetry.beats))
    {
      ThenNothing(Now());
      var curTermOpt := store.fields.Get(StateFile.CURRENT_TERM);
      var curTerm := ToWord(curTermOpt);
      if resp.term > curTerm {
        BecomeFollower(resp.term, src);
      } else if role == Leader && resp.term == curTerm {
        if resp.success {
          RecordMatch(src, resp, curTerm);
        } else if nextIndex[src] > 0 {
          nextIndex[src] := nextIndex[src] - 1;
        }
      }
    }

    /** No vote yet or the same again, for a log that is up to date. */
    method MayVote(req: Message, votedForOpt: int) returns (yes: bool)
      requires Valid() && Fitting() && req.VoteReq? && votedForOpt == ToInt(Hard().vote) >= 0
      ensures yes == Grants(State(), req)
    {
      var votedFor := ToWord(votedForOpt);
      var hasVoted := votedForOpt != NO_VOTE;
      yes := false;
      if !hasVoted || votedFor == req.candidateId {
        yes := LogIsUpToDate(req.lastLogIdx, req.lastLogTerm);
      }
    }

    method GrantVote(candidate: u32)
      requires Silent()
      requires Valid()
      modifies store, store.fields
      ensures Valid()
      ensures Now() == Then(old(Now()), Outcome([SetVote(candidate)], old(Soft()), [], []))
    {
      ApplyWritesShort(Hard(), SetVote(candidate), SetVote(candidate));
      store.SetVote(candidate);
    }

    /** The one vote, if it is to be had. */
    method Decide(req: Message, votedForOpt: int) returns (granted: bool)
      requires Silent()
      requires Valid() && Fitting() && req.VoteReq? && votedForOpt == ToInt(Hard().vote) >= 0
      modifies store, store.fields
      ensures Valid() && granted == Grants(old(State()), req)
      ensures Now() == if granted then Then(old(Now()), Outcome([SetVote(req.candidateId)], old(Soft()), [], []))
                       else old(Now())
    {
      granted := MayVote(req, votedForOpt);
      if granted {
        GrantVote(req.candidateId);
      }
    }

    /** handle_request_vote_request, past the check of the request's term. */
    method Vote(req: Message, curTerm: u32)
      requires Silent()
      requires Valid() && Fitting() && req.VoteReq? && curTerm == req.term
      modifies `outbox, `spokeAt, store, store.fields
      ensures Valid() && Now() == Then(old(Now()), Voted(cfg, old(State()), req))
    {
      var votedForOpt := store.fields.Get(StateFile.VOTED_FOR);
      if votedForOpt < 0 {
        ThenNothing(Now());
        return;
      }
      ghost var m := Now();
      var granted := Decide(req, votedForOpt);
      VotedInTurn(cfg, m, Now(), req);
      Send(Packet(cfg.id, req.candidateId, VoteRes(curTerm, granted)));
    }

    /** Joins a later term as a follower. */
    method StepUp(term: u32, curTerm: u32, src: u32)
      requires Silent()
      requires Valid() && telemetry.Valid()
      modifies `role, `leaderId, `votesReceived, store, store.fields, telemetry, telemetry.intervals
      ensures Valid() && telemetry.Valid()
      ensures if term > curTerm then
                Now() == Then(old(Now()), StepDown(old(Soft()), term, src)) && telemetry.beats == []
              else Now() == old(Now()) && telemetry.beats == old(telemetry.beats)
    {
      if term > curTerm {
        BecomeFollower(term, src);
      }
    }

    /** handle_request_vote_request, once the term of the request has been found current. */
    method VoteInTerm(src: u32, req: Message, curTerm: u32)
      requires Silent()
      requires Valid() && Fitting() && req.VoteReq? && telemetry.Valid()
      requires curTerm == Hard().term <= req.term && ToInt(curTerm) >= 0
      modifies `role, `leaderId, `votesReceived, `outbox, `spokeAt, store, store.fields, telemetry, telemetry.intervals
      ensures Valid() && Now() == Then(old(Now()), HandleVoteReq(cfg, old(State()), src, req))
      ensures telemetry.Valid() && telemetry.beats == if req.term > curTerm then [] else old(telemetry.beats)
    {
      ghost var m := Now();
      StepUp(req.term, curTerm, src);
      VotedAfterSteppingDown(cfg, m, Now(), src, req);
      Vote(req, req.term);
    }

    /** handle_request_vote_request */
    method HandleRequestVoteRequest(src: u32, req: Message)
      requires Silent()
      requires Valid() && Fitting() && req.VoteReq? && telemetry.Valid()
      modifies `role, `leaderId, `votesReceived, `outbox, `spokeAt, store, store.fields, telemetry, telemetry.intervals
      ensures Valid() && Now() == Then(old(Now()), HandleVoteReq(cfg, old(State()), src, req))
      ensures telemetry.Valid() && telemetry.beats == BeatsAfter(cfg, old(State()), req, 0, old(telemetry.beats))
    {
      var curTerm := store.fields.Get(StateFile.CURRENT_TERM);
      if curTerm < 0 {
        ThenNothing(Now());
      } else if req.term < ToWord(curTerm) {
        Send(Packet(cfg.id, req.candidateId, VoteRes(ToWord(curTerm), false)));
      } else {
        VoteInTerm(src, req, ToWord(curTerm));
      }
    }

    /** A granted vote in the candidate's term. */
    method CountVote()
      requires Valid() && Fitting() && telemetry.Valid()
      modifies `role, `leaderId, `votesReceived, `outbox, `spokeAt, nextIndex, matchIndex
      modifies telemetry, telemetry.intervals
      ensures Valid() && telemetry.Valid()
      ensures var nd := old(State()).(soft := old(Soft()).(votesReceived := old(votesReceived) + 1));
              var won := nd.soft.votesReceived > cfg.n / 2;
              && Now() == Then(old(Now()), if won then NodeSpec.BecomeLeader(cfg, nd) else Nothing(nd.soft))
              && telemetry.beats == if won then [] else old(telemetry.beats)
    {
      votesReceived := votesReceived + 1;
      ThenNothing(Now());
      if votesReceived > cfg.n / 2 {
        BecomeLeader();
      }
    }

    /** handle_request_vote_response */
    method HandleRequestVoteResponse(src: u32, resp: Message)
      requires Silent()
      requires Valid() && Fitting() && resp.VoteRes? && telemetry.Valid()
      modifies this, nextIndex, matchIndex, store, store.fields, telemetry, telemetry.intervals
      ensures Valid() && Now() == Then(old(Now()), HandleVoteRes(cfg, old(State()), src, resp))
      ensures telemetry.Valid() && telemetry.beats == BeatsAfter(cfg, old(State()), resp, 0, old(telemetry.beats))
    {
      ThenNothing(Now());
      ghost var nd := State();
      if role == Candidate {
        var curTermOpt := store.fields.Get(StateFile.CURRENT_TERM);
        var curTerm := ToWord(curTermOpt);
        if resp.term > curTerm {
          assert HandleVoteRes(cfg, nd, src, resp) == StepDown(nd.soft, resp.term, src);
          BecomeFollower(resp.term, src);
        } else if resp.term == curTerm && resp.granted {
          CountVote();
        }
      }
    }

    /** The first slot not in use remembers the client; a full table forgets it. */
    method ClaimSlot(logLen: Len, req: Message)
      requires req.ProcReq? && slots.Length == MAX_OUTSTANDING_REQUESTS
      modifies slots
      ensures Soft() == Claim(old(Soft()), logLen, req)
      ensures HandlerLaws.Claims(old(slots[..]), slots[..], req, logLen)
    {
      HandlerLaws.ClaimLaw(Soft(), logLen, req);
      for i := 0 to MAX_OUTSTANDING_REQUESTS
        invariant slots[..] == old(slots[..])
        invariant FreeSlot(slots[..], 0) == FreeSlot(slots[..], i)
      {
        if !slots[i].active {
          slots[i] := Slot(req.clientId, req.cmdSeqno, logLen, true);
          break;
        }
      }
    }

    method AppendEntry(logLen: Len, entry: Entry)
      requires Silent()
      requires Valid() && HasRoom() && logLen == |Hard().log|
      modifies store, store.log
      ensures Valid() && Fitting()
      ensures Now() == Then(old(Now()), Outcome([Append(entry)], old(Soft()), [], []))
    {
      ApplyWritesShort(Hard(), Append(entry), Append(entry));
      Put(logLen, entry);
    }

    /** A leader takes a request into its log and its table. */
    method TakeRequest(req: Message, term: u32)
      requires Silent()
      requires Valid() && HasRoom() && req.ProcReq? && term == Hard().term
      modifies slots, store, store.log
      ensures Valid() && Fitting()
      ensures var e := Entry(term, req.clientId, req.cmdSeqno, req.cmd);
              Now() == Then(old(Now()), Outcome([Append(e)], Claim(old(Soft()), |old(Hard()).log|, req), [], []))
    {
      var logLen := store.log.Length();
      AppendEntry(logLen, Entry(term, req.clientId, req.cmdSeqno, req.cmd));
      ClaimSlot(logLen, req);
    }

    /** handle_proc_request */
    method HandleProcRequest(req: Message, src: u32)
      requires Silent()
      requires Valid() && HasRoom() && req.ProcReq?
      modifies `outbox, `spokeAt, slots, store, store.log
      ensures Valid() && Now() == Then(old(Now()), HandleProcReq(cfg, old(State()), src, req))
    {
      var curTerm := store.fields.Get(StateFile.CURRENT_TERM);
      if role != Leader {
        Send(Packet(cfg.id, src, ProcRes(req.clientId, req.cmdSeqno, false, leaderId, ToWord(curTerm))));
      } else {
        TakeRequest(req, ToWord(curTerm));
        BroadcastAppendEntries();
      }
    }

    // ---- the run loop

    /** Whether the timer of a follower makes it a candidate. */
    method SuspectsLeader(now: Accrual.u64) returns (yes: bool)
      requires telemetry.Valid()
      ensures yes == Suspects(scheme, rampSize, telemetry.Now(), telemetry.threshold, now)
      ensures Accrual.Positive(telemetry.beats) ==>
                (yes <==> GivesUp(scheme, rampSize, telemetry.size, telemetry.threshold, telemetry.beats, now))
      ensures scheme == TS_TIMEOUT || Accrual.Gaps(telemetry.beats) < rampSize ==> yes
    {
      SuspectsIffGivesUp(scheme, rampSize, telemetry.size, telemetry.threshold, telemetry.beats, now);
      if scheme == TS_TIMEOUT || telemetry.num < rampSize {
        return true;
      } else if scheme == TS_ACCRUAL {
        yes := telemetry.CheckLeaderFailure(now);
      } else {
        yes := false;
      }
    }

    /** raft_handle_timeout; `suspect` is what the detector says of the leader, should this be a follower. */
    method HandleTimeout(now: Accrual.u64) returns (suspect: bool)
      requires Silent()
      requires Valid() && Fitting() && telemetry.Valid()
      modifies `role, `leaderId, `votesReceived, `outbox, `spokeAt, store, store.fields
      modifies telemetry, telemetry.intervals
      ensures suspect == Suspects(scheme, rampSize, old(telemetry.Now()), telemetry.threshold, now)
      ensures Valid() && Now() == Then(old(Now()), Handle(cfg, old(State()), Timeout(suspect)))
      ensures telemetry.Valid()
      ensures telemetry.beats == if old(role) == Follower && suspect then [] else old(telemetry.beats)
      ensures old(role) == Follower && Accrual.Positive(old(telemetry.beats)) ==>
                (role == Candidate
                 <==> GivesUp(scheme, rampSize, telemetry.size, telemetry.threshold, old(telemetry.beats), now))
      ensures old(role) == Follower && (scheme == TS_TIMEOUT || Accrual.Gaps(old(telemetry.beats)) < rampSize) ==>
                role == Candidate
      ensures old(role) == Follower && role == Candidate && old(Hard()).term < INT_SPAN ==>
                Hard().term == old(Hard()).term + 1 && Hard().vote == cfg.id
    {
      ApplyWritesShort(Hard(), SetTerm(ToWord(Hard().term + 1)), SetVote(cfg.id));
      suspect := SuspectsLeader(now);
      ActOnTimeout(suspect);
    }

    method ActOnTimeout(suspect: bool)
      requires Silent()
      requires Valid() && Fitting() && telemetry.Valid()
      modifies `role, `leaderId, `votesReceived, `outbox, `spokeAt, store, store.fields
      modifies telemetry, telemetry.intervals
      ensures Valid() && Now() == Then(old(Now()), Handle(cfg, old(State()), Timeout(suspect)))
      ensures telemetry.Valid()
      ensures telemetry.beats == if old(role) == Follower && suspect then [] else old(telemetry.beats)
    {
      ghost var nd := State();
      match role
      case Follower =>
        if suspect {
          assert Handle(cfg, nd, Timeout(suspect)) == NodeSpec.BecomeCandidate(cfg, nd);
          BecomeCandidate();
        }
      case Candidate =>
        assert Handle(cfg, nd, Timeout(suspect)) == NodeSpec.StartElection(cfg, nd);
        StartElection();
      case Leader => SendHeartbeats();
    }

    /** raft_handle_rpc */
    method HandleRpc(p: Packet, now: Accrual.u64)
      requires Silent()
      requires Valid() && HasRoom() && telemetry.Valid()
      requires Deliverable(cfg, p) && (p.msg.AppendReq? ==> Sendable(p.msg))
      modifies this, nextIndex, matchIndex, slots, store, store.log, store.fields, telemetry, telemetry.intervals
      ensures Valid() && Now() == Then(old(Now()), Handle(cfg, old(State()), Receive(p)))
      ensures telemetry.Valid()
      ensures telemetry.beats == BeatsAfter(cfg, old(State()), p.msg, now, old(telemetry.beats))
    {
      ghost var nd := State();
      match p.msg
      case AppendReq(_, _, _, _, _, _) =>
        assert Handle(cfg, nd, Receive(p)) == HandleAppendReq(cfg, nd, p.msg);
        HandleAppendEntriesRequest(p.msg, now);
      case AppendRes(_, _, _) =>
        assert Handle(cfg, nd, Receive(p)) == HandleAppendRes(cfg, nd, p.src, p.msg);
        HandleAppendEntriesResponse(p.src, p.msg);
      case VoteReq(_, _, _, _) =>
        assert Handle(cfg, nd, Receive(p)) == HandleVoteReq(cfg, nd, p.src, p.msg);
        HandleRequestVoteRequest(p.src, p.msg);
      case VoteRes(_, _) =>
        assert Handle(cfg, nd, Receive(p)) == HandleVoteRes(cfg, nd, p.src, p.msg);
        HandleRequestVoteResponse(p.src, p.msg);
      case ProcReq(_, _, _) =>
        assert Handle(cfg, nd, Receive(p)) == HandleProcReq(cfg, nd, p.src, p.msg);
        HandleProcRequest(p.msg, p.src);
      case ProcRes(_, _, _, _, _) =>
        ThenNothing(Now());
    }

    /** The input a node makes of what has arrived: a packet, or its timer with the detector's verdict. */
    ghost function InputOf(a: Arrival, now: Accrual.u64): Input
      reads telemetry, telemetry.intervals
      requires telemetry.Valid()
    {
      match a
      case Arrived(p) => Receive(p)
      case TimerFired => Timeout(Suspects(scheme, rampSize, telemetry.Now(), telemetry.threshold, now))
    }

    method Dispatch(a: Arrival, now: Accrual.u64)
      requires Silent()
      requires Valid() && HasRoom() && telemetry.Valid()
      requires a.Arrived? ==> Deliverable(cfg, a.p) && (a.p.msg.AppendReq? ==> Sendable(a.p.msg))
      modifies this, nextIndex, matchIndex, slots, store, store.log, store.fields, telemetry, telemetry.intervals
      ensures Valid() && telemetry.Valid()
      ensures Now() == Then(old(Now()), Handle(cfg, old(State()), old(InputOf(a, now))))
      ensures telemetry.beats == if a.Arrived? then BeatsAfter(cfg, old(State()), a.p.msg, now, old(telemetry.beats))
                                 else if old(role) == Follower && old(InputOf(a, now)).suspect then []
                                 else old(telemetry.beats)
    {
      match a
      case Arrived(p) => HandleRpc(p, now);
      case TimerFired =>
        var suspect := HandleTimeout(now);
    }

    /** A new handler begins. */
    ghost method Begin()
      requires Valid()
      modifies `said, store
      ensures Valid() && Silent()
      ensures Now() == old(Now()).(start := Hard(), writes := [], said := |outbox| + |delivered|) && store.found == []
    {
      store.Begin();
      said := |outbox| + |delivered|;
    }

    /**
     One turn of raft_run. The node handles what has arrived exactly as the specification says. After
     each system call that changes a file a restart would find the next of the states that the handler's
     writes pass through: `store.found` lists them all, from the first write to the last. And every
     packet is sent, and every entry applied, after the last of those calls.
     */
    method HandleInput(a: Arrival, now: Accrual.u64)
      requires Valid() && HasRoom() && telemetry.Valid()
      requires a.Arrived? ==> Deliverable(cfg, a.p) && (a.p.msg.AppendReq? ==> Sendable(a.p.msg))
      modifies this, nextIndex, matchIndex, slots, store, store.log, store.fields, telemetry, telemetry.intervals
      ensures Valid() && telemetry.Valid()
      ensures var o := Handle(cfg, old(State()), old(InputOf(a, now)));
              && State() == After(old(State()), o)
              && outbox == old(outbox) + o.sent && delivered == old(delivered) + o.applied
              && store.found == AfterAll(old(Hard()), o.writes)
              && (o.sent != [] || o.applied != [] ==> spokeAt == |store.found|)
      ensures telemetry.beats == if a.Arrived? then BeatsAfter(cfg, old(State()), a.p.msg, now, old(telemetry.beats))
                                 else if old(role) == Follower && old(InputOf(a, now)).suspect then []
                                 else old(telemetry.beats)
    {
      ghost var o := Handle(cfg, State(), InputOf(a, now));
      Begin();
      ghost var m := Now();
      Dispatch(a, now);
      Reported(m, Now(), o, store.found);
    }
  }
}
