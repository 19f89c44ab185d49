/** Node, messages and files together. */
module Wire {
  import opened Words
  import opened Types
  import opened NodeSpec
  import opened Bytes
  import opened Codec
  import opened Cluster
  import opened Storage
  import FileLog
  import StateFile

  /** An AppendEntries message as the packed record. */
  function ToWire(m: Message): AppendWire
    requires m.AppendReq? && -INT_SPAN <= m.leaderCommit < INT_SPAN
  {
    AppendWire(m.term, m.leaderId, m.prevLogIdx, m.prevLogTerm, m.leaderCommit, m.entries)
  }

  function FromWire(r: AppendWire): Message
    requires r.prevLogIdx < INT_SPAN || r.prevLogIdx == 0xFFFF_FFFF
  {
    AppendReq(r.term, r.leaderId, r.prevLogIdx, r.prevLogTerm, r.leaderCommit, r.entries)
  }

  /** Every request a leader broadcasts, sentinels included, fits one packet and arrives as it was sent. */
  lemma RequestsSurvive(cfg: Config, nd: Node, peer: nat, heartbeat: bool, payload: seq<u8>)
    requires cfg.Valid() && Shaped(cfg, nd.soft) && peer < cfg.n && -1 <= nd.soft.commitIndex < INT_SPAN
    requires |payload| == MAX_PAYLOAD
    requires Encode(ToWire(AppendRequest(cfg, nd, peer, heartbeat).msg)) <= payload
    ensures var m := AppendRequest(cfg, nd, peer, heartbeat).msg;
            var size := HEADER_SIZE + ENTRY_SIZE * |m.entries|;
            && size <= MAX_PAYLOAD
            && Decode(payload, size) == Good(ToWire(m))
            && FromWire(ToWire(m)) == m
  {
    DecodeEncode(ToWire(AppendRequest(cfg, nd, peer, heartbeat).msg), payload);
  }

  /** A new node's files: what raft_create finds when it first starts is what the system starts from. */
  lemma FirstStart()
    ensures FileLog.Sound(FileLog.Disk([], [])) && FileLog.Recover(FileLog.Booted(FileLog.Disk([], []))) == []
    ensures StateFile.Recover(StateFile.Booted([])) == StateFile.Fields(0, NO_VOTE)
  {
  }

  /** What a restart finds once a handler has made so many of the system calls that change a file. */
  function FoundAfter(d: Durable, ws: seq<Write>, calls: nat): Durable
    requires calls <= CallCount(ws)
  {
    if calls == 0 then d else AfterAll(d, ws)[calls - 1]
  }

  lemma FoundIsReached(d: Durable, ws: seq<Write>, calls: nat) returns (w: nat)
    requires calls <= CallCount(ws)
    ensures w <= |ws| && FoundAfter(d, ws, calls) == ApplyWrites(d, ws[..w])
    ensures calls == CallCount(ws) ==> w == |ws|
  {
    AfterAllCovers(d, ws);
    assert ws[..|ws|] == ws;
    if calls == CallCount(ws) {
      w := |ws|;
    } else if calls == 0 {
      w := 0;
    } else {
      assert Reached(d, ws, AfterAll(d, ws)[calls - 1]);
      w :| 0 <= w <= |ws| && AfterAll(d, ws)[calls - 1] == ApplyWrites(d, ws[..w]);
    }
  }

  /** A turn of the run loop is a step: the node as it is afterwards, what it sent and what it applied. */
  lemma TurnIsAStep(n: nat, s: System, i: nat, input: Input, nd': Node) returns (s': System)
    requires Sized(n, s) && Offered(n, s, i, input)
    requires nd' == After(s.nodes[i], Handle(Cfg(n, i), s.nodes[i], input))
    requires |nd'.hard.log| < INT_SPAN && nd'.hard.term < INT_SPAN && Shaped(Cfg(n, i), nd'.soft)
    ensures Next(n, s, s')
    ensures var o := Handle(Cfg(n, i), s.nodes[i], input);
            && s'.nodes == s.nodes[i := nd']
            && s'.net == Consumed(s.net, input) + multiset(o.sent)
            && s'.trace == s.trace + Events(i, o.applied)
  {
    s' := Done(s, i, input, Handle(Cfg(n, i), s.nodes[i], input));
    assert Step(n, s, Run(i, input), s');
  }

  /**
   A crash of the running node is a crash of the system's model. Stop the node after any number of the
   system calls its handler makes and, if those are all of them, after any number of its sends and
   applies: the disk a restart finds, a fresh process, the packets that left and the entries applied
   are what some step leads to.
   */
  lemma CrashIsAStep(n: nat, s: System, i: nat, input: Input, calls: nat, k: nat, m: nat, restarted: Volatile)
    returns (s': System)
    requires Sized(n, s) && Offered(n, s, i, input) && Fresh(Cfg(n, i), restarted)
    requires var o := Handle(Cfg(n, i), s.nodes[i], input);
             && calls <= CallCount(o.writes) && k <= |o.sent| && m <= |o.applied|
             && (k > 0 || m > 0 ==> calls == CallCount(o.writes))
             && var found := FoundAfter(s.nodes[i].hard, o.writes, calls);
             |found.log| < INT_SPAN && found.term < INT_SPAN
    ensures Next(n, s, s')
    ensures var o := Handle(Cfg(n, i), s.nodes[i], input);
            && s'.nodes == s.nodes[i := Node(FoundAfter(s.nodes[i].hard, o.writes, calls), restarted)]
            && s'.net == Consumed(s.net, input) + multiset(o.sent[..k])
            && s'.trace == s.trace + Events(i, o.applied[..m])
  {
    var o := Handle(Cfg(n, i), s.nodes[i], input);
    var w := FoundIsReached(s.nodes[i].hard, o.writes, calls);
    s' := Stopped(s, i, input, o, w, k, m, restarted);
    assert Step(n, s, CrashIn(i, input, w, k, m), s');
  }
}
