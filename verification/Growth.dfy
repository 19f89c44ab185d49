/** Facts about quorums, about logs that agree up to an index, and about histories that only ever grow. */
module Growth {
  import opened Words
  import opened Types
  import opened Invariants

  // ---- quorums

  function Ids(n: nat): (s: set<nat>)
    ensures |s| == n && forall i: nat :: i in s <==> i < n
  {
    if n == 0 then {} else Ids(n - 1) + {n - 1}
  }

  lemma SubsetSize<T>(a: set<T>, b: set<T>)
    requires a <= b
    ensures |a| <= |b|
  {
    if a != {} {
      var x :| x in a;
      SubsetSize(a - {x}, b - {x});
    }
  }

  /** Two majorities of the same cluster share a node. */
  lemma QuorumsMeet(n: nat, a: set<nat>, b: set<nat>) returns (q: nat)
    requires Majority(n, a) && Majority(n, b)
    ensures q in a && q in b
  {
    SubsetSize(a + b, Ids(n));
    assert |a + b| == |a| + |b| - |a * b|;
    q :| q in a * b;
  }

  /** A dead entry is never chosen. */
  lemma DeadIsNotChosen(n: nat, nodes: seq<Node>, h: History, t: u32, k: int)
    requires |nodes| == n && Dead(nodes, h, t, k)
    ensures !Chosen(n, h, t, k)
  {
    if Chosen(n, h, t, k) {
      var a :| DeadBy(nodes, h, t, k, a);
      var b :| ChosenBy(n, h, t, k, b);
      var q := QuorumsMeet(n, a, b);
    }
  }

  // ---- growth

  lemma ExtendsRefl(h: History)
    ensures Extends(h, h)
  {
  }

  lemma ExtendsTrans(a: History, b: History, c: History)
    requires Extends(a, b) && Extends(b, c)
    ensures Extends(a, c)
  {
  }

  lemma HasTrans(a: seq<Entry>, b: seq<Entry>, c: seq<Entry>, k: int)
    requires Has(a, b, k) && Has(b, c, k)
    ensures Has(a, c, k)
  {
  }

  lemma HasShorter(a: seq<Entry>, b: seq<Entry>, k: int, j: int)
    requires Has(a, b, k) && 0 <= j <= k
    ensures Has(a, b, j) && a[j] == b[j]
  {
  }

  lemma HasPrefix(a: seq<Entry>, b: seq<Entry>, c: seq<Entry>, k: int)
    requires Has(a, b, k) && b <= c
    ensures Has(a, c, k)
  {
  }

  lemma HasOwnPrefix(a: seq<Entry>, b: seq<Entry>, k: int)
    requires a <= b && 0 <= k < |a|
    ensures Has(b, a, k) && Has(a, b, k)
  {
  }

  lemma ChosenMono(n: nat, h: History, h': History, t: u32, k: int)
    requires Extends(h, h') && Chosen(n, h, t, k)
    ensures Chosen(n, h', t, k)
  {
    var q :| ChosenBy(n, h, t, k, q);
    assert ChosenBy(n, h', t, k, q);
  }

  lemma CommittedMono(n: nat, h: History, h': History, t: u32, t': u32, log: seq<Entry>, log': seq<Entry>, c: int)
    requires Extends(h, h') && t <= t' && Committed(n, h, t, log, c)
    requires c >= 0 ==> Has(log', log, c)
    ensures Committed(n, h', t', log', c)
  {
    if c != -1 {
      var u: u32, k :| CommittedVia(n, h, t, log, c, u, k);
      ChosenMono(n, h, h', u, k);
      HasTrans(log', log, h.reigns[u].log, c);
      HasPrefix(log', h.reigns[u].log, h'.reigns[u].log, c);
      assert CommittedVia(n, h', t', log', c, u, k);
    }
  }

  /** What is committed reaches below what is committed. */
  lemma CommittedShorter(n: nat, h: History, t: u32, log: seq<Entry>, c: int, c': int)
    requires Committed(n, h, t, log, c) && -1 <= c' <= c
    ensures Committed(n, h, t, log, c')
  {
    if c' != -1 {
      var u: u32, k :| CommittedVia(n, h, t, log, c, u, k);
      HasShorter(log, h.reigns[u].log, c, c');
      assert CommittedVia(n, h, t, log, c', u, k);
    }
  }

  lemma LogOKMono(h: History, h': History, log: seq<Entry>)
    requires Extends(h, h') && LogOK(h, log)
    ensures LogOK(h', log)
  {
    forall k | 0 <= k < |log|
      ensures Rooted(h', log, k)
    {
      assert Rooted(h, log, k);
      var t := log[k].term;
      HasOwnPrefix(h.reigns[t].log, h'.reigns[t].log, k);
      HasTrans(h'.reigns[t].log, h.reigns[t].log, log, k);
    }
  }

  /** Terms never decrease along a log. */
  lemma TermsAscend(n: nat, h: History, log: seq<Entry>, j: int, k: int)
    requires HistOK(n, h) && LogOK(h, log) && 0 <= j <= k < |log|
    ensures log[j].term <= log[k].term
  {
    var t := log[k].term;
    assert Rooted(h, log, k);
    assert ReignOK(n, h, t);
    HasShorter(h.reigns[t].log, log, k, j);
  }

  /** Log matching: equal terms at an index mean equal logs up to it. */
  lemma SameTermSamePrefix(h: History, a: seq<Entry>, b: seq<Entry>, k: int)
    requires LogOK(h, a) && LogOK(h, b)
    requires 0 <= k < |a| && k < |b| && a[k].term == b[k].term
    ensures Has(a, b, k)
  {
    assert Rooted(h, a, k) && Rooted(h, b, k);
  }

  lemma BaseKeeps(n: nat, nodes: seq<Node>, h: History, t: u32, t': u32, k: int)
    requires HistOK(n, h) && LeadersKeep(nodes, h) && t' in h.reigns && t < t' && Own(h, t, k)
    ensures Kept(nodes, h, h.reigns[t'].base, t, k) && Kept(nodes, h, h.reigns[t'].log, t, k)
  {
    assert Kept(nodes, h, h.reigns[t'].base, t, k);
    assert ReignOK(n, h, t');
    if Has(h.reigns[t'].base, h.reigns[t].log, k) {
      HasOwnPrefix(h.reigns[t'].base, h.reigns[t'].log, k);
      HasTrans(h.reigns[t'].log, h.reigns[t'].base, h.reigns[t].log, k);
    }
  }

  // ---- dead entries stay dead

  lemma DeadMono(nodes: seq<Node>, h: History, nodes': seq<Node>, h': History, t: u32, k: int)
    requires |nodes| == |nodes'|
    requires forall i | 0 <= i < |nodes| :: nodes[i].hard.term <= nodes'[i].hard.term
    requires forall i | 0 <= i < |nodes| && nodes[i].hard.term > t && !Acked(h, t, i, k) :: !Acked(h', t, i, k)
    requires Dead(nodes, h, t, k)
    ensures Dead(nodes', h', t, k)
  {
    var q :| DeadBy(nodes, h, t, k, q);
    assert DeadBy(nodes', h', t, k, q);
  }
}
