/** Cluster chains of a FAT given as plain numbers: shape, ownership, counting, freeing. */
module Chains {
  import opened Sealed

  /** `ch` lists the clusters from a head to the end of its chain. */
  ghost predicate IsChain(fat: seq<nat>, ch: seq<nat>)
    ensures IsChain(fat, ch) ==> ch != []
  {
    && ch != []
    && (forall i {:trigger ch[i]} :: 0 <= i < |ch| ==> 2 <= ch[i] < |fat|)
    && (forall i, j {:trigger ch[i], ch[j]} :: 0 <= i < |ch| && j == i + 1 && j < |ch| ==> fat[ch[i]] == ch[j])
    && fat[ch[|ch| - 1]] >= |fat|
  }

  /** A chain never visits a cluster twice. */
  lemma {:induction false} ChainDistinct(fat: seq<nat>, ch: seq<nat>, i: nat, j: nat)
    requires IsChain(fat, ch) && i < j < |ch|
    ensures ch[i] != ch[j]
    decreases |ch| - j
  {
    if ch[i] == ch[j] {
      assert fat[ch[i]] == ch[i + 1];
      if j + 1 < |ch| {
        assert fat[ch[j]] == ch[j + 1];
        ChainDistinct(fat, ch, i + 1, j + 1);
      }
    }
  }

  ghost predicate Disjoint(a: seq<nat>, b: seq<nat>) {
    forall c :: c in a ==> c !in b
  }

  /** A cluster on a chain is a cluster, and its link is the next one or past the end. */
  lemma ChainLink(fat: seq<nat>, ch: seq<nat>, c: nat)
    requires IsChain(fat, ch) && c in ch
    ensures 2 <= c < |fat| && fat[c] >= 2
  {
    var i :| 0 <= i < |ch| && ch[i] == c;
    if i + 1 < |ch| {
      assert fat[ch[i]] == ch[i + 1];
    }
  }

  ghost predicate ChainsFormed(fat: seq<nat>, chains: map<nat, seq<nat>>) {
    forall h {:trigger chains[h]} :: h in chains ==> IsChain(fat, chains[h]) && chains[h][0] == h
  }

  ghost predicate ChainsDisjoint(chains: map<nat, seq<nat>>) {
    forall h, k {:trigger chains[h], chains[k]} :: h in chains && k in chains && h != k ==> Disjoint(chains[h], chains[k])
  }

  ghost predicate Owned(chains: map<nat, seq<nat>>, c: nat) {
    exists h :: h in chains && c in chains[h]
  }

  /** No cluster is lost: a used one lies on some chain. */
  ghost predicate ChainsCover(fat: seq<nat>, chains: map<nat, seq<nat>>) {
    forall c {:trigger Owned(chains, c)} :: 2 <= c < |fat| && fat[c] != 0 ==> Owned(chains, c)
  }

  /** Every used cluster lies on exactly one of the given chains, and every chain is well formed. */
  ghost predicate ChainsOk(fat: seq<nat>, chains: map<nat, seq<nat>>) {
    forall k: nat {:trigger Opened(k)} :: Opened(k) ==> ChainsFormed(fat, chains) && ChainsDisjoint(chains) && ChainsCover(fat, chains)
  }

  /** Free clusters lie on no chain; used ones do, and their links are never 1. */
  lemma OwnedIffUsed(fat: seq<nat>, chains: map<nat, seq<nat>>, c: nat)
    requires ChainsOk(fat, chains) && 2 <= c < |fat|
    ensures Owned(chains, c) <==> fat[c] != 0
    ensures fat[c] != 1
  {
    hide IsChain, ChainsDisjoint, Disjoint;
    assert Opened(0);
    if Owned(chains, c) {
      var h :| h in chains && c in chains[h];
      ChainLink(fat, chains[h], c);
    }
  }

  /** A chain survives any change to links of other clusters. */
  lemma KeepChain(fat: seq<nat>, fat': seq<nat>, ch: seq<nat>)
    requires IsChain(fat, ch) && |fat'| == |fat|
    requires forall c :: c in ch && c < |fat| ==> fat'[c] == fat[c]
    ensures IsChain(fat', ch)
  {
  }

  lemma HeadOnChain(fat: seq<nat>, ch: seq<nat>)
    requires IsChain(fat, ch)
    ensures ch != [] && ch[0] in ch && ch[|ch| - 1] in ch
  {
  }

  /** Marking a free cluster as an end starts a new chain. */
  lemma NewChain(fat: seq<nat>, chains: map<nat, seq<nat>>, c: nat, eoc: nat)
    requires ChainsOk(fat, chains) && 2 <= c < |fat| && fat[c] == 0 && eoc >= |fat|
    ensures c !in chains
    ensures ChainsOk(fat[c := eoc], chains[c := [c]])
  {
    hide IsChain;
    assert Opened(0);
    var fat', chains' := fat[c := eoc], chains[c := [c]];
    OwnedIffUsed(fat, chains, c);
    if c in chains { HeadOnChain(fat, chains[c]); assert false; }
    forall h | h in chains'
      ensures IsChain(fat', chains'[h]) && chains'[h][0] == h
    {
      if h == c { SingleIsChain(fat', c); } else { KeepChain(fat, fat', chains[h]); }
    }
    CoverGrows(fat, chains, chains');
    assert c in chains'[c];
    assert ChainsCover(fat', chains');
  }

  lemma SingleIsChain(fat: seq<nat>, c: nat)
    requires 2 <= c < |fat| && fat[c] >= |fat|
    ensures IsChain(fat, [c])
  {
  }

  lemma CoverGrows(fat: seq<nat>, chains: map<nat, seq<nat>>, chains': map<nat, seq<nat>>)
    requires forall h {:trigger chains[h]} :: h in chains ==> h in chains' && forall c :: c in chains[h] ==> c in chains'[h]
    ensures forall c {:trigger Owned(chains', c)} :: Owned(chains, c) ==> Owned(chains', c)
  {
    forall c | Owned(chains, c) ensures Owned(chains', c) {
      var h :| h in chains && c in chains[h];
      assert c in chains'[h];
    }
  }

  /** Linking a free cluster behind the tail of a chain extends that chain. */
  lemma ExtendChain(fat: seq<nat>, chains: map<nat, seq<nat>>, h: nat, c: nat, eoc: nat)
    requires ChainsOk(fat, chains) && h in chains && 2 <= c < |fat| && fat[c] == 0 && eoc >= |fat|
    ensures chains[h] != [] && Tail(chains[h]) < |fat|
    ensures ChainsOk(fat[c := eoc][Tail(chains[h]) := c], chains[h := chains[h] + [c]])
  {
    hide IsChain, Tail;
    assert Opened(0);
    var ch := chains[h];
    HeadOnChain(fat, ch);
    TailOnChain(fat, ch);
    var fat', chains' := fat[c := eoc][Tail(ch) := c], chains[h := ch + [c]];
    OwnedIffUsed(fat, chains, c);
    ExtendedIsChain(fat, ch, c, eoc);
    forall k | k in chains'
      ensures IsChain(fat', chains'[k]) && chains'[k][0] == k
    {
      if k != h {
        assert Disjoint(chains[h], chains[k]);
        KeepChain(fat, fat', chains[k]);
      }
    }
    CoverGrows(fat, chains, chains');
    assert c in chains'[h] && Tail(ch) in chains'[h];
    assert ChainsCover(fat', chains') by {
      hide Disjoint, ChainsDisjoint, ChainsFormed;
      assert Owned(chains', c) && Owned(chains', Tail(ch));
    }
  }

  /** The last cluster of a chain. */
  function Tail(ch: seq<nat>): nat
    requires ch != []
  {
    ch[|ch| - 1]
  }

  lemma TailOnChain(fat: seq<nat>, ch: seq<nat>)
    requires IsChain(fat, ch)
    ensures ch != [] && Tail(ch) in ch && 2 <= Tail(ch) < |fat| && fat[Tail(ch)] >= |fat|
  {
  }

  lemma ExtendedIsChain(fat: seq<nat>, ch: seq<nat>, c: nat, eoc: nat)
    requires IsChain(fat, ch) && 2 <= c < |fat| && c !in ch && eoc >= |fat|
    ensures IsChain(fat[c := eoc][Tail(ch) := c], ch + [c])
  {
    var fat', ch' := fat[c := eoc][Tail(ch) := c], ch + [c];
    forall i, j | 0 <= i < |ch'| && j == i + 1 && j < |ch'| ensures fat'[ch'[i]] == ch'[j] {
      if i < |ch| - 1 {
        ChainDistinct(fat, ch, i, |ch| - 1);
        assert fat[ch[i]] == ch[j];
      }
    }
  }

  /** Freeing all clusters of a chain removes it and leaves the others. */
  lemma RemoveChainOk(fat: seq<nat>, chains: map<nat, seq<nat>>, h: nat)
    requires ChainsOk(fat, chains) && h in chains
    ensures ChainsOk(ZeroedOn(fat, chains[h]), chains - {h})
  {
    hide IsChain;
    assert Opened(0);
    var fat', chains' := ZeroedOn(fat, chains[h]), chains - {h};
    forall k | k in chains' ensures IsChain(fat', chains'[k]) && chains'[k][0] == k {
      assert Disjoint(chains[k], chains[h]);
      KeepChain(fat, fat', chains[k]);
    }
    forall c | 2 <= c < |fat'| && fat'[c] != 0 ensures Owned(chains', c) {
      assert Owned(chains, c);
      var k :| k in chains && c in chains[k];
      assert k in chains' && c in chains'[k];
    }
  }

  /** `fat` with every cluster of `cs` marked free. */
  function ZeroedOn(fat: seq<nat>, cs: seq<nat>): (r: seq<nat>)
    ensures |r| == |fat|
  {
    seq(|fat|, c requires 0 <= c < |fat| => if c in cs then 0 else fat[c])
  }

  /** Number of free clusters below `k`. */
  function FreeBelow(fat: seq<nat>, k: nat): nat
    requires k <= |fat|
  {
    if k <= 2 then 0 else FreeBelow(fat, k - 1) + (if fat[k - 1] == 0 then 1 else 0)
  }

  /** Number of free clusters. */
  function CountFree(fat: seq<nat>): nat {
    FreeBelow(fat, |fat|)
  }

  lemma {:induction false} FreeBelowUpdate(fat: seq<nat>, c: nat, v: nat, k: nat)
    requires 2 <= c < |fat| && k <= |fat|
    ensures FreeBelow(fat[c := v], k) - FreeBelow(fat, k)
            == if c < k then (if v == 0 then 1 else 0) - (if fat[c] == 0 then 1 else 0) else 0
  {
    if k > 2 {
      FreeBelowUpdate(fat, c, v, k - 1);
    }
  }

  lemma {:induction false} FreeBelowBound(fat: seq<nat>, k: nat)
    requires k <= |fat|
    ensures FreeBelow(fat, k) <= if k <= 2 then 0 else k - 2
    ensures (forall c {:trigger fat[c]} :: 2 <= c < k ==> fat[c] != 0) <==> FreeBelow(fat, k) == 0
  {
    if k > 2 {
      FreeBelowBound(fat, k - 1);
      assert FreeBelow(fat, k) == 0 ==> fat[k - 1] != 0;
      if FreeBelow(fat, k) == 0 {
        forall c | 2 <= c < k ensures fat[c] != 0 { if c < k - 1 { assert fat[c] != 0; } }
      }
    }
  }

  datatype FreeResult = FreeResult(fat: seq<nat>, ok: bool)

  /** The walk of remove_chain from cluster `c`, on any FAT: it stops at a free cluster or past the end, and
      fails on a link to cluster 1. */
  function Freed(fat: seq<nat>, c: nat): (r: FreeResult)
    requires c >= 2
    ensures |r.fat| == |fat|
    decreases |fat| - CountFree(fat)
  {
    if c >= |fat| || fat[c] == 0 then FreeResult(fat, true)
    else if fat[c] == 1 then FreeResult(fat, false)
    else
      FreeBelowUpdate(fat, c, 0, |fat|);
      FreeBelowBound(fat[c := 0], |fat|);
      Freed(fat[c := 0], fat[c])
  }

  /** Walking a chain frees exactly its clusters. */
  lemma {:induction false} FreedChain(fat: seq<nat>, ch: seq<nat>, i: nat)
    requires IsChain(fat, ch) && i < |ch|
    ensures var part := ZeroedOn(fat, ch[..i]); |part| == |fat| && Freed(part, ch[i]) == FreeResult(ZeroedOn(fat, ch), true)
    decreases |ch| - i
  {
    var part := ZeroedOn(fat, ch[..i]);
    assert forall k :: 0 <= k < i ==> ch[..i][k] == ch[k];
    forall k | 0 <= k < i ensures ch[k] != ch[i] { ChainDistinct(fat, ch, k, i); }
    assert ch[i] !in ch[..i];
    assert part[ch[i]] == fat[ch[i]];
    assert ch[..i + 1] == ch[..i] + [ch[i]];
    assert part[ch[i] := 0] == ZeroedOn(fat, ch[..i + 1]);
    if i + 1 < |ch| {
      assert fat[ch[i]] == ch[i + 1];
      FreedChain(fat, ch, i + 1);
    } else {
      assert ch[..i + 1] == ch;
    }
  }

  /** The cluster reached from `c` after `n` links. */
  function Walk(fat: seq<nat>, c: nat, n: nat): nat {
    if n == 0 then c else var d := Walk(fat, c, n - 1); if d < |fat| then fat[d] else d
  }

  /** Walking from the head of a chain visits its clusters in order. */
  lemma {:induction false} ChainWalk(fat: seq<nat>, ch: seq<nat>, n: nat)
    requires IsChain(fat, ch) && n < |ch|
    ensures Walk(fat, ch[0], n) == ch[n]
  {
    if n > 0 {
      ChainWalk(fat, ch, n - 1);
      assert fat[ch[n - 1]] == ch[n];
    }
  }
}
