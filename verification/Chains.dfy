/** Cluster chains: the links of a FAT read as duplicate-free sequences ending in an
    end-of-chain mark, and the free clusters in between. */
module Chains {

  const END_OF_CHAIN: nat := 0x0FFF

  // The largest number of clusters for which every stored link stays below the end marks.
  const MAX_CLUSTERS: nat := 0xFF7

  predicate IsEndMark(link: nat) {
    link >= 0x0FF8
  }

  predicate InRange(links: seq<nat>, ch: seq<nat>) {
    forall i :: 0 <= i < |ch| ==> 2 <= ch[i] < |links|
  }

  predicate NoRepeat(ch: seq<nat>) {
    forall i, j :: 0 <= i < j < |ch| ==> ch[i] != ch[j]
  }

  lemma NoRepeatAt(ch: seq<nat>, i: nat, j: nat)
    requires NoRepeat(ch) && i < |ch| && j < |ch| && ch[i] == ch[j]
    ensures i == j
  {
  }

  predicate IsChain(links: seq<nat>, ch: seq<nat>) {
    && ch != [] && |links| <= MAX_CLUSTERS
    && InRange(links, ch)
    && NoRepeat(ch)
    && (forall i :: 0 <= i < |ch| - 1 ==> links[ch[i]] == ch[i + 1])
    && IsEndMark(links[ch[|ch| - 1]])
  }

  // The value stored for position `i` of a chain.
  function LinkAt(ch: seq<nat>, i: nat): nat
    requires i < |ch|
  {
    if i + 1 < |ch| then ch[i + 1] else END_OF_CHAIN
  }

  // `after` is `before` with the links of the first `n` clusters of `ch` set.
  predicate Written(before: seq<nat>, after: seq<nat>, ch: seq<nat>, n: nat) {
    && n <= |ch| && |after| == |before| && InRange(before, ch)
    && (forall i :: 0 <= i < n ==> after[ch[i]] == LinkAt(ch, i))
    && (forall c :: 0 <= c < |before| && c !in ch[..n] ==> after[c] == before[c])
  }

  // `after` is `before` with the clusters `ch` set free.
  predicate Freed(before: seq<nat>, after: seq<nat>, ch: seq<nat>) {
    && |after| == |before| && InRange(before, ch)
    && (forall c :: 0 <= c < |before| ==> after[c] == if c in ch then 0 else before[c])
  }

  /** Clusters linked one to the next, the last one to an end mark, are a chain. */
  lemma LinkedIsChain(links: seq<nat>, ch: seq<nat>)
    requires ch != [] && NoRepeat(ch) && InRange(links, ch) && |links| <= MAX_CLUSTERS
    requires forall i :: 0 <= i < |ch| ==> links[ch[i]] == LinkAt(ch, i)
    ensures IsChain(links, ch)
  {
    forall i | 0 <= i < |ch| - 1 ensures links[ch[i]] == ch[i + 1] {
      assert links[ch[i]] == LinkAt(ch, i);
    }
    assert links[ch[|ch| - 1]] == LinkAt(ch, |ch| - 1);
  }

  lemma WrittenStep(before: seq<nat>, mid: seq<nat>, ch: seq<nat>, i: nat)
    requires Written(before, mid, ch, i) && NoRepeat(ch) && i < |ch|
    ensures Written(before, mid[ch[i] := LinkAt(ch, i)], ch, i + 1)
  {
    var after := mid[ch[i] := LinkAt(ch, i)];
    assert ch[..i + 1] == ch[..i] + [ch[i]];
    forall j | 0 <= j < i ensures after[ch[j]] == LinkAt(ch, j) {
      NoRepeatAt(ch, i, i);
    }
  }

  lemma FreedStep(before: seq<nat>, mid: seq<nat>, ch: seq<nat>, c: nat)
    requires Freed(before, mid, ch) && 2 <= c < |before|
    ensures Freed(before, mid[c := 0], ch + [c])
  {
  }

  // A chain being freed from the front still leads on from its first cluster not yet freed.
  lemma FreedAhead(before: seq<nat>, mid: seq<nat>, ch: seq<nat>, i: nat)
    requires IsChain(before, ch) && i < |ch| && Freed(before, mid, ch[..i])
    ensures 2 <= ch[i] < |mid| && mid[ch[i]] == before[ch[i]]
  {
    NotInPrefix(ch, i);
  }

  lemma NotInPrefix(ch: seq<nat>, i: nat)
    requires NoRepeat(ch) && i < |ch|
    ensures ch[i] !in ch[..i]
  {
    forall j | 0 <= j < i ensures ch[..i][j] != ch[i] {
    }
  }

  // A cluster of a chain is never free, and a walk meets either the next cluster or the end.
  lemma ChainStep(links: seq<nat>, ch: seq<nat>, i: nat)
    requires IsChain(links, ch) && i < |ch|
    ensures links[ch[i]] != 0
    ensures i + 1 < |ch| ==> links[ch[i]] == ch[i + 1] && !IsEndMark(links[ch[i]])
    ensures i + 1 == |ch| ==> IsEndMark(links[ch[i]])
  {
    if i + 1 < |ch| {
      assert links[ch[i]] == ch[i + 1] >= 2;
    }
  }

  lemma ChainNotFree(links: seq<nat>, ch: seq<nat>, c: nat)
    requires IsChain(links, ch) && c in ch
    ensures 2 <= c < |links| && links[c] != 0
  {
    var i :| 0 <= i < |ch| && ch[i] == c;
    ChainStep(links, ch, i);
  }

  lemma ChainUntouched(before: seq<nat>, after: seq<nat>, ch: seq<nat>)
    requires IsChain(before, ch) && |after| == |before|
    requires forall c :: c in ch ==> c < |after| && after[c] == before[c]
    ensures IsChain(after, ch)
  {
    assert forall i :: 0 <= i < |ch| ==> after[ch[i]] == before[ch[i]];
  }

  /** A first cluster has at most one chain: what a walk from it yields does not depend on who walks. */
  lemma ChainUnique(links: seq<nat>, a: seq<nat>, b: seq<nat>)
    requires IsChain(links, a) && IsChain(links, b) && a[0] == b[0]
    ensures a == b
  {
    var n := if |a| < |b| then |a| else |b|;
    var i := 1;
    while i < n
      invariant 1 <= i <= n && a[..i] == b[..i]
    {
      ChainStep(links, a, i - 1);
      ChainStep(links, b, i - 1);
      assert a[i - 1] == a[..i][i - 1] == b[i - 1];
      i := i + 1;
    }
    assert a[n - 1] == a[..n][n - 1] == b[n - 1];
    ChainStep(links, a, n - 1);
    ChainStep(links, b, n - 1);
  }

  // ---- free clusters

  predicate IsFreeCluster(links: seq<nat>, c: nat) {
    2 <= c < |links| && links[c] == 0
  }

  // The free clusters below `k`, in ascending order.
  function FreeBelow(links: seq<nat>, k: nat): (free: seq<nat>)
    requires k <= |links|
    ensures forall i :: 0 <= i < |free| ==> IsFreeCluster(links, free[i]) && free[i] < k
    ensures forall i, j :: 0 <= i < j < |free| ==> free[i] < free[j]
    ensures forall c: nat :: c < k && IsFreeCluster(links, c) ==> c in free
  {
    if k <= 2 then []
    else if links[k - 1] == 0 then FreeBelow(links, k - 1) + [k - 1]
    else FreeBelow(links, k - 1)
  }

  function FreeCount(links: seq<nat>): nat {
    |FreeBelow(links, |links|)|
  }

  lemma {:induction false} FreeBelowGrows(links: seq<nat>, k: nat, m: nat)
    requires k <= m <= |links|
    ensures FreeBelow(links, k) <= FreeBelow(links, m)
  {
    if k < m {
      FreeBelowGrows(links, k, m - 1);
    }
  }

  function FreeAt(links: seq<nat>, c: nat, k: nat): nat {
    if c < k && IsFreeCluster(links, c) then 1 else 0
  }

  lemma {:induction false} FreeBelowSet(links: seq<nat>, c: nat, v: nat, k: nat)
    requires c < |links| && k <= |links|
    ensures |FreeBelow(links[c := v], k)| + FreeAt(links, c, k) == |FreeBelow(links, k)| + FreeAt(links[c := v], c, k)
  {
    if k > 2 {
      FreeBelowSet(links, c, v, k - 1);
    }
  }

  // Taking one free cluster leaves one fewer; relinking a taken one changes nothing.
  lemma FreeCountSet(links: seq<nat>, c: nat, v: nat)
    requires 2 <= c < |links| && v != 0
    ensures FreeCount(links[c := v]) == FreeCount(links) - if links[c] == 0 then 1 else 0
  {
    FreeBelowSet(links, c, v, |links|);
  }

  function Extended(links: seq<nat>, ch: seq<nat>, c: nat): seq<nat>
    requires IsChain(links, ch) && c < |links|
  {
    links[ch[|ch| - 1] := c][c := END_OF_CHAIN]
  }

  // The free cluster `c` was linked to `tail`, where some chain ended, and ends it now.
  predicate LinkedOn(before: seq<nat>, after: seq<nat>, tail: nat, c: nat) {
    && tail < |before| && IsEndMark(before[tail]) && IsFreeCluster(before, c)
    && after == before[tail := c][c := END_OF_CHAIN]
  }

  // Some chain is longer by one cluster that was free; no other link changed.
  ghost predicate OneMore(before: seq<nat>, after: seq<nat>) {
    exists tail: nat, c: nat :: LinkedOn(before, after, tail, c)
  }

  // Linking a free cluster after the last one of a chain.
  lemma ExtendLinks(links: seq<nat>, ch: seq<nat>, c: nat)
    requires IsChain(links, ch) && IsFreeCluster(links, c)
    ensures var tail := ch[|ch| - 1];
            var after := links[tail := c][c := END_OF_CHAIN];
            && tail != c && after[tail] == c && FreeCount(after) == FreeCount(links) - 1
            && (forall i :: 0 <= i < |ch + [c]| ==> after[(ch + [c])[i]] == LinkAt(ch + [c], i))
            && (forall x :: 0 <= x < |links| && x !in ch + [c] ==> after[x] == links[x])
            && InRange(links, ch + [c])
  {
    var tail := ch[|ch| - 1];
    ChainNotFree(links, ch, tail);
    FreeCountSet(links, tail, c);
    FreeCountSet(links[tail := c], c, END_OF_CHAIN);
    hide FreeCount;
    var after, longer := links[tail := c][c := END_OF_CHAIN], ch + [c];
    forall i | 0 <= i < |longer| ensures after[longer[i]] == LinkAt(longer, i) {
      ExtendLink(links, ch, c, i);
    }
  }

  lemma ExtendLink(links: seq<nat>, ch: seq<nat>, c: nat, i: nat)
    requires IsChain(links, ch) && IsFreeCluster(links, c) && i <= |ch|
    ensures links[ch[|ch| - 1] := c][c := END_OF_CHAIN][(ch + [c])[i]] == LinkAt(ch + [c], i)
  {
    if i < |ch| {
      ChainNotFree(links, ch, ch[i]);
      assert i < |ch| - 1 ==> ch[i] != ch[|ch| - 1];
    }
  }
}
