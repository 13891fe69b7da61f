/** Round-robin eviction is fair between buckets. */
module BufferFairness {
  import opened Frames
  import opened Sessions
  import opened Budget
  import opened BufferSpec
  import opened BufferBudget

  /** Steps from position `c` forward to position `i` on a ring of `n`. */
  function Dist(c: nat, n: nat, i: nat): (d: nat)
    requires c < n && i < n
    ensures d < n
  {
    if c <= i then i - c else i + n - c
  }

  function Next(i: nat, n: nat): nat
    requires i < n
  {
    if i + 1 == n then 0 else i + 1
  }

  lemma NextIsMod(i: nat, n: nat)
    requires i < n
    ensures (i + 1) % n == Next(i, n)
  {
    ModIs(i + 1, if i + 1 == n then 1 else 0, n, Next(i, n));
  }

  lemma RingStep(cursor: nat, n: nat, k: nat)
    requires k < n
    ensures Dist(cursor % n, n, (cursor + k) % n) == k
  {
    var c, q := cursor % n, cursor / n;
    assert cursor == q * n + c;
    if c + k < n {
      ModIs(cursor + k, q, n, c + k);
    } else {
      assert (q + 1) * n == q * n + n;
      ModIs(cursor + k, q + 1, n, c + k - n);
    }
  }

  /** The scan picks the evictable bucket nearest after the cursor. */
  lemma {:induction false} ScanPicksNearest(s: State, memOnly: bool, readable: ChatId -> bool, k: nat, i: nat)
    requires k <= |s.order| && i < |s.order|
    requires Scan(s, memOnly, readable, k).Some? && Evictable(s, memOnly, readable, i)
    requires k <= Dist(s.cursor % |s.order|, |s.order|, i)
    ensures var v := Scan(s, memOnly, readable, k).value; var c := s.cursor % |s.order|;
      Dist(c, |s.order|, v) <= Dist(c, |s.order|, i)
    decreases |s.order| - k
  {
    var n, c := |s.order|, s.cursor % |s.order|;
    if k < n {
      RingStep(s.cursor, n, k);
      if !Evictable(s, memOnly, readable, (s.cursor + k) % n) && k + 1 <= n {
        assert Dist(c, n, i) != k by {
          if Dist(c, n, i) == k {
            SameDistSamePlace(c, n, i, (s.cursor + k) % n);
          }
        }
        ScanPicksNearest(s, memOnly, readable, k + 1, i);
      }
    }
  }

  lemma SameDistSamePlace(c: nat, n: nat, i: nat, j: nat)
    requires c < n && i < n && j < n && Dist(c, n, i) == Dist(c, n, j)
    ensures i == j
  {
  }

  /** A run of evictions of one mode: `ss[k]` is the state the k-th eviction finds and `vs[k]`
      the position it evicts from. Pushes, drains, commits and rollback restores may happen
      in between; buckets are neither added nor removed. */
  ghost predicate EvictionRun(ss: seq<State>, vs: seq<nat>, memOnly: bool, io: (nat, ChatId) -> bool) {
    && |vs| == |ss|
    && (forall k: nat {:trigger Round(ss, vs, memOnly, io, k)} :: k < |ss| ==> Round(ss, vs, memOnly, io, k))
  }

  ghost predicate Round(ss: seq<State>, vs: seq<nat>, memOnly: bool, io: (nat, ChatId) -> bool, k: nat)
    requires k < |ss| == |vs|
  {
    && ss[k].order == ss[0].order
    && Scan(ss[k], memOnly, ReadsAt(io, k), 0) == Some(vs[k])
    && (k + 1 < |ss| ==> ss[k + 1].cursor == EvictAt(ss[k], vs[k]).cursor)
  }

  ghost predicate CanGive(ss: seq<State>, memOnly: bool, io: (nat, ChatId) -> bool, k: nat, x: nat)
    requires k < |ss|
  {
    x < |ss[k].order| && Evictable(ss[k], memOnly, ReadsAt(io, k), x)
  }

  lemma {:induction false} ServedBefore(ss: seq<State>, vs: seq<nat>, memOnly: bool, io: (nat, ChatId) -> bool,
                                        p: nat, j: nat, b: nat, x: nat) returns (k: nat)
    requires EvictionRun(ss, vs, memOnly, io) && p <= j < |ss| && vs[j] == b
    requires forall m: nat :: p <= m < j ==> vs[m] != b
    requires forall m: nat :: p <= m <= j ==> CanGive(ss, memOnly, io, m, x)
    requires b < |ss[0].order| && x < |ss[0].order| && x != b
    requires ss[p].cursor < |ss[0].order| && ss[p].order == ss[0].order
    requires Dist(ss[p].cursor, |ss[0].order|, x) < Dist(ss[p].cursor, |ss[0].order|, b)
    ensures p <= k < j && vs[k] == x
    decreases j - p
  {
    var n, c, v := |ss[0].order|, ss[p].cursor, vs[p];
    assert Round(ss, vs, memOnly, io, p) && CanGive(ss, memOnly, io, p, x);
    ModIs(c, 0, n, c);
    ScanPicksNearest(ss[p], memOnly, ReadsAt(io, p), 0, x);
    assert Dist(c, n, v) <= Dist(c, n, x);
    assert v != b;
    if v == x {
      k := p;
    } else {
      SameDistDiffers(c, n, v, x);
      NextIsMod(v, n);
      assert Round(ss, vs, memOnly, io, p + 1);
      k := ServedBefore(ss, vs, memOnly, io, p + 1, j, b, x);
    }
  }

  lemma SameDistDiffers(c: nat, n: nat, v: nat, x: nat)
    requires c < n && v < n && x < n && v != x
    ensures Dist(c, n, v) != Dist(c, n, x)
  {
  }

  /** Between two evictions from one bucket, every other bucket that could give a frame all
      the while has given one. */
  lemma {:induction false} RoundRobinIsFair(ss: seq<State>, vs: seq<nat>, memOnly: bool, io: (nat, ChatId) -> bool,
                         i: nat, j: nat, x: nat) returns (k: nat)
    requires EvictionRun(ss, vs, memOnly, io) && i < j < |ss| && vs[i] == vs[j] && x != vs[i]
    requires forall m: nat :: i < m < j ==> vs[m] != vs[i]
    requires forall m: nat :: i < m <= j ==> CanGive(ss, memOnly, io, m, x)
    ensures i < k < j && vs[k] == x
  {
    var n, b := |ss[0].order|, vs[i];
    assert Round(ss, vs, memOnly, io, i) && Round(ss, vs, memOnly, io, i + 1);
    assert CanGive(ss, memOnly, io, i + 1, x);
    NextIsMod(b, n);
    k := ServedBefore(ss, vs, memOnly, io, i + 1, j, b, x);
  }
}
