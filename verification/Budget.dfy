/** Sums of per-bucket usage over an ordered list of buckets. */
module Budget {
  /** The four quantities the shared budget is about. */
  datatype Usage = Usage(bytes: nat, frames: nat, memBytes: nat, memFrames: nat)

  const NOTHING := Usage(0, 0, 0, 0)

  function Plus(a: Usage, b: Usage): Usage {
    Usage(a.bytes + b.bytes, a.frames + b.frames, a.memBytes + b.memBytes, a.memFrames + b.memFrames)
  }

  lemma PlusNothing(u: Usage)
    ensures Plus(u, NOTHING) == u
  {
  }

  lemma PlusShift(x: Usage, a: Usage, b: Usage, c: Usage, d: Usage)
    requires Plus(a, b) == Plus(c, d)
    ensures Plus(Plus(x, a), b) == Plus(Plus(x, c), d)
  {
  }

  function Look<K>(m: map<K, Usage>, k: K): Usage {
    if k in m then m[k] else NOTHING
  }

  function Sum<K>(m: map<K, Usage>, order: seq<K>): Usage {
    if order == [] then NOTHING else Plus(Look(m, order[0]), Sum(m, order[1..]))
  }

  predicate Differ<T(==)>(s: seq<T>, i: nat, j: nat)
    requires i < |s| && j < |s|
  {
    s[i] != s[j]
  }

  ghost predicate NoDup<T>(s: seq<T>) {
    forall i: nat, j: nat {:trigger Differ(s, i, j)} :: i < j < |s| ==> Differ(s, i, j)
  }

  lemma NoDupTail<T>(s: seq<T>)
    requires NoDup(s) && s != []
    ensures NoDup(s[1..]) && s[0] !in s[1..]
  {
    forall i: nat, j: nat | i < j < |s[1..]| ensures Differ(s[1..], i, j) {
      assert Differ(s, i + 1, j + 1);
    }
    forall i | 0 <= i < |s[1..]| ensures s[1..][i] != s[0] {
      assert Differ(s, 0, i + 1);
    }
  }

  lemma NoDupCons<T>(x: T, s: seq<T>)
    requires NoDup(s) && x !in s
    ensures NoDup([x] + s)
  {
    var r := [x] + s;
    forall i: nat, j: nat | i < j < |r| ensures Differ(r, i, j) {
      assert r[j] == s[j - 1] && s[j - 1] in s;
      if i > 0 {
        assert Differ(s, i - 1, j - 1);
      }
    }
  }

  lemma NoDupSnoc<T>(s: seq<T>, x: T)
    requires NoDup(s) && x !in s
    ensures NoDup(s + [x])
  {
    var r := s + [x];
    forall i: nat, j: nat | i < j < |r| ensures Differ(r, i, j) {
      assert r[i] == s[i] && s[i] in s;
      if j < |s| {
        assert Differ(s, i, j);
      }
    }
  }

  function Elems<T>(s: seq<T>): set<T> {
    set x | x in s
  }

  lemma {:induction false} SumFrame<K>(a: map<K, Usage>, b: map<K, Usage>, order: seq<K>)
    requires forall i :: 0 <= i < |order| ==> Look(a, order[i]) == Look(b, order[i])
    ensures Sum(a, order) == Sum(b, order)
  {
    if order != [] {
      SumFrame(a, b, order[1..]);
    }
  }

  lemma {:induction false} SumSnoc<K>(m: map<K, Usage>, order: seq<K>, k: K)
    ensures Sum(m, order + [k]) == Plus(Sum(m, order), Look(m, k))
  {
    if order == [] {
      assert order + [k] == [k];
    } else {
      assert (order + [k])[1..] == order[1..] + [k];
      SumSnoc(m, order[1..], k);
    }
  }

  lemma NewBucketSum<K>(m: map<K, Usage>, order: seq<K>, k: K)
    requires k !in order
    ensures Sum(m[k := NOTHING], order + [k]) == Sum(m, order)
  {
    var m' := m[k := NOTHING];
    assert Sum(m', order) == Sum(m, order) by {
      forall i | 0 <= i < |order| ensures Look(m', order[i]) == Look(m, order[i]) {
        assert order[i] in order;
      }
      SumFrame(m', m, order);
    }
    calc {
      Sum(m', order + [k]);
      { SumSnoc(m', order, k); }
      Plus(Sum(m', order), Look(m', k));
      { PlusNothing(Sum(m', order)); }
      Sum(m', order);
    }
  }

  lemma PlusSwap(x: Usage, a: Usage, u: Usage)
    ensures Plus(Plus(u, a), x) == Plus(Plus(x, a), u)
  {
  }

  /** Two sums that differ in one place differ by that place. */
  lemma {:induction false} SumChange<K>(a: map<K, Usage>, b: map<K, Usage>, order: seq<K>, i: nat, k: K)
    requires i < |order| && order[i] == k
    requires forall j :: 0 <= j < |order| && j != i ==> Look(a, order[j]) == Look(b, order[j])
    ensures Plus(Sum(b, order), Look(a, k)) == Plus(Sum(a, order), Look(b, k))
  {
    var rest := order[1..];
    if i == 0 {
      SumFrame(a, b, rest);
      PlusSwap(Look(a, k), Sum(a, rest), Look(b, k));
    } else {
      SumChange(a, b, rest, i - 1, k);
      PlusShift(Look(a, order[0]), Sum(b, rest), Look(a, k), Sum(a, rest), Look(b, k));
    }
  }

  /** Changing one bucket changes the sum by that bucket's difference. */
  lemma SumUpdate<K>(m: map<K, Usage>, order: seq<K>, i: nat, u: Usage)
    requires NoDup(order) && i < |order|
    ensures Plus(Sum(m[order[i] := u], order), Look(m, order[i])) == Plus(Sum(m, order), u)
  {
    var m' := m[order[i] := u];
    forall j | 0 <= j < |order| && j != i ensures Look(m, order[j]) == Look(m', order[j]) {
      assert Differ(order, if i < j then i else j, if i < j then j else i);
    }
    SumChange(m, m', order, i, order[i]);
  }

  function Filter<K(==)>(order: seq<K>, k: K): seq<K> {
    if order == [] then []
    else if order[0] == k then Filter(order[1..], k)
    else [order[0]] + Filter(order[1..], k)
  }

  lemma {:induction false} FilterElems<K>(order: seq<K>, k: K)
    ensures Elems(Filter(order, k)) == Elems(order) - {k}
  {
    if order != [] {
      FilterElems(order[1..], k);
      assert Elems(order) == {order[0]} + Elems(order[1..]);
      if order[0] != k {
        assert Filter(order, k)[1..] == Filter(order[1..], k);
        assert Elems(Filter(order, k)) == {order[0]} + Elems(Filter(order[1..], k));
      }
    }
  }

  lemma {:induction false} FilterNoDup<K>(order: seq<K>, k: K)
    requires NoDup(order)
    ensures NoDup(Filter(order, k))
  {
    if order != [] {
      NoDupTail(order);
      FilterNoDup(order[1..], k);
      FilterElems(order[1..], k);
      if order[0] != k {
        assert order[0] !in Elems(order[1..]);
        assert order[0] !in Elems(Filter(order[1..], k));
        NoDupCons(order[0], Filter(order[1..], k));
      }
    }
  }

  lemma {:induction false} FilterAbsent<K>(order: seq<K>, k: K)
    requires k !in order
    ensures Filter(order, k) == order
  {
    if order != [] {
      FilterAbsent(order[1..], k);
    }
  }

  /** Removing a bucket releases exactly its own share. */
  lemma {:induction false} SumRemove<K>(m: map<K, Usage>, order: seq<K>, k: K)
    requires NoDup(order) && k in order
    ensures Sum(m, order) == Plus(Sum(m - {k}, Filter(order, k)), Look(m, k))
  {
    NoDupTail(order);
    if order[0] == k {
      FilterAbsent(order[1..], k);
      SumFrame(m, m - {k}, order[1..]);
    } else {
      SumRemove(m, order[1..], k);
      assert Filter(order, k)[1..] == Filter(order[1..], k);
      assert Look(m - {k}, order[0]) == Look(m, order[0]);
    }
  }
}
