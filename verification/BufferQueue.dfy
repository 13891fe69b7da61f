/** Each bucket's three stores behave as one first-in first-out queue. */
module BufferQueue {
  import opened Frames
  import opened Sessions
  import opened Budget
  import opened BufferSpec

  // ---------------------------------------------------------------------------
  // Evictions
  // ---------------------------------------------------------------------------

  /** `t` is `s` after some evictions: frames only leave, in order, each one that leaves is
      listed as dropped. Says nothing about which of them were in flight. */
  ghost predicate Thinned(s: Session, t: Session) {
    && Subseq(t.View(), s.View())
    && multiset(t.View()) + multiset(t.evicted) == multiset(s.View()) + multiset(s.evicted)
    && t.failed == s.failed && t.broken == s.broken
  }

  lemma ThinnedSameQueue(s: Session, t: Session)
    requires t.View() == s.View() && t.evicted == s.evicted && t.failed == s.failed && t.broken == s.broken
    ensures Thinned(s, t)
  {
    SubseqRefl(s.View());
  }

  lemma ThinnedTrans(a: Session, b: Session, c: Session)
    requires Thinned(a, b) && Thinned(b, c)
    ensures Thinned(a, c)
  {
    SubseqTrans(c.View(), b.View(), a.View());
  }

  lemma EvictThins(s: Session)
    requires s.mem != [] || s.disk != []
    ensures Thinned(s, Evict(s)) && Evict(s).inFlight == s.inFlight
  {
    EvictConserves(s);
    var k := EvictDeletesOne(s);
    SubseqWithout(s.View(), k);
  }

  /** `t` is reached from `s` by evicting from the buckets at these positions in turn. */
  ghost predicate Evictions(s: State, at: seq<nat>, t: State)
    decreases |at|
  {
    if at == [] then s == t else Holds(s, at[0]) && Evictions(EvictAt(s, at[0]), at[1..], t)
  }

  lemma {:induction false} TrimTotalEvicts(l: Limits, s: State, io: (nat, ChatId) -> bool, n: nat)
    returns (at: seq<nat>)
    requires Wf(s)
    ensures Evictions(s, at, TrimTotal(l, s, io, n))
    decreases Total(s).frames
  {
    at := [];
    if OverTotal(l, Total(s)) {
      var i := Scan(s, false, ReadsAt(io, n), 0);
      if i.Some? {
        EvictAtWf(s, i.value);
        EvictAtTotal(s, i.value);
        var rest := TrimTotalEvicts(l, EvictAt(s, i.value), io, n + 1);
        at := [i.value] + rest;
        assert at[1..] == rest;
      }
    }
  }

  lemma {:induction false} TrimMemEvicts(l: Limits, s: State) returns (at: seq<nat>)
    requires Wf(s)
    ensures Evictions(s, at, TrimMem(l, s))
    decreases Total(s).frames
  {
    at := [];
    if OverMem(l, Total(s)) {
      var i := Scan(s, true, NO_READS, 0);
      if i.Some? {
        EvictAtWf(s, i.value);
        EvictAtTotal(s, i.value);
        var rest := TrimMemEvicts(l, EvictAt(s, i.value));
        at := [i.value] + rest;
        assert at[1..] == rest;
      }
    }
  }

  lemma {:induction false} EvictionsKeepBuckets(s: State, at: seq<nat>, t: State)
    requires Evictions(s, at, t)
    ensures t.order == s.order && t.chats.Keys == s.chats.Keys
    decreases |at|
  {
    if at != [] {
      var m := EvictAt(s, at[0]);
      assert m.chats.Keys == s.chats.Keys;
      EvictionsKeepBuckets(m, at[1..], t);
    }
  }

  /** Evictions only delete frames, and every one they delete is counted. */
  lemma {:induction false} EvictionsThin(s: State, at: seq<nat>, t: State, c: ChatId)
    requires Evictions(s, at, t)
    ensures Thinned(Bucket(s, c), Bucket(t, c))
    ensures Bucket(t, c).inFlight == Bucket(s, c).inFlight
    decreases |at|
  {
    var e := Bucket(s, c);
    if at == [] {
      ThinnedSameQueue(e, e);
    } else {
      var m := EvictAt(s, at[0]);
      if s.order[at[0]] == c {
        EvictThins(e);
      } else {
        ThinnedSameQueue(e, e);
      }
      EvictionsThin(m, at[1..], t, c);
      ThinnedTrans(e, Bucket(m, c), Bucket(t, c));
    }
  }

  // ---------------------------------------------------------------------------
  // Push
  // ---------------------------------------------------------------------------

  /** Guard under which a push keeps first-in first-out order: the frame is not put into
      memory in front of records still on disk. */
  predicate FifoPush(l: Limits, s: State, c: ChatId, f: Frame) {
    Bucket(s, c).broken || Bucket(s, c).disk == [] || !FitsMem(l, s, f)
  }

  lemma AppendedQueues(a: seq<Frame>, b: seq<Frame>, d: seq<Frame>, f: Frame)
    requires AllBelow(a + b + d, f.seqNo)
    ensures a + (b + [f]) + d == (a + b + d) + [f] <==> d == []
  {
    if d != [] {
      var x, y := a + (b + [f]) + d, (a + b + d) + [f];
      var z := a + b + d;
      assert x[|x| - 1] == d[|d| - 1] == z[|z| - 1];
      assert y[|y| - 1] == f;
    } else {
      assert a + (b + [f]) + d == (a + b + d) + [f];
    }
  }

  /** Exactly when storing a frame newer than everything pending puts it at the end of the
      queue. */
  lemma {:induction false} StoreAppendsIff(l: Limits, s: State, c: ChatId, f: Frame, openOk: bool, appendOk: bool)
    requires AllBelow(Bucket(s, c).View(), f.seqNo)
    requires Admit(l, s, c, f, openOk, appendOk).1 == Buffered
    ensures Admit(l, s, c, f, openOk, appendOk).0.View() == Bucket(s, c).View() + [f]
            <==> FifoPush(l, s, c, f)
  {
    var e := Bucket(s, c);
    AppendedQueues(e.inFlight, e.mem, e.disk, f);
    assert e.inFlight + e.mem + (e.disk + [f]) == e.View() + [f];
  }

  lemma QueuesMultiset(a: seq<Frame>, b: seq<Frame>, d: seq<Frame>, f: Frame)
    ensures multiset(a + (b + [f]) + d) == multiset(a + b + d) + multiset{f}
    ensures a + b + (d + [f]) == (a + b + d) + [f]
  {
  }

  /** A stored frame joins the queue, a refused one the disk-failed list; nothing else moves. */
  lemma {:induction false} AdmitConserves(l: Limits, s: State, c: ChatId, f: Frame, openOk: bool, appendOk: bool)
    ensures var e := Bucket(s, c); var r := Admit(l, s, c, f, openOk, appendOk);
      && r.0.inFlight == e.inFlight && r.0.evicted == e.evicted
      && (r.1 == Buffered ==> r.0.failed == e.failed && multiset(r.0.View()) == multiset(e.View()) + multiset{f})
      && (r.1 != Buffered ==> r.0.failed == e.failed + [f] && r.0.View() == e.View() && r.0.broken)
  {
    var e := Bucket(s, c);
    QueuesMultiset(e.inFlight, e.mem, e.disk, f);
  }

  lemma StoredBuckets(l: Limits, s: State, c: ChatId, f: Frame, openOk: bool, appendOk: bool, d: ChatId)
    requires Wf(s)
    ensures var t := Stored(l, s, c, f, openOk, appendOk);
      Bucket(t, d) == if d == c then Admit(l, s, c, f, openOk, appendOk).0 else Bucket(s, d)
  {
  }

  /** After the frame is stored a push only evicts. */
  lemma PushEvicts(l: Limits, s: State, c: ChatId, f: Frame, openOk: bool, appendOk: bool,
                   io: (nat, ChatId) -> bool, d: ChatId)
    requires Wf(s) && f.Size() <= l.maxFrame
    ensures var m := if d == c then Admit(l, s, c, f, openOk, appendOk).0 else Bucket(s, d);
      var e := Bucket(Push(l, s, c, f, openOk, appendOk, io).0, d);
      Thinned(m, e) && e.inFlight == m.inFlight
  {
    var t := Stored(l, s, c, f, openOk, appendOk);
    StoredBuckets(l, s, c, f, openOk, appendOk, d);
    if Admit(l, s, c, f, openOk, appendOk).1 == Buffered {
      var at := TrimTotalEvicts(l, t, io, 0);
      EvictionsThin(t, at, TrimTotal(l, t, io, 0), d);
    } else {
      ThinnedSameQueue(Bucket(t, d), Bucket(t, d));
    }
  }

  /** Every frame a bucket has taken in and not confirmed as sent. */
  function Accounted(e: Session): multiset<Frame> {
    multiset(e.View()) + multiset(e.evicted) + multiset(e.failed)
  }

  lemma AdmitAccounted(l: Limits, s: State, c: ChatId, f: Frame, openOk: bool, appendOk: bool)
    ensures Accounted(Admit(l, s, c, f, openOk, appendOk).0) == Accounted(Bucket(s, c)) + multiset([f])
  {
    AdmitConserves(l, s, c, f, openOk, appendOk);
    var e, e' := Bucket(s, c), Admit(l, s, c, f, openOk, appendOk).0;
    assert multiset(e.failed + [f]) == multiset(e.failed) + multiset([f]);
  }

  /** Nothing is lost by a push: the pushed frame, and every frame it displaces, is in the
      queue or on one of the drop lists; no batch in flight is touched. */
  lemma {:induction false} PushConserves(l: Limits, s: State, c: ChatId, f: Frame, openOk: bool, appendOk: bool,
                      io: (nat, ChatId) -> bool, d: ChatId)
    requires Wf(s) && f.Size() <= l.maxFrame
    ensures var e, e' := Bucket(s, d), Bucket(Push(l, s, c, f, openOk, appendOk, io).0, d);
      && Accounted(e') == Accounted(e) + multiset(if d == c then [f] else [])
      && e'.inFlight == e.inFlight
  {
    PushEvicts(l, s, c, f, openOk, appendOk, io, d);
    if d == c {
      AdmitAccounted(l, s, c, f, openOk, appendOk);
      AdmitConserves(l, s, c, f, openOk, appendOk);
    }
  }

  /** Under the order guard a stored frame goes to the end, and a refused one nowhere. */
  lemma AdmitAscending(l: Limits, s: State, c: ChatId, f: Frame, openOk: bool, appendOk: bool)
    requires Ascending(Bucket(s, c).View())
    requires AllBelow(Bucket(s, c).View(), f.seqNo) && FifoPush(l, s, c, f)
    ensures var v := Admit(l, s, c, f, openOk, appendOk).0.View();
      Ascending(v) && Subseq(v, Bucket(s, c).View() + [f])
  {
    var v := Bucket(s, c).View();
    if Admit(l, s, c, f, openOk, appendOk).1 == Buffered {
      StoreAppendsIff(l, s, c, f, openOk, appendOk);
      SubseqRefl(v + [f]);
    } else {
      SubseqPrefix(v, v + [f]);
    }
  }

  /** Under the order guard a push leaves the queue it names in ascending order; only that
      frame can be new. */
  lemma {:induction false} PushAscending(l: Limits, s: State, c: ChatId, f: Frame, openOk: bool, appendOk: bool,
                      io: (nat, ChatId) -> bool)
    requires Wf(s) && Ascending(Bucket(s, c).View())
    requires AllBelow(Bucket(s, c).View(), f.seqNo) && FifoPush(l, s, c, f)
    ensures var v := Bucket(Push(l, s, c, f, openOk, appendOk, io).0, c).View();
      Ascending(v) && Subseq(v, Bucket(s, c).View() + [f])
  {
    var v := Bucket(s, c).View();
    if f.Size() <= l.maxFrame {
      AdmitAscending(l, s, c, f, openOk, appendOk);
      var m := Admit(l, s, c, f, openOk, appendOk).0.View();
      PushEvicts(l, s, c, f, openOk, appendOk, io, c);
      var r := Bucket(Push(l, s, c, f, openOk, appendOk, io).0, c).View();
      SubseqAscending(r, m);
      SubseqTrans(r, m, v + [f]);
    } else {
      SubseqPrefix(v, v + [f]);
    }
  }

  /** A push into one bucket can only delete frames of the others. */
  lemma {:induction false} PushOthers(l: Limits, s: State, c: ChatId, f: Frame, openOk: bool, appendOk: bool,
                   io: (nat, ChatId) -> bool, d: ChatId)
    requires Wf(s) && d != c
    ensures Thinned(Bucket(s, d), Bucket(Push(l, s, c, f, openOk, appendOk, io).0, d))
  {
    if f.Size() <= l.maxFrame {
      PushEvicts(l, s, c, f, openOk, appendOk, io, d);
    } else {
      ThinnedSameQueue(Bucket(s, d), Bucket(s, d));
    }
  }

  // ---------------------------------------------------------------------------
  // Drain
  // ---------------------------------------------------------------------------

  lemma {:induction false} BatchWithin(q: seq<Frame>, maxFrames: nat, maxBytes: nat)
    ensures var k := Batch(q, maxFrames, maxBytes);
      && k <= maxFrames && Bytes(q[..k]) <= maxBytes
      && (k < |q| && k < maxFrames ==> Bytes(q[..k]) + q[k].Size() > maxBytes)
  {
    if q != [] && maxFrames > 0 && q[0].Size() <= maxBytes {
      BatchWithin(q[1..], maxFrames - 1, maxBytes - q[0].Size());
      var k := Batch(q, maxFrames, maxBytes);
      assert q[..k][1..] == q[1..][..k - 1];
    }
  }

  lemma BytesMonotone(q: seq<Frame>, i: nat, j: nat)
    requires i <= j <= |q|
    ensures Bytes(q[..i]) <= Bytes(q[..j])
  {
    assert q[..j] == q[..i] + q[i..j];
    BytesConcat(q[..i], q[i..j]);
  }

  /** The drain loop takes the longest prefix within both limits. */
  lemma {:induction false} BatchIsLongest(q: seq<Frame>, maxFrames: nat, maxBytes: nat, j: nat)
    requires j <= |q|
    ensures j <= Batch(q, maxFrames, maxBytes) <==> j <= maxFrames && Bytes(q[..j]) <= maxBytes
  {
    var k := Batch(q, maxFrames, maxBytes);
    BatchWithin(q, maxFrames, maxBytes);
    if j <= k {
      BytesMonotone(q, j, k);
    } else if j <= maxFrames {
      assert q[..k + 1] == q[..k] + [q[k]];
      BytesConcat(q[..k], [q[k]]);
      BytesMonotone(q, k + 1, j);
    }
  }

  lemma TakeBatchKeepsView(e: Session, k: nat)
    requires k <= |e.Pending()|
    ensures TakeBatch(e, k).View() == e.View()
    ensures TakeBatch(e, k).inFlight == e.inFlight + e.Pending()[..k]
    ensures TakeBatch(e, k).Pending() == e.Pending()[k..]
  {
    if k <= |e.mem| {
      SplitAtMem(e.inFlight, e.mem, e.disk, k);
    } else {
      SplitAtDisk(e.inFlight, e.mem, e.disk, k - |e.mem|);
    }
  }

  lemma SplitAtMem(a: seq<Frame>, b: seq<Frame>, d: seq<Frame>, k: nat)
    requires k <= |b|
    ensures (a + b[..k]) + b[k..] + d == a + b + d
    ensures (b + d)[..k] == b[..k] && (b + d)[k..] == b[k..] + d
  {
    assert b == b[..k] + b[k..];
  }

  lemma SplitAtDisk(a: seq<Frame>, b: seq<Frame>, d: seq<Frame>, k: nat)
    requires k <= |d|
    ensures (a + b + d[..k]) + [] + d[k..] == a + b + d
    ensures a + b + d[..k] == a + (b + d)[..|b| + k]
    ensures (b + d)[|b| + k..] == [] + d[k..]
  {
    assert d == d[..k] + d[k..];
    assert (b + d)[..|b| + k] == b + d[..k];
  }

  lemma ReachIsPrefix(e: Session, good: nat)
    ensures Reach(e, good) <= e.Pending()
    ensures good >= |e.disk| ==> Reach(e, good) == e.Pending()
  {
    if good >= |e.disk| {
      assert e.disk[..|e.disk|] == e.disk;
    }
  }

  /** A drain moves a prefix of what is pending, memory before disk, behind the batch in
      flight: the queue stays the same. */
  lemma {:induction false} DrainKeepsView(s: State, c: ChatId, maxFrames: nat, maxBytes: nat, firstOk: bool, good: nat)
    requires Wf(s) && c in s.chats
    ensures var r := Drain(s, c, maxFrames, maxBytes, firstOk, good);
      var e, e' := s.chats[c], Bucket(r.0, c);
      && e'.View() == e.View() && e'.evicted == e.evicted && e'.failed == e.failed && e'.broken == e.broken
      && (r.1.None? ==> r.0 == s)
      && (r.1.Some? ==>
           (var b := r.1.value.frames;
            b != [] && b <= e.Pending() && e'.inFlight == e.inFlight + b && e.Pending() == b + e'.Pending()))
  {
    var r := Drain(s, c, maxFrames, maxBytes, firstOk, good);
    if r.1.Some? {
      var e := s.chats[c];
      var k := Batch(Reach(e, good), maxFrames, maxBytes);
      ReachIsPrefix(e, good);
      TakeBatchKeepsView(e, k);
      assert Reach(e, good)[..k] == e.Pending()[..k];
    }
  }

  lemma DrainFrame(s: State, c: ChatId, maxFrames: nat, maxBytes: nat, firstOk: bool, good: nat, d: ChatId)
    requires Wf(s)
    ensures var r := Drain(s, c, maxFrames, maxBytes, firstOk, good);
      && r.0.chats.Keys == s.chats.Keys && r.0.order == s.order && r.0.cursor == s.cursor
      && (d != c ==> Bucket(r.0, d) == Bucket(s, d))
  {
  }

  /** With nothing in flight, the announced start is the first frame of the batch. */
  lemma {:induction false} DrainStartsAtFromSeq(s: State, c: ChatId, maxFrames: nat, maxBytes: nat, firstOk: bool, good: nat)
    requires Wf(s) && Bucket(s, c).inFlight == []
    ensures var j := Drain(s, c, maxFrames, maxBytes, firstOk, good).1;
      j.Some? ==> j.value.frames != [] && j.value.fromSeq == j.value.frames[0].seqNo
  {
  }

  /** With a readable disk and nothing in flight the batch is the longest prefix of
      memory ++ disk within both limits. */
  lemma {:induction false} DrainIsLongestPrefix(s: State, c: ChatId, maxFrames: nat, maxBytes: nat, good: nat, j: nat)
    requires Wf(s) && c in s.chats && s.chats[c].inFlight == []
    requires good >= |s.chats[c].disk| && j <= |s.chats[c].Pending()|
    ensures var r := Drain(s, c, maxFrames, maxBytes, true, good).1;
      var got := if r.Some? then r.value.frames else [];
      && got <= s.chats[c].Pending()
      && (j <= |got| <==> j <= maxFrames && Bytes(s.chats[c].Pending()[..j]) <= maxBytes)
  {
    var e := s.chats[c];
    ReachIsPrefix(e, good);
    BatchIsLongest(e.Pending(), maxFrames, maxBytes, j);
  }

  /** Exactly when replay of a non-empty queue makes no progress although every send and
      every read works: its oldest frame alone exceeds the batch limit. */
  lemma {:induction false} DrainStuckIff(s: State, c: ChatId, maxFrames: nat, maxBytes: nat, good: nat)
    requires Wf(s) && c in s.chats && s.chats[c].inFlight == [] && s.chats[c].View() != []
    requires good >= |s.chats[c].disk| && maxFrames > 0
    ensures Drain(s, c, maxFrames, maxBytes, true, good).1.None? <==> s.chats[c].View()[0].Size() > maxBytes
  {
    var e := s.chats[c];
    ReachIsPrefix(e, good);
    assert e.View() == e.Pending();
  }

  // ---------------------------------------------------------------------------
  // Commit and rollback
  // ---------------------------------------------------------------------------

  /** A commit removes exactly the batch in flight from the front of its queue. */
  lemma {:induction false} CommitDropsBatch(s: State, c: ChatId, d: ChatId)
    requires Wf(s)
    ensures var r := Commit(s, c); var e, e' := Bucket(s, d), Bucket(r, d);
      && r.chats.Keys == s.chats.Keys && r.order == s.order
      && (d == c ==> e.View() == e.inFlight + e'.View() && e' == e.(inFlight := []))
      && (d != c ==> e' == e)
  {
    var e := Bucket(s, c);
    assert e.View() == e.inFlight + e.(inFlight := []).View();
  }

  lemma RestoredKeepsView(s: State, c: ChatId, d: ChatId)
    requires Wf(s) && c in s.chats
    ensures var e, e' := Bucket(s, d), Bucket(Restored(s, c), d);
      && Thinned(e, e') && e'.View() == e.View() && e'.inFlight == if d == c then [] else e.inFlight
  {
    var e := Bucket(s, d);
    assert [] + (e.inFlight + e.mem) + e.disk == e.View();
    ThinnedSameQueue(e, Bucket(Restored(s, c), d));
  }

  /** Putting the batch back changes no queue; only the memory budget check that follows
      may delete frames, and those are counted. */
  lemma {:induction false} RollbackThins(l: Limits, s: State, c: ChatId, d: ChatId)
    requires Wf(s)
    ensures var r := Rollback(l, s, c); var e, e' := Bucket(s, d), Bucket(r, d);
      && r.chats.Keys == s.chats.Keys && r.order == s.order
      && Thinned(e, e')
      && e'.inFlight == if d == c then [] else e.inFlight
  {
    if c in s.chats {
      var t := Restored(s, c);
      var at := TrimMemEvicts(l, t);
      EvictionsKeepBuckets(t, at, TrimMem(l, t));
      EvictionsThin(t, at, TrimMem(l, t), d);
      RestoredKeepsView(s, c, d);
      ThinnedTrans(Bucket(s, d), Bucket(t, d), Bucket(TrimMem(l, t), d));
    } else {
      ThinnedSameQueue(Bucket(s, d), Bucket(s, d));
    }
  }

  lemma {:induction false} RollbackEachThins(l: Limits, s: State, ids: seq<ChatId>, d: ChatId)
    requires Wf(s)
    ensures var r := RollbackEach(l, s, ids); var e, e' := Bucket(s, d), Bucket(r, d);
      && r.chats.Keys == s.chats.Keys && r.order == s.order
      && Thinned(e, e')
      && e'.inFlight == if d in ids then [] else e.inFlight
    decreases |ids|
  {
    var e := Bucket(s, d);
    if ids == [] {
      ThinnedSameQueue(e, e);
    } else {
      var t := Rollback(l, s, ids[0]);
      RollbackThins(l, s, ids[0], d);
      RollbackEachThins(l, t, ids[1..], d);
      ThinnedTrans(e, Bucket(t, d), Bucket(RollbackEach(l, s, ids), d));
    }
  }

  /** With a readable disk and nothing in flight, the next batch depends on the queue alone. */
  lemma SameQueueSameJob(e: Session, e': Session, maxFrames: nat, maxBytes: nat, good: nat)
    requires e.inFlight == [] && e'.inFlight == [] && e'.Pending() == e.Pending()
    requires good >= |e.disk| && good >= |e'.disk|
    ensures NextJob(e', maxFrames, maxBytes, true, good) == NextJob(e, maxFrames, maxBytes, true, good)
  {
    ReachIsPrefix(e, good);
    ReachIsPrefix(e', good);
    assert |e.Pending()| == e.TotalFrames() && |e'.Pending()| == e'.TotalFrames();
    if e.Pending() != [] {
      assert FirstSeq(e, true) == Some(e.Pending()[0].seqNo);
      assert FirstSeq(e', true) == Some(e'.Pending()[0].seqNo);
    }
  }

  /** A batch that fits the memory budget goes back unchanged, so that the next drain with
      the same limits and a readable disk announces and returns the same batch. */
  lemma {:induction false} RetryIsIdentical(l: Limits, s: State, c: ChatId, maxFrames: nat, maxBytes: nat, good: nat)
    requires Wf(s) && c in s.chats && s.chats[c].inFlight == [] && good >= |s.chats[c].disk|
    requires var t := Drain(s, c, maxFrames, maxBytes, true, good);
      t.1.Some? && !OverMem(l, Total(Restored(t.0, c)))
    ensures var t := Drain(s, c, maxFrames, maxBytes, true, good);
      Drain(Rollback(l, t.0, c), c, maxFrames, maxBytes, true, good).1 == t.1
  {
    var t := Drain(s, c, maxFrames, maxBytes, true, good).0;
    var e, e' := s.chats[c], Restore(t.chats[c]);
    assert e'.Pending() == e.Pending() && |e'.disk| <= |e.disk| by {
      DrainKeepsView(s, c, maxFrames, maxBytes, true, good);
    }
    SameQueueSameJob(e, e', maxFrames, maxBytes, good);
  }

  // ---------------------------------------------------------------------------
  // What one buffer operation does to one bucket
  // ---------------------------------------------------------------------------

  /** The two quantities of a bucket that conservation is about. */
  function Acc(s: State, c: ChatId): multiset<Frame> { Accounted(Bucket(s, c)) }
  function Fl(s: State, c: ChatId): seq<Frame> { Bucket(s, c).inFlight }

  lemma PushLoad(l: Limits, s: State, c: ChatId, f: Frame, openOk: bool, appendOk: bool,
                 disks: (nat, ChatId) -> bool, d: ChatId)
    requires Wf(s)
    ensures var p := Push(l, s, c, f, openOk, appendOk, disks);
      && Fl(p.0, d) == Fl(s, d)
      && (d != c || f.Size() > l.maxFrame ==> Acc(p.0, d) == Acc(s, d))
      && (f.Size() <= l.maxFrame ==> Acc(p.0, c) == Acc(s, c) + multiset{f})
  {
    if f.Size() <= l.maxFrame {
      PushConserves(l, s, c, f, openOk, appendOk, disks, d);
      PushConserves(l, s, c, f, openOk, appendOk, disks, c);
      assert multiset([f]) == multiset{f};
    }
  }

  lemma PushOversizeIff(l: Limits, s: State, c: ChatId, f: Frame, openOk: bool, appendOk: bool,
                          disks: (nat, ChatId) -> bool)
    requires Wf(s)
    ensures Push(l, s, c, f, openOk, appendOk, disks).1 == Oversize <==> f.Size() > l.maxFrame
  {
  }

  lemma DrainLoad(s: State, c: ChatId, maxFrames: nat, maxBytes: nat, firstOk: bool, good: nat, d: ChatId)
    requires Wf(s) && c in s.chats
    ensures var r := Drain(s, c, maxFrames, maxBytes, firstOk, good);
      && Acc(r.0, d) == Acc(s, d)
      && Fl(r.0, d) == (if d == c && r.1.Some? then Fl(s, c) + r.1.value.frames else Fl(s, d))
      && (r.1.Some? ==> r.1.value.frames != [] && forall f :: f in r.1.value.frames ==> f in Acc(s, c))
  {
    DrainFrame(s, c, maxFrames, maxBytes, firstOk, good, d);
    DrainKeepsView(s, c, maxFrames, maxBytes, firstOk, good);
    var r := Drain(s, c, maxFrames, maxBytes, firstOk, good);
    if r.1.Some? {
      forall f | f in r.1.value.frames ensures f in Acc(s, c) {
        assert f in s.chats[c].Pending();
        assert f in s.chats[c].View();
      }
    }
  }

  lemma CommitLoad(s: State, c: ChatId, d: ChatId)
    requires Wf(s)
    ensures d != c ==> Acc(Commit(s, c), d) == Acc(s, d) && Fl(Commit(s, c), d) == Fl(s, d)
    ensures Acc(s, c) == multiset(Fl(s, c)) + Acc(Commit(s, c), c) && Fl(Commit(s, c), c) == []
  {
    CommitDropsBatch(s, c, d);
    CommitDropsBatch(s, c, c);
    var e, e' := Bucket(s, c), Bucket(Commit(s, c), c);
    assert multiset(e.View()) == multiset(e.inFlight) + multiset(e'.View());
  }

  lemma RollbackLoad(l: Limits, s: State, c: ChatId, d: ChatId)
    requires Wf(s)
    ensures Acc(Rollback(l, s, c), d) == Acc(s, d)
    ensures Fl(Rollback(l, s, c), d) == if d == c then [] else Fl(s, d)
  {
    RollbackThins(l, s, c, d);
  }

  lemma RollbackEachLoad(l: Limits, s: State, ids: seq<ChatId>, d: ChatId)
    requires Wf(s)
    ensures Acc(RollbackEach(l, s, ids), d) == Acc(s, d)
    ensures Fl(RollbackEach(l, s, ids), d) == if d in ids then [] else Fl(s, d)
  {
    RollbackEachThins(l, s, ids, d);
  }

  lemma RemoveLoad(s: State, c: ChatId, d: ChatId)
    requires Wf(s)
    ensures Acc(Remove(s, c), d) == if d == c then multiset{} else Acc(s, d)
    ensures Fl(Remove(s, c), d) == if d == c then [] else Fl(s, d)
  {
    assert Accounted(EMPTY_SESSION) == multiset{};
    assert Bucket(Remove(s, c), d) == if d == c then EMPTY_SESSION else Bucket(s, d);
  }
}
