/** The disconnect buffer as the program keeps it: buckets, creation order, eviction cursor
    and global counters, updated in place. Every operation is tied to its specification. */
module Buffers {
  import opened Frames
  import opened Sessions
  import opened SessionBuffers
  import opened Budget
  import opened BufferSpec
  import BufferQueue
  import BufferBudget

  function Sub(a: nat, b: nat): nat {
    if a >= b then a - b else 0
  }

  type Buckets = map<ChatId, SessionBuffer>

  ghost predicate Linked(b: SessionBuffer, e: Session)
    reads b
  {
    b.Valid() && b.abs == e
  }

  predicate Apart(chats: Buckets, c: ChatId, d: ChatId)
    requires c in chats && d in chats
  {
    c != d ==> chats[c] != chats[d]
  }

  /** Every bucket object is consistent, stands for its part of the state, and is shared
      with no other bucket. */
  ghost predicate AllLinked(chats: Buckets, m: map<ChatId, Session>)
    reads chats.Values
  {
    && chats.Keys == m.Keys
    && (forall c {:trigger Linked(chats[c], m[c])} :: c in chats ==> Linked(chats[c], m[c]))
    && (forall c, d {:trigger Apart(chats, c, d)} :: c in chats && d in chats ==> Apart(chats, c, d))
  }

  /** Every bucket but one stands for its part of the state, and none of them is that one. */
  ghost predicate OthersLinked(chats: Buckets, m: map<ChatId, Session>, c: ChatId)
    requires c in chats
    reads chats.Values - {chats[c]}
  {
    && chats.Keys == m.Keys
    && (forall d {:trigger Linked(chats[d], m[d])} ::
         d in chats && d != c ==> chats[d] != chats[c] && Linked(chats[d], m[d]))
    && (forall d, e {:trigger Apart(chats, d, e)} :: d in chats && e in chats ==> Apart(chats, d, e))
  }

  /** Before one bucket is changed: the others do not depend on it. */
  lemma Single(chats: Buckets, m: map<ChatId, Session>, c: ChatId)
    requires c in chats && AllLinked(chats, m)
    ensures OthersLinked(chats, m, c) && Linked(chats[c], m[c])
  {
    assert Linked(chats[c], m[c]);
    forall d | d in chats && d != c ensures chats[d] != chats[c] {
      assert Apart(chats, c, d);
    }
  }

  /** After it was changed: the state is the old one with that bucket replaced. */
  lemma Relink(chats: Buckets, m: map<ChatId, Session>, c: ChatId)
    requires c in chats && OthersLinked(chats, m, c) && chats[c].Valid()
    ensures AllLinked(chats, m[c := chats[c].abs])
  {
    var t := m[c := chats[c].abs];
    forall d | d in chats ensures Linked(chats[d], t[d]) {
      assert d != c ==> Linked(chats[d], m[d]);
    }
  }

  /** Drops one frame of one bucket; the others still stand for their parts. */
  method DropFrom(chats: Buckets, ghost m: map<ChatId, Session>, c: ChatId, memOnly: bool, readable: bool)
    returns (r: Option<(nat, bool)>)
    requires c in chats && AllLinked(chats, m)
    modifies chats[c]
    ensures r.Some? <==> CanEvict(m[c], memOnly, readable)
    ensures r.None? ==> AllLinked(chats, m)
    ensures r.Some? ==> AllLinked(chats, m[c := Evict(m[c])])
    ensures r.Some? ==> r.value == (Evicted(m[c]).Size(), m[c].mem != [])
  {
    Single(chats, m, c);
    if memOnly {
      var len := chats[c].EvictMemOne();
      r := if len.Some? then Some((len.value, true)) else None;
    } else {
      r := chats[c].EvictAnyOne(readable);
    }
    Relink(chats, m, c);
    assert r.None? ==> m[c := chats[c].abs] == m;
  }

  method AdmitTo(chats: Buckets, ghost m: map<ChatId, Session>, c: ChatId, fits: bool, f: Frame, openOk: bool, appendOk: bool)
    returns (r: PushOutcome)
    requires c in chats && AllLinked(chats, m)
    modifies chats[c]
    ensures r == AdmitInto(m[c], fits, f, openOk, appendOk).1
    ensures AllLinked(chats, m[c := AdmitInto(m[c], fits, f, openOk, appendOk).0])
  {
    Single(chats, m, c);
    r := chats[c].Admit(fits, f, openOk, appendOk);
    Relink(chats, m, c);
  }

  /** Takes the next batch of one bucket; reports how much memory shrank. */
  method TakeFrom(chats: Buckets, ghost m: map<ChatId, Session>, c: ChatId, maxFrames: nat, maxBytes: nat, good: nat)
    returns (out: seq<Frame>, memBytes: nat, memFrames: nat)
    requires c in chats && AllLinked(chats, m)
    modifies chats[c]
    ensures var e := m[c]; var k := Batch(Reach(e, good), maxFrames, maxBytes);
      && |out| == k <= |e.Pending()| && out == Reach(e, good)[..k]
      && AllLinked(chats, m[c := TakeBatch(e, k)])
      && memBytes + Bytes(TakeBatch(e, k).mem) == Bytes(e.mem)
      && memFrames + |TakeBatch(e, k).mem| == |e.mem|
  {
    Single(chats, m, c);
    TakeShrinksMem(m[c], Batch(Reach(m[c], good), maxFrames, maxBytes));
    memBytes, memFrames := chats[c].tally.memBytes, |chats[c].mem|;
    out := chats[c].Take(maxFrames, maxBytes, good);
    memBytes, memFrames := memBytes - chats[c].tally.memBytes, memFrames - |chats[c].mem|;
    Relink(chats, m, c);
  }

  lemma TakeShrinksMem(e: Session, k: nat)
    ensures k <= |e.Pending()| ==>
      Bytes(TakeBatch(e, k).mem) <= Bytes(e.mem) && |TakeBatch(e, k).mem| <= |e.mem|
  {
    if k <= |e.mem| {
      SplitSums(e.mem, k);
    }
  }

  method ClearIn(chats: Buckets, ghost m: map<ChatId, Session>, c: ChatId) returns (bytes: nat, frames: nat)
    requires c in chats && AllLinked(chats, m)
    modifies chats[c]
    ensures AllLinked(chats, m[c := m[c].(inFlight := [])])
    ensures bytes == Bytes(m[c].inFlight) && frames == |m[c].inFlight|
  {
    Single(chats, m, c);
    bytes, frames := chats[c].ClearInFlight();
    Relink(chats, m, c);
  }

  method PutBackIn(chats: Buckets, ghost m: map<ChatId, Session>, c: ChatId) returns (bytes: nat, frames: nat)
    requires c in chats && AllLinked(chats, m)
    modifies chats[c]
    ensures AllLinked(chats, m[c := Restore(m[c])])
    ensures bytes == Bytes(m[c].inFlight) && frames == |m[c].inFlight|
  {
    Single(chats, m, c);
    bytes, frames := chats[c].PutBack();
    Relink(chats, m, c);
  }

  /** The state with one bucket replaced. */
  ghost function With(s: State, c: ChatId, e: Session): State {
    s.(chats := s.chats[c := e])
  }

  /** The global counters after one frame of this size left. */
  function Released(u: Usage, len: nat, fromMem: bool): Usage {
    if fromMem
    then Usage(Sub(u.bytes, len), Sub(u.frames, 1), Sub(u.memBytes, len), Sub(u.memFrames, 1))
    else Usage(Sub(u.bytes, len), Sub(u.frames, 1), u.memBytes, u.memFrames)
  }

  /** The global counters follow an eviction exactly: none of the subtractions is cut off. */
  lemma {:induction false} EvictAtReleases(s: State, i: nat)
    requires Wf(s) && Holds(s, i)
    ensures Wf(EvictAt(s, i))
    ensures var e := s.chats[s.order[i]]; var u := Total(s);
      && Total(EvictAt(s, i)) == Released(u, Evicted(e).Size(), e.mem != [])
      && Evicted(e).Size() <= u.bytes && 1 <= u.frames
      && (e.mem != [] ==> Evicted(e).Size() <= u.memBytes && 1 <= u.memFrames)
  {
    EvictAtWf(s, i);
    EvictAtTotal(s, i);
  }

  lemma TrimTotalStep(l: Limits, s: State, io: (nat, ChatId) -> bool, n: nat)
    requires Wf(s) && OverTotal(l, Total(s))
    ensures var (t, ok) := EvictStep(s, false, ReadsAt(io, n));
      if ok then Wf(t) && Total(t).frames < Total(s).frames && TrimTotal(l, s, io, n) == TrimTotal(l, t, io, n + 1)
      else t == s && TrimTotal(l, s, io, n) == s
  {
    var i := Scan(s, false, ReadsAt(io, n), 0);
    if i.Some? {
      EvictAtWf(s, i.value);
      EvictAtTotal(s, i.value);
    }
  }

  lemma TrimMemStep(l: Limits, s: State)
    requires Wf(s) && OverMem(l, Total(s))
    ensures var (t, ok) := EvictStep(s, true, NO_READS);
      && ok && Wf(t) && Total(t).frames < Total(s).frames && TrimMem(l, s) == TrimMem(l, t)
  {
    BufferBudget.OverMemHasVictim(l, s);
    var i := Scan(s, true, NO_READS, 0);
    EvictAtWf(s, i.value);
    EvictAtTotal(s, i.value);
  }

  /** Allocates the bucket of a chat that has none. */
  method NewBucket(chats: Buckets, ghost m: map<ChatId, Session>, c: ChatId) returns (r: Buckets)
    requires AllLinked(chats, m) && c !in chats
    ensures c in r && fresh(r[c]) && r == chats[c := r[c]]
    ensures AllLinked(r, m[c := EMPTY_SESSION])
  {
    var b := new SessionBuffer();
    r := chats[c := b];
    ghost var t := m[c := EMPTY_SESSION];
    forall d | d in r ensures Linked(r[d], t[d]) {
      assert d != c ==> Linked(chats[d], m[d]);
    }
    forall d, e | d in r && e in r ensures Apart(r, d, e) {
      assert d != c && e != c ==> Apart(chats, d, e);
    }
  }

  /** Order, cursor and counters are those of the state: each counter is the sum it stands
      for. */
  ghost predicate Mirrors(order: seq<ChatId>, cursor: nat, usage: Usage, s: State) {
    Wf(s) && order == s.order && cursor == s.cursor && usage == Total(s)
  }

  lemma EvictMirrors(order: seq<ChatId>, cursor: nat, usage: Usage, s: State, i: nat)
    requires Mirrors(order, cursor, usage, s) && Holds(s, i)
    ensures var e := s.chats[s.order[i]];
      && EvictAt(s, i).chats == s.chats[s.order[i] := Evict(e)]
      && Mirrors(order, (i + 1) % |order|, Released(usage, Evicted(e).Size(), e.mem != []), EvictAt(s, i))
  {
    EvictAtReleases(s, i);
  }

  lemma AddBucketKeeps(s: State, c: ChatId)
    requires Wf(s) && c !in s.chats
    ensures Wf(AddBucket(s, c)) && Total(AddBucket(s, c)) == Total(s)
  {
    AddBucketWf(s, c);
    AddBucketTotal(s, c);
  }

  /** Storing into an existing bucket replaces that bucket and adds what was stored. */
  lemma StoredMirrors(l: Limits, order: seq<ChatId>, cursor: nat, usage: Usage, s: State, c: ChatId, f: Frame,
                      openOk: bool, appendOk: bool)
    requires Mirrors(order, cursor, usage, s) && c in s.chats
    ensures var fits := FitsMem(l, s, f); var t := Stored(l, s, c, f, openOk, appendOk);
      var (e, r) := AdmitInto(s.chats[c], fits, f, openOk, appendOk);
      && (fits <==> usage.memBytes + f.Size() <= l.memBytes && usage.memFrames < l.memFrames)
      && (e, r) == Admit(l, s, c, f, openOk, appendOk) && t.chats == s.chats[c := e]
      && Mirrors(order, cursor, Plus(usage, BufferBudget.StoredUsage(r, fits, f)), t)
  {
    BufferBudget.StoredTotal(l, s, c, f, openOk, appendOk);
  }

  /** Creating the bucket first does not change what storing does. */
  lemma StoredAfterEnsure(l: Limits, s: State, c: ChatId, f: Frame, openOk: bool, appendOk: bool)
    requires Wf(s) && c !in s.chats
    ensures var t := AddBucket(s, c);
      && Wf(t) && Admit(l, t, c, f, openOk, appendOk) == Admit(l, s, c, f, openOk, appendOk)
      && Stored(l, t, c, f, openOk, appendOk) == Stored(l, s, c, f, openOk, appendOk)
  {
    AddBucketKeeps(s, c);
  }

  /** The state after one eviction attempt, and whether it dropped a frame. */
  function EvictStep(s: State, memOnly: bool, readable: ChatId -> bool): (State, bool) {
    var r := BufferSpec.EvictOne(s, memOnly, readable);
    if r.Some? then (r.value, true) else (s, false)
  }

  /** The scan has come to the k-th bucket without finding a frame. */
  ghost predicate Passed(s: State, memOnly: bool, readable: ChatId -> bool, k: nat) {
    k <= |s.order| && Scan(s, memOnly, readable, 0) == Scan(s, memOnly, readable, k)
  }

  lemma PassStep(s: State, memOnly: bool, readable: ChatId -> bool, k: nat, i: nat)
    requires k < |s.order| && Passed(s, memOnly, readable, k) && i == (s.cursor + k) % |s.order|
    ensures
      if Evictable(s, memOnly, readable, i) then EvictStep(s, memOnly, readable) == (EvictAt(s, i), true)
      else Passed(s, memOnly, readable, k + 1)
  {
  }

  lemma PassEnd(s: State, memOnly: bool, readable: ChatId -> bool)
    requires Passed(s, memOnly, readable, |s.order|)
    ensures EvictStep(s, memOnly, readable) == (s, false)
  {
  }

  class Buffer {
    const limits: Limits
    var chats: Buckets
    var order: seq<ChatId>
    var cursor: nat
    var usage: Usage
    ghost var abs: State

    ghost predicate Valid()
      reads this, chats.Values
    {
      Mirrors(order, cursor, usage, abs) && AllLinked(chats, abs.chats)
    }

    constructor (limits: Limits)
      ensures Valid() && abs == EMPTY && this.limits == limits
    {
      this.limits := limits;
      chats, order, cursor, usage, abs := map[], [], 0, NOTHING, EMPTY;
    }

    /** Order, cursor and counters move on to those of the state the buckets stand for. */
    method Settle(order: seq<ChatId>, cursor: nat, usage: Usage, ghost m: map<ChatId, Session>, ghost t: State)
      requires Mirrors(order, cursor, usage, t) && AllLinked(chats, m) && t.chats == m
      modifies `order, `cursor, `usage, `abs
      ensures Valid() && abs == t
    {
      this.order, this.cursor, this.usage, abs := order, cursor, usage, t;
    }

    /** One round-robin eviction. */
    method EvictOne(memOnly: bool, readable: ChatId -> bool) returns (done: bool)
      requires Valid()
      modifies this, chats.Values
      ensures Valid() && chats == old(chats)
      ensures (abs, done) == EvictStep(old(abs), memOnly, readable)
    {
      ghost var s := abs;
      var n := |order|;
      for offset := 0 to n
        invariant Valid() && chats == old(chats) && abs == s && n == |order|
        invariant Passed(s, memOnly, readable, offset)
      {
        done := Probe(offset, memOnly, readable);
        if done {
          return;
        }
      }
      PassEnd(s, memOnly, readable);
      done := false;
    }

    /** Tries the bucket at one offset from the cursor. */
    method Probe(offset: nat, memOnly: bool, readable: ChatId -> bool) returns (done: bool)
      requires Valid() && offset < |order| && Passed(abs, memOnly, readable, offset)
      modifies this, chats.Values
      ensures Valid() && chats == old(chats)
      ensures done ==> (abs, true) == EvictStep(old(abs), memOnly, readable)
      ensures !done ==> abs == old(abs) && Passed(abs, memOnly, readable, offset + 1)
    {
      ghost var s := abs;
      var idx := (cursor + offset) % |order|;
      PassStep(s, memOnly, readable, offset, idx);
      done := TryEvict(idx, memOnly, readable(order[idx]));
    }

    /** Evicts from the bucket at one position, if it can give a frame. */
    method TryEvict(idx: nat, memOnly: bool, readable: bool) returns (done: bool)
      requires Valid() && idx < |order|
      modifies this, chats.Values
      ensures Valid() && chats == old(chats)
      ensures old(abs.order[idx] in abs.chats)
      ensures done <==> CanEvict(old(abs.chats[abs.order[idx]]), memOnly, readable)
      ensures abs == if done then EvictAt(old(abs), idx) else old(abs)
    {
      var c := order[idx];
      assert c in Elems(abs.order);
      var dropped := DropFrom(chats, abs.chats, c, memOnly, readable);
      if dropped.Some? {
        EvictMirrors(order, cursor, usage, abs, idx);
        ghost var m := abs.chats[c := Evict(abs.chats[c])];
        Settle(order, (idx + 1) % |order|, Released(usage, dropped.value.0, dropped.value.1), m, EvictAt(abs, idx));
      }
      done := dropped.Some?;
    }

    /** Enforces the shared budget. */
    method EnforceTotal(io: (nat, ChatId) -> bool)
      requires Valid()
      modifies this, chats.Values
      ensures Valid() && chats == old(chats) && abs == TrimTotal(limits, old(abs), io, 0)
    {
      ghost var s := abs;
      var n: nat := 0;
      while OverTotal(limits, usage)
        invariant Valid() && chats == old(chats)
        invariant TrimTotal(limits, abs, io, n) == TrimTotal(limits, s, io, 0)
        decreases usage.frames
      {
        TrimTotalStep(limits, abs, io, n);
        var done := EvictOne(false, ReadsAt(io, n));
        if !done {
          break;
        }
        n := n + 1;
      }
    }

    /** Enforces the memory budget; the eviction it asks for never fails. */
    method EnforceMem()
      requires Valid()
      modifies this, chats.Values
      ensures Valid() && chats == old(chats) && abs == TrimMem(limits, old(abs))
    {
      ghost var s := abs;
      while OverMem(limits, usage)
        invariant Valid() && chats == old(chats)
        invariant TrimMem(limits, abs) == TrimMem(limits, s)
        decreases usage.frames
      {
        TrimMemStep(limits, abs);
        var done := EvictOne(true, NO_READS);
        assert done;
        if !done {
          break;
        }
      }
    }

    method EnsureBucket(c: ChatId)
      requires Valid() && c !in chats
      modifies this
      ensures Valid() && abs == AddBucket(old(abs), c)
      ensures c in chats && chats == old(chats)[c := chats[c]] && fresh(chats[c])
    {
      AddBucketKeeps(abs, c);
      chats := NewBucket(chats, abs.chats, c);
      Settle(order + [c], cursor, usage, abs.chats[c := EMPTY_SESSION], AddBucket(abs, c));
    }

    /** Stores a frame in memory or on disk and counts it. */
    method Store(c: ChatId, f: Frame, openOk: bool, appendOk: bool) returns (r: PushOutcome)
      requires Valid() && c in chats
      modifies this, chats[c]
      ensures Valid() && chats == old(chats)
      ensures r == Admit(limits, old(abs), c, f, openOk, appendOk).1
      ensures abs == Stored(limits, old(abs), c, f, openOk, appendOk)
    {
      StoredMirrors(limits, order, cursor, usage, abs, c, f, openOk, appendOk);
      var fits := usage.memBytes + f.Size() <= limits.memBytes && usage.memFrames < limits.memFrames;
      r := AdmitTo(chats, abs.chats, c, fits, f, openOk, appendOk);
      ghost var m := abs.chats[c := AdmitInto(abs.chats[c], fits, f, openOk, appendOk).0];
      Settle(order, cursor, Plus(usage, BufferBudget.StoredUsage(r, fits, f)), m,
             Stored(limits, abs, c, f, openOk, appendOk));
    }

    /** Stores a frame, creating its bucket first if the chat has none. */
    method StoreAnywhere(c: ChatId, f: Frame, openOk: bool, appendOk: bool) returns (r: PushOutcome)
      requires Valid()
      modifies this, chats.Values
      ensures Valid() && fresh(chats.Values - old(chats.Values))
      ensures r == Admit(limits, old(abs), c, f, openOk, appendOk).1
      ensures abs == Stored(limits, old(abs), c, f, openOk, appendOk)
    {
      if c !in chats {
        StoredAfterEnsure(limits, abs, c, f, openOk, appendOk);
        EnsureBucket(c);
      }
      r := Store(c, f, openOk, appendOk);
    }

    /** Buffers one frame. `openOk`, `appendOk` and `io` are the outcomes of the file
        operations this call may perform. */
    method Push(c: ChatId, f: Frame, openOk: bool, appendOk: bool, io: (nat, ChatId) -> bool)
      returns (r: PushOutcome)
      requires Valid()
      modifies this, chats.Values
      ensures Valid() && fresh(chats.Values - old(chats.Values))
      ensures (abs, r) == BufferSpec.Push(limits, old(abs), c, f, openOk, appendOk, io)
    {
      if f.Size() > limits.maxFrame {
        return Oversize;
      }
      r := StoreAnywhere(c, f, openOk, appendOk);
      if r == Buffered {
        EnforceTotal(io);
      }
    }

    method HasPending(c: ChatId) returns (r: bool)
      requires Valid()
      ensures r <==> Bucket(abs, c).View() != []
    {
      if c !in chats {
        return false;
      }
      assert Linked(chats[c], abs.chats[c]);
      return chats[c].tally.frames > 0;
    }

    /** The next replay batch of one chat; its frames stay accounted for until `Commit`. */
    method DrainBatch(c: ChatId, maxFrames: nat, maxBytes: nat, firstOk: bool, good: nat)
      returns (job: Option<Job>)
      requires Valid()
      modifies this, chats.Values
      ensures Valid() && chats == old(chats)
      ensures (abs, job) == Drain(old(abs), c, maxFrames, maxBytes, firstOk, good)
    {
      if c !in chats {
        return None;
      }
      ghost var e := abs.chats[c];
      assert Linked(chats[c], e);
      if chats[c].tally.frames == 0 {
        return None;
      }
      var from := chats[c].FrontSeq(firstOk);
      if from.None? {
        return None;
      }
      DrainTakesJob(abs, c, maxFrames, maxBytes, firstOk, good);
      job := TakeJob(c, from.value, maxFrames, maxBytes, good);
    }

    method TakeJob(c: ChatId, from: nat, maxFrames: nat, maxBytes: nat, good: nat) returns (job: Option<Job>)
      requires Valid() && c in chats
      modifies this, chats.Values
      ensures Valid() && chats == old(chats)
      ensures (abs, job) == TakeJobSpec(old(abs), c, from, maxFrames, maxBytes, good)
    {
      var out, memBytes, memFrames := TakeFrom(chats, abs.chats, c, maxFrames, maxBytes, good);
      TakeMirrors(order, cursor, usage, abs, c, |out|, memBytes, memFrames);
      ghost var m := abs.chats[c := TakeBatch(abs.chats[c], |out|)];
      Settle(order, cursor,
             Usage(usage.bytes, usage.frames, Sub(usage.memBytes, memBytes), Sub(usage.memFrames, memFrames)),
             m, With(abs, c, TakeBatch(abs.chats[c], |out|)));
      job := if out == [] then None else Some(Job(from, out));
    }

    /** The batch was sent: it leaves the queue and the budget. */
    method Commit(c: ChatId)
      requires Valid()
      modifies this, chats.Values
      ensures Valid() && chats == old(chats) && abs == BufferSpec.Commit(old(abs), c)
    {
      if c in chats {
        CommitMirrors(order, cursor, usage, abs, c);
        var bytes, frames := ClearIn(chats, abs.chats, c);
        Settle(order, cursor, usage.(bytes := Sub(usage.bytes, bytes), frames := Sub(usage.frames, frames)),
               abs.chats[c := abs.chats[c].(inFlight := [])], BufferSpec.Commit(abs, c));
      }
    }

    /** The batch was not sent: it goes back to the front, then memory is trimmed. */
    method Rollback(c: ChatId)
      requires Valid()
      modifies this, chats.Values
      ensures Valid() && chats == old(chats) && abs == BufferSpec.Rollback(limits, old(abs), c)
    {
      if c in chats {
        PutBatchBack(c);
        EnforceMem();
      }
    }

    method PutBatchBack(c: ChatId)
      requires Valid() && c in chats
      modifies this, chats.Values
      ensures Valid() && chats == old(chats) && abs == Restored(old(abs), c)
    {
      BufferBudget.RestoredTotal(abs, c);
      var bytes, frames := PutBackIn(chats, abs.chats, c);
      Settle(order, cursor, usage.(memBytes := usage.memBytes + bytes, memFrames := usage.memFrames + frames),
             abs.chats[c := Restore(abs.chats[c])], Restored(abs, c));
    }

    /** Rolls back every bucket with a batch in flight; `ids` is the order it took. */
    method RollbackAll() returns (ghost ids: seq<ChatId>)
      requires Valid()
      modifies this, chats.Values
      ensures Valid() && chats == old(chats)
      ensures InFlightOrder(old(abs), ids) && abs == RollbackEach(limits, old(abs), ids)
    {
      ghost var s := abs;
      var left := WithBatch();
      ghost var all := left;
      ids := [];
      while left != {}
        invariant Valid() && chats == old(chats)
        invariant RollingBack(limits, s, all, ids, left, abs)
        decreases left
      {
        var c :| c in left;
        RollbackStep(limits, s, all, ids, left, abs, c);
        Rollback(c);
        ids, left := ids + [c], left - {c};
      }
      assert Elems(ids) == all;
    }

    method WithBatch() returns (ids: set<ChatId>)
      requires Valid()
      ensures forall c :: c in ids <==> c in abs.chats && abs.chats[c].inFlight != []
    {
      ids := set c | c in chats && chats[c].inFlight != [];
      forall c | c in chats ensures chats[c].inFlight == abs.chats[c].inFlight {
        assert Linked(chats[c], abs.chats[c]);
      }
    }

    /** Forgets a chat; its share leaves the budget. */
    method Remove(c: ChatId)
      requires Valid()
      modifies this
      ensures Valid() && abs == BufferSpec.Remove(old(abs), c) && chats == old(chats) - {c}
    {
      if c in chats {
        assert Linked(chats[c], abs.chats[c]);
        var b := chats[c];
        RemoveMirrors(order, cursor, usage, abs, c, b.tally);
        Unlink(chats, abs.chats, c);
        chats := chats - {c};
        Settle(Filter(order, c), cursor,
               Usage(Sub(usage.bytes, b.tally.bytes), Sub(usage.frames, b.tally.frames),
                     Sub(usage.memBytes, b.tally.memBytes), Sub(usage.memFrames, |b.mem|)),
               abs.chats - {c}, BufferSpec.Remove(abs, c));
      }
    }

    method ClearAll()
      modifies this
      ensures Valid() && abs == EMPTY
    {
      chats, order, cursor, usage, abs := map[], [], 0, NOTHING, EMPTY;
    }

    method HasAnyPending() returns (r: bool)
      requires Valid()
      ensures r <==> exists c :: c in abs.chats && abs.chats[c].View() != []
    {
      r := exists c :: c in chats && chats[c].tally.frames > 0;
      forall c | c in chats ensures chats[c].tally.frames > 0 <==> abs.chats[c].View() != [] {
        assert Linked(chats[c], abs.chats[c]);
      }
    }
  }

  /** The state and the batch when the bucket is known to have a start seq. */
  ghost function TakeJobSpec(s: State, c: ChatId, from: nat, maxFrames: nat, maxBytes: nat, good: nat)
    : (State, Option<Job>)
    requires c in s.chats
  {
    var e := s.chats[c];
    ReachWithin(e, good);
    var k := Batch(Reach(e, good), maxFrames, maxBytes);
    (With(s, c, TakeBatch(e, k)), if k == 0 then None else Some(Job(from, Reach(e, good)[..k])))
  }

  lemma ReachWithin(e: Session, good: nat)
    ensures |Reach(e, good)| <= |e.Pending()|
  {
  }

  /** An empty batch leaves the bucket as it was. */
  lemma DrainTakesJob(s: State, c: ChatId, maxFrames: nat, maxBytes: nat, firstOk: bool, good: nat)
    requires Wf(s) && c in s.chats
    requires s.chats[c].TotalFrames() > 0 && FirstSeq(s.chats[c], firstOk).Some?
    ensures TakeJobSpec(s, c, FirstSeq(s.chats[c], firstOk).value, maxFrames, maxBytes, good)
         == Drain(s, c, maxFrames, maxBytes, firstOk, good)
  {
    var e := s.chats[c];
    if Batch(Reach(e, good), maxFrames, maxBytes) == 0 {
      assert TakeBatch(e, 0) == e;
      assert s.chats[c := e] == s.chats;
    }
  }

  /** Taking a batch moves frames out of memory and changes nothing else of the budget. */
  lemma TakeTotal(s: State, c: ChatId, k: nat)
    requires Wf(s) && c in s.chats && k <= |s.chats[c].Pending()|
    ensures var e := s.chats[c]; var t := With(s, c, TakeBatch(e, k)); var u, u' := Total(s), Total(t);
      && Wf(t) && u'.bytes == u.bytes && u'.frames == u.frames
      && u'.memBytes + Bytes(e.mem) == u.memBytes + Bytes(TakeBatch(e, k).mem)
      && u'.memFrames + |e.mem| == u.memFrames + |TakeBatch(e, k).mem|
  {
    var e, e' := s.chats[c], TakeBatch(s.chats[c], k);
    UpdateWf(s, c, e');
    UpdateTotal(s, c, e');
    BufferQueue.TakeBatchKeepsView(e, k);
    ViewSums(e);
    ViewSums(e');
  }

  lemma TakeMirrors(order: seq<ChatId>, cursor: nat, usage: Usage, s: State, c: ChatId, k: nat, memBytes: nat, memFrames: nat)
    requires Mirrors(order, cursor, usage, s) && c in s.chats && k <= |s.chats[c].Pending()|
    requires memBytes + Bytes(TakeBatch(s.chats[c], k).mem) == Bytes(s.chats[c].mem)
    requires memFrames + |TakeBatch(s.chats[c], k).mem| == |s.chats[c].mem|
    ensures Mirrors(order, cursor,
                    Usage(usage.bytes, usage.frames, Sub(usage.memBytes, memBytes), Sub(usage.memFrames, memFrames)),
                    With(s, c, TakeBatch(s.chats[c], k)))
  {
    TakeTotal(s, c, k);
  }

  lemma CommitMirrors(order: seq<ChatId>, cursor: nat, usage: Usage, s: State, c: ChatId)
    requires Mirrors(order, cursor, usage, s) && c in s.chats
    ensures var f := s.chats[c].inFlight; var t := BufferSpec.Commit(s, c);
      && t.chats == s.chats[c := s.chats[c].(inFlight := [])]
      && Mirrors(order, cursor, usage.(bytes := Sub(usage.bytes, Bytes(f)), frames := Sub(usage.frames, |f|)), t)
  {
    BufferBudget.CommitTotal(s, c);
  }

  lemma RemoveMirrors(order: seq<ChatId>, cursor: nat, usage: Usage, s: State, c: ChatId, t: Tally)
    requires Mirrors(order, cursor, usage, s) && c in s.chats && Counted(s.chats[c], t)
    ensures Mirrors(Filter(order, c), cursor,
                    Usage(Sub(usage.bytes, t.bytes), Sub(usage.frames, t.frames),
                          Sub(usage.memBytes, t.memBytes), Sub(usage.memFrames, |s.chats[c].mem|)),
                    BufferSpec.Remove(s, c))
  {
    RemoveTotal(s, c);
  }

  lemma {:induction false} RollbackEachSnoc(l: Limits, s: State, ids: seq<ChatId>, c: ChatId)
    requires Wf(s)
    ensures RollbackEach(l, s, ids + [c]) == BufferSpec.Rollback(l, RollbackEach(l, s, ids), c)
    decreases |ids|
  {
    if ids == [] {
      assert [] + [c] == [c] && [c][1..] == [];
    } else {
      assert (ids + [c])[1..] == ids[1..] + [c];
      RollbackEachSnoc(l, BufferSpec.Rollback(l, s, ids[0]), ids[1..], c);
    }
  }

  /** `ids` are rolled back, `left` are still to do. */
  ghost predicate RollingBack(l: Limits, s: State, all: set<ChatId>, ids: seq<ChatId>, left: set<ChatId>, now: State) {
    && Wf(s) && now == RollbackEach(l, s, ids)
    && NoDup(ids) && Elems(ids) !! left && Elems(ids) + left == all
  }

  lemma RollbackStep(l: Limits, s: State, all: set<ChatId>, ids: seq<ChatId>, left: set<ChatId>, now: State, c: ChatId)
    requires RollingBack(l, s, all, ids, left, now) && c in left
    ensures RollingBack(l, s, all, ids + [c], left - {c}, BufferSpec.Rollback(l, now, c))
  {
    assert c !in Elems(ids);
    NoDupSnoc(ids, c);
    RollbackEachSnoc(l, s, ids, c);
    assert Elems(ids + [c]) == Elems(ids) + {c};
  }

  lemma Unlink(chats: Buckets, m: map<ChatId, Session>, c: ChatId)
    requires c in chats && AllLinked(chats, m)
    ensures AllLinked(chats - {c}, m - {c})
  {
    var r, t := chats - {c}, m - {c};
    forall d | d in r ensures Linked(r[d], t[d]) {
      assert Linked(chats[d], m[d]);
    }
    forall d, e | d in r && e in r ensures Apart(r, d, e) {
      assert Apart(chats, d, e);
    }
  }
}
