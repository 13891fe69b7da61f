/** The shared budgets hold in every state the buffer can reach. */
module BufferBudget {
  import opened Frames
  import opened Sessions
  import opened Budget
  import opened BufferSpec
  import opened BufferQueue

  // ---------------------------------------------------------------------------
  // A failed scan means nothing can be evicted
  // ---------------------------------------------------------------------------

  /** Every position is met once on the way round from the cursor. */
  lemma OffsetOf(cursor: nat, n: nat, i: nat) returns (k: nat)
    requires i < n
    ensures k < n && (cursor + k) % n == i
  {
    var c := cursor % n;
    k := if c <= i then i - c else i + n - c;
    var q := cursor / n;
    assert cursor == q * n + c;
    if c <= i {
      ModIs(cursor + k, q, n, i);
    } else {
      assert cursor + k == (q + 1) * n + i;
      ModIs(cursor + k, q + 1, n, i);
    }
  }

  lemma AtLeastOnce(a: int, n: nat)
    requires a >= 1
    ensures a * n >= n
  {
    assert (a - 1) * n >= 0;
  }

  lemma AtMostMinusOnce(a: int, n: nat)
    requires a <= -1
    ensures a * n + n <= 0
  {
    assert (a + 1) * n <= 0;
  }

  lemma ModIs(x: int, q: int, n: nat, r: nat)
    requires r < n && x == q * n + r
    ensures x % n == r
  {
    var d, r' := q - x / n, x % n;
    assert d * n == q * n - (x / n) * n == r' - r;
    if d >= 1 {
      AtLeastOnce(d, n);
    } else if d <= -1 {
      AtMostMinusOnce(d, n);
    }
    assert d == 0;
  }

  lemma {:induction false} ScanSees(s: State, memOnly: bool, readable: ChatId -> bool, k: nat, j: nat)
    requires k <= j < |s.order|
    requires Scan(s, memOnly, readable, k).None?
    ensures !Evictable(s, memOnly, readable, (s.cursor + j) % |s.order|)
    decreases j - k
  {
    if k < j {
      ScanSees(s, memOnly, readable, k + 1, j);
    }
  }

  /** The round-robin scan reports failure only if no bucket can give a frame. */
  lemma {:induction false} ScanFailsIff(s: State, memOnly: bool, readable: ChatId -> bool)
    ensures EvictOne(s, memOnly, readable).None?
            <==> forall i: nat :: i < |s.order| ==> !Evictable(s, memOnly, readable, i)
  {
    if EvictOne(s, memOnly, readable).None? {
      forall i: nat | i < |s.order| ensures !Evictable(s, memOnly, readable, i) {
        var k := OffsetOf(s.cursor, |s.order|, i);
        ScanSees(s, memOnly, readable, 0, k);
      }
    }
  }

  // ---------------------------------------------------------------------------
  // Memory budget
  // ---------------------------------------------------------------------------

  lemma {:induction false} NoMemNoUsage(m: map<ChatId, Usage>, order: seq<ChatId>)
    requires forall i :: 0 <= i < |order| ==> Look(m, order[i]).memFrames == 0 && Look(m, order[i]).memBytes == 0
    ensures Sum(m, order).memFrames == 0 && Sum(m, order).memBytes == 0
  {
    if order != [] {
      NoMemNoUsage(m, order[1..]);
    }
  }

  lemma OverMemHasVictim(l: Limits, s: State)
    requires Wf(s) && OverMem(l, Total(s))
    ensures Scan(s, true, NO_READS, 0).Some?
  {
    if Scan(s, true, NO_READS, 0).None? {
      ScanFailsIff(s, true, NO_READS);
      forall i | 0 <= i < |s.order|
        ensures Look(Usages(s.chats), s.order[i]).memFrames == 0 && Look(Usages(s.chats), s.order[i]).memBytes == 0
      {
        assert s.order[i] in Elems(s.order);
        assert !Evictable(s, true, NO_READS, i);
      }
      NoMemNoUsage(Usages(s.chats), s.order);
      assert false;
    }
  }

  /** The memory check after a rollback always ends within the memory budget. */
  lemma {:induction false} TrimMemFits(l: Limits, s: State)
    requires Wf(s)
    ensures Total(TrimMem(l, s)).memBytes <= l.memBytes && Total(TrimMem(l, s)).memFrames <= l.memFrames
    decreases Total(s).frames
  {
    if OverMem(l, Total(s)) {
      OverMemHasVictim(l, s);
      var i := Scan(s, true, NO_READS, 0).value;
      EvictAtWf(s, i);
      EvictAtTotal(s, i);
      TrimMemFits(l, EvictAt(s, i));
    }
  }

  lemma {:induction false} EvictionsShrink(s: State, at: seq<nat>, t: State)
    requires Wf(s) && Evictions(s, at, t)
    ensures Wf(t)
    ensures Total(t).memBytes <= Total(s).memBytes && Total(t).memFrames <= Total(s).memFrames
    ensures Total(t).bytes <= Total(s).bytes && Total(t).frames + |at| == Total(s).frames
    decreases |at|
  {
    if at != [] {
      EvictAtWf(s, at[0]);
      EvictAtTotal(s, at[0]);
      EvictionsShrink(EvictAt(s, at[0]), at[1..], t);
    }
  }

  function StoredUsage(r: PushOutcome, fits: bool, f: Frame): Usage {
    if r != Buffered then NOTHING
    else if fits then Usage(f.Size(), 1, f.Size(), 1)
    else Usage(f.Size(), 1, 0, 0)
  }

  lemma AdmitUsage(e: Session, fits: bool, f: Frame, openOk: bool, appendOk: bool)
    ensures var r := AdmitInto(e, fits, f, openOk, appendOk);
      UsageOf(r.0) == Plus(UsageOf(e), StoredUsage(r.1, fits, f))
  {
    if !e.broken {
      if fits {
        BytesAppend(e.mem, f);
      } else {
        BytesAppend(e.disk, f);
      }
    }
  }

  lemma PlusCancel(a: Usage, b: Usage, c: Usage, d: Usage)
    requires Plus(a, b) == Plus(c, Plus(b, d))
    ensures a == Plus(c, d)
  {
  }

  /** Storing a frame adds its size once, in memory only if memory had room for it. */
  lemma StoredTotal(l: Limits, s: State, c: ChatId, f: Frame, openOk: bool, appendOk: bool)
    requires Wf(s)
    ensures Total(Stored(l, s, c, f, openOk, appendOk))
         == Plus(Total(s), StoredUsage(Admit(l, s, c, f, openOk, appendOk).1, FitsMem(l, s, f), f))
  {
    var t := Ensure(s, c);
    if c !in s.chats {
      AddBucketTotal(s, c);
    }
    var e, r := Bucket(s, c), Admit(l, s, c, f, openOk, appendOk);
    UpdateTotal(t, c, r.0);
    AdmitUsage(e, FitsMem(l, s, f), f, openOk, appendOk);
    PlusCancel(Total(Stored(l, s, c, f, openOk, appendOk)), UsageOf(e), Total(s),
               StoredUsage(r.1, FitsMem(l, s, f), f));
  }

  lemma StoredKeepsMemBudget(l: Limits, s: State, c: ChatId, f: Frame, openOk: bool, appendOk: bool)
    requires Wf(s) && !OverMem(l, Total(s))
    ensures !OverMem(l, Total(Stored(l, s, c, f, openOk, appendOk)))
  {
    StoredTotal(l, s, c, f, openOk, appendOk);
  }

  lemma TrimTotalShrinks(l: Limits, t: State, io: (nat, ChatId) -> bool)
    requires Wf(t) && !OverMem(l, Total(t))
    ensures !OverMem(l, Total(TrimTotal(l, t, io, 0)))
  {
    var at := TrimTotalEvicts(l, t, io, 0);
    EvictionsShrink(t, at, TrimTotal(l, t, io, 0));
  }

  /** The memory budget holds after every push. */
  lemma {:induction false} PushKeepsMemBudget(l: Limits, s: State, c: ChatId, f: Frame, openOk: bool, appendOk: bool,
                           io: (nat, ChatId) -> bool)
    requires Wf(s) && Total(s).memBytes <= l.memBytes && Total(s).memFrames <= l.memFrames
    ensures var u := Total(Push(l, s, c, f, openOk, appendOk, io).0);
      u.memBytes <= l.memBytes && u.memFrames <= l.memFrames
  {
    if f.Size() <= l.maxFrame {
      StoredKeepsMemBudget(l, s, c, f, openOk, appendOk);
      TrimTotalShrinks(l, Stored(l, s, c, f, openOk, appendOk), io);
    }
  }

  /** A drain moves frames out of memory but releases nothing of the shared budget. */
  lemma DrainTotal(s: State, c: ChatId, maxFrames: nat, maxBytes: nat, firstOk: bool, good: nat)
    requires Wf(s)
    ensures var u, u' := Total(s), Total(Drain(s, c, maxFrames, maxBytes, firstOk, good).0);
      u'.bytes == u.bytes && u'.frames == u.frames && u'.memBytes <= u.memBytes && u'.memFrames <= u.memFrames
  {
    var r := Drain(s, c, maxFrames, maxBytes, firstOk, good);
    if r.1.Some? {
      var e := s.chats[c];
      var k := |r.1.value.frames|;
      var e' := TakeBatch(e, k);
      DrainKeepsView(s, c, maxFrames, maxBytes, firstOk, good);
      ViewSums(e);
      ViewSums(e');
      UpdateTotal(s, c, e');
      if k <= |e.mem| {
        SplitSums(e.mem, k);
      }
    }
  }

  /** A commit releases exactly the batch in flight. */
  lemma CommitTotal(s: State, c: ChatId)
    requires Wf(s) && c in s.chats
    ensures Total(s) == Plus(Total(Commit(s, c)), Usage(Bytes(s.chats[c].inFlight), |s.chats[c].inFlight|, 0, 0))
  {
    UpdateTotal(s, c, s.chats[c].(inFlight := []));
  }

  lemma RestoredTotal(s: State, c: ChatId)
    requires Wf(s) && c in s.chats
    ensures var f := s.chats[c].inFlight;
      Total(Restored(s, c)) == Plus(Total(s), Usage(0, 0, Bytes(f), |f|))
  {
    var e := s.chats[c];
    BytesConcat(e.inFlight, e.mem);
    UpdateTotal(s, c, Restore(e));
  }

  /** Rolling back keeps both budgets, whatever filled memory in the meantime. */
  lemma {:induction false} RollbackKeepsBudgets(l: Limits, s: State, c: ChatId)
    requires Wf(s)
    requires Total(s).memBytes <= l.memBytes && Total(s).memFrames <= l.memFrames
    ensures var u, u' := Total(s), Total(Rollback(l, s, c));
      && u'.memBytes <= l.memBytes && u'.memFrames <= l.memFrames
      && u'.bytes <= u.bytes && u'.frames <= u.frames
  {
    if c in s.chats {
      RestoredTotal(s, c);
      TrimMemFits(l, Restored(s, c));
      var at := TrimMemEvicts(l, Restored(s, c));
      EvictionsShrink(Restored(s, c), at, TrimMem(l, Restored(s, c)));
    }
  }

  lemma {:induction false} RollbackEachKeepsBudgets(l: Limits, s: State, ids: seq<ChatId>)
    requires Wf(s) && !OverMem(l, Total(s))
    ensures var u, u' := Total(s), Total(RollbackEach(l, s, ids));
      !OverMem(l, u') && u'.bytes <= u.bytes && u'.frames <= u.frames
    decreases |ids|
  {
    if ids != [] {
      RollbackKeepsBudgets(l, s, ids[0]);
      RollbackEachKeepsBudgets(l, Rollback(l, s, ids[0]), ids[1..]);
    }
  }

  /** A rollback deletes a frame exactly when memory cannot take the restored batch. */
  lemma {:induction false} RollbackLosslessIff(l: Limits, s: State, c: ChatId)
    requires Wf(s) && c in s.chats
    ensures Total(Rollback(l, s, c)).frames == Total(s).frames <==>
      (Total(s).memBytes + Bytes(s.chats[c].inFlight) <= l.memBytes
       && Total(s).memFrames + |s.chats[c].inFlight| <= l.memFrames)
  {
    var t := Restored(s, c);
    RestoredTotal(s, c);
    if OverMem(l, Total(t)) {
      OverMemHasVictim(l, t);
      var i := Scan(t, true, NO_READS, 0).value;
      EvictAtWf(t, i);
      EvictAtTotal(t, i);
      var at := TrimMemEvicts(l, EvictAt(t, i));
      EvictionsShrink(EvictAt(t, i), at, TrimMem(l, EvictAt(t, i)));
    }
  }

  // ---------------------------------------------------------------------------
  // Shared budget
  // ---------------------------------------------------------------------------

  /** The share of a bucket no eviction can touch: what is in flight, and the disk records if
      they cannot be read. */
  function StuckOf(e: Session, readable: bool): Usage {
    if readable then Usage(Bytes(e.inFlight), |e.inFlight|, 0, 0)
    else Usage(Bytes(e.inFlight) + Bytes(e.disk), |e.inFlight| + |e.disk|, 0, 0)
  }

  function Stucks(chats: map<ChatId, Session>, readable: ChatId -> bool): map<ChatId, Usage> {
    map c | c in chats :: StuckOf(chats[c], readable(c))
  }

  function Stuck(s: State, readable: ChatId -> bool): Usage {
    Sum(Stucks(s.chats, readable), s.order)
  }

  lemma {:induction false} SumBelow(a: map<ChatId, Usage>, b: map<ChatId, Usage>, order: seq<ChatId>)
    requires forall i :: 0 <= i < |order| ==>
      Look(a, order[i]).bytes <= Look(b, order[i]).bytes && Look(a, order[i]).frames <= Look(b, order[i]).frames
    ensures Sum(a, order).bytes <= Sum(b, order).bytes && Sum(a, order).frames <= Sum(b, order).frames
  {
    if order != [] {
      SumBelow(a, b, order[1..]);
    }
  }

  lemma StuckWithinTotal(s: State, readable: ChatId -> bool)
    requires Wf(s)
    ensures Stuck(s, readable).bytes <= Total(s).bytes && Stuck(s, readable).frames <= Total(s).frames
  {
    forall i | 0 <= i < |s.order|
      ensures Look(Stucks(s.chats, readable), s.order[i]).bytes <= Look(Usages(s.chats), s.order[i]).bytes
      ensures Look(Stucks(s.chats, readable), s.order[i]).frames <= Look(Usages(s.chats), s.order[i]).frames
    {
      assert s.order[i] in Elems(s.order);
    }
    SumBelow(Stucks(s.chats, readable), Usages(s.chats), s.order);
  }

  /** With no memory frame left and no record that can be read, what is stuck is all. */
  lemma OnlyStuckLeft(s: State, readable: ChatId -> bool)
    requires Wf(s)
    requires forall c :: c in s.chats ==> s.chats[c].mem == [] && (s.chats[c].disk == [] || !readable(c))
    ensures Total(s).bytes <= Stuck(s, readable).bytes && Total(s).frames <= Stuck(s, readable).frames
  {
    forall i | 0 <= i < |s.order|
      ensures Look(Usages(s.chats), s.order[i]).bytes <= Look(Stucks(s.chats, readable), s.order[i]).bytes
      ensures Look(Usages(s.chats), s.order[i]).frames <= Look(Stucks(s.chats, readable), s.order[i]).frames
    {
      assert s.order[i] in Elems(s.order);
    }
    SumBelow(Usages(s.chats), Stucks(s.chats, readable), s.order);
  }

  lemma StucksUpdate(chats: map<ChatId, Session>, c: ChatId, e: Session, readable: ChatId -> bool)
    ensures Stucks(chats[c := e], readable) == Stucks(chats, readable)[c := StuckOf(e, readable(c))]
  {
  }

  lemma UpdateStuck(s: State, c: ChatId, e: Session, readable: ChatId -> bool)
    requires Wf(s) && c in s.chats
    ensures Plus(Stuck(s.(chats := s.chats[c := e]), readable), StuckOf(s.chats[c], readable(c)))
         == Plus(Stuck(s, readable), StuckOf(e, readable(c)))
  {
    assert c in Elems(s.order);
    var i :| 0 <= i < |s.order| && s.order[i] == c;
    SumUpdate(Stucks(s.chats, readable), s.order, i, StuckOf(e, readable(c)));
    StucksUpdate(s.chats, c, e, readable);
  }

  /** An eviction takes nothing out of what is stuck, unless it reads a segment that counted
      as unreadable. */
  lemma EvictStuck(s: State, i: nat, readable: ChatId -> bool)
    requires Wf(s) && Holds(s, i)
    ensures var t := EvictAt(s, i);
      && Stuck(t, readable).bytes <= Stuck(s, readable).bytes && Stuck(t, readable).frames <= Stuck(s, readable).frames
      && (s.chats[s.order[i]].mem != [] || readable(s.order[i]) ==> Stuck(t, readable) == Stuck(s, readable))
  {
    var c, e := s.order[i], s.chats[s.order[i]];
    UpdateStuck(s, c, Evict(e), readable);
    SameSum(s, EvictAt(s, i), readable);
  }

  lemma SameSum(s: State, t: State, readable: ChatId -> bool)
    requires t.order == s.order
    ensures Stuck(t, readable) == Stuck(s.(chats := t.chats), readable)
  {
  }

  /** If every segment counted as readable can be read whenever it is asked, enforcing the
      shared budget succeeds as soon as what is stuck is within it. */
  lemma {:induction false} TrimTotalWithin(l: Limits, s: State, io: (nat, ChatId) -> bool, n: nat, readable: ChatId -> bool)
    requires Wf(s) && !OverTotal(l, Stuck(s, readable))
    requires forall m, c :: readable(c) ==> io(m, c)
    ensures !OverTotal(l, Total(TrimTotal(l, s, io, n)))
    decreases Total(s).frames
  {
    if OverTotal(l, Total(s)) {
      var i := Scan(s, false, ReadsAt(io, n), 0);
      if i.None? {
        NothingToEvict(s, ReadsAt(io, n), readable);
        OnlyStuckLeft(s, readable);
      } else {
        EvictAtWf(s, i.value);
        EvictAtTotal(s, i.value);
        EvictStuck(s, i.value, readable);
        TrimTotalWithin(l, EvictAt(s, i.value), io, n + 1, readable);
      }
    }
  }

  lemma NothingToEvict(s: State, canRead: ChatId -> bool, readable: ChatId -> bool)
    requires Wf(s) && Scan(s, false, canRead, 0).None? && forall c :: readable(c) ==> canRead(c)
    ensures forall c :: c in s.chats ==> s.chats[c].mem == [] && (s.chats[c].disk == [] || !readable(c))
  {
    ScanFailsIff(s, false, canRead);
    forall c | c in s.chats ensures s.chats[c].mem == [] && (s.chats[c].disk == [] || !readable(c)) {
      assert c in Elems(s.order);
      var j :| 0 <= j < |s.order| && s.order[j] == c;
      assert !Evictable(s, false, canRead, j);
    }
  }

  /** No other segment can be read in any round. */
  ghost predicate Covers(io: (nat, ChatId) -> bool, readable: ChatId -> bool) {
    forall m, c :: io(m, c) ==> readable(c)
  }

  lemma ScanGives(s: State, io: (nat, ChatId) -> bool, n: nat, readable: ChatId -> bool)
    requires Covers(io, readable)
    ensures var i := Scan(s, false, ReadsAt(io, n), 0);
      i.Some? ==> Holds(s, i.value) && (s.chats[s.order[i.value]].mem != [] || readable(s.order[i.value]))
  {
  }

  lemma EvictGiven(s: State, i: nat, readable: ChatId -> bool) returns (t: State)
    requires Wf(s) && Holds(s, i) && (s.chats[s.order[i]].mem != [] || readable(s.order[i]))
    ensures t == EvictAt(s, i) && Wf(t) && Total(t).frames < Total(s).frames && Stuck(t, readable) == Stuck(s, readable)
  {
    t := EvictAt(s, i);
    EvictAtWf(s, i);
    EvictAtTotal(s, i);
    EvictStuck(s, i, readable);
  }

  /** If no other segment can be read, what is stuck stays. */
  lemma {:induction false} TrimTotalKeepsStuck(l: Limits, s: State, io: (nat, ChatId) -> bool, n: nat, readable: ChatId -> bool)
    requires Wf(s) && Covers(io, readable)
    ensures Stuck(TrimTotal(l, s, io, n), readable) == Stuck(s, readable)
    decreases Total(s).frames
  {
    if OverTotal(l, Total(s)) {
      var i := Scan(s, false, ReadsAt(io, n), 0);
      ScanGives(s, io, n, readable);
      if i.Some? {
        var t := EvictGiven(s, i.value, readable);
        TrimTotalKeepsStuck(l, t, io, n + 1, readable);
      }
    }
  }

  /** During one call the same segments can be read in every round. */
  ghost predicate Steady(io: (nat, ChatId) -> bool, readable: ChatId -> bool) {
    forall m, c :: io(m, c) == readable(c)
  }

  /** Exactly when enforcing the shared budget ends above it: what no eviction can touch is
      above it. */
  lemma {:induction false} TrimTotalOverIff(l: Limits, s: State, io: (nat, ChatId) -> bool, n: nat, readable: ChatId -> bool)
    requires Wf(s) && Steady(io, readable)
    ensures var u, stuck := Total(TrimTotal(l, s, io, n)), Stuck(s, readable);
      (u.bytes <= l.totalBytes && u.frames <= l.totalFrames)
      <==> (stuck.bytes <= l.totalBytes && stuck.frames <= l.totalFrames)
  {
    if OverTotal(l, Stuck(s, readable)) {
      TrimTotalKeepsStuck(l, s, io, n, readable);
      StuckWithinTotal(TrimTotal(l, s, io, n), readable);
    } else {
      TrimTotalWithin(l, s, io, n, readable);
    }
  }

  /** What a push would add to the stuck share: the frame, if it goes to a segment that cannot
      be read. */
  function StuckBy(l: Limits, s: State, c: ChatId, f: Frame, readable: ChatId -> bool): Usage {
    if FitsMem(l, s, f) || readable(c) then NOTHING else Usage(f.Size(), 1, 0, 0)
  }

  lemma StuckAdmitted(e: Session, fits: bool, f: Frame, openOk: bool, appendOk: bool, readable: bool)
    requires AdmitInto(e, fits, f, openOk, appendOk).1 == Buffered
    ensures StuckOf(AdmitInto(e, fits, f, openOk, appendOk).0, readable)
         == Plus(StuckOf(e, readable), if fits || readable then NOTHING else Usage(f.Size(), 1, 0, 0))
  {
    BytesAppend(e.disk, f);
  }

  lemma EnsureStuck(s: State, c: ChatId, readable: ChatId -> bool)
    requires Wf(s)
    ensures Stuck(Ensure(s, c), readable) == Stuck(s, readable)
  {
    if c !in s.chats {
      StucksUpdate(s.chats, c, EMPTY_SESSION, readable);
      assert StuckOf(EMPTY_SESSION, readable(c)) == NOTHING;
      assert c !in Elems(s.order);
      NewBucketSum(Stucks(s.chats, readable), s.order, c);
    }
  }

  lemma StoredStuck(l: Limits, s: State, c: ChatId, f: Frame, openOk: bool, appendOk: bool, readable: ChatId -> bool)
    requires Wf(s) && Admit(l, s, c, f, openOk, appendOk).1 == Buffered
    ensures Stuck(Stored(l, s, c, f, openOk, appendOk), readable) == Plus(Stuck(s, readable), StuckBy(l, s, c, f, readable))
  {
    var t, e, e' := Ensure(s, c), Bucket(s, c), Admit(l, s, c, f, openOk, appendOk).0;
    EnsureStuck(s, c, readable);
    UpdateStuck(t, c, e', readable);
    StuckAdmitted(e, FitsMem(l, s, f), f, openOk, appendOk, readable(c));
    PlusCancel(Stuck(Stored(l, s, c, f, openOk, appendOk), readable), StuckOf(e, readable(c)), Stuck(s, readable),
               StuckBy(l, s, c, f, readable));
  }

  /** The push stores its frame, and with it more is stuck than the shared budget allows. A
      caller can evaluate this before the call. */
  predicate Overflows(l: Limits, s: State, c: ChatId, f: Frame, openOk: bool, appendOk: bool, readable: ChatId -> bool) {
    && f.Size() <= l.maxFrame && Admit(l, s, c, f, openOk, appendOk).1 == Buffered
    && (var stuck := Plus(Stuck(s, readable), StuckBy(l, s, c, f, readable));
        stuck.bytes > l.totalBytes || stuck.frames > l.totalFrames)
  }

  /** Exactly when a push from within the shared budget ends above it. */
  lemma {:induction false} PushOverIff(l: Limits, s: State, c: ChatId, f: Frame, openOk: bool, appendOk: bool,
                                       io: (nat, ChatId) -> bool, readable: ChatId -> bool)
    requires Wf(s) && Total(s).bytes <= l.totalBytes && Total(s).frames <= l.totalFrames && Steady(io, readable)
    ensures var u := Total(Push(l, s, c, f, openOk, appendOk, io).0);
      u.bytes > l.totalBytes || u.frames > l.totalFrames <==> Overflows(l, s, c, f, openOk, appendOk, readable)
  {
    if f.Size() <= l.maxFrame {
      var t := Stored(l, s, c, f, openOk, appendOk);
      if Admit(l, s, c, f, openOk, appendOk).1 == Buffered {
        TrimTotalOverIff(l, t, io, 0, readable);
        StoredStuck(l, s, c, f, openOk, appendOk, readable);
      } else {
        StoredTotal(l, s, c, f, openOk, appendOk);
      }
    }
  }

  // ---------------------------------------------------------------------------
  // A push evicts no more than it must
  // ---------------------------------------------------------------------------

  /** Before each of these evictions in turn the state is above the shared budget. */
  ghost predicate Needed(l: Limits, s: State, at: seq<nat>)
    decreases |at|
  {
    at != [] ==>
      && (Total(s).bytes > l.totalBytes || Total(s).frames > l.totalFrames)
      && Holds(s, at[0]) && Needed(l, EvictAt(s, at[0]), at[1..])
  }

  /** Enforcing the shared budget evicts only as long as the state is above it. */
  lemma {:induction false} TrimTotalNeeds(l: Limits, s: State, io: (nat, ChatId) -> bool, n: nat) returns (at: seq<nat>)
    requires Wf(s)
    ensures Evictions(s, at, TrimTotal(l, s, io, n)) && Needed(l, s, at)
    decreases Total(s).frames
  {
    at := [];
    if OverTotal(l, Total(s)) {
      var i := Scan(s, false, ReadsAt(io, n), 0);
      if i.Some? {
        EvictAtWf(s, i.value);
        EvictAtTotal(s, i.value);
        var rest := TrimTotalNeeds(l, EvictAt(s, i.value), io, n + 1);
        at := [i.value] + rest;
        assert at[1..] == rest;
      }
    }
  }

  /** After the frame is stored, a push evicts exactly as long as the state is above the shared
      budget and some bucket can give a frame. */
  lemma {:induction false} PushEvictsNeeded(l: Limits, s: State, c: ChatId, f: Frame, openOk: bool, appendOk: bool,
                                            io: (nat, ChatId) -> bool) returns (at: seq<nat>, m: nat)
    requires Wf(s) && f.Size() <= l.maxFrame
    ensures var t, r := Stored(l, s, c, f, openOk, appendOk), Push(l, s, c, f, openOk, appendOk, io);
      if r.1 != Buffered then r.0 == t
      else
        && Evictions(t, at, r.0) && Needed(l, t, at)
        && ((Total(r.0).bytes <= l.totalBytes && Total(r.0).frames <= l.totalFrames) || AllUnreadable(r.0, io, m))
  {
    at, m := [], 0;
    if Admit(l, s, c, f, openOk, appendOk).1 == Buffered {
      at := TrimTotalNeeds(l, Stored(l, s, c, f, openOk, appendOk), io, 0);
      m := TrimTotalStops(l, Stored(l, s, c, f, openOk, appendOk), io, 0);
    }
  }

  /** A push whose frame leaves the buffer within both shared limits drops nothing. */
  lemma {:induction false} PushWithinDropsNothing(l: Limits, s: State, c: ChatId, f: Frame, openOk: bool, appendOk: bool,
                                                  io: (nat, ChatId) -> bool, d: ChatId)
    requires Wf(s) && f.Size() <= l.maxFrame
    requires Total(s).bytes + f.Size() <= l.totalBytes && Total(s).frames + 1 <= l.totalFrames
    ensures var r := Push(l, s, c, f, openOk, appendOk, io).0;
      Bucket(r, d).evicted == Bucket(s, d).evicted && (d != c ==> Bucket(r, d) == Bucket(s, d))
  {
    StoredTotal(l, s, c, f, openOk, appendOk);
    StoredBuckets(l, s, c, f, openOk, appendOk, d);
    AdmitConserves(l, s, c, f, openOk, appendOk);
  }

  /** How enforcing the shared budget can end above it: no memory frame is left anywhere and
      every disk segment that still has a record failed to read in one same round. */
  ghost predicate AllUnreadable(s: State, io: (nat, ChatId) -> bool, n: nat) {
    forall c :: c in s.chats ==> s.chats[c].mem == [] && (s.chats[c].disk == [] || !io(n, c))
  }

  lemma {:induction false} TrimTotalStops(l: Limits, s: State, io: (nat, ChatId) -> bool, n: nat) returns (m: nat)
    requires Wf(s)
    ensures var r := TrimTotal(l, s, io, n); OverTotal(l, Total(r)) ==> AllUnreadable(r, io, m)
    decreases Total(s).frames
  {
    m := n;
    if OverTotal(l, Total(s)) {
      var i := Scan(s, false, ReadsAt(io, n), 0);
      if i.None? {
        NothingToEvict(s, ReadsAt(io, n), ReadsAt(io, n));
      } else {
        EvictAtWf(s, i.value);
        EvictAtTotal(s, i.value);
        m := TrimTotalStops(l, EvictAt(s, i.value), io, n + 1);
      }
    }
  }

  /** Also when segments come and go during the call: a push that ends above the shared
      budget has met records that could not be read, and gives up for no other reason. */
  lemma {:induction false} PushKeepsTotalBudget(l: Limits, s: State, c: ChatId, f: Frame, openOk: bool, appendOk: bool,
                                                io: (nat, ChatId) -> bool) returns (m: nat)
    requires Wf(s) && Total(s).bytes <= l.totalBytes && Total(s).frames <= l.totalFrames
    ensures var r := Push(l, s, c, f, openOk, appendOk, io).0;
      Total(r).bytes > l.totalBytes || Total(r).frames > l.totalFrames ==>
        AllUnreadable(r, io, m) && exists d :: d in r.chats && r.chats[d].disk != [] && !io(m, d)
  {
    m := 0;
    if f.Size() <= l.maxFrame {
      if Admit(l, s, c, f, openOk, appendOk).1 == Buffered {
        StoredWithin(l, s, c, f, openOk, appendOk, ALL_READ);
        m := RecordsRemain(l, Stored(l, s, c, f, openOk, appendOk), io);
      } else {
        RefusedWithin(l, s, c, f, openOk, appendOk);
      }
    }
  }

  /** If what is in flight is within the shared budget, only records that cannot be read can
      keep the buffer above it. */
  lemma RecordsRemain(l: Limits, t: State, io: (nat, ChatId) -> bool) returns (m: nat)
    requires Wf(t) && !OverTotal(l, Stuck(t, ALL_READ))
    ensures var r := TrimTotal(l, t, io, 0);
      OverTotal(l, Total(r)) ==>
        AllUnreadable(r, io, m) && exists d :: d in r.chats && r.chats[d].disk != [] && !io(m, d)
  {
    var r := TrimTotal(l, t, io, 0);
    m := TrimTotalStops(l, t, io, 0);
    TrimTotalKeepsStuck(l, t, io, 0, ALL_READ);
    if forall d :: d in r.chats ==> r.chats[d].mem == [] && r.chats[d].disk == [] {
      OnlyStuckLeft(r, ALL_READ);
    }
  }

  const ALL_READ: ChatId -> bool := c => true

  /** A frame that adds nothing to the stuck share leaves it within a budget the state kept. */
  lemma StoredWithin(l: Limits, s: State, c: ChatId, f: Frame, openOk: bool, appendOk: bool, readable: ChatId -> bool)
    requires Wf(s) && !OverTotal(l, Total(s)) && StuckBy(l, s, c, f, readable) == NOTHING
    requires Admit(l, s, c, f, openOk, appendOk).1 == Buffered
    ensures !OverTotal(l, Stuck(Stored(l, s, c, f, openOk, appendOk), readable))
  {
    StoredStuck(l, s, c, f, openOk, appendOk, readable);
    StuckWithinTotal(s, readable);
    PlusNothing(Stuck(s, readable));
  }

  lemma RefusedWithin(l: Limits, s: State, c: ChatId, f: Frame, openOk: bool, appendOk: bool)
    requires Wf(s) && !OverTotal(l, Total(s)) && Admit(l, s, c, f, openOk, appendOk).1 != Buffered
    ensures !OverTotal(l, Total(Stored(l, s, c, f, openOk, appendOk)))
  {
    StoredTotal(l, s, c, f, openOk, appendOk);
  }

  lemma PushWithin(l: Limits, s: State, c: ChatId, f: Frame, openOk: bool, appendOk: bool,
                   io: (nat, ChatId) -> bool, readable: ChatId -> bool)
    requires Wf(s) && !OverTotal(l, Total(s)) && StuckBy(l, s, c, f, readable) == NOTHING
    requires forall m, d :: readable(d) ==> io(m, d)
    ensures !OverTotal(l, Total(Push(l, s, c, f, openOk, appendOk, io).0))
  {
    if Admit(l, s, c, f, openOk, appendOk).1 == Buffered {
      StoredWithin(l, s, c, f, openOk, appendOk, readable);
      TrimTotalWithin(l, Stored(l, s, c, f, openOk, appendOk), io, 0, readable);
    } else {
      RefusedWithin(l, s, c, f, openOk, appendOk);
    }
  }

  /** Whatever happens to the other segments, the shared budget is hard for a push whose own
      segment can be read, or that fits memory, even while batches are in flight. */
  lemma {:induction false} ReadableDiskIsHardBudget(l: Limits, s: State, c: ChatId, f: Frame, openOk: bool, appendOk: bool,
                                                    io: (nat, ChatId) -> bool)
    requires Wf(s) && Total(s).bytes <= l.totalBytes && Total(s).frames <= l.totalFrames
    requires FitsMem(l, s, f) || forall n :: io(n, c)
    ensures var u := Total(Push(l, s, c, f, openOk, appendOk, io).0);
      u.bytes <= l.totalBytes && u.frames <= l.totalFrames
  {
    if FitsMem(l, s, f) {
      PushWithin(l, s, c, f, openOk, appendOk, io, NO_READS);
    } else {
      PushWithin(l, s, c, f, openOk, appendOk, io, Only(c));
    }
  }

  function Only(c: ChatId): ChatId -> bool {
    d => d == c
  }

  /** The state with one bucket. */
  function One(c: ChatId, e: Session): State {
    State(map[c := e], [c], 0)
  }

  lemma OneTotal(c: ChatId, e: Session)
    ensures Wf(One(c, e)) && Total(One(c, e)) == UsageOf(e)
  {
    var s := One(c, e);
    assert Elems(s.order) == {c};
    assert Sum(Usages(s.chats), s.order[1..]) == NOTHING;
  }

  ghost predicate OnlyBucket(s: State, c: ChatId, e: Session, u: Usage) {
    (s == One(c, e) || (s == EMPTY && e == EMPTY_SESSION)) && UsageOf(e) == u
  }

  lemma OnlyBucketTotal(s: State, c: ChatId, e: Session, u: Usage)
    requires OnlyBucket(s, c, e, u)
    ensures Wf(s) && Total(s) == u && Bucket(s, c) == e && Ensure(s, c) == One(c, e)
  {
    OneTotal(c, e);
  }

  lemma Replace(c: ChatId, e: Session, e': Session)
    ensures One(c, e).(chats := One(c, e).chats[c := e']) == One(c, e')
  {
  }

  /** A push into the only bucket, or the first push of all, that stays within the budget. */
  lemma PushOne(l: Limits, s: State, c: ChatId, e: Session, u: Usage, fits: bool, f: Frame,
                io: (nat, ChatId) -> bool, e': Session)
    requires OnlyBucket(s, c, e, u) && !e.broken && f.Size() <= l.maxFrame
    requires fits <==> u.memBytes + f.Size() <= l.memBytes && u.memFrames < l.memFrames
    requires u.bytes + f.Size() <= l.totalBytes && u.frames < l.totalFrames
    requires e' == if fits then e.(mem := e.mem + [f]) else e.(segment := true, disk := e.disk + [f])
    ensures Wf(s) && FitsMem(l, s, f) == fits && Wf(One(c, e'))
    ensures Push(l, s, c, f, true, true, io).0 == One(c, e')
  {
    OnlyBucketTotal(s, c, e, u);
    OneTotal(c, e');
    Replace(c, e, e');
    StoredTotal(l, s, c, f, true, true);
  }

  lemma OneFrame(f: Frame)
    ensures Bytes([f]) == f.Size()
    ensures UsageOf(EMPTY_SESSION.(mem := [f])) == Usage(f.Size(), 1, f.Size(), 1)
    ensures UsageOf(EMPTY_SESSION.(disk := [f], segment := true)) == Usage(f.Size(), 1, 0, 0)
    ensures UsageOf(EMPTY_SESSION) == NOTHING
  {
  }

  /** The condition is needed: one unreadable record is enough to leave the buffer over. */
  lemma {:induction false} UnreadableDiskOverflows(l: Limits, s: State, c: ChatId, f1: Frame, f2: Frame, io: (nat, ChatId) -> bool)
    requires l == Limits(0, 0, 1, 1, 9) && s == EMPTY
    requires f1.Size() == 1 && f2.Size() == 1 && !io(0, c)
    ensures Wf(s) && Total(Push(l, s, c, f1, true, true, io).0) == Usage(1, 1, 0, 0)
    ensures Total(Push(l, Push(l, s, c, f1, true, true, io).0, c, f2, true, true, io).0) == Usage(2, 2, 0, 0)
  {
    OneFrame(f1);
    var e := Session([], [], [f1], true, false, [], []);
    PushOne(l, s, c, EMPTY_SESSION, NOTHING, false, f1, io, e);
    OneTotal(c, e);
    SecondPushOverflows(l, c, e, f2, io);
  }

  lemma SecondPushOverflows(l: Limits, c: ChatId, e: Session, f: Frame, io: (nat, ChatId) -> bool)
    requires l == Limits(0, 0, 1, 1, 9) && f.Size() == 1
    requires e == Session([], [], e.disk, true, false, [], []) && UsageOf(e) == Usage(1, 1, 0, 0)
    requires !io(0, c)
    ensures Wf(One(c, e)) && Total(Push(l, One(c, e), c, f, true, true, io).0) == Usage(2, 2, 0, 0)
  {
    OneTotal(c, e);
    GoesOver(l, One(c, e), c, f, io);
  }

  /** A frame on the only segment, which cannot be read, stays when it goes over the budget. */
  lemma GoesOver(l: Limits, s: State, c: ChatId, f: Frame, io: (nat, ChatId) -> bool)
    requires Wf(s) && s.order == [c] && s.chats[c].mem == [] && !s.chats[c].broken && !io(0, c)
    requires !FitsMem(l, s, f) && f.Size() <= l.maxFrame
    ensures Total(Push(l, s, c, f, true, true, io).0) == Plus(Total(s), Usage(f.Size(), 1, 0, 0))
  {
    var u := Stored(l, s, c, f, true, true);
    StoredTotal(l, s, c, f, true, true);
    assert u.order == [c] && u.chats[c].mem == [];
    assert !Evictable(u, false, ReadsAt(io, 0), 0);
    ScanFailsIff(u, false, ReadsAt(io, 0));
    assert TrimTotal(l, u, io, 0) == u;
  }
}
