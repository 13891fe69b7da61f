/** The disconnect buffer as a function of its state: many buckets, one shared budget.
    Operations whose outcome depends on the disk take that outcome as an input. */
module BufferSpec {
  import opened Budget
  import opened Frames
  import opened Sessions

  type ChatId = string

  datatype Limits = Limits(memBytes: nat, memFrames: nat, totalBytes: nat, totalFrames: nat, maxFrame: nat)

  /** `order` lists the buckets in creation order; `cursor` is where the next eviction
      starts looking. */
  datatype State = State(chats: map<ChatId, Session>, order: seq<ChatId>, cursor: nat)

  const EMPTY := State(map[], [], 0)

  /** The order list holds every bucket exactly once. */
  ghost predicate Wf(s: State) {
    && NoDup(s.order)
    && s.chats.Keys == Elems(s.order)
  }

  // ---------------------------------------------------------------------------
  // Global accounting
  // ---------------------------------------------------------------------------

  function UsageOf(s: Session): Usage {
    Usage(s.TotalBytes(), s.TotalFrames(), Bytes(s.mem), |s.mem|)
  }

  function Usages(chats: map<ChatId, Session>): map<ChatId, Usage> {
    map c | c in chats :: UsageOf(chats[c])
  }

  function Total(s: State): Usage {
    Sum(Usages(s.chats), s.order)
  }

  predicate OverTotal(l: Limits, u: Usage) {
    u.bytes > l.totalBytes || u.frames > l.totalFrames
  }

  predicate OverMem(l: Limits, u: Usage) {
    u.memBytes > l.memBytes || u.memFrames > l.memFrames
  }

  lemma UpdateWf(s: State, c: ChatId, e: Session)
    requires Wf(s) && c in s.chats
    ensures Wf(s.(chats := s.chats[c := e]))
  {
  }

  lemma UsagesUpdate(chats: map<ChatId, Session>, c: ChatId, e: Session)
    ensures Usages(chats[c := e]) == Usages(chats)[c := UsageOf(e)]
  {
  }

  lemma UpdateTotal(s: State, c: ChatId, e: Session)
    requires Wf(s) && c in s.chats
    ensures Plus(Total(s.(chats := s.chats[c := e])), UsageOf(s.chats[c])) == Plus(Total(s), UsageOf(e))
  {
    assert c in Elems(s.order);
    var i :| 0 <= i < |s.order| && s.order[i] == c;
    SumUpdate(Usages(s.chats), s.order, i, UsageOf(e));
    UsagesUpdate(s.chats, c, e);
  }

  // ---------------------------------------------------------------------------
  // Eviction
  // ---------------------------------------------------------------------------

  /** Which disks can be read in the n-th eviction of a call. */
  function ReadsAt(io: (nat, ChatId) -> bool, n: nat): ChatId -> bool {
    c => io(n, c)
  }

  const NO_READS: ChatId -> bool := c => false

  predicate Evictable(s: State, memOnly: bool, readable: ChatId -> bool, i: nat)
    requires i < |s.order|
  {
    s.order[i] in s.chats && CanEvict(s.chats[s.order[i]], memOnly, readable(s.order[i]))
  }

  /** First evictable bucket at cyclic offset `k` or later from the cursor. */
  function Scan(s: State, memOnly: bool, readable: ChatId -> bool, k: nat): (r: Option<nat>)
    requires k <= |s.order|
    ensures r.Some? ==> r.value < |s.order| && Evictable(s, memOnly, readable, r.value)
    decreases |s.order| - k
  {
    if k == |s.order| then None
    else
      var i := (s.cursor + k) % |s.order|;
      if Evictable(s, memOnly, readable, i) then Some(i) else Scan(s, memOnly, readable, k + 1)
  }

  function EvictAt(s: State, i: nat): State
    requires i < |s.order| && s.order[i] in s.chats
    requires s.chats[s.order[i]].mem != [] || s.chats[s.order[i]].disk != []
  {
    State(s.chats[s.order[i] := Evict(s.chats[s.order[i]])], s.order, (i + 1) % |s.order|)
  }

  /** One round-robin eviction; None when no bucket can give a frame. */
  function EvictOne(s: State, memOnly: bool, readable: ChatId -> bool): Option<State> {
    var i := Scan(s, memOnly, readable, 0);
    if i.None? then None else Some(EvictAt(s, i.value))
  }

  predicate Holds(s: State, i: nat) {
    i < |s.order| && s.order[i] in s.chats
    && (s.chats[s.order[i]].mem != [] || s.chats[s.order[i]].disk != [])
  }

  lemma EvictAtWf(s: State, i: nat)
    requires Wf(s) && Holds(s, i)
    ensures Wf(EvictAt(s, i))
  {
    UpdateWf(s, s.order[i], Evict(s.chats[s.order[i]]));
  }

  /** An eviction releases exactly the share of the frame it drops. */
  lemma EvictAtTotal(s: State, i: nat)
    requires Wf(s) && Holds(s, i)
    ensures var e := s.chats[s.order[i]]; var size := Evicted(e).Size();
      Total(s) == Plus(Total(EvictAt(s, i)),
                       if e.mem != [] then Usage(size, 1, size, 1) else Usage(size, 1, 0, 0))
  {
    EvictSums(s.chats[s.order[i]]);
    UpdateTotal(s, s.order[i], Evict(s.chats[s.order[i]]));
  }

  /** Evicts until the shared budget holds, or nothing can be evicted. `io(n, c)` says
      whether the disk of `c` can be read during the n-th eviction. */
  function TrimTotal(l: Limits, s: State, io: (nat, ChatId) -> bool, n: nat): (r: State)
    requires Wf(s)
    ensures Wf(r)
    decreases Total(s).frames
  {
    if !OverTotal(l, Total(s)) then s
    else
      var i := Scan(s, false, ReadsAt(io, n), 0);
      if i.None? then s
      else
        EvictAtWf(s, i.value);
        EvictAtTotal(s, i.value);
        TrimTotal(l, EvictAt(s, i.value), io, n + 1)
  }

  /** Evicts memory frames until the memory budget holds. */
  function TrimMem(l: Limits, s: State): (r: State)
    requires Wf(s)
    ensures Wf(r)
    decreases Total(s).frames
  {
    if !OverMem(l, Total(s)) then s
    else
      var i := Scan(s, true, NO_READS, 0);
      if i.None? then s
      else
        EvictAtWf(s, i.value);
        EvictAtTotal(s, i.value);
        TrimMem(l, EvictAt(s, i.value))
  }

  // ---------------------------------------------------------------------------
  // Push
  // ---------------------------------------------------------------------------

  function AddBucket(s: State, c: ChatId): State {
    State(s.chats[c := EMPTY_SESSION], s.order + [c], s.cursor)
  }

  lemma AddBucketWf(s: State, c: ChatId)
    requires Wf(s) && c !in s.chats
    ensures Wf(AddBucket(s, c))
  {
    assert c !in Elems(s.order);
    assert Elems(s.order + [c]) == Elems(s.order) + {c};
    NoDupSnoc(s.order, c);
  }

  lemma AddBucketTotal(s: State, c: ChatId)
    requires Wf(s) && c !in s.chats
    ensures Total(AddBucket(s, c)) == Total(s)
  {
    UsagesUpdate(s.chats, c, EMPTY_SESSION);
    assert UsageOf(EMPTY_SESSION) == NOTHING;
    assert c !in Elems(s.order);
    NewBucketSum(Usages(s.chats), s.order, c);
  }

  function Ensure(s: State, c: ChatId): (r: State)
    requires Wf(s)
    ensures Wf(r) && c in r.chats
  {
    if c in s.chats then s
    else
      AddBucketWf(s, c);
      AddBucket(s, c)
  }

  function Bucket(s: State, c: ChatId): Session {
    if c in s.chats then s.chats[c] else EMPTY_SESSION
  }

  /** Memory has room for this frame. */
  predicate FitsMem(l: Limits, s: State, f: Frame) {
    var u := Total(s);
    u.memBytes + f.Size() <= l.memBytes && u.memFrames < l.memFrames
  }

  function Admit(l: Limits, s: State, c: ChatId, f: Frame, openOk: bool, appendOk: bool): (Session, PushOutcome) {
    AdmitInto(Bucket(s, c), FitsMem(l, s, f), f, openOk, appendOk)
  }

  /** The state right after the frame was stored (or refused), before any eviction. */
  function Stored(l: Limits, s: State, c: ChatId, f: Frame, openOk: bool, appendOk: bool): (r: State)
    requires Wf(s)
    ensures Wf(r)
  {
    var t := Ensure(s, c);
    var e := Admit(l, s, c, f, openOk, appendOk).0;
    UpdateWf(t, c, e);
    t.(chats := t.chats[c := e])
  }

  function Push(l: Limits, s: State, c: ChatId, f: Frame, openOk: bool, appendOk: bool,
                io: (nat, ChatId) -> bool): (r: (State, PushOutcome))
    requires Wf(s)
    ensures Wf(r.0)
  {
    if f.Size() > l.maxFrame then (s, Oversize)
    else
      var t := Stored(l, s, c, f, openOk, appendOk);
      var o := Admit(l, s, c, f, openOk, appendOk).1;
      if o == Buffered then (TrimTotal(l, t, io, 0), Buffered) else (t, o)
  }

  // ---------------------------------------------------------------------------
  // Replay: drain, commit, rollback
  // ---------------------------------------------------------------------------

  function Drain(s: State, c: ChatId, maxFrames: nat, maxBytes: nat, firstOk: bool, good: nat)
    : (r: (State, Option<Job>))
    requires Wf(s)
    ensures Wf(r.0)
  {
    if c !in s.chats then (s, None)
    else
      var e := s.chats[c];
      var job := NextJob(e, maxFrames, maxBytes, firstOk, good);
      if job.None? then (s, None)
      else
        UpdateWf(s, c, TakeBatch(e, |job.value.frames|));
        (s.(chats := s.chats[c := TakeBatch(e, |job.value.frames|)]), job)
  }

  function Commit(s: State, c: ChatId): (r: State)
    requires Wf(s)
    ensures Wf(r)
  {
    if c !in s.chats then s
    else
      UpdateWf(s, c, s.chats[c].(inFlight := []));
      s.(chats := s.chats[c := s.chats[c].(inFlight := [])])
  }

  function Restored(s: State, c: ChatId): (r: State)
    requires Wf(s) && c in s.chats
    ensures Wf(r)
  {
    UpdateWf(s, c, Restore(s.chats[c]));
    s.(chats := s.chats[c := Restore(s.chats[c])])
  }

  function Rollback(l: Limits, s: State, c: ChatId): (r: State)
    requires Wf(s)
    ensures Wf(r)
  {
    if c !in s.chats then s else TrimMem(l, Restored(s, c))
  }

  /** Rolls back the listed buckets in that order. */
  function RollbackEach(l: Limits, s: State, ids: seq<ChatId>): (r: State)
    requires Wf(s)
    ensures Wf(r)
    decreases |ids|
  {
    if ids == [] then s else RollbackEach(l, Rollback(l, s, ids[0]), ids[1..])
  }

  /** An iteration order over exactly the buckets that have a batch in flight. */
  ghost predicate InFlightOrder(s: State, ids: seq<ChatId>) {
    && NoDup(ids)
    && (forall c :: c in ids <==> c in s.chats && s.chats[c].inFlight != [])
  }

  // ---------------------------------------------------------------------------
  // Removal
  // ---------------------------------------------------------------------------

  function Remove(s: State, c: ChatId): (r: State)
    requires Wf(s)
    ensures Wf(r)
  {
    if c !in s.chats then s
    else
      FilterNoDup(s.order, c);
      FilterElems(s.order, c);
      State(s.chats - {c}, Filter(s.order, c), s.cursor)
  }

  lemma RemoveTotal(s: State, c: ChatId)
    requires Wf(s) && c in s.chats
    ensures Total(s) == Plus(Total(Remove(s, c)), UsageOf(s.chats[c]))
  {
    assert c in Elems(s.order);
    SumRemove(Usages(s.chats), s.order, c);
    assert Usages(s.chats - {c}) == Usages(s.chats) - {c};
  }
}
