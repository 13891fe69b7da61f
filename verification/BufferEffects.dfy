/** What each operation of the buffer does, in terms of the limits, the stores and the frames
    themselves. */
module BufferEffects {
  import opened Frames
  import opened Sessions
  import opened Budget
  import opened BufferSpec
  import opened BufferQueue
  import opened BufferBudget

  // ---------------------------------------------------------------------------
  // What the totals count
  // ---------------------------------------------------------------------------

  /** The queues of all buckets, one behind the other. */
  function AllQueues(s: State, order: seq<ChatId>): seq<Frame> {
    if order == [] then [] else Bucket(s, order[0]).View() + AllQueues(s, order[1..])
  }

  function AllMemory(s: State, order: seq<ChatId>): seq<Frame> {
    if order == [] then [] else Bucket(s, order[0]).mem + AllMemory(s, order[1..])
  }

  ghost predicate Counts(u: Usage, all: seq<Frame>, mem: seq<Frame>) {
    u == Usage(Bytes(all), |all|, Bytes(mem), |mem|)
  }

  lemma CountsMore(e: Session, u: Usage, all: seq<Frame>, mem: seq<Frame>)
    requires Counts(u, all, mem)
    ensures Counts(Plus(UsageOf(e), u), e.View() + all, e.mem + mem)
  {
    ViewSums(e);
    BytesConcat(e.View(), all);
    BytesConcat(e.mem, mem);
  }

  lemma {:induction false} SumsCount(s: State, order: seq<ChatId>)
    ensures Counts(Sum(Usages(s.chats), order), AllQueues(s, order), AllMemory(s, order))
  {
    if order != [] {
      SumsCount(s, order[1..]);
      var e := Bucket(s, order[0]);
      assert Look(Usages(s.chats), order[0]) == UsageOf(e);
      CountsMore(e, Sum(Usages(s.chats), order[1..]), AllQueues(s, order[1..]), AllMemory(s, order[1..]));
    }
  }

  /** The totals count every frame of every queue once, batches in flight included, and weigh
      the bodies; the memory totals do the same for the frames in memory. */
  lemma {:induction false} TotalCountsAll(s: State)
    ensures var all, mem := AllQueues(s, s.order), AllMemory(s, s.order);
      Total(s) == Usage(|Bodies(all)|, |all|, |Bodies(mem)|, |mem|)
  {
    SumsCount(s, s.order);
    BytesAreBodies(AllQueues(s, s.order));
    BytesAreBodies(AllMemory(s, s.order));
  }

  // ---------------------------------------------------------------------------
  // Evictions
  // ---------------------------------------------------------------------------

  /** An eviction finds nothing if and only if no bucket has a frame in memory and, where disk
      counts, none has a record that can be read. */
  lemma {:induction false} NothingGivesIff(s: State, memOnly: bool, readable: ChatId -> bool)
    requires Wf(s)
    ensures EvictOne(s, memOnly, readable).None? <==>
      forall c :: c in s.chats ==> s.chats[c].mem == [] && (memOnly || s.chats[c].disk == [] || !readable(c))
  {
    ScanFailsIff(s, memOnly, readable);
    if EvictOne(s, memOnly, readable).None? {
      forall c | c in s.chats
        ensures s.chats[c].mem == [] && (memOnly || s.chats[c].disk == [] || !readable(c))
      {
        assert c in Elems(s.order);
        var j :| 0 <= j < |s.order| && s.order[j] == c;
        assert !Evictable(s, memOnly, readable, j);
      }
    }
  }

  /** One bucket has given up frame k of its queue: from memory the oldest notification before
      any request or response, from disk the oldest record, and only if memory is empty. */
  ghost predicate GaveOne(e: Session, e': Session, k: nat) {
    && |e.inFlight| <= k < |e.View()|
    && e'.View() == Without(e.View(), k) && e'.inFlight == e.inFlight
    && e'.evicted == e.evicted + [e.View()[k]] && e'.failed == e.failed && e'.broken == e.broken
    && (if e.mem != [] then GivesUp(e.mem, k - |e.inFlight|) && e'.disk == e.disk
        else k == |e.inFlight| && e'.disk == e.disk[1..])
  }

  lemma CallsSnoc(fs: seq<Frame>, f: Frame)
    ensures Calls(fs + [f]) == Calls(fs) + if f.jsonrpc && f.id then 1 else 0
  {
    EventsOrCalls(fs);
    EventsOrCalls(fs + [f]);
    EventsConcat(fs, [f]);
    assert [f][1..] == [];
  }

  /** An eviction takes one frame from one bucket, counts it by its kind, and leaves every other
      bucket as it was. */
  lemma {:induction false} EvictTakesOne(s: State, memOnly: bool, readable: ChatId -> bool) returns (c: ChatId, k: nat)
    requires Wf(s) && EvictOne(s, memOnly, readable).Some?
    ensures var t := EvictOne(s, memOnly, readable).value;
      && c in s.chats && GaveOne(s.chats[c], Bucket(t, c), k)
      && (s.chats[c].mem == [] ==> !memOnly && readable(c))
      && Calls(Bucket(t, c).evicted) == Calls(s.chats[c].evicted)
           + (var f := s.chats[c].View()[k]; if f.jsonrpc && f.id then 1 else 0)
      && t.order == s.order && forall d :: d != c ==> Bucket(t, d) == Bucket(s, d)
  {
    var i := Scan(s, memOnly, readable, 0).value;
    c := s.order[i];
    k := EvictDeletesOne(s.chats[c]);
    CallsSnoc(s.chats[c].evicted, s.chats[c].View()[k]);
  }

  // ---------------------------------------------------------------------------
  // Push
  // ---------------------------------------------------------------------------

  /** Memory can take a frame of this size. */
  predicate Room(l: Limits, s: State, size: nat) {
    Total(s).memBytes + size <= l.memBytes && Total(s).memFrames + 1 <= l.memFrames
  }

  /** The bucket refuses the frame: its disk has failed before, or fails now. */
  predicate Refuses(l: Limits, s: State, c: ChatId, f: Frame, openOk: bool, appendOk: bool) {
    var e := Bucket(s, c);
    e.broken || (!Room(l, s, |f.body|) && ((!e.segment && !openOk) || !appendOk))
  }

  /** What a push answers: too large, refused by the disk, or buffered. Neither of the first two
      evicts or stores anything; the disk stays failed. */
  lemma {:induction false} PushAnswers(l: Limits, s: State, c: ChatId, f: Frame, openOk: bool, appendOk: bool,
                                       io: (nat, ChatId) -> bool, d: ChatId)
    requires Wf(s)
    ensures var r := Push(l, s, c, f, openOk, appendOk, io); var e, e' := Bucket(s, d), Bucket(r.0, d);
      && (r.1 == Oversize <==> |f.body| > l.maxFrame)
      && (r.1 == DiskFailed <==> |f.body| <= l.maxFrame && Refuses(l, s, c, f, openOk, appendOk))
      && (r.1 == Oversize ==> r.0 == s)
      && (r.1 == DiskFailed ==>
           if d != c then e' == e
           else e' == e.(broken := true, failed := e.failed + [f], segment := e'.segment))
  {
    StoredBuckets(l, s, c, f, openOk, appendOk, d);
  }

  /** Where a buffered frame goes before the shared budget is enforced: behind memory if memory
      has room, else behind the disk records. */
  lemma {:induction false} PushStores(l: Limits, s: State, c: ChatId, f: Frame, openOk: bool, appendOk: bool, d: ChatId)
    requires Wf(s) && !Refuses(l, s, c, f, openOk, appendOk)
    ensures var e, e' := Bucket(s, d), Bucket(Stored(l, s, c, f, openOk, appendOk), d);
      if d != c then e' == e
      else if Room(l, s, |f.body|) then e' == e.(mem := e.mem + [f])
      else e' == e.(disk := e.disk + [f], segment := true)
  {
    StoredBuckets(l, s, c, f, openOk, appendOk, d);
  }

  // ---------------------------------------------------------------------------
  // Drain
  // ---------------------------------------------------------------------------

  /** What a drain can get at: memory, then the disk records up to the first failing read. */
  function Within(e: Session, good: nat): seq<Frame> {
    e.mem + if good < |e.disk| then e.disk[..good] else e.disk
  }

  /** Some source tells the start number: memory, a batch in flight, or a readable record. */
  predicate Starts(e: Session, firstOk: bool) {
    e.mem != [] || e.inFlight != [] || (e.disk != [] && firstOk)
  }

  /** A drain yields a batch if and only if a start number can be had and the first frame it can
      get at fits. */
  lemma {:induction false} DrainYieldsIff(s: State, c: ChatId, maxFrames: nat, maxBytes: nat, firstOk: bool, good: nat)
    requires Wf(s)
    ensures var e := Bucket(s, c); var q := Within(e, good);
      Drain(s, c, maxFrames, maxBytes, firstOk, good).1.Some? <==>
        Starts(e, firstOk) && q != [] && maxFrames > 0 && |q[0].body| <= maxBytes
  {
    ReachIsWithin(Bucket(s, c), good);
  }

  lemma ReachIsWithin(e: Session, good: nat)
    ensures Reach(e, good) == Within(e, good)
  {
    assert e.disk[..|e.disk|] == e.disk;
  }

  /** Then the batch is the longest prefix of what it can get at within both limits, and the
      start number is that of the front of memory, else of the batch in flight, else of disk. */
  lemma {:induction false} DrainYields(s: State, c: ChatId, maxFrames: nat, maxBytes: nat, firstOk: bool, good: nat, j: nat)
    requires Wf(s) && Drain(s, c, maxFrames, maxBytes, firstOk, good).1.Some?
    requires j <= |Within(Bucket(s, c), good)|
    ensures var e, job := Bucket(s, c), Drain(s, c, maxFrames, maxBytes, firstOk, good).1.value;
      var q := Within(e, good);
      && job.frames <= q
      && (j <= |job.frames| <==> j <= maxFrames && |Bodies(q[..j])| <= maxBytes)
      && job.fromSeq == (if e.mem != [] then e.mem[0] else if e.inFlight != [] then e.inFlight[0] else e.disk[0]).seqNo
  {
    var e := Bucket(s, c);
    ReachIsWithin(e, good);
    BatchIsLongest(Reach(e, good), maxFrames, maxBytes, j);
    BytesAreBodies(Reach(e, good)[..j]);
  }

  // ---------------------------------------------------------------------------
  // Removal
  // ---------------------------------------------------------------------------

  lemma {:induction false} FilterIs(order: seq<ChatId>, c: ChatId, i: nat)
    requires NoDup(order) && i < |order|
    ensures order[i] == c ==> Filter(order, c) == Dropped(order, i)
    ensures c !in order ==> Filter(order, c) == order
  {
    NoDupTail(order);
    if i > 0 {
      FilterIs(order[1..], c, i - 1);
    } else if |order| > 1 {
      FilterIs(order[1..], c, 0);
    }
  }

  function Dropped(order: seq<ChatId>, i: nat): seq<ChatId>
    requires i < |order|
  {
    order[..i] + order[i + 1..]
  }

  /** A removed chat is gone with all its frames; the others keep theirs, their order and their
      place in the round. */
  lemma {:induction false} RemoveForgets(s: State, c: ChatId, i: nat)
    requires Wf(s) && i < |s.order| && s.order[i] == c
    ensures var r := Remove(s, c);
      && c !in r.chats && Bucket(r, c).View() == []
      && (forall d :: d != c ==> Bucket(r, d) == Bucket(s, d) && (d in r.chats <==> d in s.chats))
      && r.order == s.order[..i] + s.order[i + 1..] && r.cursor == s.cursor
  {
    assert c in Elems(s.order);
    FilterIs(s.order, c, i);
  }
}
