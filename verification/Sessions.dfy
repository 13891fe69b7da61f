/** One chat's bucket: what its queues hold, without the redundant counters. */
module Sessions {
  import opened Frames

  /** `disk` is the live part of the overflow segment. `evicted` and `failed` list, in
      order, the frames counted as dropped (budget eviction, and the disk fuse). */
  datatype Session = Session(
    inFlight: seq<Frame>,
    mem: seq<Frame>,
    disk: seq<Frame>,
    segment: bool,
    broken: bool,
    evicted: seq<Frame>,
    failed: seq<Frame>)
  {
    /** The one queue the three stores stand for, oldest first. */
    function View(): seq<Frame> { inFlight + mem + disk }

    function Pending(): seq<Frame> { mem + disk }

    function TotalBytes(): nat { Bytes(inFlight) + Bytes(mem) + Bytes(disk) }

    function TotalFrames(): nat { |inFlight| + |mem| + |disk| }
  }

  const EMPTY_SESSION := Session([], [], [], false, false, [], [])

  /** Which frame the memory tier gives up: the oldest event, else the oldest frame. */
  function Victim(mem: seq<Frame>): (i: nat)
    requires mem != []
    ensures i < |mem|
  {
    if Events(mem) > 0 then FirstEvent(mem) else 0
  }

  /** Frame i is the oldest notification, or the oldest frame if every one is a request or a
      response. */
  ghost predicate GivesUp(mem: seq<Frame>, i: nat) {
    i < |mem|
    && if exists j :: 0 <= j < |mem| && !(mem[j].jsonrpc && mem[j].id)
       then !(mem[i].jsonrpc && mem[i].id) && forall j :: 0 <= j < i ==> mem[j].jsonrpc && mem[j].id
       else i == 0
  }

  /** Memory gives up a request or a response only when it holds nothing else, and always the
      oldest frame of its kind. */
  lemma {:induction false} VictimPriority(mem: seq<Frame>)
    requires mem != []
    ensures GivesUp(mem, Victim(mem))
  {
    EventsBound(mem);
    if Events(mem) > 0 {
      FirstEventIsFirst(mem);
      var i :| 0 <= i < |mem| && mem[i].Kind() == Event;
      assert !(mem[i].jsonrpc && mem[i].id);
    }
  }

  /** The cached event count finds the victim without a scan when the front is an event. */
  lemma {:induction false} EventCountFindsVictim(mem: seq<Frame>)
    requires Events(mem) > 0
    ensures mem != []
    ensures Victim(mem) == (if mem[0].Kind() == Event then 0 else FirstEvent(mem))
    ensures mem[Victim(mem)].Kind() == Event
  {
  }

  function EvictMem(s: Session): Session
    requires s.mem != []
  {
    var i := Victim(s.mem);
    s.(mem := Without(s.mem, i), evicted := s.evicted + [s.mem[i]])
  }

  function EvictDisk(s: Session): Session
    requires s.disk != []
  {
    s.(disk := s.disk[1..], evicted := s.evicted + [s.disk[0]])
  }

  predicate CanEvict(s: Session, memOnly: bool, readable: bool) {
    s.mem != [] || (!memOnly && s.disk != [] && readable)
  }

  function Evict(s: Session): Session
    requires s.mem != [] || s.disk != []
  {
    if s.mem != [] then EvictMem(s) else EvictDisk(s)
  }

  /** The frame an eviction removes. */
  function Evicted(s: Session): Frame
    requires s.mem != [] || s.disk != []
  {
    if s.mem != [] then s.mem[Victim(s.mem)] else s.disk[0]
  }

  /** An eviction deletes one frame of the queue, keeps the order of the others, leaves
      the batch in flight alone and counts what it deleted: the frame memory gives up, or the
      oldest on disk if memory is empty. */
  lemma {:induction false} EvictDeletesOne(s: Session) returns (k: nat)
    requires s.mem != [] || s.disk != []
    ensures if s.mem != [] then |s.inFlight| <= k && GivesUp(s.mem, k - |s.inFlight|) else k == |s.inFlight|
    ensures k < |s.View()| && Evict(s).View() == Without(s.View(), k)
    ensures Evict(s).inFlight == s.inFlight && (s.mem != [] ==> Evict(s).disk == s.disk)
    ensures Evict(s).evicted == s.evicted + [s.View()[k]] && s.View()[k] == Evicted(s)
    ensures Evict(s).failed == s.failed && Evict(s).broken == s.broken && Evict(s).segment == s.segment
  {
    if s.mem != [] {
      k := |s.inFlight| + Victim(s.mem);
      VictimPriority(s.mem);
    } else {
      k := |s.inFlight|;
    }
    assert Evict(s).View() == Without(s.View(), k);
  }

  /** The redundant counters a bucket carries beside its queues. */
  datatype Tally = Tally(
    memBytes: nat, memEvents: nat, bytes: nat, frames: nat,
    droppedEvent: nat, droppedControl: nat, droppedDiskFailed: nat)

  /** Every counter equals the sum it stands for. */
  ghost predicate Counted(s: Session, t: Tally) {
    && t.memBytes == Bytes(s.mem)
    && t.memEvents == Events(s.mem)
    && t.bytes == s.TotalBytes()
    && t.frames == s.TotalFrames()
    && t.droppedEvent == Events(s.evicted)
    && t.droppedEvent + t.droppedControl == |s.evicted|
    && t.droppedDiskFailed == |s.failed|
  }

  /** The two eviction counters tell notifications from requests and responses. */
  lemma {:induction false} DropCounters(s: Session, t: Tally)
    requires Counted(s, t)
    ensures t.droppedControl == Calls(s.evicted) && t.droppedEvent == |s.evicted| - Calls(s.evicted)
  {
    EventsOrCalls(s.evicted);
  }

  /** What an eviction does to every counted quantity. */
  lemma EvictSums(s: Session)
    requires s.mem != [] || s.disk != []
    ensures var e := Evict(s); var f := Evicted(s); var event := if f.Kind() == Event then 1 else 0;
      && e.TotalBytes() + f.Size() == s.TotalBytes()
      && e.TotalFrames() + 1 == s.TotalFrames()
      && Bytes(e.mem) + (if s.mem != [] then f.Size() else 0) == Bytes(s.mem)
      && |e.mem| + (if s.mem != [] then 1 else 0) == |s.mem|
      && Events(e.mem) + (if s.mem != [] then event else 0) == Events(s.mem)
      && Events(e.evicted) == Events(s.evicted) + event
      && |e.evicted| == |s.evicted| + 1
  {
    if s.mem != [] {
      RemoveOne(s.mem, Victim(s.mem));
    }
    EventsConcat(s.evicted, [Evicted(s)]);
  }

  /** Nothing is lost by an eviction: what leaves the queue is listed as dropped. */
  lemma {:induction false} EvictConserves(s: Session)
    requires s.mem != [] || s.disk != []
    ensures multiset(Evict(s).View()) + multiset(Evict(s).evicted) == multiset(s.View()) + multiset(s.evicted)
  {
    var k := EvictDeletesOne(s);
    RemoveOne(s.View(), k);
  }

  lemma ViewSums(s: Session)
    ensures Bytes(s.View()) == s.TotalBytes() && |s.View()| == s.TotalFrames()
  {
    BytesConcat(s.inFlight + s.mem, s.disk);
    BytesConcat(s.inFlight, s.mem);
  }

  /** The seq a drained batch announces as its start. */
  function FirstSeq(s: Session, readable: bool): Option<nat> {
    if s.mem != [] then Some(s.mem[0].seqNo)
    else if s.inFlight != [] then Some(s.inFlight[0].seqNo)
    else if s.disk != [] && readable then Some(s.disk[0].seqNo)
    else None
  }

  // ---------------------------------------------------------------------------
  // Admission and replay of one bucket
  // ---------------------------------------------------------------------------

  datatype PushOutcome = Buffered | Oversize | DiskFailed

  /** Where a frame goes before the budget is enforced; `fits`: memory has room for it. */
  function AdmitInto(e: Session, fits: bool, f: Frame, openOk: bool, appendOk: bool): (Session, PushOutcome) {
    if e.broken then (e.(failed := e.failed + [f]), DiskFailed)
    else if fits then (e.(mem := e.mem + [f]), Buffered)
    else if !e.segment && !openOk then (e.(broken := true, failed := e.failed + [f]), DiskFailed)
    else if !appendOk then (e.(segment := true, broken := true, failed := e.failed + [f]), DiskFailed)
    else (e.(segment := true, disk := e.disk + [f]), Buffered)
  }

  /** Length of the batch the drain loop takes from `q`. */
  function Batch(q: seq<Frame>, maxFrames: nat, maxBytes: nat): (k: nat)
    ensures k <= |q|
  {
    if q == [] || maxFrames == 0 || q[0].Size() > maxBytes then 0
    else 1 + Batch(q[1..], maxFrames - 1, maxBytes - q[0].Size())
  }

  function Min(a: nat, b: nat): nat { if a < b then a else b }

  /** The frames a drain can reach: memory, then as many disk records as can be read. */
  function Reach(e: Session, good: nat): seq<Frame> {
    e.mem + e.disk[..Min(good, |e.disk|)]
  }

  function TakeBatch(e: Session, k: nat): Session
    requires k <= |e.Pending()|
  {
    if k <= |e.mem| then e.(inFlight := e.inFlight + e.mem[..k], mem := e.mem[k..])
    else e.(inFlight := e.inFlight + e.mem + e.disk[..k - |e.mem|], mem := [], disk := e.disk[k - |e.mem|..])
  }

  datatype Job = Job(fromSeq: nat, frames: seq<Frame>)

  /** The next batch of one bucket. `firstOk`: the record read that fixes the start seq
      works; `good`: how many disk records can be read and consumed after it. */
  function NextJob(e: Session, maxFrames: nat, maxBytes: nat, firstOk: bool, good: nat): Option<Job> {
    if e.TotalFrames() == 0 then None
    else
      var from := FirstSeq(e, firstOk);
      var k := Batch(Reach(e, good), maxFrames, maxBytes);
      if from.None? || k == 0 then None else Some(Job(from.value, Reach(e, good)[..k]))
  }

  function Restore(e: Session): Session {
    e.(mem := e.inFlight + e.mem, inFlight := [])
  }
}
