/** What each step of the hub does to its state, case by case, with the state before it. */
module HubEffects {
  import opened Frames
  import opened Sessions
  import opened Budget
  import opened BufferSpec
  import opened BufferQueue
  import opened HubSpec
  import opened ResyncTask

  // ---------------------------------------------------------------------------
  // Child frames
  // ---------------------------------------------------------------------------

  /** The entry after its next number was given to this line; history: a replayable frame is
      stamped, and counted if it is too large. */
  function Numbered(e: Entry, line: Line, tooLarge: bool): Entry {
    var f := Frame(e.nextSeq, e.epoch, line.jsonrpc, line.id, line.body);
    var log := e.ledger;
    e.(nextSeq := e.nextSeq + 1,
       ledger := if line.sensitive then log
                 else log.(stamped := log.stamped + multiset{f},
                           oversize := if tooLarge then log.oversize + multiset{f} else log.oversize))
  }

  function WithNumber(h: Hub, c: ChatId, line: Line, tooLarge: bool): Hub
    requires c in h.chats
  {
    var e := h.chats[c];
    h.(chats := h.chats[c := Numbered(e, line, tooLarge)], stamps := h.stamps + [Out(c, e.epoch, e.nextSeq)])
  }

  /** The connection can take this chat's frames now. */
  predicate Online(h: Hub, c: ChatId) {
    c in h.chats && h.auth && !h.chats[c].buffered
  }

  /** A frame of an unknown or exited process, or one that comes while the hub waits for a send,
      changes nothing. */
  lemma {:induction false} FrameIgnored(l: Limits, h: Hub, c: ChatId, line: Line, io: PushIo)
    requires Wf(h.buffer) && (h.live != Idle || c !in h.chats || !h.chats[c].alive)
    ensures Next(l, h, ChildFrame(c, line, io)) == h
  {
  }

  /** Online, a line whose event fits the limit is sent, sensitive or not; the buffer stays as it
      is, and the hub waits for the outcome. */
  lemma {:induction false} FrameSentLive(l: Limits, h: Hub, c: ChatId, line: Line, io: PushIo)
    requires Wf(h.buffer) && h.live == Idle && Online(h, c) && h.chats[c].alive && line.wireSize <= l.maxFrame
    ensures var e := h.chats[c]; var f := Frame(e.nextSeq, e.epoch, line.jsonrpc, line.id, line.body);
      Next(l, h, ChildFrame(c, line, io))
      == WithNumber(h, c, line, false).(live := Sending(c, f, line.sensitive, false))
  {
  }

  /** Online, a line whose event is over the limit is only counted, and uses up its number. */
  lemma {:induction false} FrameTooLargeOnline(l: Limits, h: Hub, c: ChatId, line: Line, io: PushIo)
    requires Wf(h.buffer) && h.live == Idle && Online(h, c) && h.chats[c].alive && line.wireSize > l.maxFrame
    ensures Next(l, h, ChildFrame(c, line, io)) == WithNumber(h, c, line, true)
  {
  }

  /** Offline, a sensitive line goes nowhere: not on the wire, not into the buffer. */
  lemma {:induction false} FrameSensitiveOffline(l: Limits, h: Hub, c: ChatId, line: Line, io: PushIo)
    requires Wf(h.buffer) && h.live == Idle && c in h.chats && !Online(h, c) && h.chats[c].alive && line.sensitive
    ensures Next(l, h, ChildFrame(c, line, io)) == WithNumber(h, c, line, false)
  {
  }

  lemma Buffering(l: Limits, h: Hub, c: ChatId, line: Line, io: PushIo)
    requires Wf(h.buffer) && h.live == Idle && c in h.chats && !Online(h, c) && h.chats[c].alive && !line.sensitive
    ensures Next(l, h, ChildFrame(c, line, io)) == Forward(l, h, c, line, io)
  {
  }

  /** Offline, any other line is pushed into the buffer, or counted if its record is over the
      limit; nothing is sent. */
  lemma {:induction false} FrameBufferedOffline(l: Limits, h: Hub, c: ChatId, line: Line, io: PushIo)
    requires Wf(h.buffer) && h.live == Idle && c in h.chats && !Online(h, c) && h.chats[c].alive && !line.sensitive
    ensures var e := h.chats[c]; var f := Frame(e.nextSeq, e.epoch, line.jsonrpc, line.id, line.body);
      Next(l, h, ChildFrame(c, line, io))
      == if |line.body| > l.maxFrame then WithNumber(h, c, line, true)
         else WithNumber(h, c, line, false).(buffer := Push(l, h.buffer, c, f, io.openOk, io.appendOk, io.disks).0)
  {
    var e := h.chats[c];
    Buffering(l, h, c, line, io);
    PushOversizeIff(l, h.buffer, c, Frame(e.nextSeq, e.epoch, line.jsonrpc, line.id, line.body),
                    io.openOk, io.appendOk, io.disks);
  }

  /** The live event is on the wire once, with its chat, epoch and number. */
  lemma {:induction false} LiveWrites(l: Limits, h: Hub)
    requires Wf(h.buffer)
    ensures Next(l, h, LiveWrite) ==
      if h.live.Sending? && !h.live.written && h.up then
        h.(wire := h.wire + [Out(h.live.c, h.live.f.epoch, h.live.f.seqNo)], live := h.live.(written := true))
      else h
  {
  }

  function AckedIn(chats: map<ChatId, Entry>, c: ChatId, f: Frame): map<ChatId, Entry> {
    if c !in chats then chats
    else
      var log := chats[c].ledger;
      chats[c := chats[c].(ledger := log.(acked := log.acked + multiset{f}))]
  }

  /** The end of a live send: an acknowledged frame is done, and a sensitive one is done in any
      case. The hub is free again. */
  lemma {:induction false} LiveEnds(l: Limits, h: Hub, ok: bool, io: PushIo)
    requires Wf(h.buffer) && h.live.Sending? && (ok ==> h.live.written) && (h.live.sensitive || ok)
    ensures Next(l, h, LiveDone(ok, io))
      == h.(live := Idle, chats := if h.live.sensitive then h.chats else AckedIn(h.chats, h.live.c, h.live.f))
  {
  }

  /** A frame that was not sent is pushed into the buffer under its old number. */
  lemma {:induction false} LiveFails(l: Limits, h: Hub, io: PushIo)
    requires Wf(h.buffer) && h.live.Sending? && !h.live.sensitive && h.live.f.Size() <= l.maxFrame
    ensures Next(l, h, LiveDone(false, io))
      == h.(live := Idle, buffer := Push(l, h.buffer, h.live.c, h.live.f, io.openOk, io.appendOk, io.disks).0)
  {
    PushOversizeIff(l, h.buffer, h.live.c, h.live.f, io.openOk, io.appendOk, io.disks);
  }

  /** One that is too large for the buffer is only counted. */
  lemma {:induction false} LiveFailsTooLarge(l: Limits, h: Hub, io: PushIo)
    requires Wf(h.buffer) && h.live.Sending? && !h.live.sensitive && h.live.f.Size() > l.maxFrame
    ensures var c := h.live.c; var h' := Next(l, h, LiveDone(false, io));
      && h' == h.(live := Idle, chats := h'.chats) && h'.chats.Keys == h.chats.Keys
      && (forall d :: d in h.chats && d != c ==> h'.chats[d] == h.chats[d])
      && (c in h.chats ==>
           var log := h.chats[c].ledger;
           h'.chats[c] == h.chats[c].(ledger := log.(oversize := log.oversize + multiset{h.live.f})))
  {
  }

  // ---------------------------------------------------------------------------
  // Processes
  // ---------------------------------------------------------------------------

  lemma BucketGone(b: State, c: ChatId)
    requires Wf(b)
    ensures c !in Remove(b, c).chats && forall d :: d != c ==> Bucket(Remove(b, c), d) == Bucket(b, d)
  {
  }

  /** An exit forgets what the chat's buffer held, and no other chat's. */
  lemma {:induction false} ExitForgets(l: Limits, h: Hub, c: ChatId, recordOk: bool)
    requires Wf(h.buffer) && h.live == Idle
    ensures var b := Next(l, h, Exit(c, recordOk)).buffer;
      c !in b.chats && forall d :: d != c ==> Bucket(b, d) == Bucket(h.buffer, d)
  {
    BucketGone(h.buffer, c);
  }

  /** An exit ends the chat's process and records its epoch. */
  lemma {:induction false} ExitEnds(l: Limits, h: Hub, c: ChatId, recordOk: bool)
    requires Wf(h.buffer) && h.live == Idle
    ensures var h' := Next(l, h, Exit(c, recordOk));
      if c !in h.chats then h' == h.(buffer := h'.buffer)
      else
        var wm := h.wmem[c := h.chats[c].epoch];
        h' == h.(buffer := h'.buffer, chats := h.chats[c := h.chats[c].(alive := false)],
                 wmem := wm, wdisk := if recordOk then wm else h.wdisk)
  {
  }

  /** A start leaves a running process alone; a new one begins with the epoch after the recorded
      one, number 1, live, and its epoch is recorded at once. Only an authenticated hub starts. */
  lemma {:induction false} SpawnBegins(l: Limits, h: Hub, c: ChatId, recordOk: bool)
    requires Wf(h.buffer) && h.live == Idle
    ensures var h' := Next(l, h, Spawn(c, recordOk));
      if !h.auth || (c in h.chats && h.chats[c].alive) then h' == h
      else
        var epoch := if c in h.wmem then h.wmem[c] + 1 else 1;
        && h' == h.(chats := h'.chats, wmem := h.wmem[c := epoch], wdisk := if recordOk then h'.wmem else h.wdisk)
        && h'.chats.Keys == h.chats.Keys + {c} && (forall d :: d in h.chats && d != c ==> h'.chats[d] == h.chats[d])
        && h'.chats[c] == Entry(true, epoch, 1, false, NO_FRAMES)
  {
  }

  // ---------------------------------------------------------------------------
  // Signals of the transport
  // ---------------------------------------------------------------------------

  /** The connection comes and goes; the hub learns of it in order, and later. */
  lemma {:induction false} ConnectionSignals(l: Limits, h: Hub)
    requires Wf(h.buffer)
    ensures Next(l, h, Connect) == if h.up then h else h.(up := true, wire := [], signals := h.signals + [Authenticated])
    ensures Next(l, h, Drop) == if h.up then h.(up := false, signals := h.signals + [Disconnected]) else h
    ensures Next(l, h, HandshakeFail) == if h.up then h else h.(signals := h.signals + [Disconnected])
  {
  }

  /** Every batch in flight is back in its queue, which has only lost counted frames. */
  ghost predicate AllBack(b: State, b': State) {
    b'.chats.Keys == b.chats.Keys && forall c {:trigger Bucket(b', c)} ::
      Bucket(b', c).inFlight == [] && Thinned(Bucket(b, c), Bucket(b', c))
  }

  lemma RollbackEachBack(l: Limits, b: State, ids: seq<ChatId>)
    requires Wf(b) && InFlightOrder(b, ids)
    ensures AllBack(b, RollbackEach(l, b, ids))
  {
    RollbackEachThins(l, b, ids, "");
    forall c ensures Bucket(RollbackEach(l, b, ids), c).inFlight == []
      && Thinned(Bucket(b, c), Bucket(RollbackEach(l, b, ids), c))
    {
      RollbackEachThins(l, b, ids, c);
    }
  }

  lemma SignalIs(l: Limits, h: Hub, ids: seq<ChatId>)
    requires Wf(h.buffer) && h.live == Idle && h.signals != [] && InFlightOrder(h.buffer, ids)
    ensures Next(l, h, TakeSignal(ids)) == OnSignal(l, h, ids)
  {
  }

  /** Both signals put every batch in flight back. */
  lemma {:induction false} SignalPutsBack(l: Limits, h: Hub, ids: seq<ChatId>)
    requires Wf(h.buffer) && h.live == Idle && h.signals != [] && InFlightOrder(h.buffer, ids)
    ensures AllBack(h.buffer, Next(l, h, TakeSignal(ids)).buffer)
  {
    SignalIs(l, h, ids);
    RollbackEachBack(l, h.buffer, ids);
  }

  /** The hub takes its oldest signal. An authenticated one starts a new resync task; a
      disconnected one ends it and makes every running chat buffer. */
  lemma {:induction false} SignalTaken(l: Limits, h: Hub, ids: seq<ChatId>)
    requires Wf(h.buffer) && h.live == Idle && h.signals != [] && InFlightOrder(h.buffer, ids)
    ensures var h' := Next(l, h, TakeSignal(ids));
      && h'.signals == h.signals[1..]
      && h' == h.(signals := h'.signals, buffer := h'.buffer, auth := h'.auth, sync := h'.sync, chats := h'.chats)
      && (h.signals[0] == Authenticated ==> h'.auth && h'.sync == Ready && h'.chats == h.chats)
      && (h.signals[0] == Disconnected ==>
           && !h'.auth && h'.sync == Off && h'.chats.Keys == h.chats.Keys
           && forall c :: c in h.chats ==>
                h'.chats[c] == if h.chats[c].alive then h.chats[c].(buffered := true) else h.chats[c])
  {
  }

  // ---------------------------------------------------------------------------
  // The resync task
  // ---------------------------------------------------------------------------

  lemma PassIs(l: Limits, h: Hub, order: seq<ChatId>, disks: ChatId -> DrainIo)
    requires Wf(h.buffer) && h.sync == Ready && NoDup(order) && Elems(order) == h.chats.Keys
    ensures Next(l, h, ResyncPass(order, disks)) == Resync(h, order, disks)
  {
  }

  /** One pass of the task: the first chat in the order that yields a batch is drained and the
      task waits in its send; if none does, the task ends with every chat live, or tries again. */
  lemma {:induction false} PassTaken(l: Limits, h: Hub, order: seq<ChatId>, disks: ChatId -> DrainIo) returns (k: nat)
    requires Wf(h.buffer) && h.sync == Ready && NoDup(order) && Elems(order) == h.chats.Keys
    ensures k <= |order| && forall i :: 0 <= i < k ==> !Yields(h.chats, h.buffer, disks, order[i])
    ensures var h' := Next(l, h, ResyncPass(order, disks)); var chats := Visited(h.chats, h.buffer, order[..k]);
      if k == |order| then
        h' == h.(chats := chats, sync := if forall c :: c in chats ==> !chats[c].buffered then Off else Ready)
      else
        var c := order[k];
        var d := Drain(h.buffer, c, SYNC_BATCH_MAX_FRAMES, SYNC_BATCH_MAX_BYTES, disks(c).firstOk, disks(c).good);
        && Yields(h.chats, h.buffer, disks, c)
        && h' == h.(chats := chats, buffer := d.0, sync := Replaying(c, h.chats[c].epoch, d.1.value, false))
  {
    PassIs(l, h, order, disks);
    k := PassPicksFirst(h.chats, h.buffer, order, disks);
    assert order[..|order|] == order;
  }

  /** The batch is on the wire once, frame by frame. */
  lemma {:induction false} BatchWrites(l: Limits, h: Hub)
    requires Wf(h.buffer) && h.sync.Replaying?
    ensures var h' := Next(l, h, BatchWrite); var fs := h.sync.job.frames;
      if h.sync.written || !h.up then h' == h
      else
        && h' == h.(wire := h'.wire, sync := h.sync.(written := true))
        && |h'.wire| == |h.wire| + |fs| && h.wire <= h'.wire
        && forall i :: 0 <= i < |fs| ==> h'.wire[|h.wire| + i] == Out(h.sync.c, h.sync.epoch, fs[i].seqNo)
  {
  }

  /** A confirmed batch leaves its queue and the task goes on; a broken one goes back into the
      queue, which may only lose counted frames, and the task ends. */
  lemma {:induction false} BatchEnds(l: Limits, h: Hub, ok: bool, d: ChatId)
    requires Wf(h.buffer) && h.sync.Replaying? && (ok ==> h.sync.written)
    ensures var h' := Next(l, h, BatchDone(ok)); var c := h.sync.c; var e, e' := Bucket(h.buffer, d), Bucket(h'.buffer, d);
      && h' == h.(buffer := h'.buffer, sync := if ok then Ready else Off, chats := h'.chats)
      && (ok ==> e' == if d == c then e.(inFlight := []) else e)
      && (!ok ==> h'.chats == h.chats && Thinned(e, e') && e'.inFlight == if d == c then [] else e.inFlight)
      && h'.chats.Keys == h.chats.Keys
      && (d in h.chats ==> h'.chats[d] == h.chats[d].(ledger := h'.chats[d].ledger))
      && (d in h.chats && (!ok || d != c || h.chats[d].epoch != h.sync.epoch || !h.chats[d].alive) ==>
           h'.chats[d] == h.chats[d])
      && (d in h.chats && ok && d == c && h.chats[d].epoch == h.sync.epoch && h.chats[d].alive ==>
           h'.chats[d].ledger == h.chats[d].ledger.(
             committed := h.chats[d].ledger.committed + multiset(h.sync.job.frames)))
  {
    CommitDropsBatch(h.buffer, h.sync.c, d);
    RollbackThins(l, h.buffer, h.sync.c, d);
  }

  /** After a crash only the file is left, and history. */
  lemma {:induction false} CrashForgets(l: Limits, h: Hub, corrupt: bool)
    requires Wf(h.buffer)
    ensures var h' := Next(l, h, Crash(corrupt));
      && h'.wmem == (if corrupt then map[] else h.wdisk) && h'.wdisk == h'.wmem
      && h'.stamps == h.stamps && h'.chats == map[] && h'.buffer.chats == map[] && h'.signals == [] && h'.wire == []
      && !h'.auth && !h'.up && h'.live == Idle && h'.sync == Off
  {
  }
}
