/** On one connection the sequence numbers of a chat and epoch only grow, in live events and
    replay batches together, for every run in which pushes keep queue order and a connection
    is used only after the end of the previous one was seen. */
module HubOrder {
  import opened Frames
  import opened Sessions
  import opened Budget
  import opened BufferSpec
  import opened BufferQueue
  import opened BufferRuns
  import opened HubSpec
  import opened HubQueues

  // ---------------------------------------------------------------------------
  // Sequence numbers on the wire
  // ---------------------------------------------------------------------------

  predicate Same(w: seq<Out>, i: nat, c: ChatId, epoch: nat)
    requires i < |w|
  {
    w[i].c == c && w[i].epoch == epoch
  }

  /** Everything the wire carries of this chat and epoch is below `n`. */
  ghost predicate WireBelow(w: seq<Out>, c: ChatId, epoch: nat, n: int) {
    forall i: nat {:trigger Same(w, i, c, epoch)} :: i < |w| && Same(w, i, c, epoch) ==> w[i].seqNo < n
  }

  predicate Rises(w: seq<Out>, i: nat, j: nat)
    requires i < |w| && j < |w|
  {
    w[i].c == w[j].c && w[i].epoch == w[j].epoch ==> w[i].seqNo < w[j].seqNo
  }

  ghost predicate WireSorted(w: seq<Out>) {
    forall i: nat, j: nat {:trigger Rises(w, i, j)} :: i < j < |w| ==> Rises(w, i, j)
  }

  predicate Known(w: seq<Out>, i: nat, wmem: map<ChatId, nat>)
    requires i < |w|
  {
    w[i].epoch <= Wm(wmem, w[i].c)
  }

  /** The wire carries no epoch newer than the watermark. */
  ghost predicate WireKnown(w: seq<Out>, wmem: map<ChatId, nat>) {
    forall i: nat {:trigger Known(w, i, wmem)} :: i < |w| ==> Known(w, i, wmem)
  }

  lemma BelowAppend(w: seq<Out>, o: Out, c: ChatId, epoch: nat, n: int)
    ensures WireBelow(w + [o], c, epoch, n) <==>
      WireBelow(w, c, epoch, n) && (o.c == c && o.epoch == epoch ==> o.seqNo < n)
  {
    var w' := w + [o];
    if WireBelow(w', c, epoch, n) {
      assert Same(w', |w|, c, epoch) || !(o.c == c && o.epoch == epoch);
      forall i: nat | i < |w| && Same(w, i, c, epoch) ensures w[i].seqNo < n {
        assert Same(w', i, c, epoch);
      }
    }
    if WireBelow(w, c, epoch, n) && (o.c == c && o.epoch == epoch ==> o.seqNo < n) {
      forall i: nat | i < |w'| && Same(w', i, c, epoch) ensures w'[i].seqNo < n {
        assert i < |w| ==> Same(w, i, c, epoch);
      }
    }
  }

  lemma SortedAppend(w: seq<Out>, o: Out)
    requires WireSorted(w) && WireBelow(w, o.c, o.epoch, o.seqNo)
    ensures WireSorted(w + [o])
  {
    var w' := w + [o];
    forall i: nat, j: nat | i < j < |w'| ensures Rises(w', i, j) {
      if j < |w| {
        assert Rises(w, i, j);
      } else if Same(w, i, o.c, o.epoch) {
        assert w[i].seqNo < o.seqNo;
      }
    }
  }

  lemma KnownAppend(w: seq<Out>, o: Out, wmem: map<ChatId, nat>)
    requires WireKnown(w, wmem) && o.epoch <= Wm(wmem, o.c)
    ensures WireKnown(w + [o], wmem)
  {
    forall i: nat | i < |w + [o]| ensures Known(w + [o], i, wmem) {
      assert i < |w| ==> Known(w, i, wmem);
    }
  }

  lemma KnownBelow(w: seq<Out>, wmem: map<ChatId, nat>, c: ChatId, epoch: nat, n: int)
    requires WireKnown(w, wmem) && epoch > Wm(wmem, c)
    ensures WireBelow(w, c, epoch, n)
  {
    forall i: nat | i < |w| && Same(w, i, c, epoch) ensures w[i].seqNo < n {
      assert Known(w, i, wmem);
    }
  }

  lemma KnownLater(w: seq<Out>, wmem: map<ChatId, nat>, c: ChatId, epoch: nat)
    requires WireKnown(w, wmem) && epoch >= Wm(wmem, c)
    ensures WireKnown(w, wmem[c := epoch])
  {
    var wmem' := wmem[c := epoch];
    forall i: nat | i < |w| ensures Known(w, i, wmem') {
      assert Known(w, i, wmem);
    }
  }

  /** The frames beyond `cut` are all above what the wire carries. */
  ghost predicate Above(w: seq<Out>, c: ChatId, epoch: nat, fs: seq<Frame>, cut: int) {
    forall i: nat :: i < |fs| && cut < fs[i].seqNo ==> WireBelow(w, c, epoch, fs[i].seqNo)
  }

  /** A batch appended to the wire keeps it sorted, and stays below whatever was above it. */
  lemma {:induction false} BatchAppend(w: seq<Out>, c: ChatId, epoch: nat, fs: seq<Frame>, wmem: map<ChatId, nat>)
    requires WireSorted(w) && WireKnown(w, wmem) && epoch <= Wm(wmem, c)
    requires Ascending(fs) && Above(w, c, epoch, fs, -1)
    ensures WireSorted(w + Outs(c, epoch, fs)) && WireKnown(w + Outs(c, epoch, fs), wmem)
    decreases |fs|
  {
    if fs == [] {
      assert w + Outs(c, epoch, fs) == w;
    } else {
      var n := |fs| - 1;
      var o := Out(c, epoch, fs[n].seqNo);
      var init := fs[..n];
      assert Above(w, c, epoch, init, -1) by {
        forall i: nat | i < |init| && -1 < init[i].seqNo ensures WireBelow(w, c, epoch, init[i].seqNo) {
          assert init[i] == fs[i];
        }
      }
      BatchAppend(w, c, epoch, init, wmem);
      assert WireBelow(w, c, epoch, fs[n].seqNo);
      BatchBelow(w, c, epoch, init, c, epoch, fs[n].seqNo);
      assert w + Outs(c, epoch, fs) == (w + Outs(c, epoch, init)) + [o];
      SortedAppend(w + Outs(c, epoch, init), o);
      KnownAppend(w + Outs(c, epoch, init), o, wmem);
    }
  }

  lemma {:induction false} BatchBelow(w: seq<Out>, c: ChatId, epoch: nat, fs: seq<Frame>, d: ChatId, epoch': nat, n: int)
    requires WireBelow(w, d, epoch', n)
    requires c == d && epoch == epoch' ==> AllBelow(fs, n)
    ensures WireBelow(w + Outs(c, epoch, fs), d, epoch', n)
    decreases |fs|
  {
    if fs == [] {
      assert w + Outs(c, epoch, fs) == w;
    } else {
      var k := |fs| - 1;
      BatchBelow(w, c, epoch, fs[..k], d, epoch', n);
      assert w + Outs(c, epoch, fs) == (w + Outs(c, epoch, fs[..k])) + [Out(c, epoch, fs[k].seqNo)];
      BelowAppend(w + Outs(c, epoch, fs[..k]), Out(c, epoch, fs[k].seqNo), d, epoch', n);
    }
  }

  // ---------------------------------------------------------------------------
  // The invariant
  // ---------------------------------------------------------------------------

  /** The number the next frame to be queued will have at least. */
  function Bound(e: Entry, c: ChatId, live: Live): int {
    if live.Sending? && live.c == c then e.nextSeq - 1 else e.nextSeq
  }

  function WireBound(e: Entry, c: ChatId, live: Live): int {
    if live.Sending? && live.c == c && !live.written then e.nextSeq - 1 else e.nextSeq
  }

  /** The last number of a batch already written but not yet confirmed. */
  function Cut(sync: Sync, c: ChatId, epoch: nat): int {
    if InBatch(sync, c, epoch) && sync.written && sync.job.frames != []
    then sync.job.frames[|sync.job.frames| - 1].seqNo else -1
  }

  ghost predicate Ordered(e: Entry, v: seq<Frame>, c: ChatId, live: Live, sync: Sync, w: seq<Out>, auth: bool) {
    e.alive ==>
      && Ascending(v) && AllBelow(v, Bound(e, c, live))
      && WireBelow(w, c, e.epoch, WireBound(e, c, live))
      && (!auth ==> e.buffered)
      && (!sync.Off? && e.buffered ==> Above(w, c, e.epoch, v, Cut(sync, c, e.epoch)))
  }

  function View(h: Hub, c: ChatId): seq<Frame> { Bucket(h.buffer, c).View() }

  ghost predicate OrderAt(h: Hub, c: ChatId) {
    c in h.chats ==> Ordered(h.chats[c], View(h, c), c, h.live, h.sync, h.wire, h.auth)
  }

  /** A batch not yet written is above everything written. */
  ghost predicate BatchAbove(sync: Sync, w: seq<Out>) {
    sync.Replaying? && !sync.written ==>
      Ascending(sync.job.frames) && Above(w, sync.c, sync.epoch, sync.job.frames, -1)
  }

  /** At most one `Authenticated` is waiting. */
  ghost predicate OneWaits(s: seq<Signal>) {
    forall i, j :: 0 <= i < j < |s| ==> s[i] == Disconnected || s[j] == Disconnected
  }

  /** How the two ends of a connection reach the hub. While `Authenticated` waits, the hub does
      not yet use the connection. */
  ghost predicate Linked(h: Hub) {
    && OneWaits(h.signals)
    && (Authenticated in h.signals ==> !h.auth && h.wire == [])
    && (h.up ==> if h.signals == [] then h.auth else h.signals[|h.signals| - 1] == Authenticated)
    && (!h.up ==> if h.signals == [] then !h.auth else h.signals[|h.signals| - 1] == Disconnected)
  }

  ghost predicate Order(h: Hub) {
    && (forall c {:trigger OrderAt(h, c)} :: OrderAt(h, c))
    && WireSorted(h.wire) && WireKnown(h.wire, h.wmem)
    && BatchAbove(h.sync, h.wire)
    && Linked(h)
  }

  /** A new connection may come up: the hub does not use the previous one, and will not begin
      to by a signal that still waits. */
  predicate MayConnect(h: Hub) {
    !h.auth && Authenticated !in h.signals
  }

  /** What the claim asks of each step: a push keeps queue order, and a connection comes up
      only when the hub is done with the previous one. */
  ghost predicate Orderly(l: Limits, h: Hub, a: Action) {
    var p := PushOf(l, h, a);
    && (p.Some? ==> FifoPush(l, h.buffer, p.value.0, p.value.1))
    && (a.Connect? && !h.up ==> MayConnect(h))
  }

  ghost predicate OrderlyRun(l: Limits, acts: seq<Action>)
    decreases |acts|
  {
    acts != [] ==>
      && OrderlyRun(l, acts[..|acts| - 1])
      && Orderly(l, After(l, acts[..|acts| - 1]), acts[|acts| - 1])
  }

  // ---------------------------------------------------------------------------
  // One chat
  // ---------------------------------------------------------------------------

  lemma AboveSubseq(w: seq<Out>, c: ChatId, epoch: nat, fs: seq<Frame>, gs: seq<Frame>, cut: int)
    requires Above(w, c, epoch, fs, cut) && forall f :: f in gs ==> f in fs
    ensures Above(w, c, epoch, gs, cut)
  {
    forall i: nat | i < |gs| && cut < gs[i].seqNo ensures WireBelow(w, c, epoch, gs[i].seqNo) {
      assert gs[i] in fs;
      var j: nat :| j < |fs| && fs[j] == gs[i];
    }
  }

  lemma BelowUp(w: seq<Out>, c: ChatId, epoch: nat, n: int, m: int)
    requires WireBelow(w, c, epoch, n) && n <= m
    ensures WireBelow(w, c, epoch, m)
  {
    forall i: nat | i < |w| && Same(w, i, c, epoch) ensures w[i].seqNo < m {
    }
  }

  /** Evictions keep one chat in order. */
  lemma OrderedThin(e: Entry, v: seq<Frame>, v': seq<Frame>, c: ChatId, live: Live, sync: Sync, w: seq<Out>, auth: bool)
    requires Ordered(e, v, c, live, sync, w, auth) && Subseq(v', v)
    ensures Ordered(e, v', c, live, sync, w, auth)
  {
    if e.alive {
      SubseqAscending(v', v);
      SubseqBelow(v', v, Bound(e, c, live));
      if !sync.Off? && e.buffered {
        AboveSubseq(w, c, e.epoch, v, v', Cut(sync, c, e.epoch));
      }
    }
  }

  /** A queued frame newer than the queue and the wire keeps one chat in order. */
  lemma OrderedPush(e: Entry, v: seq<Frame>, v': seq<Frame>, f: Frame, c: ChatId, live: Live, sync: Sync, w: seq<Out>, auth: bool, e': Entry)
    requires Ordered(e, v, c, live, sync, w, auth) && e.alive
    requires Ascending(v') && Subseq(v', v + [f]) && f.seqNo == Bound(e, c, live)
    requires e'.alive && e'.epoch == e.epoch && e'.nextSeq == f.seqNo + 1 && e'.buffered == e.buffered
    requires live.Idle? || !e.buffered
    ensures Ordered(e', v', c, Idle, sync, w, auth)
  {
    assert AllBelow(v + [f], e'.nextSeq);
    SubseqBelow(v', v + [f], e'.nextSeq);
    BelowUp(w, c, e.epoch, WireBound(e, c, live), e'.nextSeq);
    if !sync.Off? && e.buffered {
      AboveSnoc(w, c, e.epoch, v, f, Cut(sync, c, e.epoch));
      AboveSubseq(w, c, e.epoch, v + [f], v', Cut(sync, c, e.epoch));
    }
  }

  lemma AboveSnoc(w: seq<Out>, c: ChatId, epoch: nat, fs: seq<Frame>, f: Frame, cut: int)
    requires Above(w, c, epoch, fs, cut) && WireBelow(w, c, epoch, f.seqNo)
    ensures Above(w, c, epoch, fs + [f], cut)
  {
    var gs := fs + [f];
    forall i: nat | i < |gs| && cut < gs[i].seqNo ensures WireBelow(w, c, epoch, gs[i].seqNo) {
      if i < |fs| {
        assert gs[i] == fs[i];
      }
    }
  }

  // ---------------------------------------------------------------------------
  // Steps
  // ---------------------------------------------------------------------------

  /** The parts of the invariant that are not about one chat. */
  ghost predicate SameLink(h: Hub, h': Hub) {
    && h'.wire == h.wire && h'.signals == h.signals && h'.up == h.up && h'.auth == h.auth
    && h'.sync == h.sync && h'.wmem == h.wmem
  }

  /** The chats differ at most in one, and there in the counter and the ledger. */
  ghost predicate OneCounter(h: Hub, h': Hub, c: ChatId) {
    && c in h.chats && h'.chats.Keys == h.chats.Keys
    && (forall d :: d in h.chats && d != c ==> h'.chats[d] == h.chats[d])
    && h'.chats[c].alive == h.chats[c].alive && h'.chats[c].epoch == h.chats[c].epoch
    && h'.chats[c].buffered == h.chats[c].buffered
  }

  lemma PushOrder(l: Limits, h: Hub, h': Hub, c: ChatId, f: Frame, io: PushIo)
    requires Wf(h.buffer) && Order(h) && SameLink(h, h') && OneCounter(h, h', c)
    requires h.chats[c].alive && FifoPush(l, h.buffer, c, f)
    requires f.seqNo == Bound(h.chats[c], c, h.live) && h'.chats[c].nextSeq == f.seqNo + 1
    requires h.live.Idle? || (h.live.c == c && !h.chats[c].buffered)
    requires h'.live.Idle? && h'.buffer == Push(l, h.buffer, c, f, io.openOk, io.appendOk, io.disks).0
    ensures Order(h')
  {
    forall d ensures OrderAt(h', d) {
      assert OrderAt(h, d);
      if d == c {
        PushHere(l, h, h', c, f, io);
      } else if d in h.chats {
        PushElsewhere(l, h, h', c, f, io, d);
      }
    }
  }

  lemma PushHere(l: Limits, h: Hub, h': Hub, c: ChatId, f: Frame, io: PushIo)
    requires Wf(h.buffer) && OrderAt(h, c) && SameLink(h, h') && OneCounter(h, h', c)
    requires h.chats[c].alive && FifoPush(l, h.buffer, c, f)
    requires f.seqNo == Bound(h.chats[c], c, h.live) && h'.chats[c].nextSeq == f.seqNo + 1
    requires h.live.Idle? || (h.live.c == c && !h.chats[c].buffered)
    requires h'.live.Idle? && h'.buffer == Push(l, h.buffer, c, f, io.openOk, io.appendOk, io.disks).0
    ensures OrderAt(h', c)
  {
    PushAscending(l, h.buffer, c, f, io.openOk, io.appendOk, io.disks);
    OrderedPush(h.chats[c], View(h, c), View(h', c), f, c, h.live, h.sync, h.wire, h.auth, h'.chats[c]);
  }

  lemma PushElsewhere(l: Limits, h: Hub, h': Hub, c: ChatId, f: Frame, io: PushIo, d: ChatId)
    requires Wf(h.buffer) && OrderAt(h, d) && SameLink(h, h') && OneCounter(h, h', c)
    requires d != c && d in h.chats
    requires h.live.Idle? || h.live.c == c
    requires h'.live.Idle? && h'.buffer == Push(l, h.buffer, c, f, io.openOk, io.appendOk, io.disks).0
    ensures OrderAt(h', d)
  {
    PushOthers(l, h.buffer, c, f, io.openOk, io.appendOk, io.disks, d);
    OrderedThin(h.chats[d], View(h, d), View(h', d), d, h.live, h.sync, h.wire, h.auth);
  }

  lemma CountFields(h: Hub, c: ChatId, f: Frame)
    requires c in h.chats
    ensures var h' := CountOversize(h, c, f);
      && SameLink(h, h') && OneCounter(h, h', c) && h'.live == h.live && h'.chats[c].nextSeq == h.chats[c].nextSeq
      && h'.buffer == h.buffer
  {
  }

  lemma BufferPushFields(l: Limits, h: Hub, c: ChatId, f: Frame, io: PushIo)
    requires Wf(h.buffer) && c in h.chats
    ensures var h' := BufferPush(l, h, c, f, io);
      && SameLink(h, h') && OneCounter(h, h', c) && h'.live == h.live && h'.chats[c].nextSeq == h.chats[c].nextSeq
      && h'.buffer == Push(l, h.buffer, c, f, io.openOk, io.appendOk, io.disks).0
  {
    CountFields(h.(buffer := Push(l, h.buffer, c, f, io.openOk, io.appendOk, io.disks).0), c, f);
  }

  /** A step that leaves every queue alone and moves at most one chat's counter on. */
  lemma CounterOrder(h: Hub, h': Hub, c: ChatId)
    requires Order(h) && SameLink(h, h') && h'.buffer == h.buffer
    requires OneCounter(h, h', c)
    requires var e, e' := h.chats[c], h'.chats[c];
      && Bound(e, c, h.live) <= Bound(e', c, h'.live) && WireBound(e, c, h.live) <= WireBound(e', c, h'.live)
    requires h.live != h'.live ==> (h.live.Sending? ==> h.live.c == c) && (h'.live.Sending? ==> h'.live.c == c)
    ensures Order(h')
  {
    forall d ensures OrderAt(h', d) {
      assert OrderAt(h, d);
      if d == c && h.chats[c].alive {
        BelowUp(h.wire, c, h.chats[c].epoch, WireBound(h.chats[c], c, h.live), WireBound(h'.chats[c], c, h'.live));
      }
    }
  }

  lemma ForwardOrder(l: Limits, h: Hub, c: ChatId, line: Line, io: PushIo)
    requires Inv(l, h) && Order(h) && h.live.Idle? && Orderly(l, h, ChildFrame(c, line, io))
    ensures Order(Forward(l, h, c, line, io))
  {
    if c in h.chats && h.chats[c].alive {
      var e, f, h1 := h.chats[c], Stamp(h.chats[c], line), Stamped(h, c, line);
      var online := h.auth && !e.buffered;
      assert SameLink(h, h1) && OneCounter(h, h1, c);
      if (if online then line.wireSize else f.Size()) > l.maxFrame || line.sensitive || online {
        CounterOrder(h, Forward(l, h, c, line, io), c);
      } else {
        BufferPushFields(l, h1, c, f, io);
        PushOrder(l, h, BufferPush(l, h1, c, f, io), c, f, io);
      }
    }
  }

  lemma FinishLiveOrder(l: Limits, h: Hub, ok: bool, io: PushIo)
    requires Inv(l, h) && Order(h) && h.live.Sending? && Orderly(l, h, LiveDone(ok, io))
    ensures Order(FinishLive(l, h, ok, io))
  {
    var c, h1 := h.live.c, h.(live := Idle);
    assert At(h, c);
    if h.live.sensitive || ok {
      CounterOrder(h, FinishLive(l, h, ok, io), c);
    } else {
      BufferPushFields(l, h1, c, h.live.f, io);
      PushOrder(l, h, BufferPush(l, h1, c, h.live.f, io), c, h.live.f, io);
    }
  }

  // ---- the wire

  lemma AboveAppend(w: seq<Out>, o: Out, c: ChatId, epoch: nat, fs: seq<Frame>, cut: int)
    requires Above(w, c, epoch, fs, cut) && !(o.c == c && o.epoch == epoch)
    ensures Above(w + [o], c, epoch, fs, cut)
  {
    forall i: nat | i < |fs| && cut < fs[i].seqNo ensures WireBelow(w + [o], c, epoch, fs[i].seqNo) {
      BelowAppend(w, o, c, epoch, fs[i].seqNo);
    }
  }

  lemma LiveWriteOrder(l: Limits, h: Hub, h': Hub)
    requires Inv(l, h) && Order(h) && h.live.Sending? && !h.live.written
    requires h' == h.(wire := h.wire + [Out(h.live.c, h.live.f.epoch, h.live.f.seqNo)], live := h.live.(written := true))
    ensures Order(h')
  {
    var c, o := h.live.c, Out(h.live.c, h.live.f.epoch, h.live.f.seqNo);
    assert At(h, c) && OrderAt(h, c);
    SortedAppend(h.wire, o);
    KnownAppend(h.wire, o, h.wmem);
    forall d ensures OrderAt(h', d) {
      assert At(h, d) && OrderAt(h, d);
      LiveWriteAt(h, h', o, d);
    }
    if h.sync.Replaying? && !h.sync.written {
      AboveAppend(h.wire, o, h.sync.c, h.sync.epoch, h.sync.job.frames, -1);
    }
  }

  lemma LiveWriteAt(h: Hub, h': Hub, o: Out, d: ChatId)
    requires At(h, d) && OrderAt(h, d) && h.live.Sending? && !h.live.written
    requires o.c == h.live.c && o.epoch == h.live.f.epoch && o.seqNo == h.live.f.seqNo
    requires h' == h.(wire := h.wire + [o], live := h.live.(written := true))
    ensures OrderAt(h', d)
  {
    if d in h.chats && h.chats[d].alive {
      var e := h.chats[d];
      BelowUp(h.wire, d, e.epoch, WireBound(e, d, h.live), WireBound(e, d, h'.live));
      BelowAppend(h.wire, o, d, e.epoch, WireBound(e, d, h'.live));
      if !h.sync.Off? && e.buffered {
        AboveAppend(h.wire, o, d, e.epoch, View(h, d), Cut(h.sync, d, e.epoch));
      }
    }
  }

  lemma BatchWriteOrder(l: Limits, h: Hub, h': Hub)
    requires Inv(l, h) && Order(h) && h.sync.Replaying? && !h.sync.written
    requires h' == h.(wire := h.wire + Outs(h.sync.c, h.sync.epoch, h.sync.job.frames), sync := h.sync.(written := true))
    ensures Order(h')
  {
    BatchAppend(h.wire, h.sync.c, h.sync.epoch, h.sync.job.frames, h.wmem);
    forall d ensures OrderAt(h', d) {
      assert At(h, d) && OrderAt(h, d);
      if d in h.chats && h.chats[d].alive {
        if InBatch(h.sync, d, h.chats[d].epoch) {
          BatchWriteHere(h, h', d);
        } else {
          BatchWriteElsewhere(h, h', d);
        }
      }
    }
  }

  lemma BatchWriteElsewhere(h: Hub, h': Hub, d: ChatId)
    requires OrderAt(h, d) && h.sync.Replaying? && d in h.chats && h.chats[d].alive && !InBatch(h.sync, d, h.chats[d].epoch)
    requires h' == h.(wire := h.wire + Outs(h.sync.c, h.sync.epoch, h.sync.job.frames), sync := h.sync.(written := true))
    ensures OrderAt(h', d)
  {
    var e, v, fs := h.chats[d], View(h, d), h.sync.job.frames;
    BatchBelow(h.wire, h.sync.c, h.sync.epoch, fs, d, e.epoch, WireBound(e, d, h.live));
    if e.buffered {
      forall i: nat | i < |v| && -1 < v[i].seqNo ensures WireBelow(h'.wire, d, e.epoch, v[i].seqNo) {
        BatchBelow(h.wire, h.sync.c, h.sync.epoch, fs, d, e.epoch, v[i].seqNo);
      }
    }
  }

  lemma BatchWriteHere(h: Hub, h': Hub, d: ChatId)
    requires At(h, d) && OrderAt(h, d) && d in h.chats && h.chats[d].alive && InBatch(h.sync, d, h.chats[d].epoch)
    requires !h.sync.written && h.sync.job.frames != []
    requires h' == h.(wire := h.wire + Outs(h.sync.c, h.sync.epoch, h.sync.job.frames), sync := h.sync.(written := true))
    ensures OrderAt(h', d)
  {
    var b := Bucket(h.buffer, d);
    assert b.inFlight <= b.View();
    OrderedBatch(h.chats[d], View(h, d), d, h.live, h.sync, h.wire, h.auth);
  }

  lemma OrderedBatch(e: Entry, v: seq<Frame>, d: ChatId, live: Live, sync: Sync, w: seq<Out>, auth: bool)
    requires Ordered(e, v, d, live, sync, w, auth) && e.alive && e.buffered && !(live.Sending? && live.c == d)
    requires InBatch(sync, d, e.epoch) && !sync.written && sync.job.frames != [] && sync.job.frames <= v
    ensures Ordered(e, v, d, live, sync.(written := true), w + Outs(d, e.epoch, sync.job.frames), auth)
  {
    var fs := sync.job.frames;
    InView(v, fs, e.nextSeq);
    BatchBelow(w, d, e.epoch, fs, d, e.epoch, e.nextSeq);
    var w' := w + Outs(d, e.epoch, fs);
    forall i: nat | i < |v| && fs[|fs| - 1].seqNo < v[i].seqNo ensures WireBelow(w', d, e.epoch, v[i].seqNo) {
      InView(v, fs, v[i].seqNo);
      BatchBelow(w, d, e.epoch, fs, d, e.epoch, v[i].seqNo);
    }
  }

  /** A prefix of an ascending queue is below whatever its last frame is below. */
  lemma InView(v: seq<Frame>, fs: seq<Frame>, n: int)
    requires Ascending(v) && fs <= v && fs != []
    ensures fs[|fs| - 1].seqNo < n ==> AllBelow(fs, n)
    ensures AllBelow(v, n) ==> AllBelow(fs, n)
  {
    forall i | 0 <= i < |fs| ensures fs[i].seqNo <= fs[|fs| - 1].seqNo {
      assert fs[i] == v[i];
      assert fs[|fs| - 1] == v[|fs| - 1];
    }
  }

  // ---- exit and respawn

  lemma ExitOrder(l: Limits, h: Hub, c: ChatId, recordOk: bool)
    requires Inv(l, h) && Order(h) && h.live.Idle?
    ensures Order(HandleExit(h, c, recordOk))
  {
    assert At(h, c);
    if c in h.chats {
      KnownLater(h.wire, h.wmem, c, h.chats[c].epoch);
    }
    forall d ensures OrderAt(HandleExit(h, c, recordOk), d) {
      assert OrderAt(h, d);
      ExitOrderAt(h, c, recordOk, d);
    }
  }

  lemma ExitOrderAt(h: Hub, c: ChatId, recordOk: bool, d: ChatId)
    requires Wf(h.buffer) && OrderAt(h, d)
    ensures OrderAt(HandleExit(h, c, recordOk), d)
  {
    var h' := HandleExit(h, c, recordOk);
    if d == c {
      assert d in h'.chats ==> !h'.chats[d].alive;
    } else {
      assert View(h', d) == View(h, d);
    }
  }

  lemma SpawnOrder(l: Limits, h: Hub, c: ChatId, recordOk: bool)
    requires Inv(l, h) && Order(h) && h.live.Idle? && h.auth
    ensures Order(HandleSpawn(h, c, recordOk))
  {
    if c in h.chats && h.chats[c].alive {
      return;
    }
    assert At(h, c);
    DeadEmpty(h, c);
    KnownLater(h.wire, h.wmem, c, NextEpoch(h, c));
    KnownBelow(h.wire, h.wmem, c, NextEpoch(h, c), 1);
    forall d ensures OrderAt(HandleSpawn(h, c, recordOk), d) {
      assert OrderAt(h, d);
      SpawnOrderAt(h, c, recordOk, d);
    }
  }

  lemma SpawnOrderAt(h: Hub, c: ChatId, recordOk: bool, d: ChatId)
    requires Wf(h.buffer) && OrderAt(h, d) && View(h, c) == [] && h.auth
    requires WireBelow(h.wire, c, NextEpoch(h, c), 1) && h.live.Idle? && !(c in h.chats && h.chats[c].alive)
    ensures OrderAt(HandleSpawn(h, c, recordOk), d)
  {
    var h' := HandleSpawn(h, c, recordOk);
    assert h'.buffer == h.buffer && h'.wire == h.wire && h'.sync == h.sync && h'.auth == h.auth && h'.live == h.live;
    assert d != c && d in h.chats ==> h'.chats[d] == h.chats[d];
  }

  // ---- connection

  lemma AboveNothing(c: ChatId, epoch: nat, fs: seq<Frame>, cut: int)
    ensures Above([], c, epoch, fs, cut)
  {
    forall i: nat | i < |fs| && cut < fs[i].seqNo ensures WireBelow([], c, epoch, fs[i].seqNo) {
    }
  }

  lemma SignalOrder(l: Limits, h: Hub, ids: seq<ChatId>)
    requires Inv(l, h) && Order(h) && h.live.Idle? && h.signals != [] && InFlightOrder(h.buffer, ids)
    ensures Order(OnSignal(l, h, ids))
  {
    var h' := OnSignal(l, h, ids);
    forall d ensures OrderAt(h', d) {
      assert OrderAt(h, d);
      if d in h.chats && h.chats[d].alive {
        RollbackEachThins(l, h.buffer, ids, d);
        OrderedThin(h.chats[d], View(h, d), View(h', d), d, h.live, h.sync, h.wire, h.auth);
        if h.signals[0] == Authenticated {
          AboveNothing(d, h.chats[d].epoch, View(h', d), -1);
        }
      }
    }
  }

  lemma ConnectOrder(l: Limits, h: Hub, h': Hub)
    requires Inv(l, h) && Order(h) && !h.up && MayConnect(h)
    requires h' == h.(up := true, wire := [], signals := h.signals + [Authenticated])
    ensures Order(h')
  {
    assert !h.auth && h.sync.Off?;
    forall d ensures OrderAt(h', d) {
      assert OrderAt(h, d);
    }
  }

  /** Losing a connection, or failing to set one up, only queues a signal. */
  lemma LinkDownOrder(l: Limits, h: Hub, h': Hub)
    requires Inv(l, h) && Order(h)
    requires h' == h.(up := false, signals := h.signals + [Disconnected])
    ensures Order(h')
  {
    forall d ensures OrderAt(h', d) {
      assert OrderAt(h, d);
    }
  }

  // ---- resync

  lemma ResyncOrder(l: Limits, h: Hub, order: seq<ChatId>, disks: ChatId -> DrainIo)
    requires Inv(l, h) && Order(h) && h.sync.Ready?
    ensures Order(Resync(h, order, disks))
  {
    var (chats, b, r) := Pass(h.chats, h.buffer, order, disks);
    PassEffect(h.chats, h.buffer, order, disks);
    if r.Some? {
      PickedOrder(l, h, Resync(h, order, disks), r.value, disks(r.value.c));
    } else {
      ClearedOrder(h, Resync(h, order, disks));
    }
  }

  /** A pass without a batch only clears flags. */
  lemma ClearedOrder(h: Hub, h': Hub)
    requires Order(h) && h.sync.Ready?
    requires h' == h.(chats := h'.chats, sync := h'.sync) && (h'.sync.Off? || h'.sync.Ready?)
    requires h'.chats.Keys == h.chats.Keys
    requires forall d :: d in h.chats ==> h'.chats[d] == h.chats[d] || Drained(h.chats[d], h'.chats[d], Bucket(h.buffer, d))
    requires h.auth
    ensures Order(h')
  {
    forall d ensures OrderAt(h', d) {
      assert OrderAt(h, d);
    }
  }

  lemma PickedOrder(l: Limits, h: Hub, h': Hub, p: Picked, io: DrainIo)
    requires Inv(l, h) && Order(h) && h.sync.Ready? && PickedFrom(h.chats, h.buffer, h'.buffer, p, io)
    requires h' == h.(chats := h'.chats, buffer := h'.buffer, sync := Replaying(p.c, p.epoch, p.job, false))
    requires h'.chats.Keys == h.chats.Keys && h'.chats[p.c] == h.chats[p.c]
    requires forall d :: d in h.chats ==> h'.chats[d] == h.chats[d] || h'.chats[d] == h.chats[d].(buffered := false)
    ensures Order(h')
  {
    forall d ensures OrderAt(h', d) {
      assert OrderAt(h, d);
      PickedView(h.chats, h.buffer, h'.buffer, p, io, d);
      PickedOrderAt(h, h', d);
    }
    PickedAbove(l, h, h'.buffer, p, io);
  }

  lemma PickedOrderAt(h: Hub, h': Hub, d: ChatId)
    requires OrderAt(h, d) && h.sync.Ready? && h'.sync.Replaying? && !h'.sync.written
    requires h'.wire == h.wire && h'.live == h.live && h'.auth == h.auth && h'.chats.Keys == h.chats.Keys
    requires d in h.chats ==> h'.chats[d] == h.chats[d] || (h'.chats[d] == h.chats[d].(buffered := false) && h.auth)
    requires View(h', d) == View(h, d)
    ensures OrderAt(h', d)
  {
  }

  /** The frames of a fresh batch are the head of a queue that is above the wire. */
  lemma PickedAbove(l: Limits, h: Hub, b: State, p: Picked, io: DrainIo)
    requires Inv(l, h) && Order(h) && h.sync.Ready? && PickedFrom(h.chats, h.buffer, b, p, io)
    ensures Ascending(p.job.frames) && Above(h.wire, p.c, p.epoch, p.job.frames, -1)
  {
    var c, v, fs := p.c, View(h, p.c), p.job.frames;
    assert At(h, c) && OrderAt(h, c);
    PickedPrefix(h.chats, h.buffer, b, p, io);
    assert h.chats[c].alive by {
      if !h.chats[c].alive {
        DeadEmpty(h, c);
      }
    }
    forall f | f in fs ensures f in v {
    }
    AboveSubseq(h.wire, c, p.epoch, v, fs, -1);
  }

  lemma PickedView(chats: map<ChatId, Entry>, b: State, b': State, p: Picked, io: DrainIo, d: ChatId)
    requires Wf(b) && PickedFrom(chats, b, b', p, io)
    ensures Bucket(b', d).View() == Bucket(b, d).View()
  {
    DrainKeepsView(b, p.c, SYNC_BATCH_MAX_FRAMES, SYNC_BATCH_MAX_BYTES, io.firstOk, io.good);
    DrainFrame(b, p.c, SYNC_BATCH_MAX_FRAMES, SYNC_BATCH_MAX_BYTES, io.firstOk, io.good, d);
  }

  lemma PickedPrefix(chats: map<ChatId, Entry>, b: State, b': State, p: Picked, io: DrainIo)
    requires Wf(b) && PickedFrom(chats, b, b', p, io) && Fl(b, p.c) == []
    ensures p.job.frames != [] && p.job.frames <= Bucket(b, p.c).View()
  {
    DrainKeepsView(b, p.c, SYNC_BATCH_MAX_FRAMES, SYNC_BATCH_MAX_BYTES, io.firstOk, io.good);
    var e := b.chats[p.c];
    assert [] + e.mem + e.disk == e.mem + e.disk;
  }

  lemma FinishBatchOrder(l: Limits, h: Hub, ok: bool)
    requires Inv(l, h) && Order(h) && h.sync.Replaying? && (ok ==> h.sync.written)
    ensures Order(FinishBatch(l, h, ok))
  {
    var h' := FinishBatch(l, h, ok);
    forall d ensures OrderAt(h', d) {
      assert At(h, d) && OrderAt(h, d);
      FinishBatchFields(l, h, ok, d);
      if d in h.chats && h.chats[d].alive {
        if ok {
          CommitOrder(h, h', d);
        } else {
          RollbackThins(l, h.buffer, h.sync.c, d);
          OrderedThin(h.chats[d], View(h, d), View(h', d), d, h.live, h.sync, h.wire, h.auth);
        }
      }
    }
    assert h'.wire == h.wire && h'.signals == h.signals && h'.up == h.up;
    FinishBatchFields(l, h, ok, "");
  }

  lemma CommitOrder(h: Hub, h': Hub, d: ChatId)
    requires Wf(h.buffer) && At(h, d) && OrderAt(h, d) && d in h.chats && h.chats[d].alive
    requires h.sync.Replaying? && h.sync.written && h.sync.job.frames != []
    requires h'.buffer == Commit(h.buffer, h.sync.c) && h'.sync.Ready? && h'.live == h.live && h'.wire == h.wire && h'.auth == h.auth
    requires d in h'.chats && h'.chats[d] == h.chats[d].(ledger := h'.chats[d].ledger)
    ensures OrderAt(h', d)
  {
    CommitDropsBatch(h.buffer, h.sync.c, d);
    var fs := if d == h.sync.c then Fl(h.buffer, d) else [];
    assert View(h, d) == fs + View(h', d);
    OrderedCommit(h.chats[d], fs, View(h', d), d, h.live, h.sync, h.wire, h.auth);
    OrderedLedger(h.chats[d], h'.chats[d], View(h', d), d, h.live, h.wire, h.auth);
  }

  lemma OrderedLedger(e: Entry, e': Entry, v: seq<Frame>, d: ChatId, live: Live, w: seq<Out>, auth: bool)
    requires Ordered(e, v, d, live, Ready, w, auth) && e' == e.(ledger := e'.ledger)
    ensures Ordered(e', v, d, live, Ready, w, auth)
  {
  }

  /** Confirming a written batch: everything left was queued behind it. */
  lemma OrderedCommit(e: Entry, fs: seq<Frame>, v: seq<Frame>, d: ChatId, live: Live, sync: Sync, w: seq<Out>, auth: bool)
    requires Ordered(e, fs + v, d, live, sync, w, auth) && e.alive && sync.Replaying? && sync.written && sync.job.frames != []
    requires fs == if InBatch(sync, d, e.epoch) then sync.job.frames else []
    ensures Ordered(e, v, d, live, Ready, w, auth)
  {
    SubseqTail(fs, v);
    SubseqAscending(v, fs + v);
    SubseqBelow(v, fs + v, Bound(e, d, live));
    if e.buffered {
      AboveTail(w, d, e.epoch, fs, v, Cut(sync, d, e.epoch));
    }
  }

  lemma AboveTail(w: seq<Out>, c: ChatId, epoch: nat, fs: seq<Frame>, v: seq<Frame>, cut: int)
    requires Ascending(fs + v) && Above(w, c, epoch, fs + v, cut)
    requires cut == -1 || (fs != [] && cut == fs[|fs| - 1].seqNo)
    ensures Above(w, c, epoch, v, -1)
  {
    var q := fs + v;
    forall i: nat | i < |v| && -1 < v[i].seqNo ensures WireBelow(w, c, epoch, v[i].seqNo) {
      assert q[|fs| + i] == v[i];
      assert fs != [] ==> q[|fs| - 1] == fs[|fs| - 1];
    }
  }

  lemma SubseqTail(a: seq<Frame>, b: seq<Frame>)
    ensures Subseq(b, a + b)
  {
    assert SubseqBy(b, a + b, seq(|b|, i requires 0 <= i < |b| => |a| + i));
  }

  // ---------------------------------------------------------------------------
  // Runs
  // ---------------------------------------------------------------------------

  lemma StartOrder(h: Hub)
    requires h.chats == map[] && h.wire == [] && h.sync.Off? && h.signals == [] && !h.up && !h.auth
    ensures Order(h)
  {
    forall d ensures OrderAt(h, d) {
    }
  }

  /** Every orderly step keeps the order. */
  lemma {:induction false} NextOrder(l: Limits, h: Hub, a: Action)
    requires Inv(l, h) && Order(h) && Orderly(l, h, a)
    ensures Order(Next(l, h, a))
  {
    if !Enabled(h, a) {
      return;
    }
    match a
    case ChildFrame(c, line, io) => ForwardOrder(l, h, c, line, io);
    case LiveWrite => LiveWriteOrder(l, h, Next(l, h, a));
    case LiveDone(ok, io) => FinishLiveOrder(l, h, ok, io);
    case Exit(c, recordOk) => ExitOrder(l, h, c, recordOk);
    case Spawn(c, recordOk) => SpawnOrder(l, h, c, recordOk);
    case TakeSignal(ids) => SignalOrder(l, h, ids);
    case Connect => ConnectOrder(l, h, Next(l, h, a));
    case Drop => LinkDownOrder(l, h, Next(l, h, a));
    case HandshakeFail => LinkDownOrder(l, h, Next(l, h, a));
    case ResyncPass(order, disks) => ResyncOrder(l, h, order, disks);
    case BatchWrite => BatchWriteOrder(l, h, Next(l, h, a));
    case BatchDone(ok) => FinishBatchOrder(l, h, ok);
    case Crash(corrupt) => StartOrder(Next(l, h, a));
  }

  lemma {:induction false} AlwaysOrder(l: Limits, acts: seq<Action>)
    requires OrderlyRun(l, acts)
    ensures Order(After(l, acts))
    decreases |acts|
  {
    if acts == [] {
      StartOrder(START);
    } else {
      AlwaysOrder(l, acts[..|acts| - 1]);
      AlwaysInv(l, acts[..|acts| - 1]);
      NextOrder(l, After(l, acts[..|acts| - 1]), acts[|acts| - 1]);
    }
  }

  /** On one connection the numbers of a chat and epoch strictly grow, live events and
      replayed batches together. */
  lemma {:induction false} WireStrictlyGrows(l: Limits, acts: seq<Action>, i: nat, j: nat)
    requires OrderlyRun(l, acts) && i < j < |After(l, acts).wire|
    ensures var w := After(l, acts).wire;
      w[i].c == w[j].c && w[i].epoch == w[j].epoch ==> w[i].seqNo < w[j].seqNo
  {
    AlwaysOrder(l, acts);
    assert Rises(After(l, acts).wire, i, j);
  }
}
