/** What every run of hub, resync and transport steps keeps, whatever fails and however the
    steps interleave: each stamped frame is in exactly one place, and a batch in flight
    belongs to the bucket and the epoch it was taken from. */
module HubQueues {
  import opened Frames
  import opened Sessions
  import opened Budget
  import opened BufferSpec
  import opened BufferQueue
  import opened BufferBudget
  import opened HubSpec

  // ---------------------------------------------------------------------------
  // The invariant
  // ---------------------------------------------------------------------------

  /** The replayable frame the hub is busy sending for this chat. */
  function OnLine(live: Live, c: ChatId): multiset<Frame> {
    if live.Sending? && live.c == c && !live.sensitive then multiset{live.f} else multiset{}
  }

  predicate InBatch(sync: Sync, c: ChatId, epoch: nat) {
    sync.Replaying? && sync.c == c && sync.epoch == epoch
  }

  /** Every replayable frame of the epoch is in exactly one place. */
  ghost predicate Balanced(log: Ledger, acc: multiset<Frame>, onLine: multiset<Frame>) {
    log.stamped == log.acked + log.committed + log.oversize + acc + onLine
  }

  ghost predicate AllOf(fs: multiset<Frame>, epoch: nat) {
    forall f :: f in fs ==> f.epoch == epoch
  }

  ghost predicate Shape(e: Entry, acc: multiset<Frame>, fl: seq<Frame>, c: ChatId, live: Live, sync: Sync) {
    && (!e.alive ==> acc == multiset{} && fl == [])
    && AllOf(acc, e.epoch)
    && (fl != [] ==> InBatch(sync, c, e.epoch) && sync.job.frames == fl)
    && (e.alive && InBatch(sync, c, e.epoch) ==> fl == sync.job.frames && e.buffered)
    && (live.Sending? && live.c == c ==>
         e.alive && !e.buffered && live.f.epoch == e.epoch && live.f.seqNo + 1 == e.nextSeq)
  }

  /** The newest epoch the daemon knows for a chat. */
  function Wm(m: map<ChatId, nat>, c: ChatId): nat {
    if c in m then m[c] else 0
  }

  ghost predicate EntryOk(e: Entry, acc: multiset<Frame>, fl: seq<Frame>, c: ChatId, live: Live, sync: Sync, wm: nat) {
    && Shape(e, acc, fl, c, live, sync) && e.epoch == wm
    && (e.alive ==> Balanced(e.ledger, acc, OnLine(live, c)))
  }

  ghost predicate At(h: Hub, c: ChatId) {
    if c in h.chats then EntryOk(h.chats[c], Acc(h.buffer, c), Fl(h.buffer, c), c, h.live, h.sync, Wm(h.wmem, c))
    else Acc(h.buffer, c) == multiset{} && Fl(h.buffer, c) == []
  }

  /** A batch is not empty, starts where it says, and was stamped under the epoch it names. */
  ghost predicate BatchOk(sync: Sync, wmem: map<ChatId, nat>) {
    sync.Replaying? ==>
      && sync.job.frames != [] && sync.job.fromSeq == sync.job.frames[0].seqNo
      && AllOf(multiset(sync.job.frames), sync.epoch)
      && sync.epoch <= Wm(wmem, sync.c)
  }

  ghost predicate Inv(l: Limits, h: Hub) {
    && Wf(h.buffer) && !OverMem(l, Total(h.buffer))
    && (forall c {:trigger At(h, c)} :: At(h, c))
    && BatchOk(h.sync, h.wmem)
    && (h.live.Sending? ==> h.auth && h.live.c in h.chats)
    && (!h.auth ==> h.sync.Off?)
  }

  lemma StartOk(l: Limits, h: Hub)
    requires h.chats == map[] && h.buffer == EMPTY && h.live.Idle? && h.sync.Off?
    ensures Inv(l, h)
  {
    forall c ensures At(h, c) {
      assert Accounted(EMPTY_SESSION) == multiset{};
    }
  }

  // ---------------------------------------------------------------------------
  // Steps
  // ---------------------------------------------------------------------------

  /** Everything but the chat a frame is being pushed for is in order. */
  ghost predicate Pushing(l: Limits, h: Hub, c: ChatId, f: Frame) {
    && Wf(h.buffer) && !OverMem(l, Total(h.buffer))
    && (forall d {:trigger At(h, d)} :: d != c ==> At(h, d))
    && BatchOk(h.sync, h.wmem) && h.live.Idle? && (!h.auth ==> h.sync.Off?)
    && c in h.chats && h.chats[c].alive
    && f.epoch == h.chats[c].epoch == Wm(h.wmem, c)
    && Shape(h.chats[c], Acc(h.buffer, c), Fl(h.buffer, c), c, h.live, h.sync)
    && Balanced(h.chats[c].ledger, Acc(h.buffer, c), multiset{f})
  }

  lemma CountOversizeKeeps(l: Limits, h: Hub, c: ChatId, f: Frame)
    requires Pushing(l, h, c, f)
    ensures Inv(l, CountOversize(h, c, f))
  {
    var h' := CountOversize(h, c, f);
    forall d ensures At(h', d) {
      assert d != c ==> At(h, d);
    }
  }

  ghost predicate SameLoad(s: State, t: State, d: ChatId) {
    Acc(t, d) == Acc(s, d) && Fl(t, d) == Fl(s, d)
  }

  lemma EntryStored(e: Entry, acc: multiset<Frame>, fl: seq<Frame>, c: ChatId, live: Live, sync: Sync, wm: nat, f: Frame)
    requires Shape(e, acc, fl, c, live, sync) && e.alive && f.epoch == e.epoch == wm && live.Idle?
    requires Balanced(e.ledger, acc, multiset{f})
    ensures EntryOk(e, acc + multiset{f}, fl, c, live, sync, wm)
  {
    BalancedMove(e.ledger, acc, multiset{f});
  }

  lemma BalancedMove(log: Ledger, acc: multiset<Frame>, x: multiset<Frame>)
    requires Balanced(log, acc, x)
    ensures Balanced(log, acc + x, multiset{})
  {
  }

  lemma StoredKeeps(l: Limits, h: Hub, b: State, c: ChatId, f: Frame)
    requires Pushing(l, h, c, f)
    requires Wf(b) && !OverMem(l, Total(b))
    requires forall d {:trigger SameLoad(h.buffer, b, d)} :: d != c ==> SameLoad(h.buffer, b, d)
    requires Acc(b, c) == Acc(h.buffer, c) + multiset{f} && Fl(b, c) == Fl(h.buffer, c)
    ensures Inv(l, h.(buffer := b))
  {
    var h' := h.(buffer := b);
    EntryStored(h.chats[c], Acc(h.buffer, c), Fl(h.buffer, c), c, h.live, h.sync, Wm(h.wmem, c), f);
    forall d ensures At(h', d) {
      if d != c {
        assert SameLoad(h.buffer, b, d) && At(h, d);
      }
    }
  }

  lemma BufferPushKeeps(l: Limits, h: Hub, c: ChatId, f: Frame, io: PushIo)
    requires Pushing(l, h, c, f)
    ensures Inv(l, BufferPush(l, h, c, f, io))
  {
    PushOversizeIff(l, h.buffer, c, f, io.openOk, io.appendOk, io.disks);
    if f.Size() > l.maxFrame {
      OversizePushChangesNothing(l, h, c, f, io);
      CountOversizeKeeps(l, h, c, f);
    } else {
      var b := Push(l, h.buffer, c, f, io.openOk, io.appendOk, io.disks).0;
      PushedLoads(l, h.buffer, c, f, io, b);
      StoredKeeps(l, h, b, c, f);
    }
  }

  lemma PushedLoads(l: Limits, s: State, c: ChatId, f: Frame, io: PushIo, b: State)
    requires Wf(s) && !OverMem(l, Total(s)) && f.Size() <= l.maxFrame
    requires b == Push(l, s, c, f, io.openOk, io.appendOk, io.disks).0
    ensures Wf(b) && !OverMem(l, Total(b))
    ensures forall d {:trigger SameLoad(s, b, d)} :: d != c ==> SameLoad(s, b, d)
    ensures Acc(b, c) == Acc(s, c) + multiset{f} && Fl(b, c) == Fl(s, c)
  {
    PushKeepsMemBudget(l, s, c, f, io.openOk, io.appendOk, io.disks);
    PushLoad(l, s, c, f, io.openOk, io.appendOk, io.disks, c);
    forall d | d != c ensures SameLoad(s, b, d) {
      PushLoad(l, s, c, f, io.openOk, io.appendOk, io.disks, d);
    }
  }

  lemma OversizePushChangesNothing(l: Limits, h: Hub, c: ChatId, f: Frame, io: PushIo)
    requires Wf(h.buffer) && f.Size() > l.maxFrame
    ensures BufferPush(l, h, c, f, io) == CountOversize(h, c, f)
  {
  }

  /** A step that touches neither this chat nor its bucket keeps its part of the invariant;
      the live send and the resync task may change as long as they are about other chats. */
  lemma Untouched(h: Hub, h': Hub, d: ChatId)
    requires At(h, d) && SameLoad(h.buffer, h'.buffer, d) && Wm(h'.wmem, d) == Wm(h.wmem, d)
    requires d in h'.chats <==> d in h.chats
    requires d in h.chats ==> h'.chats[d] == h.chats[d]
    requires h'.sync == h.sync
    requires (h.live.Sending? && h.live.c == d) || (h'.live.Sending? && h'.live.c == d) ==> h.live == h'.live
    ensures At(h', d)
  {
  }

  // ---- child frames

  lemma EntryStamps(e: Entry, acc: multiset<Frame>, fl: seq<Frame>, c: ChatId, sync: Sync, wm: nat, line: Line)
    requires EntryOk(e, acc, fl, c, Idle, sync, wm) && e.alive
    ensures var f := Stamp(e, line);
      var e' := e.(nextSeq := e.nextSeq + 1, ledger := e.ledger.(stamped := e.ledger.stamped + multiset{f}));
      && Shape(e', acc, fl, c, Idle, sync) && Balanced(e'.ledger, acc, multiset{f})
      && EntryOk(e.(nextSeq := e.nextSeq + 1), acc, fl, c, Idle, sync, wm)
      && (!e.buffered ==> EntryOk(e', acc, fl, c, Sending(c, f, false, false), sync, wm))
      && (!e.buffered ==> EntryOk(e.(nextSeq := e.nextSeq + 1), acc, fl, c, Sending(c, f, true, false), sync, wm))
  {
  }

  lemma StampedPushing(l: Limits, h: Hub, c: ChatId, line: Line)
    requires Inv(l, h) && h.live.Idle? && c in h.chats && h.chats[c].alive && !line.sensitive
    ensures Pushing(l, Stamped(h, c, line), c, Stamp(h.chats[c], line))
  {
    var h' := Stamped(h, c, line);
    assert At(h, c);
    EntryStamps(h.chats[c], Acc(h.buffer, c), Fl(h.buffer, c), c, h.sync, Wm(h.wmem, c), line);
    forall d ensures d != c ==> At(h', d) {
      assert At(h, d);
    }
  }

  lemma StampedSensitive(l: Limits, h: Hub, c: ChatId, line: Line)
    requires Inv(l, h) && h.live.Idle? && c in h.chats && h.chats[c].alive && line.sensitive
    ensures Inv(l, Stamped(h, c, line))
  {
    var h' := Stamped(h, c, line);
    assert At(h, c);
    EntryStamps(h.chats[c], Acc(h.buffer, c), Fl(h.buffer, c), c, h.sync, Wm(h.wmem, c), line);
    forall d ensures At(h', d) {
      assert At(h, d);
    }
  }

  lemma StampedOnline(l: Limits, h: Hub, c: ChatId, line: Line)
    requires Inv(l, h) && h.live.Idle? && h.auth && c in h.chats && h.chats[c].alive && !h.chats[c].buffered
    ensures Inv(l, Stamped(h, c, line).(live := Sending(c, Stamp(h.chats[c], line), line.sensitive, false)))
  {
    var h' := Stamped(h, c, line).(live := Sending(c, Stamp(h.chats[c], line), line.sensitive, false));
    assert At(h, c);
    EntryStamps(h.chats[c], Acc(h.buffer, c), Fl(h.buffer, c), c, h.sync, Wm(h.wmem, c), line);
    forall d ensures At(h', d) {
      if d != c {
        assert At(h, d);
        Untouched(h, h', d);
      }
    }
  }

  lemma ForwardKeeps(l: Limits, h: Hub, c: ChatId, line: Line, io: PushIo)
    requires Inv(l, h) && h.live.Idle?
    ensures Inv(l, Forward(l, h, c, line, io))
  {
    if c in h.chats && h.chats[c].alive {
      var f, h' := Stamp(h.chats[c], line), Stamped(h, c, line);
      if line.sensitive {
        StampedSensitive(l, h, c, line);
      } else {
        StampedPushing(l, h, c, line);
        CountOversizeKeeps(l, h', c, f);
        BufferPushKeeps(l, h', c, f, io);
      }
      if h.auth && !h.chats[c].buffered {
        StampedOnline(l, h, c, line);
      }
    }
  }

  lemma EntryAcked(e: Entry, acc: multiset<Frame>, fl: seq<Frame>, c: ChatId, live: Live, sync: Sync, wm: nat)
    requires EntryOk(e, acc, fl, c, live, sync, wm) && live.Sending? && live.c == c
    ensures var e' := Acked(e, live.f);
      && Shape(e, acc, fl, c, Idle, sync)
      && (live.sensitive ==> EntryOk(e, acc, fl, c, Idle, sync, wm))
      && (!live.sensitive ==> Balanced(e.ledger, acc, multiset{live.f}) && EntryOk(e', acc, fl, c, Idle, sync, wm))
  {
  }

  lemma FinishLiveKeeps(l: Limits, h: Hub, ok: bool, io: PushIo)
    requires Inv(l, h) && h.live.Sending?
    ensures Inv(l, FinishLive(l, h, ok, io))
  {
    var c, f := h.live.c, h.live.f;
    var h' := h.(live := Idle);
    assert At(h, c);
    EntryAcked(h.chats[c], Acc(h.buffer, c), Fl(h.buffer, c), c, h.live, h.sync, Wm(h.wmem, c));
    forall d ensures d != c ==> At(h', d) {
      if d != c {
        assert At(h, d);
        Untouched(h, h', d);
      }
    }
    if h.live.sensitive {
      assert At(h', c);
    } else if ok {
      AckedKeeps(l, h, FinishLive(l, h, ok, io));
    } else {
      BufferPushKeeps(l, h', c, f, io);
    }
  }

  lemma AckedKeeps(l: Limits, h: Hub, h': Hub)
    requires Inv(l, h) && h.live.Sending? && !h.live.sensitive
    requires h' == h.(live := Idle, chats := AckedChats(h.chats, h.live.c, h.live.f))
    ensures Inv(l, h')
  {
    var c := h.live.c;
    assert At(h, c);
    EntryAcked(h.chats[c], Acc(h.buffer, c), Fl(h.buffer, c), c, h.live, h.sync, Wm(h.wmem, c));
    forall d ensures At(h', d) {
      assert At(h, d);
    }
  }

  // ---- exit and respawn

  lemma DeadOk(e: Entry, acc: multiset<Frame>, fl: seq<Frame>, c: ChatId, sync: Sync, wm: nat)
    requires EntryOk(e, acc, fl, c, Idle, sync, wm)
    ensures EntryOk(e.(alive := false), multiset{}, [], c, Idle, sync, wm)
  {
  }

  lemma FreshOk(c: ChatId, sync: Sync, wmem: map<ChatId, nat>)
    requires BatchOk(sync, wmem)
    ensures EntryOk(Entry(true, Wm(wmem, c) + 1, 1, false, NO_FRAMES), multiset{}, [], c, Idle, sync, Wm(wmem, c) + 1)
  {
    assert Balanced(NO_FRAMES, multiset{}, multiset{});
  }

  lemma RecordBatch(h: Hub, c: ChatId, epoch: nat, ok: bool)
    requires BatchOk(h.sync, h.wmem) && epoch >= Wm(h.wmem, c)
    ensures BatchOk(h.sync, Record(h, c, epoch, ok).wmem)
  {
  }

  lemma ExitKeeps(l: Limits, h: Hub, c: ChatId, recordOk: bool)
    requires Inv(l, h) && h.live.Idle?
    ensures Inv(l, HandleExit(h, c, recordOk))
  {
    var h' := HandleExit(h, c, recordOk);
    RemoveShrinks(l, h.buffer, c);
    assert At(h, c);
    RemoveLoad(h.buffer, c, c);
    if c in h.chats {
      var e := h.chats[c];
      DeadOk(e, Acc(h.buffer, c), Fl(h.buffer, c), c, h.sync, Wm(h.wmem, c));
      RecordBatch(h, c, e.epoch, recordOk);
      assert At(h', c);
    }
    forall d ensures At(h', d) {
      if d != c {
        assert At(h, d);
        ExitOthers(h, c, recordOk, d);
      }
    }
  }

  lemma ExitFields(h: Hub, c: ChatId, recordOk: bool, d: ChatId)
    requires Wf(h.buffer) && d != c
    ensures var h' := HandleExit(h, c, recordOk);
      && h'.sync == h.sync && h'.live == h.live && h'.buffer == Remove(h.buffer, c)
      && Wm(h'.wmem, d) == Wm(h.wmem, d) && (d in h'.chats <==> d in h.chats)
      && (d in h.chats ==> h'.chats[d] == h.chats[d])
  {
  }

  lemma ExitOthers(h: Hub, c: ChatId, recordOk: bool, d: ChatId)
    requires Wf(h.buffer) && At(h, d) && d != c
    ensures At(HandleExit(h, c, recordOk), d)
  {
    RemoveLoad(h.buffer, c, d);
    ExitFields(h, c, recordOk, d);
    Untouched(h, HandleExit(h, c, recordOk), d);
  }

  lemma RemoveShrinks(l: Limits, s: State, c: ChatId)
    requires Wf(s) && !OverMem(l, Total(s))
    ensures !OverMem(l, Total(Remove(s, c)))
  {
    if c in s.chats {
      RemoveTotal(s, c);
    }
  }

  lemma SpawnKeeps(l: Limits, h: Hub, c: ChatId, recordOk: bool)
    requires Inv(l, h) && h.live.Idle?
    ensures Inv(l, HandleSpawn(h, c, recordOk))
  {
    if c in h.chats && h.chats[c].alive {
      return;
    }
    var h' := HandleSpawn(h, c, recordOk);
    assert At(h, c);
    FreshOk(c, h.sync, h.wmem);
    RecordBatch(h, c, Wm(h.wmem, c) + 1, recordOk);
    assert At(h', c);
    forall d ensures At(h', d) {
      if d != c {
        assert At(h, d);
        SpawnOthers(h, c, recordOk, d);
      }
    }
  }

  lemma SpawnFields(h: Hub, c: ChatId, recordOk: bool, d: ChatId)
    requires d != c
    ensures var h' := HandleSpawn(h, c, recordOk);
      && h'.sync == h.sync && h'.live == h.live && h'.buffer == h.buffer
      && Wm(h'.wmem, d) == Wm(h.wmem, d) && (d in h'.chats <==> d in h.chats)
      && (d in h.chats ==> h'.chats[d] == h.chats[d])
  {
  }

  lemma SpawnOthers(h: Hub, c: ChatId, recordOk: bool, d: ChatId)
    requires At(h, d) && d != c
    ensures At(HandleSpawn(h, c, recordOk), d)
  {
    SpawnFields(h, c, recordOk, d);
    Untouched(h, HandleSpawn(h, c, recordOk), d);
  }

  // ---- connection

  lemma SignalKeeps(l: Limits, h: Hub, ids: seq<ChatId>)
    requires Inv(l, h) && h.live.Idle? && h.signals != [] && InFlightOrder(h.buffer, ids)
    ensures Inv(l, OnSignal(l, h, ids))
  {
    var h', b := OnSignal(l, h, ids), RollbackEach(l, h.buffer, ids);
    assert h'.buffer == b;
    RollbackEachKeepsBudgets(l, h.buffer, ids);
    forall d ensures At(h', d) {
      NoneLeftInFlight(l, h.buffer, ids, d);
      assert At(h, d);
      SignalFields(l, h, ids, d);
      SignalAt(h, h', d);
    }
  }

  lemma SignalFields(l: Limits, h: Hub, ids: seq<ChatId>, d: ChatId)
    requires Wf(h.buffer) && h.signals != []
    ensures var h' := OnSignal(l, h, ids);
      && !h'.sync.Replaying? && h'.wmem == h.wmem && h'.live == h.live && h'.chats.Keys == h.chats.Keys
      && (d in h.chats ==> h'.chats[d] == h.chats[d] || h'.chats[d] == h.chats[d].(buffered := true))
  {
  }

  lemma NoneLeftInFlight(l: Limits, s: State, ids: seq<ChatId>, d: ChatId)
    requires Wf(s) && InFlightOrder(s, ids)
    ensures Acc(RollbackEach(l, s, ids), d) == Acc(s, d) && Fl(RollbackEach(l, s, ids), d) == []
  {
    RollbackEachLoad(l, s, ids, d);
  }

  lemma SignalAt(h: Hub, h': Hub, d: ChatId)
    requires At(h, d) && h.live.Idle? && h'.live.Idle? && !h'.sync.Replaying? && h'.wmem == h.wmem
    requires Acc(h'.buffer, d) == Acc(h.buffer, d) && Fl(h'.buffer, d) == []
    requires h'.chats.Keys == h.chats.Keys
    requires d in h.chats ==> h'.chats[d] == h.chats[d] || h'.chats[d] == h.chats[d].(buffered := true)
    ensures At(h', d)
  {
  }

  // ---- resync

  /** A pass changes nothing but flags of chats with nothing pending, and drains at most one. */
  lemma {:induction false} PassEffect(chats: map<ChatId, Entry>, b: State, order: seq<ChatId>, disks: ChatId -> DrainIo)
    requires Wf(b)
    ensures var (chats', b', r) := Pass(chats, b, order, disks);
      && chats'.Keys == chats.Keys
      && (forall d :: d in chats ==> chats'[d] == chats[d] || Drained(chats[d], chats'[d], Bucket(b, d)))
      && (r.None? ==> b' == b)
      && (r.Some? ==> r.value.c in chats && chats'[r.value.c] == chats[r.value.c] && PickedFrom(chats, b, b', r.value, disks(r.value.c)))
  {
    if order != [] {
      var c := order[0];
      if c in chats && chats[c].buffered && Bucket(b, c).TotalFrames() == 0 {
        var chats1 := chats[c := chats[c].(buffered := false)];
        PassEffect(chats1, b, order[1..], disks);
        assert Drained(chats[c], chats1[c], Bucket(b, c));
      } else {
        PassEffect(chats, b, order[1..], disks);
      }
    }
  }

  /** The only way a chat goes live: its flag is cleared with an empty queue. */
  predicate Drained(e: Entry, e': Entry, b: Session) {
    e.buffered && b.View() == [] && e' == e.(buffered := false)
  }

  predicate PickedFrom(chats: map<ChatId, Entry>, b: State, b': State, p: Picked, io: DrainIo)
    requires Wf(b)
  {
    && p.c in chats && chats[p.c].buffered && p.epoch == chats[p.c].epoch && p.c in b.chats
    && Drain(b, p.c, SYNC_BATCH_MAX_FRAMES, SYNC_BATCH_MAX_BYTES, io.firstOk, io.good) == (b', Some(p.job))
  }

  lemma EntryLive(e: Entry, acc: multiset<Frame>, fl: seq<Frame>, c: ChatId, live: Live, sync: Sync, wm: nat, sync': Sync)
    requires EntryOk(e, acc, fl, c, live, sync, wm) && sync.Ready?
    requires !InBatch(sync', c, e.epoch)
    ensures EntryOk(e, acc, fl, c, live, sync', wm) && EntryOk(e.(buffered := false), acc, fl, c, live, sync', wm)
  {
  }

  lemma EntryPicked(e: Entry, acc: multiset<Frame>, fl: seq<Frame>, c: ChatId, live: Live, wm: nat, sync': Sync)
    requires EntryOk(e, acc, fl, c, live, Ready, wm) && e.buffered
    requires InBatch(sync', c, e.epoch) && sync'.job.frames != [] && forall f :: f in sync'.job.frames ==> f in acc
    ensures fl == [] && EntryOk(e, acc, sync'.job.frames, c, live, sync', wm)
    ensures AllOf(multiset(sync'.job.frames), e.epoch)
  {
    assert sync'.job.frames[0] in acc;
  }

  lemma ResyncKeeps(l: Limits, h: Hub, order: seq<ChatId>, disks: ChatId -> DrainIo)
    requires Inv(l, h) && h.sync.Ready?
    ensures Inv(l, Resync(h, order, disks))
  {
    var (chats, b, r) := Pass(h.chats, h.buffer, order, disks);
    var h' := Resync(h, order, disks);
    PassEffect(h.chats, h.buffer, order, disks);
    if r.Some? {
      BatchKeeps(l, h, h', r.value, disks(r.value.c));
    } else {
      forall d ensures At(h', d) {
        assert At(h, d);
        if d in h.chats {
          EntryLive(h.chats[d], Acc(b, d), Fl(b, d), d, h.live, h.sync, Wm(h.wmem, d), h'.sync);
        }
      }
    }
  }

  lemma BatchKeeps(l: Limits, h: Hub, h': Hub, p: Picked, io: DrainIo)
    requires Inv(l, h) && h.sync.Ready? && PickedFrom(h.chats, h.buffer, h'.buffer, p, io)
    requires h' == h.(chats := h'.chats, buffer := h'.buffer, sync := Replaying(p.c, p.epoch, p.job, false))
    requires h'.chats.Keys == h.chats.Keys && h'.chats[p.c] == h.chats[p.c]
    requires forall d :: d in h.chats ==> h'.chats[d] == h.chats[d] || h'.chats[d] == h.chats[d].(buffered := false)
    ensures Inv(l, h')
  {
    var c, b := p.c, h.buffer;
    assert At(h, c);
    assert Fl(b, c) == [];
    PickedEffect(l, h.chats, b, h'.buffer, p, io, c);
    EntryPicked(h.chats[c], Acc(b, c), Fl(b, c), c, h.live, Wm(h.wmem, c), h'.sync);
    forall d ensures At(h', d) {
      if d != c {
        assert At(h, d);
        PickedEffect(l, h.chats, b, h'.buffer, p, io, d);
        OtherPicked(h, h', c, d);
      } else {
        assert At(h', c);
      }
    }
  }

  lemma PickedEffect(l: Limits, chats: map<ChatId, Entry>, b: State, b': State, p: Picked, io: DrainIo, d: ChatId)
    requires Wf(b) && PickedFrom(chats, b, b', p, io) && Fl(b, p.c) == []
    ensures Acc(b', d) == Acc(b, d) && Fl(b', d) == if d == p.c then p.job.frames else Fl(b, d)
    ensures p.job.frames != [] && p.job.fromSeq == p.job.frames[0].seqNo
    ensures forall f :: f in p.job.frames ==> f in Acc(b, p.c)
    ensures Wf(b') && (!OverMem(l, Total(b)) ==> !OverMem(l, Total(b')))
  {
    DrainTotal(b, p.c, SYNC_BATCH_MAX_FRAMES, SYNC_BATCH_MAX_BYTES, io.firstOk, io.good);
    DrainLoad(b, p.c, SYNC_BATCH_MAX_FRAMES, SYNC_BATCH_MAX_BYTES, io.firstOk, io.good, d);
    DrainStartsAtFromSeq(b, p.c, SYNC_BATCH_MAX_FRAMES, SYNC_BATCH_MAX_BYTES, io.firstOk, io.good);
    assert [] + p.job.frames == p.job.frames;
  }

  lemma OtherPicked(h: Hub, h': Hub, c: ChatId, d: ChatId)
    requires At(h, d) && h.sync.Ready? && d != c && h'.sync.Replaying? && h'.sync.c == c
    requires h'.live == h.live && h'.wmem == h.wmem && h'.chats.Keys == h.chats.Keys
    requires d in h.chats ==> h'.chats[d] == h.chats[d] || h'.chats[d] == h.chats[d].(buffered := false)
    requires SameLoad(h.buffer, h'.buffer, d)
    ensures At(h', d)
  {
    if d in h.chats {
      EntryLive(h.chats[d], Acc(h.buffer, d), Fl(h.buffer, d), d, h.live, h.sync, Wm(h.wmem, d), h'.sync);
    }
  }

  lemma EntryDone(e: Entry, acc: multiset<Frame>, fl: seq<Frame>, acc': multiset<Frame>, c: ChatId, live: Live, sync: Sync, wm: nat)
    requires EntryOk(e, acc, fl, c, live, sync, wm) && sync.Replaying?
    ensures !InBatch(sync, c, e.epoch) || !e.alive ==> fl == []
    ensures fl == [] ==> EntryOk(e, acc, [], c, live, Ready, wm)
    ensures EntryOk(e, acc, [], c, live, Off, wm)
    ensures InBatch(sync, c, e.epoch) && e.alive && acc == multiset(fl) + acc' ==>
      EntryOk(e.(ledger := e.ledger.(committed := e.ledger.committed + multiset(sync.job.frames))), acc', [], c, live, Ready, wm)
  {
  }

  lemma FinishBatchKeeps(l: Limits, h: Hub, ok: bool)
    requires Inv(l, h) && h.sync.Replaying?
    ensures Inv(l, FinishBatch(l, h, ok))
  {
    var c, h' := h.sync.c, FinishBatch(l, h, ok);
    if ok {
      CommitKeepsMem(l, h.buffer, c);
    } else {
      RollbackKeepsBudgets(l, h.buffer, c);
    }
    forall d ensures At(h', d) {
      assert At(h, d);
      FinishBatchAt(l, h, ok, d);
    }
  }

  lemma CommitKeepsMem(l: Limits, s: State, c: ChatId)
    requires Wf(s) && !OverMem(l, Total(s))
    ensures !OverMem(l, Total(Commit(s, c)))
  {
    if c in s.chats {
      CommitTotal(s, c);
    }
  }

  predicate Current(h: Hub) {
    h.sync.Replaying? && h.sync.c in h.chats && h.chats[h.sync.c].epoch == h.sync.epoch && h.chats[h.sync.c].alive
  }

  /** What a finished batch changes beside the buffer. */
  lemma FinishBatchFields(l: Limits, h: Hub, ok: bool, d: ChatId)
    requires Wf(h.buffer) && h.sync.Replaying?
    ensures var h' := FinishBatch(l, h, ok);
      && h'.buffer == (if ok then Commit(h.buffer, h.sync.c) else Rollback(l, h.buffer, h.sync.c))
      && h'.sync == (if ok then Ready else Off)
      && h'.live == h.live && h'.wmem == h.wmem && h'.auth == h.auth && h'.chats.Keys == h.chats.Keys
      && (d in h.chats ==>
           h'.chats[d] == if ok && d == h.sync.c && Current(h) then Committed(h.chats[d], h.sync.job.frames) else h.chats[d])
  {
  }

  lemma FinishBatchAt(l: Limits, h: Hub, ok: bool, d: ChatId)
    requires Wf(h.buffer) && h.sync.Replaying? && At(h, d)
    ensures At(FinishBatch(l, h, ok), d)
  {
    FinishBatchFields(l, h, ok, d);
    if ok {
      CommitLoad(h.buffer, h.sync.c, d);
    } else {
      RollbackLoad(l, h.buffer, h.sync.c, d);
    }
    DoneAt(h, FinishBatch(l, h, ok), ok, d);
  }

  lemma DoneAt(h: Hub, h': Hub, ok: bool, d: ChatId)
    requires h.sync.Replaying? && At(h, d)
    requires h'.sync == (if ok then Ready else Off) && h'.live == h.live && h'.wmem == h.wmem && h'.chats.Keys == h.chats.Keys
    requires d in h.chats ==>
      h'.chats[d] == if ok && d == h.sync.c && Current(h) then Committed(h.chats[d], h.sync.job.frames) else h.chats[d]
    requires Fl(h'.buffer, d) == if d == h.sync.c then [] else Fl(h.buffer, d)
    requires Acc(h.buffer, d) == (if ok && d == h.sync.c then multiset(Fl(h.buffer, d)) else multiset{}) + Acc(h'.buffer, d)
    ensures At(h', d)
  {
    if d in h.chats {
      EntryDone(h.chats[d], Acc(h.buffer, d), Fl(h.buffer, d), Acc(h'.buffer, d), d, h.live, h.sync, Wm(h.wmem, d));
    }
  }

  /** Writing to the connection and reconnecting touch no queue. */
  lemma QuietKeeps(l: Limits, h: Hub, h': Hub)
    requires Inv(l, h) && h'.buffer == h.buffer && h'.chats == h.chats && h'.wmem == h.wmem && h'.auth == h.auth
    requires h'.live == h.live || (h.live.Sending? && h'.live == h.live.(written := true))
    requires h'.sync == h.sync || (h.sync.Replaying? && h'.sync == h.sync.(written := true))
    ensures Inv(l, h')
  {
    forall d ensures At(h', d) {
      assert At(h, d);
    }
  }

  /** Every step keeps the invariant. */
  lemma {:induction false} NextKeeps(l: Limits, h: Hub, a: Action)
    requires Inv(l, h)
    ensures Inv(l, Next(l, h, a))
  {
    if !Enabled(h, a) {
      return;
    }
    match a
    case ChildFrame(c, line, io) => ForwardKeeps(l, h, c, line, io);
    case LiveWrite => QuietKeeps(l, h, Next(l, h, a));
    case LiveDone(ok, io) => FinishLiveKeeps(l, h, ok, io);
    case Exit(c, recordOk) => ExitKeeps(l, h, c, recordOk);
    case Spawn(c, recordOk) => SpawnKeeps(l, h, c, recordOk);
    case TakeSignal(ids) => SignalKeeps(l, h, ids);
    case Connect => QuietKeeps(l, h, Next(l, h, a));
    case Drop => QuietKeeps(l, h, Next(l, h, a));
    case HandshakeFail => QuietKeeps(l, h, Next(l, h, a));
    case ResyncPass(order, disks) => ResyncKeeps(l, h, order, disks);
    case BatchWrite => QuietKeeps(l, h, Next(l, h, a));
    case BatchDone(ok) => FinishBatchKeeps(l, h, ok);
    case Crash(corrupt) => StartOk(l, Next(l, h, a));
  }

  lemma {:induction false} AlwaysInv(l: Limits, acts: seq<Action>)
    ensures Inv(l, After(l, acts))
    decreases |acts|
  {
    if acts == [] {
      StartOk(l, START);
    } else {
      AlwaysInv(l, acts[..|acts| - 1]);
      NextKeeps(l, After(l, acts[..|acts| - 1]), acts[|acts| - 1]);
    }
  }

  // ---------------------------------------------------------------------------
  // What it means
  // ---------------------------------------------------------------------------

  /** Whatever happened, every replayable frame stamped for a running process is in exactly
      one place: acknowledged live, sent in a batch, pending, evicted, refused by a failed
      disk, dropped as oversize, or being sent right now. */
  lemma {:induction false} NothingIsLost(l: Limits, acts: seq<Action>, c: ChatId)
    requires var h := After(l, acts); c in h.chats && h.chats[c].alive
    ensures var h := After(l, acts); var log, b := h.chats[c].ledger, Bucket(h.buffer, c);
      log.stamped == log.acked + log.committed + log.oversize
        + (multiset(b.View()) + multiset(b.evicted) + multiset(b.failed)) + OnLine(h.live, c)
  {
    AlwaysInv(l, acts);
    assert At(After(l, acts), c);
  }

  /** A batch on its way carries the epoch all its frames were stamped under, announces its
      first frame, and is not empty. */
  lemma {:induction false} BatchCarriesItsEpoch(l: Limits, acts: seq<Action>)
    requires After(l, acts).sync.Replaying?
    ensures var s := After(l, acts).sync;
      && s.job.frames != [] && s.job.fromSeq == s.job.frames[0].seqNo
      && forall f :: f in s.job.frames ==> f.epoch == s.epoch
  {
    AlwaysInv(l, acts);
    var s := After(l, acts).sync;
    forall f | f in s.job.frames ensures f.epoch == s.epoch {
      assert f in multiset(s.job.frames);
    }
  }

  /** When a send ends after its process was replaced, neither outcome touches the buffer of
      the new process, nor any other. */
  lemma {:induction false} LateEndTouchesNothing(l: Limits, acts: seq<Action>, ok: bool)
    requires After(l, acts).sync.Replaying? && !Current(After(l, acts))
    ensures var h := After(l, acts); FinishBatch(l, h, ok).buffer == h.buffer
  {
    var h := After(l, acts);
    AlwaysInv(l, acts);
    assert At(h, h.sync.c);
    assert Fl(h.buffer, h.sync.c) == [];
    NothingInFlight(l, h.buffer, h.sync.c);
  }

  lemma NothingInFlight(l: Limits, s: State, c: ChatId)
    requires Wf(s) && !OverMem(l, Total(s)) && Fl(s, c) == []
    ensures Commit(s, c) == s && Rollback(l, s, c) == s
  {
    if c in s.chats {
      var e := s.chats[c];
      assert e.(inFlight := []) == e;
      assert [] + e.mem == e.mem;
      assert Restore(e) == e;
      assert s.chats[c := e] == s.chats;
      assert Restored(s, c) == s;
    }
  }

  predicate SameFlag(h: Hub, h': Hub, c: ChatId) {
    c in h.chats && c in h'.chats && h'.chats[c].buffered == h.chats[c].buffered
  }

  lemma CountFlags(h: Hub, d: ChatId, f: Frame, c: ChatId)
    requires c in h.chats
    ensures SameFlag(h, CountOversize(h, d, f), c)
  {
  }

  lemma PushFlags(l: Limits, h: Hub, d: ChatId, f: Frame, io: PushIo, c: ChatId)
    requires Wf(h.buffer) && c in h.chats
    ensures SameFlag(h, BufferPush(l, h, d, f, io), c) && SameFlag(h, CountOversize(h, d, f), c)
  {
    CountFlags(h, d, f, c);
    CountFlags(h.(buffer := Push(l, h.buffer, d, f, io.openOk, io.appendOk, io.disks).0), d, f, c);
  }

  lemma ForwardFlags(l: Limits, h: Hub, d: ChatId, line: Line, io: PushIo, c: ChatId)
    requires Wf(h.buffer) && c in h.chats
    ensures SameFlag(h, Forward(l, h, d, line, io), c)
  {
    if d in h.chats && h.chats[d].alive {
      var h' := Stamped(h, d, line);
      assert SameFlag(h, h', c);
      PushFlags(l, h', d, Stamp(h.chats[d], line), io, c);
    }
  }

  lemma FinishLiveFlags(l: Limits, h: Hub, ok: bool, io: PushIo, c: ChatId)
    requires Wf(h.buffer) && c in h.chats && h.live.Sending?
    ensures SameFlag(h, FinishLive(l, h, ok, io), c)
  {
    PushFlags(l, h.(live := Idle), h.live.c, h.live.f, io, c);
  }

  lemma FinishBatchFlags(l: Limits, h: Hub, ok: bool, c: ChatId)
    requires Wf(h.buffer) && c in h.chats && h.sync.Replaying?
    ensures SameFlag(h, FinishBatch(l, h, ok), c)
  {
    FinishBatchFields(l, h, ok, c);
  }

  /** No other step clears the flag of a chat that stays in the table. */
  lemma KeepsFlag(l: Limits, h: Hub, a: Action, c: ChatId)
    requires Wf(h.buffer) && Enabled(h, a) && !a.ResyncPass? && !a.Spawn?
    requires c in h.chats && h.chats[c].buffered && c in Next(l, h, a).chats
    ensures Next(l, h, a).chats[c].buffered
  {
    match a
    case ChildFrame(d, line, io) => ForwardFlags(l, h, d, line, io, c);
    case LiveDone(ok, io) => FinishLiveFlags(l, h, ok, io, c);
    case BatchDone(ok) => FinishBatchFlags(l, h, ok, c);
    case _ =>
  }

  lemma ViewCount(b: Session)
    ensures |b.View()| <= |Accounted(b)|
  {
    assert |multiset(b.View())| == |b.View()|;
  }

  /** A chat without a running process has nothing queued. */
  lemma DeadEmpty(h: Hub, c: ChatId)
    requires At(h, c) && (c in h.chats ==> !h.chats[c].alive)
    ensures Bucket(h.buffer, c).View() == []
  {
    ViewCount(Bucket(h.buffer, c));
  }

  /** In every run, a step clears a chat's flag only with an empty queue. */
  lemma {:induction false} GoesLiveDrained(l: Limits, acts: seq<Action>, a: Action, c: ChatId)
    requires var h := After(l, acts); c in h.chats && h.chats[c].buffered
    requires var h' := Next(l, After(l, acts), a); c in h'.chats && !h'.chats[c].buffered
    ensures Bucket(After(l, acts).buffer, c).View() == []
  {
    AlwaysInv(l, acts);
    ClearsDrained(l, After(l, acts), a, c);
  }

  lemma ClearsDrained(l: Limits, h: Hub, a: Action, c: ChatId)
    requires Inv(l, h) && c in h.chats && h.chats[c].buffered
    requires var h' := Next(l, h, a); c in h'.chats && !h'.chats[c].buffered
    ensures Bucket(h.buffer, c).View() == []
  {
    if Enabled(h, a) {
      if a.ResyncPass? {
        PassEffect(h.chats, h.buffer, a.order, a.disks);
      } else if a.Spawn? {
        assert At(h, c);
        if !h.chats[c].alive {
          DeadEmpty(h, c);
        }
      } else {
        KeepsFlag(l, h, a, c);
      }
    }
  }

  /** Between two batches of the resync task nothing is in flight. */
  lemma {:induction false} ReadyMeansNoneInFlight(l: Limits, acts: seq<Action>, c: ChatId)
    requires After(l, acts).sync.Ready?
    ensures Fl(After(l, acts).buffer, c) == []
  {
    AlwaysInv(l, acts);
    assert At(After(l, acts), c);
  }

  /** The memory budget holds after every run. */
  lemma {:induction false} MemBudgetAlways(l: Limits, acts: seq<Action>)
    ensures var u := Total(After(l, acts).buffer); u.memBytes <= l.memBytes && u.memFrames <= l.memFrames
  {
    AlwaysInv(l, acts);
  }

  /** A step that hands a frame to the buffer pushes it; the others of its kind leave the
      buffer alone. */
  lemma PushOfIs(l: Limits, h: Hub, a: Action)
    requires Wf(h.buffer) && (a.ChildFrame? || a.LiveDone?)
    ensures var p := PushOf(l, h, a); var b := Next(l, h, a).buffer;
      if p.Some? then b == Push(l, h.buffer, p.value.0, p.value.1, p.value.2.openOk, p.value.2.appendOk, p.value.2.disks).0
      else b == h.buffer
  {
    if a.ChildFrame? {
      ForwardBuffer(l, h, a.c, a.line, a.io);
    } else if h.live.Sending? {
      FinishLiveBuffer(l, h, a.ok, a.io);
    }
  }

  lemma PushBuffer(l: Limits, h: Hub, c: ChatId, f: Frame, io: PushIo)
    requires Wf(h.buffer)
    ensures BufferPush(l, h, c, f, io).buffer == Push(l, h.buffer, c, f, io.openOk, io.appendOk, io.disks).0
    ensures CountOversize(h, c, f).buffer == h.buffer
  {
  }

  lemma ForwardBuffer(l: Limits, h: Hub, c: ChatId, line: Line, io: PushIo)
    requires Wf(h.buffer)
    ensures var b := Forward(l, h, c, line, io).buffer;
      if c in h.chats && h.chats[c].alive && !line.sensitive && !(h.auth && !h.chats[c].buffered) && |line.body| <= l.maxFrame
      then b == Push(l, h.buffer, c, Stamp(h.chats[c], line), io.openOk, io.appendOk, io.disks).0
      else b == h.buffer
  {
    if c in h.chats {
      PushBuffer(l, Stamped(h, c, line), c, Stamp(h.chats[c], line), io);
    }
  }

  lemma FinishLiveBuffer(l: Limits, h: Hub, ok: bool, io: PushIo)
    requires Wf(h.buffer) && h.live.Sending?
    ensures var b := FinishLive(l, h, ok, io).buffer;
      if !h.live.sensitive && !ok
      then b == Push(l, h.buffer, h.live.c, h.live.f, io.openOk, io.appendOk, io.disks).0
      else b == h.buffer
  {
    PushBuffer(l, h.(live := Idle), h.live.c, h.live.f, io);
  }

  lemma ExitTotal(l: Limits, h: Hub, c: ChatId, recordOk: bool)
    requires Wf(h.buffer) && !OverTotal(l, Total(h.buffer))
    ensures !OverTotal(l, Total(HandleExit(h, c, recordOk).buffer))
  {
    assert HandleExit(h, c, recordOk).buffer == Remove(h.buffer, c);
    if c in h.buffer.chats {
      RemoveTotal(h.buffer, c);
    }
  }

  lemma SignalTotal(l: Limits, h: Hub, ids: seq<ChatId>)
    requires Wf(h.buffer) && !OverMem(l, Total(h.buffer)) && !OverTotal(l, Total(h.buffer)) && h.signals != []
    ensures !OverTotal(l, Total(OnSignal(l, h, ids).buffer))
  {
    RollbackEachKeepsBudgets(l, h.buffer, ids);
    assert OnSignal(l, h, ids).buffer == RollbackEach(l, h.buffer, ids);
  }

  lemma CommitWithin(l: Limits, s: State, c: ChatId)
    requires Wf(s) && !OverTotal(l, Total(s))
    ensures !OverTotal(l, Total(Commit(s, c)))
  {
    if c in s.chats {
      CommitTotal(s, c);
    }
  }

  lemma FinishBatchTotal(l: Limits, h: Hub, ok: bool)
    requires Wf(h.buffer) && !OverMem(l, Total(h.buffer)) && !OverTotal(l, Total(h.buffer)) && h.sync.Replaying?
    ensures !OverTotal(l, Total(FinishBatch(l, h, ok).buffer))
  {
    CommitWithin(l, h.buffer, h.sync.c);
    RollbackKeepsBudgets(l, h.buffer, h.sync.c);
  }

  lemma ResyncTotal(l: Limits, h: Hub, order: seq<ChatId>, disks: ChatId -> DrainIo)
    requires Wf(h.buffer) && !OverTotal(l, Total(h.buffer))
    ensures !OverTotal(l, Total(Resync(h, order, disks).buffer))
  {
    PassTotal(h.chats, h.buffer, order, disks);
  }

  /** Steps that push nothing never leave the shared budget. */
  lemma OtherTotal(l: Limits, h: Hub, a: Action)
    requires Inv(l, h) && !OverTotal(l, Total(h.buffer)) && !a.ChildFrame? && !a.LiveDone?
    ensures !OverTotal(l, Total(Next(l, h, a).buffer))
  {
    if !Enabled(h, a) {
      return;
    }
    match a
    case Exit(c, recordOk) => ExitTotal(l, h, c, recordOk);
    case TakeSignal(ids) => SignalTotal(l, h, ids);
    case BatchDone(ok) => FinishBatchTotal(l, h, ok);
    case ResyncPass(order, disks) => ResyncTotal(l, h, order, disks);
    case Crash(_) => assert Total(EMPTY) == NOTHING;
    case _ =>
  }

  lemma PassTotal(chats: map<ChatId, Entry>, b: State, order: seq<ChatId>, disks: ChatId -> DrainIo)
    requires Wf(b)
    ensures var u, u' := Total(b), Total(Pass(chats, b, order, disks).1);
      u'.bytes == u.bytes && u'.frames == u.frames
  {
    PassEffect(chats, b, order, disks);
    var (_, b', r) := Pass(chats, b, order, disks);
    if r.Some? {
      var io := disks(r.value.c);
      DrainTotal(b, r.value.c, SYNC_BATCH_MAX_FRAMES, SYNC_BATCH_MAX_BYTES, io.firstOk, io.good);
    }
  }

  /** During one push the same segments can be read in every round. */
  ghost predicate SteadyDisks(a: Action) {
    match a
    case ChildFrame(_, _, io) => Steady(io.disks, ReadsAt(io.disks, 0))
    case LiveDone(_, io) => Steady(io.disks, ReadsAt(io.disks, 0))
    case _ => true
  }

  /** The step pushes a frame that leaves more stuck than the shared budget allows. */
  predicate TooMuchStuck(l: Limits, h: Hub, a: Action) {
    var p := PushOf(l, h, a);
    p.Some? && Overflows(l, h.buffer, p.value.0, p.value.1, p.value.2.openOk, p.value.2.appendOk,
                         ReadsAt(p.value.2.disks, 0))
  }

  lemma NextOverIff(l: Limits, h: Hub, a: Action)
    requires Inv(l, h) && !OverTotal(l, Total(h.buffer)) && SteadyDisks(a)
    ensures OverTotal(l, Total(Next(l, h, a).buffer)) <==> TooMuchStuck(l, h, a)
  {
    if a.ChildFrame? || a.LiveDone? {
      PushOfIs(l, h, a);
      var p := PushOf(l, h, a);
      if p.Some? {
        var (c, f, io) := p.value;
        PushOverIff(l, h.buffer, c, f, io.openOk, io.appendOk, io.disks, ReadsAt(io.disks, 0));
      }
    } else {
      OtherTotal(l, h, a);
    }
  }

  /** Every state of the run is within the shared budget. */
  ghost predicate Bounded(l: Limits, acts: seq<Action>)
    decreases |acts|
  {
    && (var u := Total(After(l, acts).buffer); u.bytes <= l.totalBytes && u.frames <= l.totalFrames)
    && (acts != [] ==> Bounded(l, acts[..|acts| - 1]))
  }

  ghost predicate NeverTooMuch(l: Limits, acts: seq<Action>)
    decreases |acts|
  {
    acts != [] ==>
      && NeverTooMuch(l, acts[..|acts| - 1])
      && !TooMuchStuck(l, After(l, acts[..|acts| - 1]), acts[|acts| - 1])
  }

  /** A run of the hub stays within the shared budget if and only if no push in it leaves more
      stuck, in flight or on segments that cannot be read, than the budget allows. */
  lemma {:induction false} TotalBudgetIff(l: Limits, acts: seq<Action>)
    requires forall i :: 0 <= i < |acts| ==> SteadyDisks(acts[i])
    ensures Bounded(l, acts) <==> NeverTooMuch(l, acts)
    decreases |acts|
  {
    if acts == [] {
      assert Total(EMPTY) == NOTHING;
    } else {
      var init, a := acts[..|acts| - 1], acts[|acts| - 1];
      TotalBudgetIff(l, init);
      if Bounded(l, init) {
        AlwaysInv(l, init);
        NextOverIff(l, After(l, init), a);
      }
    }
  }

  /** Each push of the run can read its own chat's segment. */
  ghost predicate OwnReads(l: Limits, acts: seq<Action>)
    decreases |acts|
  {
    acts != [] ==>
      && OwnReads(l, acts[..|acts| - 1])
      && (var p := PushOf(l, After(l, acts[..|acts| - 1]), acts[|acts| - 1]);
          p.Some? ==> forall n :: p.value.2.disks(n, p.value.0))
  }

  /** The shared budget holds after every run in which each push can read its own chat's
      segment, whatever happens to the others, and even while a batch is in flight. */
  lemma {:induction false} TotalBudgetAlways(l: Limits, acts: seq<Action>)
    requires OwnReads(l, acts)
    ensures var u := Total(After(l, acts).buffer); u.bytes <= l.totalBytes && u.frames <= l.totalFrames
    decreases |acts|
  {
    if acts == [] {
      assert Total(EMPTY) == NOTHING;
    } else {
      var init, a := acts[..|acts| - 1], acts[|acts| - 1];
      TotalBudgetAlways(l, init);
      AlwaysInv(l, init);
      NextWithin(l, After(l, init), a);
    }
  }

  lemma NextWithin(l: Limits, h: Hub, a: Action)
    requires Inv(l, h) && !OverTotal(l, Total(h.buffer))
    requires var p := PushOf(l, h, a); p.Some? ==> forall n :: p.value.2.disks(n, p.value.0)
    ensures !OverTotal(l, Total(Next(l, h, a).buffer))
  {
    if a.ChildFrame? || a.LiveDone? {
      PushOfIs(l, h, a);
      var p := PushOf(l, h, a);
      if p.Some? {
        var (c, f, io) := p.value;
        ReadableDiskIsHardBudget(l, h.buffer, c, f, io.openOk, io.appendOk, io.disks);
      }
    } else {
      OtherTotal(l, h, a);
    }
  }
}
