/** The hub's shared state as the program updates it. Every method is one stretch of code
    between two awaits, and does what the step machine says. */
module HubDaemon {
  import opened Frames
  import opened Sessions
  import opened Budget
  import opened BufferSpec
  import opened Buffers
  import opened Watermarks
  import opened HubSpec
  import opened ResyncTask
  import TerminalHosts

  class HubState {
    const limits: Limits
    const buffer: Buffer
    const watermark: Watermark
    var authenticated: bool
    var chats: map<ChatId, Entry>
    /** The machine's state; what the program does not keep is history. */
    ghost var abs: Hub

    /** What is stored is this state. */
    ghost predicate Stands(h: Hub)
      reads `authenticated, `chats, buffer, buffer.chats.Values, watermark
    {
      && buffer.Valid() && buffer.limits == limits && buffer.abs == h.buffer
      && chats == h.chats && authenticated == h.auth
      && Epochs(watermark.chats) == h.wmem && Epochs(Loaded(watermark.file)) == h.wdisk
    }

    ghost predicate Valid()
      reads this, buffer, buffer.chats.Values, watermark
    {
      Stands(abs)
    }

    /** The stored state has become the next one of the machine. */
    method Become(ghost h: Hub)
      requires Stands(h)
      modifies `abs
      ensures Valid() && abs == h
    {
      abs := h;
    }

    /** A daemon that has started after whatever happened to the previous one. */
    constructor (limits: Limits, watermark: Watermark, ghost before: Hub)
      requires Epochs(watermark.chats) == before.wdisk && Epochs(Loaded(watermark.file)) == before.wdisk
      ensures Valid() && abs == Restart(before, false) && this.limits == limits && this.watermark == watermark
      ensures fresh(buffer) && buffer.chats == map[]
    {
      this.limits, this.watermark := limits, watermark;
      buffer := new Buffer(limits);
      authenticated, chats, abs := false, map[], Restart(before, false);
    }

    method BufferFrame(c: ChatId, f: Frame, io: PushIo)
      requires Valid()
      modifies this, buffer, buffer.chats.Values
      ensures Valid() && abs == BufferPush(limits, old(abs), c, f, io)
      ensures fresh(buffer.chats.Values - old(buffer.chats.Values))
    {
      ghost var was := abs;
      var r := buffer.Push(c, f, io.openOk, io.appendOk, io.disks);
      Become(abs.(buffer := buffer.abs));
      if r == Oversize {
        SkipOversize(c, f);
      }
      assert abs == BufferPush(limits, was, c, f, io);
    }

    /** Gives a line the chat's next sequence number. */
    method StampLine(c: ChatId, line: Line) returns (f: Frame)
      requires Valid() && c in chats
      modifies `chats, `abs
      ensures Valid() && abs == Stamped(old(abs), c, line) && f == Stamp(old(chats)[c], line)
    {
      var e := chats[c];
      f := Stamp(e, line);
      var log := if line.sensitive then e.ledger else e.ledger.(stamped := e.ledger.stamped + multiset{f});
      chats := chats[c := e.(nextSeq := e.nextSeq + 1, ledger := log)];
      Become(Stamped(abs, c, line));
    }

    /** Counts a frame that is over the size limit. */
    method SkipOversize(c: ChatId, f: Frame)
      requires Valid()
      modifies `chats, `abs
      ensures Valid() && abs == CountOversize(old(abs), c, f)
    {
      if c in chats {
        var e := chats[c];
        chats := chats[c := e.(ledger := e.ledger.(oversize := e.ledger.oversize + multiset{f}))];
      }
      Become(CountOversize(abs, c, f));
    }

    /** Decides where a stamped frame goes. One returned is to be sent live, and the hub waits
        for the outcome. */
    method Route(c: ChatId, f: Frame, line: Line, online: bool, io: PushIo) returns (send: Option<Frame>)
      requires Valid() && abs.live.Idle?
      modifies this, buffer, buffer.chats.Values
      ensures Valid() && abs == Dispatch(limits, old(abs), c, f, line, online, io)
      ensures fresh(buffer.chats.Values - old(buffer.chats.Values))
      ensures send == if online && line.wireSize <= limits.maxFrame then Some(f) else None
    {
      send := None;
      if (if online then line.wireSize else f.Size()) > limits.maxFrame {
        if !line.sensitive {
          SkipOversize(c, f);
        }
      } else if online {
        Become(abs.(live := Sending(c, f, line.sensitive, false)));
        send := Some(f);
      } else if !line.sensitive {
        BufferFrame(c, f, io);
      }
    }

    /** Stamps a line of a running process and sends it on its way. A frame returned is to be
        sent: exactly if the chat is live on an authenticated connection and its event fits. */
    method ForwardFrame(c: ChatId, line: Line, io: PushIo) returns (send: Option<Frame>)
      requires Valid() && abs.live.Idle?
      modifies this, buffer, buffer.chats.Values
      ensures Valid() && abs == Forward(limits, old(abs), c, line, io)
      ensures fresh(buffer.chats.Values - old(buffer.chats.Values))
      ensures send.Some? <==>
        && c in old(chats) && old(chats)[c].alive && old(authenticated) && !old(chats)[c].buffered
        && line.wireSize <= limits.maxFrame
      ensures send.Some? ==>
        && send.value == Frame(old(chats)[c].nextSeq, old(chats)[c].epoch, line.jsonrpc, line.id, line.body)
        && abs.live == Sending(c, send.value, line.sensitive, false)
    {
      if c !in chats || !chats[c].alive {
        return None;
      }
      ForwardIs(limits, abs, c, line, io);
      SendsLive(limits, abs, c, line, io);
      send := ForwardKnown(c, line, io);
    }

    method ForwardKnown(c: ChatId, line: Line, io: PushIo) returns (send: Option<Frame>)
      requires Valid() && abs.live.Idle? && c in chats && chats[c].alive
      modifies this, buffer, buffer.chats.Values
      ensures Valid() && abs == Dispatch(limits, Stamped(old(abs), c, line), c, Stamp(old(chats)[c], line), line,
                                         old(authenticated) && !old(chats)[c].buffered, io)
      ensures fresh(buffer.chats.Values - old(buffer.chats.Values))
      ensures send == if old(authenticated) && !old(chats)[c].buffered && line.wireSize <= limits.maxFrame
                      then Some(Stamp(old(chats)[c], line)) else None
    {
      var online := authenticated && !chats[c].buffered;
      var f := StampLine(c, line);
      send := Route(c, f, line, online, io);
    }

    /** The live send has ended: a frame that was not sent is buffered. */
    method LiveSent(c: ChatId, f: Frame, sensitive: bool, ok: bool, io: PushIo)
      requires Valid() && abs.live.Sending? && abs.live.c == c && abs.live.f == f && abs.live.sensitive == sensitive
      modifies this, buffer, buffer.chats.Values
      ensures Valid() && abs == FinishLive(limits, old(abs), ok, io)
      ensures fresh(buffer.chats.Values - old(buffer.chats.Values))
    {
      ghost var was := abs;
      Become(abs.(live := Idle));
      if !sensitive && !ok {
        BufferFrame(c, f, io);
      } else if !sensitive {
        Acknowledge(c, f);
      }
      assert abs == FinishLive(limits, was, ok, io);
    }

    /** History: a frame was sent live. */
    method Acknowledge(c: ChatId, f: Frame)
      requires Valid()
      modifies `chats, `abs
      ensures Valid() && abs == old(abs).(chats := AckedChats(old(abs).chats, c, f))
    {
      if c in chats {
        chats := chats[c := Acked(chats[c], f)];
      }
      Become(abs.(chats := chats));
    }

    /** The process of a chat has exited: its epoch stays on record, its process group does not. */
    method OnExit(c: ChatId, recordOk: bool)
      requires Valid()
      modifies this, buffer, watermark
      ensures Valid() && abs == HandleExit(old(abs), c, recordOk)
      ensures buffer.chats == old(buffer.chats) - {c}
      ensures c in old(chats) ==>
        watermark.chats == old(watermark.chats)[c := Mark(old(chats)[c].epoch, 0, None)]
      ensures c !in old(chats) ==> watermark.chats == old(watermark.chats)
    {
      if c in chats {
        var epoch := chats[c].epoch;
        chats := chats[c := chats[c].(alive := false)];
        watermark.Record(c, Mark(epoch, 0, None), recordOk);
      }
      buffer.Remove(c);
      Become(HandleExit(abs, c, recordOk));
    }

    /** A process was started for a chat that has none: its epoch and process group are recorded
        before any of its frames can be forwarded. */
    method OnSpawned(c: ChatId, pgid: int, fingerprint: Option<string>, recordOk: bool)
      requires Valid()
      modifies this, watermark
      ensures Valid() && abs == HandleSpawn(old(abs), c, recordOk)
      ensures c in old(chats) && old(chats)[c].alive ==> chats == old(chats) && watermark.chats == old(watermark.chats)
      ensures !(c in old(chats) && old(chats)[c].alive) ==>
        c in chats && watermark.chats == old(watermark.chats)[c := Mark(chats[c].epoch, pgid, fingerprint)]
    {
      if c in chats && chats[c].alive {
        return;
      }
      var epoch := if c in watermark.chats then watermark.chats[c].epoch + 1 else 1;
      chats := chats[c := Entry(true, epoch, 1, false, NO_FRAMES)];
      watermark.Record(c, Mark(epoch, pgid, fingerprint), recordOk);
      SpawnIs(abs, c, recordOk);
      Become(HandleSpawn(abs, c, recordOk));
    }

    /** Authenticated: the old resync task is aborted, its batch put back, a new one started. */
    method OnAuthenticated() returns (ghost ids: seq<ChatId>)
      requires Valid() && abs.signals != [] && abs.signals[0] == Authenticated
      modifies this, buffer, buffer.chats.Values
      ensures Valid() && buffer.chats == old(buffer.chats)
      ensures InFlightOrder(old(abs).buffer, ids) && abs == OnSignal(limits, old(abs), ids)
    {
      ids := PutBackAll();
      authenticated := true;
      Become(abs.(auth := true, sync := Ready, signals := abs.signals[1..]));
    }

    method PutBackAll() returns (ghost ids: seq<ChatId>)
      requires Valid()
      modifies this, buffer, buffer.chats.Values
      ensures Valid() && buffer.chats == old(buffer.chats)
      ensures InFlightOrder(old(abs).buffer, ids) && abs == old(abs).(buffer := RollbackEach(limits, old(abs).buffer, ids))
    {
      ids := buffer.RollbackAll();
      Become(abs.(buffer := buffer.abs));
    }

    /** Disconnected: all terminals are closed, and every running chat buffers from now on. */
    method OnDisconnected(terminals: TerminalHosts.TerminalHost) returns (ghost ids: seq<ChatId>)
      requires Valid() && abs.signals != [] && abs.signals[0] == Disconnected && terminals.Valid()
      modifies this, buffer, buffer.chats.Values, terminals
      ensures terminals.Valid() && terminals.sessions == map[]
      ensures terminals.abs == TerminalHosts.Next(old(terminals.abs), TerminalHosts.CloseAll)
      ensures Valid() && buffer.chats == old(buffer.chats)
      ensures InFlightOrder(old(abs).buffer, ids) && abs == OnSignal(limits, old(abs), ids)
    {
      CloseTerminals(terminals);
      ids := EnterBuffering();
    }

    method CloseTerminals(terminals: TerminalHosts.TerminalHost)
      requires Valid() && terminals.Valid()
      modifies terminals
      ensures terminals.Valid() && terminals.sessions == map[]
      ensures terminals.abs == TerminalHosts.Next(old(terminals.abs), TerminalHosts.CloseAll)
      ensures Valid() && abs == old(abs)
    {
      terminals.CloseEverything();
    }

    method EnterBuffering() returns (ghost ids: seq<ChatId>)
      requires Valid() && abs.signals != [] && abs.signals[0] == Disconnected
      modifies this, buffer, buffer.chats.Values
      ensures Valid() && buffer.chats == old(buffer.chats)
      ensures InFlightOrder(old(abs).buffer, ids) && abs == OnSignal(limits, old(abs), ids)
    {
      BufferAll();
      ids := PutBackAll();
      authenticated := false;
      DisconnectedIs(limits, old(abs), ids);
      Become(OnSignal(limits, old(abs), ids));
    }

    method BufferAll()
      requires Valid()
      modifies `chats, `abs
      ensures Valid() && abs == old(abs).(chats := MarkAllBuffered(old(abs).chats))
    {
      ghost var was := chats;
      var todo := chats.Keys;
      while todo != {}
        invariant todo <= chats.Keys == was.Keys && abs == old(abs)
        invariant forall c :: c in chats ==> chats[c] == if c !in todo && was[c].alive then was[c].(buffered := true) else was[c]
        decreases todo
      {
        var c :| c in todo;
        if chats[c].alive {
          chats := chats[c := chats[c].(buffered := true)];
        }
        todo := todo - {c};
      }
      Become(abs.(chats := chats));
    }

    /** One pass of the resync task: clears the flag of drained chats, picks a batch. */
    method PickBatch(order: seq<ChatId>, disks: ChatId -> DrainIo) returns (job: Option<Picked>, done: bool)
      requires Valid()
      modifies this, buffer, buffer.chats.Values
      ensures Valid() && buffer.chats == old(buffer.chats)
      ensures abs == Resync(old(abs), order, disks) && job == Pass(old(abs).chats, old(abs).buffer, order, disks).2
      ensures done <==> abs.sync.Off?
      ensures done <==> job.None? && forall c :: c in chats ==> !chats[c].buffered
    {
      chats, job := PassOver(buffer, chats, order, disks);
      done := job.None? && forall c :: c in chats ==> !chats[c].buffered;
      ResyncIs(abs, order, disks);
      Become(Resync(abs, order, disks));
    }

    /** The batch was sent. */
    method BatchSent(c: ChatId, epoch: nat, frames: seq<Frame>)
      requires Valid() && abs.sync.Replaying? && abs.sync.c == c && abs.sync.epoch == epoch && abs.sync.job.frames == frames
      modifies this, buffer, buffer.chats.Values
      ensures Valid() && buffer.chats == old(buffer.chats) && abs == FinishBatch(limits, old(abs), true)
    {
      buffer.Commit(c);
      Become(abs.(buffer := buffer.abs, sync := Ready));
      MarkCommitted(c, epoch, frames);
    }

    /** History: the frames were sent in a batch. */
    method MarkCommitted(c: ChatId, epoch: nat, frames: seq<Frame>)
      requires Valid()
      modifies `chats, `abs
      ensures Valid() && abs == old(abs).(chats := CommittedChats(old(abs).chats, c, epoch, frames))
    {
      if c in chats && chats[c].epoch == epoch && chats[c].alive {
        chats := chats[c := Committed(chats[c], frames)];
      }
      Become(abs.(chats := chats));
    }

    /** The connection broke: the batch goes back, and the task ends. */
    method BatchInterrupted(c: ChatId)
      requires Valid() && abs.sync.Replaying? && abs.sync.c == c
      modifies this, buffer, buffer.chats.Values
      ensures Valid() && buffer.chats == old(buffer.chats) && abs == FinishBatch(limits, old(abs), false)
    {
      buffer.Rollback(c);
      Become(abs.(buffer := buffer.abs, sync := Off));
    }
  }

  lemma ForwardIs(l: Limits, h: Hub, c: ChatId, line: Line, io: PushIo)
    requires Wf(h.buffer) && c in h.chats && h.chats[c].alive
    ensures var e := h.chats[c];
      Forward(l, h, c, line, io)
         == Dispatch(l, Stamped(h, c, line), c, Stamp(e, line), line, h.auth && !e.buffered, io)
  {
  }

  lemma SendsLive(l: Limits, h: Hub, c: ChatId, line: Line, io: PushIo)
    requires Wf(h.buffer) && c in h.chats && h.chats[c].alive
    ensures h.auth && !h.chats[c].buffered && line.wireSize <= l.maxFrame ==>
      Forward(l, h, c, line, io).live == Sending(c, Stamp(h.chats[c], line), line.sensitive, false)
  {
  }

  lemma ResyncIs(h: Hub, order: seq<ChatId>, disks: ChatId -> DrainIo)
    requires Wf(h.buffer)
    ensures var h', p := Resync(h, order, disks), Pass(h.chats, h.buffer, order, disks);
      && h'.chats == p.0 && h'.buffer == p.1 && h'.auth == h.auth && h'.wmem == h.wmem && h'.wdisk == h.wdisk
      && (h'.sync.Off? <==> p.2.None? && AllLive(p.0))
  {
  }

  lemma DisconnectedIs(l: Limits, h: Hub, ids: seq<ChatId>)
    requires Wf(h.buffer) && h.signals != [] && h.signals[0] == Disconnected
    ensures var h' := OnSignal(l, h, ids);
      && h'.buffer == RollbackEach(l, h.buffer, ids) && !h'.auth && h'.chats == MarkAllBuffered(h.chats)
      && h'.wmem == h.wmem && h'.wdisk == h.wdisk
  {
  }

  lemma SpawnIs(h: Hub, c: ChatId, ok: bool)
    requires !(c in h.chats && h.chats[c].alive)
    ensures var h' := HandleSpawn(h, c, ok); var epoch := NextEpoch(h, c);
      && h'.buffer == h.buffer && h'.auth == h.auth
      && h'.chats == h.chats[c := Entry(true, epoch, 1, false, NO_FRAMES)]
      && h'.wmem == h.wmem[c := epoch] && h'.wdisk == if ok then h.wmem[c := epoch] else h.wdisk
  {
  }

  /** Visits the chats in order: a chat with nothing pending goes live, the first that yields
      a batch ends the pass. */
  method PassOver(buffer: Buffer, entries: map<ChatId, Entry>, order: seq<ChatId>, disks: ChatId -> DrainIo)
    returns (chats: map<ChatId, Entry>, job: Option<Picked>)
    requires buffer.Valid()
    modifies buffer, buffer.chats.Values
    ensures buffer.Valid() && buffer.chats == old(buffer.chats)
    ensures (chats, buffer.abs, job) == Pass(entries, old(buffer.abs), order, disks)
  {
    chats := entries;
    var k := 0;
    ghost var b := buffer.abs;
    assert order[0..] == order;
    while k < |order|
      invariant k <= |order| && buffer.Valid() && buffer.chats == old(buffer.chats) && buffer.abs == b
      invariant Pass(entries, b, order, disks) == Pass(chats, b, order[k..], disks)
    {
      var c := order[k];
      assert order[k..][0] == c && order[k..][1..] == order[k + 1..];
      if c in chats && chats[c].buffered {
        var pending := buffer.HasPending(c);
        if !pending {
          chats := chats[c := chats[c].(buffered := false)];
        } else {
          var d := buffer.DrainBatch(c, SYNC_BATCH_MAX_FRAMES, SYNC_BATCH_MAX_BYTES, disks(c).firstOk, disks(c).good);
          if d.Some? {
            return chats, Some(Picked(c, chats[c].epoch, d.value));
          }
        }
      }
      k := k + 1;
    }
    job := None;
  }

  /** The loop has sent `sent` and goes on from here. */
  ghost predicate GoesOn(whole: Looped, sent: seq<Picked>, rest: Looped) {
    whole == rest.(sent := sent + rest.sent)
  }

  lemma LoopStep(l: Limits, env: Env, chats: map<ChatId, Entry>, b: State, n: nat, whole: Looped, sent: seq<Picked>)
    requires Wf(b) && GoesOn(whole, sent, Loop(l, env, chats, b, n))
    ensures var (chats', b', p) := Pass(chats, b, env.orders(n), env.disks(n));
      && (p.None? ==> whole == Looped(chats', b', sent, if AllLive(chats') then Complete else Sleeping))
      && (p.Some? && !env.sends(n) ==> whole == Looped(chats', Rollback(l, b', p.value.c), sent, Interrupted))
      && (p.Some? ==> Total(Commit(b', p.value.c)).frames < Total(b).frames)
      && (p.Some? && env.sends(n) ==>
           GoesOn(whole, sent + [p.value], Loop(l, env, Confirmed(chats', p.value), Commit(b', p.value.c), n + 1)))
  {
    var (chats', b', p) := Pass(chats, b, env.orders(n), env.disks(n));
    assert sent + [] == sent;
    if p.Some? {
      PickShrinks(chats, b, env.orders(n), env.disks(n));
      var rest := Loop(l, env, Confirmed(chats', p.value), Commit(b', p.value.c), n + 1);
      assert sent + ([p.value] + rest.sent) == (sent + [p.value]) + rest.sent;
    }
  }

  /** The resync loop while nothing new arrives, up to its end or to where it would sleep and
      try again. */
  method ResyncLoop(buffer: Buffer, entries: map<ChatId, Entry>, env: Env)
    returns (chats: map<ChatId, Entry>, sent: seq<Picked>, end: LoopEnd)
    requires buffer.Valid()
    modifies buffer, buffer.chats.Values
    ensures buffer.Valid() && buffer.chats == old(buffer.chats)
    ensures Looped(chats, buffer.abs, sent, end) == Loop(buffer.limits, env, entries, old(buffer.abs), 0)
  {
    ghost var whole := Loop(buffer.limits, env, entries, buffer.abs, 0);
    var n: nat := 0;
    chats, sent := entries, [];
    assert [] + whole.sent == whole.sent;
    while true
      invariant buffer.Valid() && buffer.chats == old(buffer.chats)
      invariant GoesOn(whole, sent, Loop(buffer.limits, env, chats, buffer.abs, n))
      decreases Total(buffer.abs).frames
    {
      LoopStep(buffer.limits, env, chats, buffer.abs, n, whole, sent);
      var job;
      chats, job := PassOver(buffer, chats, env.orders(n), env.disks(n));
      if job.None? {
        end := if forall c :: c in chats ==> !chats[c].buffered then Complete else Sleeping;
        return;
      }
      if !env.sends(n) {
        buffer.Rollback(job.value.c);
        end := Interrupted;
        return;
      }
      sent := sent + [job.value];
      buffer.Commit(job.value.c);
      chats := Confirmed(chats, job.value);
      n := n + 1;
    }
  }
}
