/** No two child frames ever share chat, epoch and sequence number, over respawns and daemon
    restarts, as far as the watermark file allows. */
module HubEpochs {
  import opened Frames
  import opened Sessions
  import opened Budget
  import opened BufferSpec
  import opened HubSpec
  import opened HubQueues

  /** The i-th number was given out under an epoch these epochs cover. */
  predicate Within(stamps: seq<Out>, epochs: map<ChatId, nat>, i: nat)
    requires i < |stamps|
  {
    stamps[i].epoch <= Wm(epochs, stamps[i].c)
  }

  predicate Counted(stamps: seq<Out>, chats: map<ChatId, Entry>, i: nat)
    requires i < |stamps|
  {
    && stamps[i].seqNo >= 1
    && (stamps[i].c in chats && stamps[i].epoch == chats[stamps[i].c].epoch ==>
         stamps[i].seqNo < chats[stamps[i].c].nextSeq)
  }

  ghost predicate AllWithin(stamps: seq<Out>, epochs: map<ChatId, nat>) {
    forall i: nat {:trigger Within(stamps, epochs, i)} :: i < |stamps| ==> Within(stamps, epochs, i)
  }

  /** Every number given out is covered by the watermark and by the counter of its epoch. */
  ghost predicate Unique(stamps: seq<Out>, wmem: map<ChatId, nat>, chats: map<ChatId, Entry>) {
    && NoDup(stamps) && AllWithin(stamps, wmem)
    && (forall i: nat {:trigger Counted(stamps, chats, i)} :: i < |stamps| ==> Counted(stamps, chats, i))
  }

  ghost predicate Epochs(h: Hub) {
    && Unique(h.stamps, h.wmem, h.chats)
    && (forall c :: c in h.chats ==> c in h.wmem && h.chats[c].epoch == h.wmem[c] && h.chats[c].nextSeq >= 1)
  }

  /** The epochs a daemon would find if it started now. */
  function Found(h: Hub, corrupt: bool): map<ChatId, nat> {
    if corrupt then map[] else h.wdisk
  }

  /** What the daemon would find covers every number given out so far. */
  ghost predicate Covered(h: Hub, corrupt: bool) {
    AllWithin(h.stamps, Found(h, corrupt))
  }

  /** Whenever the daemon of this run dies, the file covers the numbers given out. */
  ghost predicate CoveredRun(l: Limits, acts: seq<Action>)
    decreases |acts|
  {
    acts != [] ==>
      && CoveredRun(l, acts[..|acts| - 1])
      && (acts[|acts| - 1].Crash? ==> Covered(After(l, acts[..|acts| - 1]), acts[|acts| - 1].corrupt))
  }

  // ---------------------------------------------------------------------------
  // Steps
  // ---------------------------------------------------------------------------

  lemma StampUnique(stamps: seq<Out>, wmem: map<ChatId, nat>, chats: map<ChatId, Entry>, c: ChatId, e': Entry)
    requires Unique(stamps, wmem, chats) && c in chats && chats[c].epoch <= Wm(wmem, c) && chats[c].nextSeq >= 1
    requires e'.epoch == chats[c].epoch && e'.nextSeq == chats[c].nextSeq + 1
    ensures Unique(stamps + [Out(c, chats[c].epoch, chats[c].nextSeq)], wmem, chats[c := e'])
  {
    var o, chats' := Out(c, chats[c].epoch, chats[c].nextSeq), chats[c := e'];
    var s' := stamps + [o];
    forall i: nat | i < |stamps| ensures stamps[i] != o {
      assert Counted(stamps, chats, i);
    }
    NoDupSnoc(stamps, o);
    forall i: nat | i < |s'| ensures Within(s', wmem, i) && Counted(s', chats', i) {
      assert i < |stamps| ==> Within(stamps, wmem, i) && Counted(stamps, chats, i);
    }
  }

  predicate SameNumbers(h: Hub, h': Hub, c: ChatId)
    requires c in h'.chats
  {
    c in h.chats && h'.chats[c].epoch == h.chats[c].epoch && h'.chats[c].nextSeq == h.chats[c].nextSeq
  }

  /** A step that gives out no number and records no epoch. */
  ghost predicate Quiet(h: Hub, h': Hub) {
    && h'.stamps == h.stamps && h'.wdisk == h.wdisk && h'.wmem == h.wmem
    && (forall c :: c in h'.chats ==> SameNumbers(h, h', c))
  }

  /** Flags, ledgers, liveness and the file do not matter, and chats may disappear. */
  lemma SameEpochs(h: Hub, h': Hub)
    requires Epochs(h) && h'.stamps == h.stamps && h'.wmem == h.wmem
    requires forall c :: c in h'.chats ==> SameNumbers(h, h', c)
    ensures Epochs(h')
  {
    forall i: nat | i < |h.stamps| ensures Within(h'.stamps, h'.wmem, i) && Counted(h'.stamps, h'.chats, i) {
      assert Within(h.stamps, h.wmem, i) && Counted(h.stamps, h.chats, i);
    }
  }

  lemma CountQuiet(h: Hub, c: ChatId, f: Frame)
    ensures Quiet(h, CountOversize(h, c, f))
  {
  }

  lemma PushQuiet(l: Limits, h: Hub, c: ChatId, f: Frame, io: PushIo)
    requires Wf(h.buffer)
    ensures Quiet(h, BufferPush(l, h, c, f, io)) && Quiet(h, CountOversize(h, c, f))
  {
    var h1 := h.(buffer := Push(l, h.buffer, c, f, io.openOk, io.appendOk, io.disks).0);
    CountQuiet(h, c, f);
    CountQuiet(h1, c, f);
    assert Quiet(h, h1);
  }

  /** After the stamp, forwarding a line is quiet. */
  lemma ForwardQuiet(l: Limits, h: Hub, c: ChatId, line: Line, io: PushIo)
    requires Wf(h.buffer) && c in h.chats && h.chats[c].alive
    ensures Quiet(Stamped(h, c, line), Forward(l, h, c, line, io))
    ensures Forward(l, h, c, line, io).chats.Keys == h.chats.Keys
  {
    var h1 := Stamped(h, c, line);
    PushQuiet(l, h1, c, Stamp(h.chats[c], line), io);
  }

  lemma SpawnUnique(h: Hub, c: ChatId, ok: bool)
    requires Epochs(h) && h.live.Idle?
    ensures Epochs(HandleSpawn(h, c, ok))
  {
    var h' := HandleSpawn(h, c, ok);
    if !(c in h.chats && h.chats[c].alive) {
      forall i: nat | i < |h.stamps| ensures Within(h'.stamps, h'.wmem, i) && Counted(h'.stamps, h'.chats, i) {
        assert Within(h.stamps, h.wmem, i) && Counted(h.stamps, h.chats, i);
      }
    }
  }

  lemma ExitUnique(h: Hub, c: ChatId, ok: bool)
    requires Wf(h.buffer) && Epochs(h)
    ensures Epochs(HandleExit(h, c, ok))
  {
    if c in h.chats {
      assert h.wmem[c := h.chats[c].epoch] == h.wmem;
    }
    SameEpochs(h, HandleExit(h, c, ok));
  }

  lemma ForwardUnique(l: Limits, h: Hub, c: ChatId, line: Line, io: PushIo)
    requires Wf(h.buffer) && Epochs(h)
    ensures Epochs(Forward(l, h, c, line, io))
  {
    if c in h.chats && h.chats[c].alive {
      var h1 := Stamped(h, c, line);
      StampUnique(h.stamps, h.wmem, h.chats, c, h1.chats[c]);
      assert Epochs(h1);
      ForwardQuiet(l, h, c, line, io);
      SameEpochs(h1, Forward(l, h, c, line, io));
    }
  }

  lemma LiveDoneQuiet(l: Limits, h: Hub, ok: bool, io: PushIo)
    requires Wf(h.buffer) && h.live.Sending?
    ensures Quiet(h, FinishLive(l, h, ok, io))
  {
    PushQuiet(l, h.(live := Idle), h.live.c, h.live.f, io);
  }

  lemma ResyncQuiet(h: Hub, order: seq<ChatId>, disks: ChatId -> DrainIo)
    requires Wf(h.buffer)
    ensures Quiet(h, Resync(h, order, disks))
  {
    PassEffect(h.chats, h.buffer, order, disks);
  }

  lemma BatchQuiet(l: Limits, h: Hub, ok: bool)
    requires Wf(h.buffer) && h.sync.Replaying?
    ensures Quiet(h, FinishBatch(l, h, ok))
  {
  }

  lemma SignalQuiet(l: Limits, h: Hub, ids: seq<ChatId>)
    requires Wf(h.buffer) && h.signals != []
    ensures Quiet(h, OnSignal(l, h, ids))
  {
  }

  /** A step that neither stamps, starts, ends nor crashes leaves all numbers alone. */
  lemma OtherQuiet(l: Limits, h: Hub, a: Action)
    requires Wf(h.buffer) && !a.ChildFrame? && !a.Exit? && !a.Spawn? && !a.Crash?
    ensures Quiet(h, Next(l, h, a))
  {
    if !Enabled(h, a) {
      return;
    }
    match a
    case ResyncPass(order, disks) => ResyncQuiet(h, order, disks);
    case LiveDone(ok, io) => LiveDoneQuiet(l, h, ok, io);
    case BatchDone(ok) => BatchQuiet(l, h, ok);
    case TakeSignal(ids) => SignalQuiet(l, h, ids);
    case _ =>
  }

  lemma CrashUnique(l: Limits, h: Hub, corrupt: bool)
    requires Epochs(h) && Covered(h, corrupt)
    ensures Epochs(Restart(h, corrupt))
  {
    var h' := Restart(h, corrupt);
    forall i: nat | i < |h.stamps| ensures Within(h'.stamps, h'.wmem, i) && Counted(h'.stamps, h'.chats, i) {
      assert Within(h.stamps, Found(h, corrupt), i) && Counted(h.stamps, h.chats, i);
    }
  }

  /** Every step keeps the numbers unique, a crash if the file covers them. */
  lemma {:induction false} NextUnique(l: Limits, h: Hub, a: Action)
    requires Wf(h.buffer) && Epochs(h) && (a.Crash? ==> Covered(h, a.corrupt))
    ensures Epochs(Next(l, h, a))
  {
    if !Enabled(h, a) {
      return;
    }
    match a
    case ChildFrame(c, line, io) => ForwardUnique(l, h, c, line, io);
    case Exit(c, recordOk) => ExitUnique(h, c, recordOk);
    case Spawn(c, recordOk) => SpawnUnique(h, c, recordOk);
    case Crash(corrupt) => CrashUnique(l, h, corrupt);
    case _ =>
      OtherQuiet(l, h, a);
      SameEpochs(h, Next(l, h, a));
  }

  lemma {:induction false} AlwaysUnique(l: Limits, acts: seq<Action>)
    requires CoveredRun(l, acts)
    ensures Epochs(After(l, acts))
    decreases |acts|
  {
    if acts != [] {
      AlwaysUnique(l, acts[..|acts| - 1]);
      NextUnique(l, After(l, acts[..|acts| - 1]), acts[|acts| - 1]);
    }
  }

  /** No two child frames ever share chat, epoch and number, over every respawn and restart,
      if at each crash the file covers the numbers given out. */
  lemma {:induction false} NumbersAreUnique(l: Limits, acts: seq<Action>, i: nat, j: nat)
    requires CoveredRun(l, acts) && i < j < |After(l, acts).stamps|
    ensures After(l, acts).stamps[i] != After(l, acts).stamps[j]
  {
    AlwaysUnique(l, acts);
    assert Differ(After(l, acts).stamps, i, j);
  }

  // ---------------------------------------------------------------------------
  // Safe writes
  // ---------------------------------------------------------------------------

  /** A watermark write that fails while a process starts is the daemon's last step, and the
      file itself is never damaged. */
  predicate SafeWrites(acts: seq<Action>) {
    forall i :: 0 <= i < |acts| ==>
      && acts[i] != Crash(true)
      && (acts[i].Spawn? && !acts[i].recordOk && i + 1 < |acts| ==> acts[i + 1].Crash?)
  }

  /** The file is up to date, or at least covers the numbers given out. */
  ghost predicate Saved(h: Hub, upToDate: bool) {
    AllWithin(h.stamps, h.wdisk) && (upToDate ==> h.wdisk == h.wmem)
  }

  lemma NextSaved(l: Limits, h: Hub, a: Action)
    requires Wf(h.buffer) && Epochs(h) && Saved(h, true) && a != Crash(true)
    ensures Saved(Next(l, h, a), !(a.Spawn? && !a.recordOk))
  {
    NextUnique(l, h, a);
    if !Enabled(h, a) {
      return;
    }
    match a
    case ChildFrame(c, line, io) =>
      if c in h.chats && h.chats[c].alive {
        ForwardQuiet(l, h, c, line, io);
      }
    case Exit(c, recordOk) =>
      if c in h.chats {
        assert h.wmem[c := h.chats[c].epoch] == h.wmem;
      }
    case Spawn(c, recordOk) =>
    case Crash(_) =>
    case _ => OtherQuiet(l, h, a);
  }

  /** Such a run is covered at every crash. */
  lemma {:induction false} SafeWritesCover(l: Limits, acts: seq<Action>)
    requires SafeWrites(acts)
    ensures CoveredRun(l, acts)
    ensures Saved(After(l, acts), acts == [] || !(acts[|acts| - 1].Spawn? && !acts[|acts| - 1].recordOk))
    decreases |acts|
  {
    if acts != [] {
      var n := |acts| - 1;
      var init := acts[..n];
      assert SafeWrites(init) by {
        forall i | 0 <= i < |init|
          ensures init[i] != Crash(true)
          ensures init[i].Spawn? && !init[i].recordOk && i + 1 < |init| ==> init[i + 1].Crash?
        {
          assert init[i] == acts[i];
        }
      }
      SafeWritesCover(l, init);
      AlwaysUnique(l, init);
      if n > 0 && acts[n - 1].Spawn? && !acts[n - 1].recordOk {
        assert acts[n] == Crash(false);
      } else {
        NextSaved(l, After(l, init), acts[n]);
      }
    }
  }

  // ---------------------------------------------------------------------------
  // When the write fails and the daemon goes on
  // ---------------------------------------------------------------------------

  /** The daemon starts a process, which prints a line. */
  function Life(c: ChatId, ok: bool, line: Line, io: PushIo): seq<Action> {
    [Spawn(c, ok), ChildFrame(c, line, io)]
  }

  /** The daemon dies, starts again, and is connected again. */
  function Reboot(): seq<Action> {
    [Crash(false), Connect, TakeSignal([])]
  }

  lemma LifeStamps(l: Limits, h: Hub, c: ChatId, ok: bool, line: Line, io: PushIo)
    requires Wf(h.buffer) && h.live.Idle? && h.auth && !(c in h.chats && h.chats[c].alive)
    ensures var h' := RunFrom(l, h, Life(c, ok, line, io));
      && h'.stamps == h.stamps + [Out(c, Wm(h.wmem, c) + 1, 1)]
      && h'.wdisk == if ok then h.wmem[c := Wm(h.wmem, c) + 1] else h.wdisk
  {
    var h1 := HandleSpawn(h, c, ok);
    assert Next(l, h, Spawn(c, ok)) == h1;
    ForwardStamps(l, h1, c, line, io);
    var h2 := Forward(l, h1, c, line, io);
    assert Next(l, h1, ChildFrame(c, line, io)) == h2;
    var acts := Life(c, ok, line, io);
    assert acts[1..][1..] == [] && acts[1..][0] == acts[1];
    assert RunFrom(l, h2, []) == h2;
    assert RunFrom(l, h1, acts[1..]) == h2;
  }

  lemma ForwardStamps(l: Limits, h: Hub, c: ChatId, line: Line, io: PushIo)
    requires Wf(h.buffer) && c in h.chats && h.chats[c].alive
    ensures var h' := Forward(l, h, c, line, io);
      h'.stamps == h.stamps + [Out(c, h.chats[c].epoch, h.chats[c].nextSeq)] && h'.wdisk == h.wdisk
  {
    ForwardQuiet(l, h, c, line, io);
  }

  lemma RebootState(l: Limits, h: Hub)
    requires Wf(h.buffer)
    ensures var h' := RunFrom(l, h, Reboot());
      && h'.live.Idle? && h'.auth && h'.chats == map[] && h'.wmem == h.wdisk && h'.stamps == h.stamps
  {
    var h1 := Next(l, h, Crash(false));
    var h2 := Next(l, h1, Connect);
    var h3 := Next(l, h2, TakeSignal([]));
    assert h2.signals == [Authenticated] && h2.buffer == EMPTY && h2.live.Idle?;
    assert InFlightOrder(h2.buffer, []);
    var acts := Reboot();
    assert acts[1..][1..][1..] == [];
    assert RunFrom(l, h3, []) == h3;
    assert RunFrom(l, h2, acts[1..][1..]) == h3;
    assert RunFrom(l, h1, acts[1..]) == h3;
  }

  /** From any state with an up-to-date file, starting a process twice around a crash hands
      out fresh numbers exactly if the write of its first epoch succeeded. */
  lemma {:induction false} FailedWriteReusesNumbers(l: Limits, acts: seq<Action>, c: ChatId, ok: bool, x: Line, y: Line, io: PushIo)
    requires CoveredRun(l, acts) && After(l, acts).wdisk == After(l, acts).wmem
    requires var h := After(l, acts); h.live.Idle? && h.auth && !(c in h.chats && h.chats[c].alive)
    ensures NoDup(After(l, acts + (Life(c, ok, x, io) + (Reboot() + Life(c, true, y, io)))).stamps) <==> ok
  {
    AlwaysUnique(l, acts);
    AfterMore(l, acts, Life(c, ok, x, io) + (Reboot() + Life(c, true, y, io)));
    ReuseIff(l, After(l, acts), c, ok, x, y, io);
  }

  lemma ReuseIff(l: Limits, h: Hub, c: ChatId, ok: bool, x: Line, y: Line, io: PushIo)
    requires Wf(h.buffer) && Epochs(h) && h.wdisk == h.wmem
    requires h.live.Idle? && h.auth && !(c in h.chats && h.chats[c].alive)
    ensures NoDup(RunFrom(l, h, Life(c, ok, x, io) + (Reboot() + Life(c, true, y, io))).stamps) <==> ok
  {
    var n := Wm(h.wmem, c) + 1;
    var m := if ok then n + 1 else n;
    LifeStamps(l, h, c, ok, x, io);
    RunFromJoin(l, h, Life(c, ok, x, io), Reboot() + Life(c, true, y, io));
    var h1 := RunFrom(l, h, Life(c, ok, x, io));
    RebootState(l, h1);
    RunFromJoin(l, h1, Reboot(), Life(c, true, y, io));
    var h2 := RunFrom(l, h1, Reboot());
    assert Wm(h2.wmem, c) + 1 == m;
    LifeStamps(l, h2, c, true, y, io);
    FreshStamp(h, c, n);
    TwoStamps(h.stamps, Out(c, n, 1), Out(c, m, 1));
    if ok {
      FreshStamp(h, c, m);
    }
  }

  lemma TwoStamps(s: seq<Out>, a: Out, b: Out)
    requires NoDup(s) && a !in s
    ensures NoDup((s + [a]) + [b]) <==> b !in s && b != a
  {
    NoDupSnoc(s, a);
    var s' := (s + [a]) + [b];
    if b !in s && b != a {
      NoDupSnoc(s + [a], b);
    } else if b == a {
      assert !Differ(s', |s|, |s| + 1);
    } else {
      var i: nat :| i < |s| && s[i] == b;
      assert !Differ(s', i, |s| + 1);
    }
  }

  lemma FreshStamp(h: Hub, c: ChatId, n: nat)
    requires Epochs(h) && n > Wm(h.wmem, c)
    ensures Out(c, n, 1) !in h.stamps
  {
    forall i: nat | i < |h.stamps| ensures h.stamps[i] != Out(c, n, 1) {
      assert Within(h.stamps, h.wmem, i);
    }
  }

  // ---------------------------------------------------------------------------
  // The condition is exact
  // ---------------------------------------------------------------------------

  /** Whenever the daemon of this continuation dies, the file covers the numbers given out. */
  ghost predicate CoveredFrom(l: Limits, h: Hub, more: seq<Action>)
    requires Wf(h.buffer)
    decreases |more|
  {
    more != [] ==>
      && (more[0].Crash? ==> Covered(h, more[0].corrupt))
      && CoveredFrom(l, Next(l, h, more[0]), more[1..])
  }

  /** The daemon gets from `h` to `h'` without dying. */
  ghost predicate Lives(l: Limits, h: Hub, more: seq<Action>, h': Hub) {
    Wf(h.buffer) && RunFrom(l, h, more) == h' && forall a :: a in more ==> !a.Crash?
  }

  ghost predicate Leads(l: Limits, h: Hub, h': Hub) {
    exists more :: Lives(l, h, more, h')
  }

  lemma {:induction false} LivesCovered(l: Limits, h: Hub, more: seq<Action>)
    requires Wf(h.buffer) && forall a :: a in more ==> !a.Crash?
    ensures CoveredFrom(l, h, more)
    decreases |more|
  {
    if more != [] {
      LivesCovered(l, Next(l, h, more[0]), more[1..]);
    }
  }

  lemma LeadsTrans(l: Limits, x: Hub, y: Hub, z: Hub)
    requires Leads(l, x, y) && Leads(l, y, z)
    ensures Leads(l, x, z)
  {
    var a :| Lives(l, x, a, y);
    var b :| Lives(l, y, b, z);
    RunFromJoin(l, x, a, b);
    assert Lives(l, x, a + b, z);
  }

  lemma Steps(l: Limits, h: Hub, a: Action) returns (h': Hub)
    requires Wf(h.buffer) && !a.Crash?
    ensures h' == Next(l, h, a) && Wf(h'.buffer) && Leads(l, h, h')
  {
    h' := Next(l, h, a);
    RunFromOne(l, h, a);
    assert Lives(l, h, [a], h');
  }

  /** The hub is authenticated and free. */
  ghost predicate Free(h: Hub) {
    Wf(h.buffer) && h.auth && h.live.Idle?
  }

  lemma ExitThenSpawn(l: Limits, h: Hub, c: ChatId) returns (h': Hub)
    requires Free(h) && (c in h.chats ==> h.chats[c].epoch == Wm(h.wmem, c))
    ensures Free(h') && Leads(l, h, h') && h'.stamps == h.stamps
    ensures c in h'.chats && h'.chats[c].alive && h'.chats[c].nextSeq == 1
    ensures h'.chats[c].epoch == Wm(h'.wmem, c) == Wm(h.wmem, c) + 1
  {
    var h1 := Steps(l, h, Exit(c, true));
    assert h1.live.Idle? && h1.auth && Wm(h1.wmem, c) == Wm(h.wmem, c) && h1.stamps == h.stamps;
    assert c in h1.chats ==> !h1.chats[c].alive;
    h' := Steps(l, h1, Spawn(c, true));
    LeadsTrans(l, h, h1, h');
  }

  /** Ending and starting the process again and again reaches any later epoch. */
  lemma {:induction false} RaiseEpoch(l: Limits, h: Hub, c: ChatId, epoch: nat) returns (h': Hub)
    requires Free(h) && (c in h.chats ==> h.chats[c].epoch == Wm(h.wmem, c)) && Wm(h.wmem, c) < epoch
    ensures Free(h') && Leads(l, h, h') && h'.stamps == h.stamps
    ensures c in h'.chats && h'.chats[c].alive && h'.chats[c].nextSeq == 1 && h'.chats[c].epoch == epoch
    decreases epoch - Wm(h.wmem, c)
  {
    h' := ExitThenSpawn(l, h, c);
    if h'.chats[c].epoch < epoch {
      var h1 := h';
      h' := RaiseEpoch(l, h1, c, epoch);
      LeadsTrans(l, h, h1, h');
    }
  }

  /** A line that takes a number and is dropped. */
  ghost predicate Dropped(l: Limits, line: Line) {
    line.sensitive && |line.body| > l.maxFrame && line.wireSize > l.maxFrame
  }

  lemma PrintDropped(l: Limits, h: Hub, c: ChatId, line: Line, io: PushIo) returns (h': Hub)
    requires Free(h) && c in h.chats && h.chats[c].alive && Dropped(l, line)
    ensures Free(h') && Leads(l, h, h') && c in h'.chats && h'.chats[c].alive
    ensures h'.stamps == h.stamps + [Out(c, h.chats[c].epoch, h.chats[c].nextSeq)]
    ensures h'.chats[c].epoch == h.chats[c].epoch && h'.chats[c].nextSeq == h.chats[c].nextSeq + 1
  {
    h' := Steps(l, h, ChildFrame(c, line, io));
    assert h' == Stamped(h, c, line);
  }

  /** Printing line after line takes any later number of the epoch. */
  lemma {:induction false} PrintUntil(l: Limits, h: Hub, c: ChatId, n: nat, line: Line, io: PushIo) returns (h': Hub)
    requires Free(h) && c in h.chats && h.chats[c].alive && h.chats[c].nextSeq <= n && Dropped(l, line)
    ensures Leads(l, h, h') && h.stamps <= h'.stamps && |h.stamps| < |h'.stamps|
    ensures h'.stamps[|h'.stamps| - 1] == Out(c, h.chats[c].epoch, n)
    decreases n - h.chats[c].nextSeq
  {
    h' := PrintDropped(l, h, c, line, io);
    if h.chats[c].nextSeq < n {
      var h1 := h';
      h' := PrintUntil(l, h1, c, n, line, io);
      LeadsTrans(l, h, h1, h');
    }
  }

  /** The new daemon connects. */
  lemma Reconnects(l: Limits, h: Hub, corrupt: bool) returns (h': Hub)
    requires Wf(h.buffer)
    ensures var r := Restart(h, corrupt);
      Wf(r.buffer) && Leads(l, r, h') && Free(h') && h'.stamps == h.stamps && h'.wmem == Found(h, corrupt) && h'.chats == map[]
  {
    var r := Restart(h, corrupt);
    var h1 := Steps(l, r, Connect);
    assert h1.signals == [Authenticated] && h1.buffer == EMPTY && h1.live.Idle? && h1.chats == map[];
    assert InFlightOrder(h1.buffer, []);
    h' := Steps(l, h1, TakeSignal([]));
    LeadsTrans(l, r, h1, h');
  }

  /** A number of an epoch the file does not cover can be given out again. */
  lemma UncoveredRepeats(l: Limits, h: Hub, corrupt: bool, i: nat) returns (h': Hub)
    requires Wf(h.buffer) && Epochs(h) && i < |h.stamps| && !Within(h.stamps, Found(h, corrupt), i)
    ensures Wf(Restart(h, corrupt).buffer) && Leads(l, Restart(h, corrupt), h') && !NoDup(h'.stamps)
  {
    var o, r := h.stamps[i], Restart(h, corrupt);
    assert Counted(h.stamps, h.chats, i);
    var line := Line(false, false, seq(l.maxFrame + 1, k => 0), l.maxFrame + 1, true);
    var io := PushIo(true, true, (n, c) => true);
    var h1 := Reconnects(l, h, corrupt);
    var h2 := RaiseEpoch(l, h1, o.c, o.epoch);
    LeadsTrans(l, r, h1, h2);
    h' := PrintUntil(l, h2, o.c, o.seqNo, line, io);
    LeadsTrans(l, r, h2, h');
    assert h'.stamps[i] == o;
    assert !Differ(h'.stamps, i, |h'.stamps| - 1);
  }

  lemma {:induction false} UniqueFrom(l: Limits, h: Hub, more: seq<Action>)
    requires Wf(h.buffer) && Epochs(h) && CoveredFrom(l, h, more)
    ensures Epochs(RunFrom(l, h, more))
    decreases |more|
  {
    if more != [] {
      NextUnique(l, h, more[0]);
      UniqueFrom(l, Next(l, h, more[0]), more[1..]);
    }
  }

  lemma UncoveredFails(l: Limits, h: Hub, corrupt: bool)
    requires Wf(h.buffer) && Epochs(h) && !Covered(h, corrupt)
    ensures var h' := Next(l, h, Crash(corrupt));
      exists more :: CoveredFrom(l, h', more) && !NoDup(RunFrom(l, h', more).stamps)
  {
    var h' := Next(l, h, Crash(corrupt));
    var i: nat :| i < |h.stamps| && !Within(h.stamps, Found(h, corrupt), i);
    var t := UncoveredRepeats(l, h, corrupt, i);
    var more :| Lives(l, h', more, t);
    LivesCovered(l, h', more);
    assert CoveredFrom(l, h', more) && !NoDup(RunFrom(l, h', more).stamps);
  }

  lemma CoveredStays(l: Limits, h: Hub, corrupt: bool, more: seq<Action>)
    requires Wf(h.buffer) && Epochs(h) && Covered(h, corrupt)
    requires CoveredFrom(l, Next(l, h, Crash(corrupt)), more)
    ensures NoDup(RunFrom(l, Next(l, h, Crash(corrupt)), more).stamps)
  {
    NextUnique(l, h, Crash(corrupt));
    UniqueFrom(l, Next(l, h, Crash(corrupt)), more);
  }

  /** Exactly when the daemon may die: the file covers every number given out, if and only if
      no number is repeated whatever happens afterwards, as long as later crashes are covered. */
  lemma {:induction false} CrashIsSafeIff(l: Limits, acts: seq<Action>, corrupt: bool)
    requires CoveredRun(l, acts)
    ensures var h := After(l, acts); var h' := Next(l, h, Crash(corrupt));
      Covered(h, corrupt) <==> forall more :: CoveredFrom(l, h', more) ==> NoDup(RunFrom(l, h', more).stamps)
  {
    var h := After(l, acts);
    AlwaysUnique(l, acts);
    if Covered(h, corrupt) {
      forall more | CoveredFrom(l, Next(l, h, Crash(corrupt)), more)
        ensures NoDup(RunFrom(l, Next(l, h, Crash(corrupt)), more).stamps)
      {
        CoveredStays(l, h, corrupt, more);
      }
    } else {
      UncoveredFails(l, h, corrupt);
    }
  }
}
