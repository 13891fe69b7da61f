/** Why the order claim asks that a connection is used only after the hub has seen the end of
    the previous one: a concrete run in which it is not, and numbers on the wire go down. */
module HubRace {
  import opened Frames
  import opened Sessions
  import opened Budget
  import opened BufferSpec
  import BufferBudget
  import opened HubSpec

  /** What the run depends on, for a hub with one chat in its first epoch. */
  datatype Stage = Stage(auth: bool, up: bool, signals: seq<Signal>, next: nat, buffered: bool,
                         buffer: State, live: Live, wire: seq<Out>)

  ghost predicate In(h: Hub, c: ChatId, t: Stage) {
    && h.auth == t.auth && h.up == t.up && h.signals == t.signals
    && h.chats.Keys == {c} && h.chats[c].alive && h.chats[c].epoch == 1
    && h.chats[c].nextSeq == t.next && h.chats[c].buffered == t.buffered
    && h.buffer == t.buffer && h.live == t.live && h.wire == t.wire
  }

  ghost predicate Small(l: Limits, line: Line) {
    && !line.sensitive && |line.body| == 1 && line.wireSize <= l.maxFrame
    && l.maxFrame >= 1 && l.memBytes >= 1 && l.memFrames >= 1 && l.totalBytes >= 1 && l.totalFrames >= 1
  }

  function FrameOf(line: Line, n: nat): Frame {
    Frame(n, 1, line.jsonrpc, line.id, line.body)
  }

  function Holding(f: Frame): Session {
    EMPTY_SESSION.(mem := [f])
  }

  lemma Begin(l: Limits, c: ChatId)
    ensures In(RunFrom(l, START, [Connect, TakeSignal([]), Spawn(c, true)]), c,
               Stage(true, true, [], 1, false, EMPTY, Idle, []))
  {
    var h1 := Next(l, START, Connect);
    assert InFlightOrder(h1.buffer, []);
    var h2 := Next(l, h1, TakeSignal([]));
    var h3 := Next(l, h2, Spawn(c, true));
    var acts := [Connect, TakeSignal([]), Spawn(c, true)];
    assert acts[1..] == [TakeSignal([]), Spawn(c, true)];
    assert acts[1..][1..] == [Spawn(c, true)];
    RunFromOne(l, h2, Spawn(c, true));
    assert RunFrom(l, h1, acts[1..]) == h3;
  }

  /** The first line is on its way when the connection drops, and ends up in the buffer. */
  lemma FirstFails(l: Limits, h: Hub, c: ChatId, x: Line, io: PushIo)
    requires Small(l, x) && io.openOk && io.appendOk
    requires In(h, c, Stage(true, true, [], 1, false, EMPTY, Idle, []))
    ensures Wf(h.buffer)
    ensures var h' := Next(l, Next(l, Next(l, h, ChildFrame(c, x, io)), Drop), LiveDone(false, io));
      In(h', c, Stage(true, false, [Disconnected], 2, false, BufferBudget.One(c, Holding(FrameOf(x, 1))), Idle, []))
  {
    var f := FrameOf(x, 1);
    var h1 := Next(l, h, ChildFrame(c, x, io));
    assert In(h1, c, Stage(true, true, [], 2, false, EMPTY, Sending(c, f, false, false), []));
    var h2 := Next(l, h1, Drop);
    assert In(h2, c, Stage(true, false, [Disconnected], 2, false, EMPTY, Sending(c, f, false, false), []));
    BufferBudget.OneFrame(f);
    BufferBudget.PushOne(l, EMPTY, c, EMPTY_SESSION, NOTHING, true, f, io.disks, Holding(f));
    FailBuffers(l, h2, c, f, io, BufferBudget.One(c, Holding(f)));
  }

  lemma FailBuffers(l: Limits, h: Hub, c: ChatId, f: Frame, io: PushIo, b: State)
    requires In(h, c, Stage(true, false, [Disconnected], 2, false, EMPTY, Sending(c, f, false, false), []))
    requires Wf(h.buffer) && f.Size() <= l.maxFrame
    requires Push(l, EMPTY, c, f, io.openOk, io.appendOk, io.disks).0 == b
    ensures In(Next(l, h, LiveDone(false, io)), c, Stage(true, false, [Disconnected], 2, false, b, Idle, []))
  {
    var h1 := h.(live := Idle);
    assert Push(l, h1.buffer, c, f, io.openOk, io.appendOk, io.disks).1 != Oversize;
    assert BufferPush(l, h1, c, f, io) == h1.(buffer := b);
  }

  /** The second line goes out live on a new connection the hub does not know about. */
  lemma SecondOvertakes(l: Limits, h: Hub, c: ChatId, y: Line, io: PushIo, b: State)
    requires Small(l, y) && Wf(b)
    requires In(h, c, Stage(true, false, [Disconnected], 2, false, b, Idle, []))
    ensures var h' := Next(l, Next(l, Next(l, Next(l, h, Connect), ChildFrame(c, y, io)), LiveWrite), LiveDone(true, io));
      In(h', c, Stage(true, true, [Disconnected, Authenticated], 3, false, b, Idle, [Out(c, 1, 2)]))
  {
    var f := FrameOf(y, 2);
    var h1 := Next(l, h, Connect);
    assert In(h1, c, Stage(true, true, [Disconnected, Authenticated], 2, false, b, Idle, []));
    var h2 := Next(l, h1, ChildFrame(c, y, io));
    assert In(h2, c, Stage(true, true, [Disconnected, Authenticated], 3, false, b, Sending(c, f, false, false), []));
    var h3 := Next(l, h2, LiveWrite);
    assert In(h3, c, Stage(true, true, [Disconnected, Authenticated], 3, false, b, Sending(c, f, false, true), [Out(c, 1, 2)]));
  }

  /** Then the hub learns of both events, and replays the first line. */
  lemma FirstReplayed(l: Limits, h: Hub, c: ChatId, f: Frame, disks: ChatId -> DrainIo)
    requires f.Size() == 1 && f.seqNo == 1
    requires In(h, c, Stage(true, true, [Disconnected, Authenticated], 3, false, BufferBudget.One(c, Holding(f)), Idle, [Out(c, 1, 2)]))
    ensures Wf(h.buffer)
    ensures var h' := Next(l, Next(l, Next(l, Next(l, h, TakeSignal([])), TakeSignal([])), ResyncPass([c], disks)), BatchWrite);
      h'.wire == [Out(c, 1, 2), Out(c, 1, 1)]
  {
    var b := BufferBudget.One(c, Holding(f));
    BufferBudget.OneTotal(c, Holding(f));
    BothSignals(l, h, c, b);
    Replay(l, Next(l, Next(l, h, TakeSignal([])), TakeSignal([])), c, f, disks);
  }

  lemma BothSignals(l: Limits, h: Hub, c: ChatId, b: State)
    requires Wf(b) && InFlightOrder(b, [])
    requires In(h, c, Stage(true, true, [Disconnected, Authenticated], 3, false, b, Idle, [Out(c, 1, 2)]))
    ensures var h' := Next(l, Next(l, h, TakeSignal([])), TakeSignal([]));
      In(h', c, Stage(true, true, [], 3, true, b, Idle, [Out(c, 1, 2)])) && h'.sync.Ready?
  {
    var h1 := Next(l, h, TakeSignal([]));
    assert In(h1, c, Stage(false, true, [Authenticated], 3, true, b, Idle, [Out(c, 1, 2)]));
  }

  lemma Replay(l: Limits, h: Hub, c: ChatId, f: Frame, disks: ChatId -> DrainIo)
    requires f.Size() == 1 && f.seqNo == 1 && h.sync.Ready? && Wf(h.buffer)
    requires In(h, c, Stage(true, true, [], 3, true, BufferBudget.One(c, Holding(f)), Idle, [Out(c, 1, 2)]))
    ensures Next(l, Next(l, h, ResyncPass([c], disks)), BatchWrite).wire == [Out(c, 1, 2), Out(c, 1, 1)]
  {
    PassOne(h.chats, h.buffer, c, f, disks);
    var h' := Next(l, h, ResyncPass([c], disks));
    assert Elems([c]) == {c};
    assert h'.sync == Replaying(c, 1, Job(1, [f]), false) && h'.wire == h.wire && h'.up;
  }

  lemma PassOne(chats: map<ChatId, Entry>, b: State, c: ChatId, f: Frame, disks: ChatId -> DrainIo)
    requires Wf(b) && b == BufferBudget.One(c, Holding(f)) && f.Size() == 1
    requires c in chats && chats[c].buffered
    ensures Pass(chats, b, [c], disks).2 == Some(Picked(c, chats[c].epoch, Job(f.seqNo, [f])))
  {
    var e, q := Holding(f), [f];
    assert Reach(e, disks(c).good) == q;
    assert q[1..] == [];
    assert Batch(q, SYNC_BATCH_MAX_FRAMES, SYNC_BATCH_MAX_BYTES) == 1;
    assert q[..1] == q;
  }

  function Run1(c: ChatId): seq<Action> { [Connect, TakeSignal([]), Spawn(c, true)] }
  function Run2(c: ChatId, x: Line, io: PushIo): seq<Action> { [ChildFrame(c, x, io), Drop, LiveDone(false, io)] }
  function Run3(c: ChatId, y: Line, io: PushIo): seq<Action> { [Connect, ChildFrame(c, y, io), LiveWrite, LiveDone(true, io)] }
  function Run4(c: ChatId, disks: ChatId -> DrainIo): seq<Action> { [TakeSignal([]), TakeSignal([]), ResyncPass([c], disks), BatchWrite] }

  lemma RunThree(l: Limits, h: Hub, a: Action, b: Action, c: Action)
    requires Wf(h.buffer)
    ensures RunFrom(l, h, [a, b, c]) == Next(l, Next(l, Next(l, h, a), b), c)
  {
    RunFromOne(l, h, a);
    RunFromOne(l, Next(l, h, a), b);
    RunFromOne(l, Next(l, Next(l, h, a), b), c);
    RunFromJoin(l, Next(l, h, a), [b], [c]);
    assert [b, c] == [b] + [c];
    RunFromJoin(l, h, [a], [b, c]);
    assert [a, b, c] == [a] + [b, c];
  }

  lemma RunFour(l: Limits, h: Hub, a: Action, b: Action, c: Action, d: Action)
    requires Wf(h.buffer)
    ensures RunFrom(l, h, [a, b, c, d]) == Next(l, Next(l, Next(l, Next(l, h, a), b), c), d)
  {
    RunThree(l, Next(l, h, a), b, c, d);
    RunFromOne(l, h, a);
    RunFromJoin(l, h, [a], [b, c, d]);
    assert [a, b, c, d] == [a] + [b, c, d];
  }

  /** A line that failed with its connection is buffered, the next line goes out live on the
      new connection before the hub has seen the old one end, and the replay then follows
      on that same connection. */
  lemma {:induction false} NewConnectionOvertakes(l: Limits, c: ChatId, x: Line, y: Line, io: PushIo, disks: ChatId -> DrainIo)
    requires Small(l, x) && Small(l, y) && io.openOk && io.appendOk
    ensures After(l, Run1(c) + (Run2(c, x, io) + (Run3(c, y, io) + Run4(c, disks)))).wire == [Out(c, 1, 2), Out(c, 1, 1)]
  {
    var r4 := Run4(c, disks);
    var r3 := Run3(c, y, io) + r4;
    var r2 := Run2(c, x, io) + r3;
    var all := Run1(c) + r2;
    AfterMore(l, [], all);
    assert [] + all == all;
    Begin(l, c);
    var h1 := RunFrom(l, START, Run1(c));
    RunFromJoin(l, START, Run1(c), r2);
    RestOfRace(l, h1, c, x, y, io, disks);
  }

  lemma RestOfRace(l: Limits, h: Hub, c: ChatId, x: Line, y: Line, io: PushIo, disks: ChatId -> DrainIo)
    requires Small(l, x) && Small(l, y) && io.openOk && io.appendOk && Wf(h.buffer)
    requires In(h, c, Stage(true, true, [], 1, false, EMPTY, Idle, []))
    ensures RunFrom(l, h, Run2(c, x, io) + (Run3(c, y, io) + Run4(c, disks))).wire == [Out(c, 1, 2), Out(c, 1, 1)]
  {
    var b := BufferBudget.One(c, Holding(FrameOf(x, 1)));
    BufferBudget.OneTotal(c, Holding(FrameOf(x, 1)));
    FirstFails(l, h, c, x, io);
    RunThree(l, h, ChildFrame(c, x, io), Drop, LiveDone(false, io));
    RunFromJoin(l, h, Run2(c, x, io), Run3(c, y, io) + Run4(c, disks));
    LastOfRace(l, RunFrom(l, h, Run2(c, x, io)), c, FrameOf(x, 1), y, io, disks);
  }

  lemma LastOfRace(l: Limits, h: Hub, c: ChatId, f: Frame, y: Line, io: PushIo, disks: ChatId -> DrainIo)
    requires Small(l, y) && Wf(h.buffer) && f.Size() == 1 && f.seqNo == 1
    requires In(h, c, Stage(true, false, [Disconnected], 2, false, BufferBudget.One(c, Holding(f)), Idle, []))
    ensures RunFrom(l, h, Run3(c, y, io) + Run4(c, disks)).wire == [Out(c, 1, 2), Out(c, 1, 1)]
  {
    var b := BufferBudget.One(c, Holding(f));
    SecondOvertakes(l, h, c, y, io, b);
    RunFour(l, h, Connect, ChildFrame(c, y, io), LiveWrite, LiveDone(true, io));
    RunFromJoin(l, h, Run3(c, y, io), Run4(c, disks));
    var h' := RunFrom(l, h, Run3(c, y, io));
    FirstReplayed(l, h', c, f, disks);
    RunFour(l, h', TakeSignal([]), TakeSignal([]), ResyncPass([c], disks), BatchWrite);
  }
}
