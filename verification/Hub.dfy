/** The hub as a machine of steps: one step per stretch of code between two awaits. The hub
    loop, the resync task and the transport interleave freely; a step that is not enabled
    changes nothing. */
module HubSpec {
  import opened Frames
  import opened Sessions
  import opened Budget
  import opened BufferSpec

  const SYNC_BATCH_MAX_FRAMES: nat := 256
  const SYNC_BATCH_MAX_BYTES: nat := 512 * 1024

  // ---------------------------------------------------------------------------
  // State
  // ---------------------------------------------------------------------------

  /** History of the current epoch of one chat: its replayable frames, by what became of the
      ones that are no longer pending. The program keeps none of it. */
  datatype Ledger = Ledger(
    stamped: multiset<Frame>,
    acked: multiset<Frame>,
    committed: multiset<Frame>,
    oversize: multiset<Frame>)

  const NO_FRAMES := Ledger(multiset{}, multiset{}, multiset{}, multiset{})

  datatype Entry = Entry(alive: bool, epoch: nat, nextSeq: nat, buffered: bool, ledger: Ledger)

  /** The live send the hub loop is suspended in. */
  datatype Live = Idle | Sending(c: ChatId, f: Frame, sensitive: bool, written: bool)

  /** The resync task: not running, between two batches, or suspended in a batch send. */
  datatype Sync = Off | Ready | Replaying(c: ChatId, epoch: nat, job: Job, written: bool)

  datatype Signal = Authenticated | Disconnected

  /** A sequence number on the wire, in a live event or a batch. */
  datatype Out = Out(c: ChatId, epoch: nat, seqNo: nat)

  /** `wire` is what the current connection carries so far; `stamps` every sequence number
      ever given out, over all daemon runs. */
  datatype Hub = Hub(
    auth: bool,
    up: bool,
    signals: seq<Signal>,
    chats: map<ChatId, Entry>,
    buffer: State,
    wmem: map<ChatId, nat>,
    wdisk: map<ChatId, nat>,
    live: Live,
    sync: Sync,
    wire: seq<Out>,
    stamps: seq<Out>)

  const START := Hub(false, false, [], map[], EMPTY, map[], map[], Idle, Off, [], [])

  // ---------------------------------------------------------------------------
  // Steps
  // ---------------------------------------------------------------------------

  /** Outcomes of the file operations of one push. */
  datatype PushIo = PushIo(openOk: bool, appendOk: bool, disks: (nat, ChatId) -> bool)

  /** Outcomes of the disk reads of one drain. */
  datatype DrainIo = DrainIo(firstOk: bool, good: nat)

  /** What a child process printed, before it is stamped. `wireSize` is the length of the
      live event that would carry it. */
  datatype Line = Line(jsonrpc: bool, id: bool, body: seq<Byte>, wireSize: nat, sensitive: bool)

  datatype Action =
    | ChildFrame(c: ChatId, line: Line, io: PushIo)
    | LiveWrite
    | LiveDone(ok: bool, io: PushIo)
    | Exit(c: ChatId, recordOk: bool)
    | Spawn(c: ChatId, recordOk: bool)
    | TakeSignal(ids: seq<ChatId>)
    | Connect
    | Drop
    | HandshakeFail
    | ResyncPass(order: seq<ChatId>, disks: ChatId -> DrainIo)
    | BatchWrite
    | BatchDone(ok: bool)
    | Crash(corrupt: bool)

  function Stamp(e: Entry, line: Line): Frame {
    Frame(e.nextSeq, e.epoch, line.jsonrpc, line.id, line.body)
  }

  function CountOversize(h: Hub, c: ChatId, f: Frame): Hub {
    if c !in h.chats then h
    else
      var e := h.chats[c];
      h.(chats := h.chats[c := e.(ledger := e.ledger.(oversize := e.ledger.oversize + multiset{f}))])
  }

  function BufferPush(l: Limits, h: Hub, c: ChatId, f: Frame, io: PushIo): (r: Hub)
    requires Wf(h.buffer)
    ensures Wf(r.buffer)
  {
    var p := Push(l, h.buffer, c, f, io.openOk, io.appendOk, io.disks);
    var h' := h.(buffer := p.0);
    if p.1 == Oversize then CountOversize(h', c, f) else h'
  }

  /** The chat takes the next sequence number; a replayable frame enters its ledger. */
  function Stamped(h: Hub, c: ChatId, line: Line): Hub
    requires c in h.chats
  {
    var e := h.chats[c];
    var log := if line.sensitive then e.ledger
               else e.ledger.(stamped := e.ledger.stamped + multiset{Stamp(e, line)});
    h.(chats := h.chats[c := e.(nextSeq := e.nextSeq + 1, ledger := log)],
       stamps := h.stamps + [Out(c, e.epoch, e.nextSeq)])
  }

  /** A stamped frame: too large, dropped for being sensitive, sent live, or buffered. */
  function Dispatch(l: Limits, h: Hub, c: ChatId, f: Frame, line: Line, online: bool, io: PushIo): (r: Hub)
    requires Wf(h.buffer)
    ensures Wf(r.buffer)
  {
    if (if online then line.wireSize else f.Size()) > l.maxFrame then
      (if line.sensitive then h else CountOversize(h, c, f))
    else if line.sensitive && !online then h
    else if online then h.(live := Sending(c, f, line.sensitive, false))
    else BufferPush(l, h, c, f, io)
  }

  function Forward(l: Limits, h: Hub, c: ChatId, line: Line, io: PushIo): (r: Hub)
    requires Wf(h.buffer)
    ensures Wf(r.buffer)
  {
    if c !in h.chats || !h.chats[c].alive then h
    else
      var e := h.chats[c];
      Dispatch(l, Stamped(h, c, line), c, Stamp(e, line), line, h.auth && !e.buffered, io)
  }

  function Acked(e: Entry, f: Frame): Entry {
    e.(ledger := e.ledger.(acked := e.ledger.acked + multiset{f}))
  }

  function AckedChats(chats: map<ChatId, Entry>, c: ChatId, f: Frame): map<ChatId, Entry> {
    if c in chats then chats[c := Acked(chats[c], f)] else chats
  }

  function FinishLive(l: Limits, h: Hub, ok: bool, io: PushIo): (r: Hub)
    requires Wf(h.buffer) && h.live.Sending?
    ensures Wf(r.buffer)
  {
    var (c, f) := (h.live.c, h.live.f);
    var h' := h.(live := Idle);
    if h.live.sensitive then h'
    else if !ok then BufferPush(l, h', c, f, io)
    else h'.(chats := AckedChats(h.chats, c, f))
  }

  /** The watermark keeps the new record in memory in any case; the file only if the write
      works, and then it holds the whole map. */
  function Record(h: Hub, c: ChatId, epoch: nat, ok: bool): Hub {
    var m := h.wmem[c := epoch];
    h.(wmem := m, wdisk := if ok then m else h.wdisk)
  }

  function HandleExit(h: Hub, c: ChatId, recordOk: bool): (r: Hub)
    requires Wf(h.buffer)
    ensures Wf(r.buffer)
  {
    var h' := if c !in h.chats then h
              else Record(h.(chats := h.chats[c := h.chats[c].(alive := false)]), c, h.chats[c].epoch, recordOk);
    h'.(buffer := Remove(h'.buffer, c))
  }

  function NextEpoch(h: Hub, c: ChatId): nat {
    if c in h.wmem then h.wmem[c] + 1 else 1
  }

  function HandleSpawn(h: Hub, c: ChatId, recordOk: bool): Hub {
    if c in h.chats && h.chats[c].alive then h
    else
      var epoch := NextEpoch(h, c);
      Record(h.(chats := h.chats[c := Entry(true, epoch, 1, false, NO_FRAMES)]), c, epoch, recordOk)
  }

  function MarkAllBuffered(chats: map<ChatId, Entry>): map<ChatId, Entry> {
    map c | c in chats :: if chats[c].alive then chats[c].(buffered := true) else chats[c]
  }

  /** Both transitions abort the resync task and put back what it had in flight. */
  function OnSignal(l: Limits, h: Hub, ids: seq<ChatId>): (r: Hub)
    requires Wf(h.buffer) && h.signals != []
    ensures Wf(r.buffer)
  {
    var h' := h.(signals := h.signals[1..], buffer := RollbackEach(l, h.buffer, ids));
    match h.signals[0]
    case Authenticated => h'.(auth := true, sync := Ready)
    case Disconnected => h'.(auth := false, sync := Off, chats := MarkAllBuffered(h.chats))
  }

  datatype Picked = Picked(c: ChatId, epoch: nat, job: Job)

  /** One pass of the resync task over the chats in the given order: clears the flag of the
      drained ones, stops at the first that yields a batch. */
  function Pass(chats: map<ChatId, Entry>, b: State, order: seq<ChatId>, disks: ChatId -> DrainIo)
    : (r: (map<ChatId, Entry>, State, Option<Picked>))
    requires Wf(b)
    ensures Wf(r.1)
  {
    if order == [] then (chats, b, None)
    else
      var c := order[0];
      if c !in chats || !chats[c].buffered then Pass(chats, b, order[1..], disks)
      else if Bucket(b, c).TotalFrames() == 0 then
        Pass(chats[c := chats[c].(buffered := false)], b, order[1..], disks)
      else
        var d := Drain(b, c, SYNC_BATCH_MAX_FRAMES, SYNC_BATCH_MAX_BYTES, disks(c).firstOk, disks(c).good);
        if d.1.Some? then (chats, d.0, Some(Picked(c, chats[c].epoch, d.1.value)))
        else Pass(chats, b, order[1..], disks)
  }

  predicate AllLive(chats: map<ChatId, Entry>) {
    forall c :: c in chats ==> !chats[c].buffered
  }

  /** With nothing to send the task ends once every chat is live, else it sleeps and retries. */
  function Resync(h: Hub, order: seq<ChatId>, disks: ChatId -> DrainIo): (r: Hub)
    requires Wf(h.buffer)
    ensures Wf(r.buffer)
  {
    var (chats, b, job) := Pass(h.chats, h.buffer, order, disks);
    h.(chats := chats, buffer := b,
       sync := if job.Some? then Replaying(job.value.c, job.value.epoch, job.value.job, false)
               else if AllLive(chats) then Off else Ready)
  }

  function Outs(c: ChatId, epoch: nat, fs: seq<Frame>): seq<Out> {
    seq(|fs|, i requires 0 <= i < |fs| => Out(c, epoch, fs[i].seqNo))
  }

  function Committed(e: Entry, fs: seq<Frame>): Entry {
    e.(ledger := e.ledger.(committed := e.ledger.committed + multiset(fs)))
  }

  /** The sent frames enter the ledger of their epoch, if its process still runs. */
  function CommittedChats(chats: map<ChatId, Entry>, c: ChatId, epoch: nat, fs: seq<Frame>): map<ChatId, Entry> {
    if c in chats && chats[c].epoch == epoch && chats[c].alive then chats[c := Committed(chats[c], fs)] else chats
  }

  function FinishBatch(l: Limits, h: Hub, ok: bool): (r: Hub)
    requires Wf(h.buffer) && h.sync.Replaying?
    ensures Wf(r.buffer)
  {
    var c := h.sync.c;
    if !ok then h.(buffer := Rollback(l, h.buffer, c), sync := Off)
    else h.(buffer := Commit(h.buffer, c), sync := Ready, chats := CommittedChats(h.chats, c, h.sync.epoch, h.sync.job.frames))
  }

  /** The daemon dies and starts again: buffers and sessions are gone, epochs come from the
      watermark file, or from nothing if it does not parse. */
  function Restart(h: Hub, corrupt: bool): Hub {
    var kept := if corrupt then map[] else h.wdisk;
    START.(wmem := kept, wdisk := kept, stamps := h.stamps)
  }

  ghost predicate Enabled(h: Hub, a: Action) {
    match a
    case ChildFrame(_, _, _) => h.live.Idle?
    case LiveWrite => h.live.Sending? && !h.live.written && h.up
    case LiveDone(ok, _) => h.live.Sending? && (ok ==> h.live.written)
    case Exit(_, _) => h.live.Idle?
    case Spawn(_, _) => h.live.Idle? && h.auth
    case TakeSignal(ids) => h.live.Idle? && h.signals != [] && InFlightOrder(h.buffer, ids)
    case Connect => !h.up
    case Drop => h.up
    case HandshakeFail => !h.up
    case ResyncPass(order, _) => h.sync.Ready? && NoDup(order) && Elems(order) == h.chats.Keys
    case BatchWrite => h.sync.Replaying? && !h.sync.written && h.up
    case BatchDone(ok) => h.sync.Replaying? && (ok ==> h.sync.written)
    case Crash(_) => true
  }

  ghost function Next(l: Limits, h: Hub, a: Action): (r: Hub)
    requires Wf(h.buffer)
    ensures Wf(r.buffer)
  {
    if !Enabled(h, a) then h
    else match a
    case ChildFrame(c, line, io) => Forward(l, h, c, line, io)
    case LiveWrite =>
      h.(wire := h.wire + [Out(h.live.c, h.live.f.epoch, h.live.f.seqNo)], live := h.live.(written := true))
    case LiveDone(ok, io) => FinishLive(l, h, ok, io)
    case Exit(c, recordOk) => HandleExit(h, c, recordOk)
    case Spawn(c, recordOk) => HandleSpawn(h, c, recordOk)
    case TakeSignal(ids) => OnSignal(l, h, ids)
    case Connect => h.(up := true, wire := [], signals := h.signals + [Authenticated])
    case Drop => h.(up := false, signals := h.signals + [Disconnected])
    case HandshakeFail => h.(signals := h.signals + [Disconnected])
    case ResyncPass(order, disks) => Resync(h, order, disks)
    case BatchWrite =>
      h.(wire := h.wire + Outs(h.sync.c, h.sync.epoch, h.sync.job.frames), sync := h.sync.(written := true))
    case BatchDone(ok) => FinishBatch(l, h, ok)
    case Crash(corrupt) => Restart(h, corrupt)
  }

  /** What a step hands to the buffer: a child frame while its chat is not live, or one whose
      live send failed. */
  function PushOf(l: Limits, h: Hub, a: Action): Option<(ChatId, Frame, PushIo)> {
    match a
    case ChildFrame(c, line, io) =>
      if h.live.Idle? && c in h.chats && h.chats[c].alive && !line.sensitive && !(h.auth && !h.chats[c].buffered)
         && |line.body| <= l.maxFrame
      then Some((c, Stamp(h.chats[c], line), io)) else None
    case LiveDone(ok, io) =>
      if h.live.Sending? && !h.live.sensitive && !ok then Some((h.live.c, h.live.f, io)) else None
    case _ => None
  }

  /** The state after a run from the first start of the daemon. */
  ghost function After(l: Limits, acts: seq<Action>): (r: Hub)
    ensures Wf(r.buffer)
    decreases |acts|
  {
    if acts == [] then START else Next(l, After(l, acts[..|acts| - 1]), acts[|acts| - 1])
  }

  /** The state after some more steps. */
  ghost function RunFrom(l: Limits, h: Hub, acts: seq<Action>): (r: Hub)
    requires Wf(h.buffer)
    ensures Wf(r.buffer)
    decreases |acts|
  {
    if acts == [] then h else RunFrom(l, Next(l, h, acts[0]), acts[1..])
  }

  lemma {:induction false} RunFromJoin(l: Limits, h: Hub, a: seq<Action>, b: seq<Action>)
    requires Wf(h.buffer)
    ensures RunFrom(l, h, a + b) == RunFrom(l, RunFrom(l, h, a), b)
    decreases |a|
  {
    if a == [] {
      assert a + b == b;
    } else {
      assert (a + b)[1..] == a[1..] + b;
      RunFromJoin(l, Next(l, h, a[0]), a[1..], b);
    }
  }

  lemma RunFromOne(l: Limits, h: Hub, a: Action)
    requires Wf(h.buffer)
    ensures RunFrom(l, h, [a]) == Next(l, h, a)
  {
    assert RunFrom(l, Next(l, h, a), [a][1..]) == Next(l, h, a);
  }

  /** The last step of a run, as a run of its own. */
  lemma AfterLast(l: Limits, acts: seq<Action>, init: seq<Action>, last: seq<Action>)
    requires acts == init + last && |last| == 1
    ensures After(l, acts) == RunFrom(l, After(l, init), last)
  {
    assert acts[..|acts| - 1] == init;
    assert last == [acts[|acts| - 1]];
    RunFromOne(l, After(l, init), acts[|acts| - 1]);
  }

  lemma {:induction false} AfterMore(l: Limits, acts: seq<Action>, more: seq<Action>)
    ensures After(l, acts + more) == RunFrom(l, After(l, acts), more)
    decreases |more|
  {
    if more == [] {
      assert acts + more == acts;
    } else {
      var init, last := more[..|more| - 1], more[|more| - 1..];
      AfterMore(l, acts, init);
      assert more == init + last;
      RunFromJoin(l, After(l, acts), init, last);
      Append(acts, init, last);
      AfterLast(l, acts + more, acts + init, last);
    }
  }

  lemma Append(a: seq<Action>, b: seq<Action>, c: seq<Action>)
    ensures a + (b + c) == (a + b) + c
  {
  }
}
