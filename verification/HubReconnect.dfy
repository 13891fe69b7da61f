/** The order claim's condition on connections is exact: whenever a connection comes up without
    it, some continuation lets numbers go down on that connection. */
module HubReconnect {
  import opened Frames
  import opened Sessions
  import opened Budget
  import opened BufferSpec
  import opened BufferQueue
  import BufferBudget
  import opened HubSpec
  import opened HubQueues
  import opened HubOrder
  import ResyncTask

  /** Every step of the continuation is orderly. */
  ghost predicate OrderlyFrom(l: Limits, h: Hub, more: seq<Action>)
    requires Wf(h.buffer)
    decreases |more|
  {
    more != [] ==> Orderly(l, h, more[0]) && OrderlyFrom(l, Next(l, h, more[0]), more[1..])
  }

  /** The steps lead from `h` to `h'`, orderly, within one connection. */
  ghost predicate Run(l: Limits, h: Hub, more: seq<Action>, h': Hub) {
    && Wf(h.buffer) && OrderlyFrom(l, h, more) && RunFrom(l, h, more) == h'
    && (forall a :: a in more ==> !a.Connect? && !a.Crash?)
  }

  ghost predicate Leads(l: Limits, h: Hub, h': Hub) {
    exists more :: Run(l, h, more, h')
  }

  lemma {:induction false} OrderlyJoin(l: Limits, h: Hub, a: seq<Action>, b: seq<Action>)
    requires Wf(h.buffer) && OrderlyFrom(l, h, a) && OrderlyFrom(l, RunFrom(l, h, a), b)
    ensures OrderlyFrom(l, h, a + b)
    decreases |a|
  {
    if a == [] {
      assert a + b == b;
    } else {
      assert (a + b)[1..] == a[1..] + b;
      OrderlyJoin(l, Next(l, h, a[0]), a[1..], b);
    }
  }

  lemma LeadsTrans(l: Limits, x: Hub, y: Hub, z: Hub)
    requires Leads(l, x, y) && Leads(l, y, z)
    ensures Leads(l, x, z)
  {
    var a :| Run(l, x, a, y);
    var b :| Run(l, y, b, z);
    RunFromJoin(l, x, a, b);
    OrderlyJoin(l, x, a, b);
    assert Run(l, x, a + b, z);
  }

  lemma Stays(l: Limits, h: Hub)
    requires Wf(h.buffer)
    ensures Leads(l, h, h)
  {
    assert Run(l, h, [], h);
  }

  lemma Steps(l: Limits, h: Hub, a: Action) returns (h': Hub)
    requires Inv(l, h) && Orderly(l, h, a) && !a.Connect? && !a.Crash?
    ensures h' == Next(l, h, a) && Leads(l, h, h') && Inv(l, h')
  {
    h' := Next(l, h, a);
    NextKeeps(l, h, a);
    RunFromOne(l, h, a);
    assert [a][1..] == [];
    assert Run(l, h, [a], h');
  }

  /** A line that weighs nothing. */
  ghost predicate Light(line: Line) {
    !line.sensitive && line.body == [] && line.wireSize == 0
  }

  /** Everything the rest of the construction keeps of the connection. */
  ghost predicate SameSignals(h: Hub, h': Hub) {
    h'.up == h.up && h'.auth == h.auth && h'.signals == h.signals
  }

  lemma TakesSignal(l: Limits, h: Hub, ids: seq<ChatId>) returns (h': Hub)
    requires Inv(l, h) && h.live.Idle? && h.signals != [] && InFlightOrder(h.buffer, ids)
    ensures Leads(l, h, h') && Inv(l, h') && h'.live.Idle?
    ensures h'.signals == h.signals[1..] && h'.up == h.up && h'.wire == h.wire && h'.chats.Keys == h.chats.Keys
    ensures h'.auth <==> h.signals[0] == Authenticated
    ensures h'.sync == (if h.signals[0] == Authenticated then Ready else Off)
    ensures h'.buffer == RollbackEach(l, h.buffer, ids)
    ensures h'.chats == if h.signals[0] == Authenticated then h.chats else MarkAllBuffered(h.chats)
  {
    h' := Steps(l, h, TakeSignal(ids));
  }

  lemma PrintsLine(l: Limits, h: Hub, c: ChatId, line: Line, io: PushIo) returns (h': Hub)
    requires Inv(l, h) && h.live.Idle? && h.auth && Light(line)
    requires c in h.chats && h.chats[c].alive && !h.chats[c].buffered
    ensures Leads(l, h, h') && Inv(l, h')
    ensures h'.live == Sending(c, Stamp(h.chats[c], line), false, false)
    ensures SameSignals(h, h') && h'.wire == h.wire && h'.buffer == h.buffer && h'.chats.Keys == h.chats.Keys
    ensures var e, e' := h.chats[c], h'.chats[c];
      e'.alive && !e'.buffered && e'.epoch == e.epoch && e'.nextSeq == e.nextSeq + 1
  {
    h' := Steps(l, h, ChildFrame(c, line, io));
  }

  lemma WritesLine(l: Limits, h: Hub) returns (h': Hub)
    requires Inv(l, h) && h.live.Sending? && !h.live.written && h.up
    ensures Leads(l, h, h') && Inv(l, h')
    ensures h' == h.(wire := h.wire + [Out(h.live.c, h.live.f.epoch, h.live.f.seqNo)], live := h.live.(written := true))
  {
    h' := Steps(l, h, LiveWrite);
  }

  lemma LineIsSent(l: Limits, h: Hub, io: PushIo, c: ChatId) returns (h': Hub)
    requires Inv(l, h) && h.live.Sending? && h.live.written
    ensures Leads(l, h, h') && Inv(l, h') && h'.live.Idle?
    ensures SameSignals(h, h') && h'.wire == h.wire && h'.buffer == h.buffer && h'.chats.Keys == h.chats.Keys
    ensures c in h.chats ==> h'.chats[c] == h.chats[c].(ledger := h'.chats[c].ledger)
  {
    h' := Steps(l, h, LiveDone(true, io));
  }

  lemma LineFails(l: Limits, h: Hub, io: PushIo) returns (h': Hub)
    requires Inv(l, h) && h.live.Sending? && !h.live.sensitive && FifoPush(l, h.buffer, h.live.c, h.live.f)
    requires h.live.f.Size() <= l.maxFrame
    ensures Leads(l, h, h') && Inv(l, h') && h'.live.Idle?
    ensures SameSignals(h, h') && h'.wire == h.wire && h'.chats == h.chats
    ensures h'.buffer == Push(l, h.buffer, h.live.c, h.live.f, io.openOk, io.appendOk, io.disks).0
  {
    h' := Steps(l, h, LiveDone(false, io));
    PushOversizeIff(l, h.buffer, h.live.c, h.live.f, io.openOk, io.appendOk, io.disks);
  }

  lemma ExitFacts(h: Hub, c: ChatId)
    requires Wf(h.buffer)
    ensures var h' := HandleExit(h, c, true);
      && h'.live == h.live && SameSignals(h, h') && h'.buffer == Remove(h.buffer, c)
      && h'.chats == if c in h.chats then h.chats[c := h.chats[c].(alive := false)] else h.chats
  {
  }

  lemma Exits(l: Limits, h: Hub, c: ChatId) returns (h': Hub)
    requires Inv(l, h) && h.live.Idle?
    ensures Leads(l, h, h') && Inv(l, h') && h'.live.Idle? && SameSignals(h, h') && c !in h'.buffer.chats
    ensures h'.chats.Keys == h.chats.Keys
    ensures h'.chats == if c in h.chats then h.chats[c := h.chats[c].(alive := false)] else h.chats
  {
    ExitFacts(h, c);
    h' := Steps(l, h, Exit(c, true));
  }

  lemma Spawns(l: Limits, h: Hub, c: ChatId) returns (h': Hub)
    requires Inv(l, h) && h.live.Idle? && h.auth && (c in h.chats ==> !h.chats[c].alive)
    ensures Leads(l, h, h') && Inv(l, h') && h'.live.Idle? && SameSignals(h, h') && h'.buffer == h.buffer
    ensures c in h'.chats && h'.chats[c].alive && !h'.chats[c].buffered && h'.chats[c].nextSeq == 1
  {
    h' := Steps(l, h, Spawn(c, true));
  }

  lemma WritesBatch(l: Limits, h: Hub) returns (h': Hub)
    requires Inv(l, h) && h.sync.Replaying? && !h.sync.written && h.up
    ensures Leads(l, h, h') && h'.wire == h.wire + Outs(h.sync.c, h.sync.epoch, h.sync.job.frames)
  {
    h' := Steps(l, h, BatchWrite);
  }

  // ---------------------------------------------------------------------------
  // Clearing the way
  // ---------------------------------------------------------------------------

  /** The hub finishes the live send it is in. */
  lemma FreeHub(l: Limits, h: Hub, io: PushIo) returns (h': Hub)
    requires Inv(l, h) && h.up
    ensures Leads(l, h, h') && Inv(l, h') && h'.live.Idle?
    ensures h'.up && h'.auth == h.auth && h'.signals == h.signals
  {
    h' := h;
    Stays(l, h);
    if h.live.Sending? {
      if !h.live.written {
        h' := WritesLine(l, h);
      }
      var h1 := h';
      h' := LineIsSent(l, h1, io, h.live.c);
      LeadsTrans(l, h, h1, h');
    }
  }

  lemma SetToSeq(x: set<ChatId>) returns (s: seq<ChatId>)
    ensures NoDup(s) && Elems(s) == x
    decreases x
  {
    if x == {} {
      return [];
    }
    var c :| c in x;
    var r := SetToSeq(x - {c});
    s := [c] + r;
    assert c !in Elems(r);
    NoDupCons(c, r);
    assert Elems(s) == {c} + Elems(r);
  }

  lemma SomeOrder(s: State) returns (ids: seq<ChatId>)
    ensures InFlightOrder(s, ids)
  {
    ids := SetToSeq(set c | c in s.chats && s.chats[c].inFlight != []);
    forall c ensures c in ids <==> c in s.chats && s.chats[c].inFlight != [] {
      assert c in ids <==> c in Elems(ids);
    }
  }

  /** The end of the old connection and the start of the new one wait behind one another. */
  ghost predicate Overlap(h: Hub) {
    && h.up && |h.signals| >= 2
    && h.signals[|h.signals| - 1] == Authenticated && h.signals[|h.signals| - 2] == Disconnected
  }

  /** The hub takes signals until it uses the old connection, before it learns of its end. */
  lemma {:induction false} UntilAuth(l: Limits, h: Hub) returns (h': Hub)
    requires Inv(l, h) && h.live.Idle? && Overlap(h)
    requires !h.auth ==> Authenticated in h.signals[..|h.signals| - 1]
    ensures Leads(l, h, h') && Inv(l, h') && h'.live.Idle? && Overlap(h') && h'.auth
    decreases |h.signals|
  {
    h' := h;
    Stays(l, h);
    if !h.auth {
      var ids := SomeOrder(h.buffer);
      var h1 := TakesSignal(l, h, ids);
      assert h.signals[..|h.signals| - 1][0] == h.signals[0];
      assert h.signals[..|h.signals| - 1][1..] == h1.signals[..|h1.signals| - 1];
      h' := UntilAuth(l, h1);
      LeadsTrans(l, h, h1, h');
    }
  }

  /** All processes exit. */
  lemma {:induction false} ExitAll(l: Limits, h: Hub, cs: set<ChatId>) returns (h': Hub)
    requires Inv(l, h) && h.live.Idle? && cs <= h.chats.Keys
    requires forall c :: c in h.chats && c !in cs ==> !h.chats[c].alive
    ensures Leads(l, h, h') && Inv(l, h') && h'.live.Idle? && SameSignals(h, h')
    ensures forall c :: c in h'.chats ==> !h'.chats[c].alive
    decreases cs
  {
    h' := h;
    Stays(l, h);
    if cs != {} {
      var c :| c in cs;
      var h1 := Exits(l, h, c);
      h' := ExitAll(l, h1, cs - {c});
      LeadsTrans(l, h, h1, h');
    }
  }

  /** No bucket holds a frame. */
  ghost predicate Vacant(s: State) {
    forall c {:trigger Bucket(s, c)} :: Bucket(s, c).View() == []
  }

  lemma DeadVacant(l: Limits, h: Hub)
    requires Inv(l, h) && forall c :: c in h.chats ==> !h.chats[c].alive
    ensures Vacant(h.buffer)
  {
    forall c ensures Bucket(h.buffer, c).View() == [] {
      assert At(h, c);
      DeadEmpty(h, c);
    }
  }

  ghost predicate Zero(u: Usage) {
    u.bytes == 0 && u.frames == 0 && u.memBytes == 0 && u.memFrames == 0
  }

  lemma {:induction false} NoUsage(m: map<ChatId, Usage>, order: seq<ChatId>)
    requires forall i :: 0 <= i < |order| ==> Zero(Look(m, order[i]))
    ensures Zero(Sum(m, order))
  {
    if order != [] {
      var rest := order[1..];
      forall i | 0 <= i < |rest| ensures Zero(Look(m, rest[i])) {
        assert rest[i] == order[i + 1];
      }
      NoUsage(m, rest);
      ZeroPlus(Look(m, order[0]), Sum(m, rest));
    }
  }

  lemma ZeroPlus(a: Usage, b: Usage)
    requires Zero(a) && Zero(b)
    ensures Zero(Plus(a, b))
  {
    assert b == NOTHING;
    PlusNothing(a);
  }

  lemma EmptyUsage(e: Session)
    requires e.View() == []
    ensures Zero(UsageOf(e)) && e.inFlight == [] && e.mem == [] && e.disk == []
  {
    assert |e.View()| == |e.inFlight| + |e.mem| + |e.disk|;
  }

  lemma VacantTotal(s: State)
    requires Wf(s) && Vacant(s)
    ensures Zero(Total(s))
  {
    forall i | 0 <= i < |s.order| ensures Zero(Look(Usages(s.chats), s.order[i])) {
      assert s.order[i] in Elems(s.order);
      EmptyUsage(Bucket(s, s.order[i]));
    }
    NoUsage(Usages(s.chats), s.order);
  }

  /** A fresh process with an empty buffer. */
  ghost predicate Fresh(h: Hub, c: ChatId) {
    && h.live.Idle? && c in h.chats && c !in h.buffer.chats && Vacant(h.buffer)
    && h.chats[c].alive && !h.chats[c].buffered && h.chats[c].nextSeq == 1
  }

  lemma StartFresh(l: Limits, h: Hub, c: ChatId) returns (h': Hub)
    requires Inv(l, h) && h.live.Idle? && h.auth
    ensures Leads(l, h, h') && Inv(l, h') && SameSignals(h, h') && Fresh(h', c)
  {
    var h1 := ExitAll(l, h, h.chats.Keys);
    var h2 := Exits(l, h1, c);
    LeadsTrans(l, h, h1, h2);
    DeadVacant(l, h2);
    h' := Spawns(l, h2, c);
    LeadsTrans(l, h, h2, h');
  }

  // ---------------------------------------------------------------------------
  // Overtaking
  // ---------------------------------------------------------------------------

  /** The only frame anywhere is `f`, of chat `c`, not in flight. */
  ghost predicate Only(s: State, c: ChatId, f: Frame) {
    && Bucket(s, c).View() == [f]
    && (forall d {:trigger Bucket(s, d)} :: (d != c ==> Bucket(s, d).View() == []) && Bucket(s, d).inFlight == [])
  }

  lemma AdmitLight(e: Session, fits: bool, f: Frame, io: PushIo)
    requires e == EMPTY_SESSION && io.openOk && io.appendOk
    ensures var (e', r) := AdmitInto(e, fits, f, io.openOk, io.appendOk);
      r == Buffered && e'.View() == [f] && e'.inFlight == []
  {
  }

  lemma StoredLight(l: Limits, s: State, c: ChatId, f: Frame, io: PushIo)
    requires Wf(s) && Zero(Total(s)) && f.Size() == 0 && l.totalFrames >= 1
    ensures !OverTotal(l, Total(Stored(l, s, c, f, io.openOk, io.appendOk)))
  {
    BufferBudget.StoredTotal(l, s, c, f, io.openOk, io.appendOk);
    LightPlus(l, Total(s), BufferBudget.StoredUsage(Admit(l, s, c, f, io.openOk, io.appendOk).1, FitsMem(l, s, f), f));
  }

  lemma LightPlus(l: Limits, u: Usage, x: Usage)
    requires Zero(u) && x.bytes == 0 && x.frames <= l.totalFrames
    ensures !OverTotal(l, Plus(u, x))
  {
    assert Plus(u, x).bytes == x.bytes && Plus(u, x).frames == x.frames;
  }

  /** A push that ends where it stored the frame. */
  lemma PushFits(l: Limits, s: State, c: ChatId, f: Frame, io: PushIo)
    requires Wf(s) && Zero(Total(s)) && f.Size() == 0 && l.totalFrames >= 1
    requires Admit(l, s, c, f, io.openOk, io.appendOk).1 == Buffered
    ensures Push(l, s, c, f, io.openOk, io.appendOk, io.disks) == (Stored(l, s, c, f, io.openOk, io.appendOk), Buffered)
  {
    StoredLight(l, s, c, f, io);
  }

  lemma StoreLight(l: Limits, s: State, c: ChatId, f: Frame, io: PushIo)
    requires Wf(s) && Vacant(s) && c !in s.chats && f.Size() == 0 && l.totalFrames >= 1 && io.openOk && io.appendOk
    ensures Only(Push(l, s, c, f, io.openOk, io.appendOk, io.disks).0, c, f)
    ensures FifoPush(l, s, c, f) && Push(l, s, c, f, io.openOk, io.appendOk, io.disks).1 == Buffered
  {
    VacantTotal(s);
    AdmitLight(Bucket(s, c), FitsMem(l, s, f), f, io);
    PushFits(l, s, c, f, io);
    var t := Stored(l, s, c, f, io.openOk, io.appendOk);
    forall d ensures (d != c ==> Bucket(t, d).View() == []) && Bucket(t, d).inFlight == [] {
      StoredBuckets(l, s, c, f, io.openOk, io.appendOk, d);
      EmptyUsage(Bucket(s, d));
    }
    StoredBuckets(l, s, c, f, io.openOk, io.appendOk, c);
  }

  /** The first line fails to be sent and is buffered. */
  lemma FirstIsBuffered(l: Limits, h: Hub, c: ChatId, line: Line, io: PushIo) returns (h': Hub)
    requires Inv(l, h) && h.auth && Fresh(h, c) && Light(line) && l.totalFrames >= 1 && io.openOk && io.appendOk
    ensures Leads(l, h, h') && Inv(l, h') && SameSignals(h, h') && h'.live.Idle?
    ensures Only(h'.buffer, c, Stamp(h.chats[c], line))
    ensures c in h'.chats && h'.chats[c].alive && !h'.chats[c].buffered && h'.chats[c].nextSeq == 2
    ensures h'.chats[c].epoch == h.chats[c].epoch
  {
    var f := Stamp(h.chats[c], line);
    var h1 := PrintsLine(l, h, c, line, io);
    StoreLight(l, h1.buffer, c, f, io);
    h' := LineFails(l, h1, io);
    LeadsTrans(l, h, h1, h');
  }

  /** The next line is sent live. */
  lemma SecondIsSent(l: Limits, h: Hub, c: ChatId, line: Line, io: PushIo) returns (h': Hub)
    requires Inv(l, h) && h.auth && h.up && h.live.Idle? && Light(line)
    requires c in h.chats && h.chats[c].alive && !h.chats[c].buffered
    ensures Leads(l, h, h') && Inv(l, h') && SameSignals(h, h') && h'.live.Idle? && h'.buffer == h.buffer
    ensures h'.wire == h.wire + [Out(c, h.chats[c].epoch, h.chats[c].nextSeq)]
    ensures c in h'.chats && h'.chats[c].alive && h'.chats[c].epoch == h.chats[c].epoch
  {
    var h1 := PrintsLine(l, h, c, line, io);
    var h2 := WritesLine(l, h1);
    LeadsTrans(l, h, h1, h2);
    h' := LineIsSent(l, h2, io, c);
    LeadsTrans(l, h, h2, h');
  }

  /** The hub takes all signals: it learns of the end, then of the start. */
  lemma {:induction false} TakeAll(l: Limits, h: Hub, c: ChatId) returns (h': Hub)
    requires Inv(l, h) && h.live.Idle? && h.up && InFlightOrder(h.buffer, [])
    requires c in h.chats && h.chats[c].alive
    requires h.signals != [] && h.signals[|h.signals| - 1] == Authenticated
    requires h.chats[c].buffered || Disconnected in h.signals
    ensures Leads(l, h, h') && Inv(l, h') && h'.sync.Ready? && h'.up
    ensures h'.buffer == h.buffer && h'.wire == h.wire
    ensures c in h'.chats && h'.chats[c].buffered && h'.chats[c].epoch == h.chats[c].epoch
    decreases |h.signals|
  {
    h' := TakesSignal(l, h, []);
    assert h'.buffer == h.buffer;
    if |h.signals| > 1 {
      var h1 := h';
      assert h.signals[0] == Disconnected || (Disconnected in h.signals ==> Disconnected in h1.signals);
      h' := TakeAll(l, h1, c);
      LeadsTrans(l, h, h1, h');
    }
  }

  lemma NoneInFlight(s: State, c: ChatId, f: Frame)
    requires Only(s, c, f)
    ensures InFlightOrder(s, []) && ResyncTask.NoneInFlight(s)
  {
    forall d ensures Fl(s, d) == [] {
      assert Bucket(s, d).inFlight == [];
    }
    forall d ensures d in [] <==> d in s.chats && s.chats[d].inFlight != [] {
      assert Bucket(s, d).inFlight == [];
    }
  }

  function OneRecord(): ChatId -> DrainIo {
    c => DrainIo(true, 1)
  }

  lemma Readable(s: State, c: ChatId, f: Frame)
    requires Only(s, c, f)
    ensures ResyncTask.Readable(s, OneRecord())
  {
    forall d ensures OneRecord()(d).firstOk && OneRecord()(d).good >= |Bucket(s, d).disk| {
      assert |Bucket(s, d).View()| >= |Bucket(s, d).disk|;
      assert |Bucket(s, c).View()| == 1;
    }
  }

  lemma PickIsOnly(chats: map<ChatId, Entry>, s: State, b: State, p: Picked, io: DrainIo, c: ChatId, f: Frame)
    requires Wf(s) && Only(s, c, f) && PickedFrom(chats, s, b, p, io)
    ensures p.c == c && p.job.frames == [f]
  {
    NoneInFlight(s, c, f);
    assert Fl(s, p.c) == [];
    PickedPrefix(chats, s, b, p, io);
    assert |p.job.frames| <= |Bucket(s, p.c).View()|;
    assert p.c == c;
    assert |p.job.frames| == 1 && p.job.frames[0] == f;
  }

  lemma PassPicks(chats: map<ChatId, Entry>, s: State, order: seq<ChatId>, c: ChatId, f: Frame)
    requires Wf(s) && Only(s, c, f) && f.Size() == 0 && c in chats && chats[c].buffered && c in order
    ensures Pass(chats, s, order, OneRecord()).2.Some?
  {
    NoneInFlight(s, c, f);
    Readable(s, c, f);
    assert Bucket(s, c).View()[0] == f;
    if Pass(chats, s, order, OneRecord()).2.None? {
      ResyncTask.PassDone(chats, s, order, OneRecord(), c);
    }
  }

  /** The pass of the resync task finds the one frame there is. */
  lemma PassFinds(chats: map<ChatId, Entry>, s: State, order: seq<ChatId>, c: ChatId, f: Frame)
    requires Wf(s) && Only(s, c, f) && f.Size() == 0 && c in chats && chats[c].buffered && c in order
    ensures var p := Pass(chats, s, order, OneRecord()).2;
      p.Some? && p.value.c == c && p.value.epoch == chats[c].epoch && p.value.job.frames == [f]
  {
    PassPicks(chats, s, order, c, f);
    PassEffect(chats, s, order, OneRecord());
    var (_, b, p) := Pass(chats, s, order, OneRecord());
    PickIsOnly(chats, s, b, p.value, OneRecord()(p.value.c), c, f);
  }

  lemma PassStep(l: Limits, h: Hub, order: seq<ChatId>, c: ChatId, f: Frame)
    requires Wf(h.buffer) && h.sync.Ready? && Only(h.buffer, c, f) && f.Size() == 0
    requires c in h.chats && h.chats[c].buffered && NoDup(order) && Elems(order) == h.chats.Keys
    ensures var h' := Next(l, h, ResyncPass(order, OneRecord()));
      && h'.up == h.up && h'.wire == h.wire && h'.sync.Replaying? && !h'.sync.written
      && h'.sync.c == c && h'.sync.epoch == h.chats[c].epoch && h'.sync.job.frames == [f]
  {
    assert c in order by {
      assert c in Elems(order);
    }
    PassFinds(h.chats, h.buffer, order, c, f);
  }

  /** The buffered line follows the newer one on the wire. */
  lemma ReplayFollows(l: Limits, h: Hub, c: ChatId, f: Frame) returns (h': Hub)
    requires Inv(l, h) && h.sync.Ready? && h.up && Only(h.buffer, c, f) && f.Size() == 0
    requires c in h.chats && h.chats[c].buffered
    ensures Leads(l, h, h') && h'.wire == h.wire + [Out(c, h.chats[c].epoch, f.seqNo)]
  {
    var order := SetToSeq(h.chats.Keys);
    PassStep(l, h, order, c, f);
    var h1 := Steps(l, h, ResyncPass(order, OneRecord()));
    h' := WritesBatch(l, h1);
    assert Outs(c, h.chats[c].epoch, [f]) == [Out(c, h.chats[c].epoch, f.seqNo)];
    LeadsTrans(l, h, h1, h');
  }

  // ---------------------------------------------------------------------------
  // The condition is exact
  // ---------------------------------------------------------------------------

  /** A newer line is on the wire, an older one in the buffer. */
  ghost predicate Overtaken(h: Hub, c: ChatId, f: Frame) {
    && h.live.Idle? && Overlap(h) && Only(h.buffer, c, f) && f.Size() == 0
    && c in h.chats && h.chats[c].alive && h.wire != []
    && var o := h.wire[|h.wire| - 1]; o.c == c && o.epoch == h.chats[c].epoch && o.seqNo > f.seqNo
  }

  lemma FreshOvertakes(l: Limits, h: Hub, c: ChatId, line: Line, io: PushIo) returns (h': Hub, f: Frame)
    requires Inv(l, h) && h.auth && Overlap(h) && Fresh(h, c)
    requires Light(line) && l.totalFrames >= 1 && io.openOk && io.appendOk
    ensures Leads(l, h, h') && Inv(l, h') && Overtaken(h', c, f)
  {
    f := Stamp(h.chats[c], line);
    var h1 := FirstIsBuffered(l, h, c, line, io);
    h' := SecondIsSent(l, h1, c, line, io);
    LeadsTrans(l, h, h1, h');
    IsOvertaken(h, h1, h', c, line);
  }

  lemma IsOvertaken(h: Hub, h1: Hub, h': Hub, c: ChatId, line: Line)
    requires c in h.chats && Light(line) && h.chats[c].nextSeq == 1 && Overlap(h)
    requires SameSignals(h, h1) && SameSignals(h1, h') && h'.live.Idle? && Only(h'.buffer, c, Stamp(h.chats[c], line))
    requires c in h'.chats && h'.chats[c].alive && h'.chats[c].epoch == h.chats[c].epoch
    requires h'.wire == h1.wire + [Out(c, h.chats[c].epoch, 2)]
    ensures Overtaken(h', c, Stamp(h.chats[c], line))
  {
  }

  lemma Overtakes(l: Limits, h: Hub, c: ChatId, line: Line, io: PushIo) returns (h': Hub, f: Frame)
    requires Inv(l, h) && h.live.Idle? && h.auth && Overlap(h)
    requires Light(line) && l.totalFrames >= 1 && io.openOk && io.appendOk
    ensures Leads(l, h, h') && Inv(l, h') && Overtaken(h', c, f)
  {
    var h1 := StartFresh(l, h, c);
    h', f := FreshOvertakes(l, h1, c, line, io);
    LeadsTrans(l, h, h1, h');
  }

  lemma OvertakenFalls(l: Limits, h: Hub, c: ChatId, f: Frame) returns (h': Hub)
    requires Inv(l, h) && Overtaken(h, c, f)
    ensures Leads(l, h, h') && !WireSorted(h'.wire)
  {
    NoneInFlight(h.buffer, c, f);
    assert Disconnected in h.signals by {
      assert h.signals[|h.signals| - 2] == Disconnected;
    }
    var h1 := TakeAll(l, h, c);
    h' := ReplayFollows(l, h1, c, f);
    LeadsTrans(l, h, h1, h');
    var n := |h.wire|;
    assert !Rises(h'.wire, n - 1, n);
  }

  /** From two connections overlapping, numbers can go down on the newer one. */
  lemma OverlapFalls(l: Limits, h: Hub, c: ChatId, line: Line, io: PushIo) returns (h': Hub)
    requires Inv(l, h) && h.live.Idle? && h.auth && Overlap(h)
    requires Light(line) && l.totalFrames >= 1 && io.openOk && io.appendOk
    ensures Leads(l, h, h') && !WireSorted(h'.wire)
  {
    var h1, f := Overtakes(l, h, c, line, io);
    h' := OvertakenFalls(l, h1, c, f);
    LeadsTrans(l, h, h1, h');
  }

  /** A connection that comes up although the hub uses the old one, or is about to. */
  lemma UnsafeConnectFalls(l: Limits, h: Hub) returns (h': Hub)
    requires Inv(l, h) && Order(h) && !h.up && !MayConnect(h) && l.totalFrames >= 1
    ensures Leads(l, Next(l, h, Connect), h') && !WireSorted(h'.wire)
  {
    var io, line := PushIo(true, true, (n, c) => true), Line(false, false, [], 0, false);
    var h1 := Next(l, h, Connect);
    NextKeeps(l, h, Connect);
    assert h1.signals[..|h1.signals| - 1] == h.signals;
    var h2 := FreeHub(l, h1, io);
    var h3 := UntilAuth(l, h2);
    LeadsTrans(l, h1, h2, h3);
    h' := OverlapFalls(l, h3, "", line, io);
    LeadsTrans(l, h1, h3, h');
  }

  lemma {:induction false} OrderFrom(l: Limits, h: Hub, more: seq<Action>)
    requires Inv(l, h) && Order(h) && OrderlyFrom(l, h, more)
    ensures Order(RunFrom(l, h, more))
    decreases |more|
  {
    if more != [] {
      NextKeeps(l, h, more[0]);
      NextOrder(l, h, more[0]);
      OrderFrom(l, Next(l, h, more[0]), more[1..]);
    }
  }

  lemma UnsafeConnectFails(l: Limits, h: Hub)
    requires Inv(l, h) && Order(h) && !h.up && !MayConnect(h) && l.totalFrames >= 1
    ensures var h' := Next(l, h, Connect);
      exists more :: OrderlyFrom(l, h', more) && !WireSorted(RunFrom(l, h', more).wire)
  {
    var h' := Next(l, h, Connect);
    var t := UnsafeConnectFalls(l, h);
    var more :| Run(l, h', more, t);
    assert OrderlyFrom(l, h', more) && !WireSorted(RunFrom(l, h', more).wire);
  }

  /** Exactly when a connection may come up: the hub has taken the end of the previous one and
      no earlier start waits, if and only if the wire stays sorted whatever orderly steps
      follow. (A buffer that may hold no frame at all replays nothing.) */
  lemma {:induction false} ConnectIsSafeIff(l: Limits, acts: seq<Action>)
    requires OrderlyRun(l, acts) && !After(l, acts).up && l.totalFrames >= 1
    ensures var h := After(l, acts); var h' := Next(l, h, Connect);
      MayConnect(h) <==> forall more :: OrderlyFrom(l, h', more) ==> WireSorted(RunFrom(l, h', more).wire)
  {
    var h := After(l, acts);
    var h' := Next(l, h, Connect);
    AlwaysInv(l, acts);
    AlwaysOrder(l, acts);
    NextKeeps(l, h, Connect);
    if MayConnect(h) {
      NextOrder(l, h, Connect);
      forall more | OrderlyFrom(l, h', more) ensures WireSorted(RunFrom(l, h', more).wire) {
        OrderFrom(l, h', more);
      }
    } else {
      UnsafeConnectFails(l, h);
    }
  }
}
