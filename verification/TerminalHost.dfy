/** The terminal host: a table of sessions shared by request handlers and by the reader and
    writer threads of every generation, one lock section per step. */
module TerminalHosts {
  import opened Frames
  import opened Budget

  const MAX_TERMINALS_PER_INSTANCE_HOST: nat := 16

  /** Input numbers are 64-bit: the last one is never passed. */
  const MAX_INPUT_SEQ: nat := 0xFFFF_FFFF_FFFF_FFFF

  type Id = string

  /** `child`: the process handle no reader has taken yet. */
  datatype Session = Session(generation: nat, nextInput: nat, child: bool, readerStarted: bool)

  datatype Thread = Reader(id: Id, generation: nat) | Writer(id: Id, generation: nat)

  /** Outcome of handing input to a session's bounded queue. */
  datatype Queue = Takes | Full | Closed

  /** `Exhausted`: the queue took the input with the last number, but there is no next one. */
  datatype InputResult = Accepted | UnknownTerminal | OutOfOrder | QueueFull | QueueClosed | Exhausted

  /** `opening`: the request holding the open lock, between its checks and its insert.
      History: `exits` the generations an exit event was sent for, `closed` those removed
      without one, `inputs` the sequence numbers accepted per generation. */
  datatype Host = Host(
    sessions: map<Id, Session>,
    nextGeneration: nat,
    opening: Option<Id>,
    threads: set<Thread>,
    exits: seq<nat>,
    closed: set<nat>,
    inputs: map<nat, seq<nat>>)

  const NEW_HOST := Host(map[], 1, None, {}, [], {}, map[])

  datatype Action =
    | BeginOpen(id: Id)
    | OpenFails
    | FinishOpen
    | Input(id: Id, seqNo: nat, queue: Queue)
    | StartReader(id: Id)
    | Close(id: Id)
    | Fail(id: Id)
    | CloseAll
    | ReaderEnds(id: Id, generation: nat)
    | WriterFails(id: Id, generation: nat)
    | WriterEnds(id: Id, generation: nat)

  // ---------------------------------------------------------------------------
  // Steps
  // ---------------------------------------------------------------------------

  predicate MayOpen(sessions: map<Id, Session>, id: Id) {
    |sessions| < MAX_TERMINALS_PER_INSTANCE_HOST && id !in sessions
  }

  function Inserted(h: Host, id: Id): Host {
    h.(sessions := h.sessions[id := Session(h.nextGeneration, 1, true, false)],
       nextGeneration := h.nextGeneration + 1,
       opening := None,
       threads := h.threads + {Writer(id, h.nextGeneration)},
       inputs := h.inputs[h.nextGeneration := []])
  }

  function InputOutcome(sessions: map<Id, Session>, id: Id, seqNo: nat, queue: Queue): InputResult {
    if id !in sessions then UnknownTerminal
    else if seqNo != sessions[id].nextInput then OutOfOrder
    else match queue
      case Takes => if seqNo == MAX_INPUT_SEQ then Exhausted else Accepted
      case Full => QueueFull
      case Closed => QueueClosed
  }

  function TakeInput(h: Host, id: Id, seqNo: nat, queue: Queue): Host {
    if InputOutcome(h.sessions, id, seqNo, queue) != Accepted then h
    else
      var s := h.sessions[id];
      h.(sessions := h.sessions[id := s.(nextInput := s.nextInput + 1)],
         inputs := h.inputs[s.generation := Got(h, s.generation) + [seqNo]])
  }

  function Got(h: Host, generation: nat): seq<nat> {
    if generation in h.inputs then h.inputs[generation] else []
  }

  function Removed(h: Host, id: Id, exit: bool): Host {
    if id !in h.sessions then h
    else
      var g := h.sessions[id].generation;
      if exit then h.(sessions := h.sessions - {id}, exits := h.exits + [g])
      else h.(sessions := h.sessions - {id}, closed := h.closed + {g})
  }

  /** A thread of an old generation finds another one in its place and leaves it alone. */
  function RemovedIfGeneration(h: Host, id: Id, generation: nat): Host {
    if id in h.sessions && h.sessions[id].generation == generation then Removed(h, id, true) else h
  }

  function Next(h: Host, a: Action): Host {
    match a
    case BeginOpen(id) => if h.opening.None? && MayOpen(h.sessions, id) then h.(opening := Some(id)) else h
    case OpenFails => h.(opening := None)
    case FinishOpen => if h.opening.Some? then Inserted(h, h.opening.value) else h
    case Input(id, seqNo, queue) => TakeInput(h, id, seqNo, queue)
    case StartReader(id) =>
      if id !in h.sessions || h.sessions[id].readerStarted || !h.sessions[id].child then h
      else
        var s := h.sessions[id];
        h.(sessions := h.sessions[id := s.(child := false, readerStarted := true)],
           threads := h.threads + {Reader(id, s.generation)})
    case Close(id) => Removed(h, id, false)
    case Fail(id) => Removed(h, id, true)
    case CloseAll =>
      h.(sessions := map[], closed := h.closed + set id | id in h.sessions :: h.sessions[id].generation)
    case ReaderEnds(id, g) =>
      if Reader(id, g) !in h.threads then h
      else RemovedIfGeneration(h.(threads := h.threads - {Reader(id, g)}), id, g)
    case WriterFails(id, g) =>
      if Writer(id, g) !in h.threads then h
      else RemovedIfGeneration(h.(threads := h.threads - {Writer(id, g)}), id, g)
    case WriterEnds(id, g) => h.(threads := h.threads - {Writer(id, g)})
  }

  function After(acts: seq<Action>): Host
    decreases |acts|
  {
    if acts == [] then NEW_HOST else Next(After(acts[..|acts| - 1]), acts[|acts| - 1])
  }

  // ---------------------------------------------------------------------------
  // Invariant
  // ---------------------------------------------------------------------------

  ghost predicate FromOne(s: seq<nat>, next: nat) {
    |s| + 1 == next && forall i :: 0 <= i < |s| ==> s[i] == i + 1
  }

  /** A session's generation is its own, has not ended, and took inputs 1, 2, 3, … */
  ghost predicate Live(h: Host, id: Id)
    requires id in h.sessions
  {
    var s := h.sessions[id];
    && s.generation < h.nextGeneration && s.generation !in h.exits && s.generation !in h.closed
    && FromOne(Got(h, s.generation), s.nextInput) && s.nextInput <= MAX_INPUT_SEQ
  }

  predicate Apart(h: Host, x: Id, y: Id)
    requires x in h.sessions && y in h.sessions
  {
    x != y ==> h.sessions[x].generation != h.sessions[y].generation
  }

  /** A thread belongs to a generation that, if it is still in the table, is under its id. */
  ghost predicate Owned(h: Host, t: Thread) {
    t.generation < h.nextGeneration
    && forall id :: id in h.sessions && h.sessions[id].generation == t.generation ==> id == t.id
  }

  ghost predicate Inv(h: Host) {
    && (forall id {:trigger Live(h, id)} :: id in h.sessions ==> Live(h, id))
    && (forall x, y {:trigger Apart(h, x, y)} :: x in h.sessions && y in h.sessions ==> Apart(h, x, y))
    && (forall t {:trigger Owned(h, t)} :: t in h.threads ==> Owned(h, t))
    && NoDup(h.exits) && (forall g :: g in h.exits ==> g < h.nextGeneration && g !in h.closed)
    && (forall g :: g in h.closed ==> g < h.nextGeneration)
    && |h.sessions| + (if h.opening.Some? then 1 else 0) <= MAX_TERMINALS_PER_INSTANCE_HOST
    && (h.opening.Some? ==> h.opening.value !in h.sessions)
    && (forall g :: g in h.inputs ==> g < h.nextGeneration)
  }

  lemma MapSizes(m: map<Id, Session>, id: Id, s: Session)
    ensures id !in m ==> |m[id := s]| == |m| + 1
    ensures id in m ==> |m[id := s]| == |m| && |m - {id}| == |m| - 1
  {
    var m' := m[id := s];
    if id in m {
      assert m'.Keys == m.Keys;
      assert (m - {id}).Keys == m.Keys - {id};
      assert |m'| == |m'.Keys| && |m| == |m.Keys| && |m - {id}| == |(m - {id}).Keys|;
    } else {
      assert m'.Keys == m.Keys + {id};
      assert |m'| == |m'.Keys| && |m| == |m.Keys|;
    }
  }

  lemma InsertKeeps(h: Host)
    requires Inv(h) && h.opening.Some?
    ensures Inv(Inserted(h, h.opening.value))
  {
    var id, h' := h.opening.value, Inserted(h, h.opening.value);
    MapSizes(h.sessions, id, h'.sessions[id]);
    forall x | x in h'.sessions ensures Live(h', x) {
      assert x != id ==> Live(h, x);
    }
    forall x, y | x in h'.sessions && y in h'.sessions ensures Apart(h', x, y) {
      assert x != id ==> Live(h, x);
      assert y != id ==> Live(h, y);
      assert x != id && y != id ==> Apart(h, x, y);
    }
    forall t | t in h'.threads ensures Owned(h', t) {
      assert t in h.threads ==> Owned(h, t);
      forall x | x in h'.sessions && h'.sessions[x].generation == t.generation ensures x == t.id {
        assert x != id ==> Live(h, x);
      }
    }
  }

  lemma RemoveKeeps(h: Host, id: Id, exit: bool)
    requires Inv(h)
    ensures Inv(Removed(h, id, exit))
  {
    if id in h.sessions {
      var h' := Removed(h, id, exit);
      var g := h.sessions[id].generation;
      MapSizes(h.sessions, id, h.sessions[id]);
      assert Live(h, id);
      if exit {
        NoDupSnoc(h.exits, g);
      }
      forall x | x in h'.sessions ensures Live(h', x) {
        assert Live(h, x) && Apart(h, x, id);
      }
      forall x, y | x in h'.sessions && y in h'.sessions ensures Apart(h', x, y) {
        assert Apart(h, x, y);
      }
      forall t | t in h'.threads ensures Owned(h', t) {
        assert Owned(h, t);
      }
    }
  }

  lemma InputKeeps(h: Host, id: Id, seqNo: nat, queue: Queue)
    requires Inv(h)
    ensures Inv(TakeInput(h, id, seqNo, queue))
  {
    if InputOutcome(h.sessions, id, seqNo, queue) == Accepted {
      var h' := TakeInput(h, id, seqNo, queue);
      MapSizes(h.sessions, id, h'.sessions[id]);
      forall x | x in h'.sessions ensures Live(h', x) {
        assert Live(h, x) && Live(h, id) && Apart(h, x, id);
      }
      forall x, y | x in h'.sessions && y in h'.sessions ensures Apart(h', x, y) {
        assert Apart(h, x, y);
      }
      forall t | t in h'.threads ensures Owned(h', t) {
        assert Owned(h, t);
      }
    }
  }

  lemma ReaderKeeps(h: Host, id: Id)
    requires Inv(h)
    ensures Inv(Next(h, StartReader(id)))
  {
    var h' := Next(h, StartReader(id));
    if id in h.sessions && !h.sessions[id].readerStarted && h.sessions[id].child {
      MapSizes(h.sessions, id, h'.sessions[id]);
      assert Live(h, id);
      forall x | x in h'.sessions ensures Live(h', x) {
        assert Live(h, x);
      }
      forall x, y | x in h'.sessions && y in h'.sessions ensures Apart(h', x, y) {
        assert Apart(h, x, y);
      }
      forall t | t in h'.threads ensures Owned(h', t) {
        assert t in h.threads ==> Owned(h, t);
        forall x | x in h'.sessions && h'.sessions[x].generation == t.generation ensures x == t.id {
          assert Apart(h, x, id);
        }
      }
    }
  }

  lemma CloseAllKeeps(h: Host)
    requires Inv(h)
    ensures Inv(Next(h, CloseAll))
  {
    var h' := Next(h, CloseAll);
    forall g | g in h'.closed ensures g < h'.nextGeneration && g !in h'.exits {
      if g !in h.closed {
        var id :| id in h.sessions && h.sessions[id].generation == g;
        assert Live(h, id);
      }
    }
    forall t | t in h'.threads ensures Owned(h', t) {
      assert Owned(h, t);
    }
  }

  /** Opening, or the end of a thread, leaves the table alone. */
  lemma SameTableKeeps(h: Host, h': Host)
    requires Inv(h) && h' == h.(opening := h'.opening, threads := h'.threads) && h'.threads <= h.threads
    requires h'.opening.Some? ==> h'.opening == h.opening || MayOpen(h.sessions, h'.opening.value)
    ensures Inv(h')
  {
    forall x | x in h'.sessions ensures Live(h', x) {
      assert Live(h, x);
    }
    forall x, y | x in h'.sessions && y in h'.sessions ensures Apart(h', x, y) {
      assert Apart(h, x, y);
    }
    forall t | t in h'.threads ensures Owned(h', t) {
      assert Owned(h, t);
    }
  }

  lemma EndKeeps(h: Host, t: Thread)
    requires Inv(h)
    ensures Inv(RemovedIfGeneration(h.(threads := h.threads - {t}), t.id, t.generation))
  {
    var h1 := h.(threads := h.threads - {t});
    SameTableKeeps(h, h1);
    RemoveKeeps(h1, t.id, true);
  }

  lemma NextKeeps(h: Host, a: Action)
    requires Inv(h)
    ensures Inv(Next(h, a))
  {
    match a
    case BeginOpen(id) => SameTableKeeps(h, Next(h, a));
    case OpenFails => SameTableKeeps(h, Next(h, a));
    case FinishOpen =>
      if h.opening.Some? {
        InsertKeeps(h);
      }
    case Input(id, seqNo, queue) => InputKeeps(h, id, seqNo, queue);
    case StartReader(id) => ReaderKeeps(h, id);
    case Close(id) => RemoveKeeps(h, id, false);
    case Fail(id) => RemoveKeeps(h, id, true);
    case CloseAll => CloseAllKeeps(h);
    case ReaderEnds(id, g) => EndKeeps(h, Reader(id, g));
    case WriterFails(id, g) => EndKeeps(h, Writer(id, g));
    case WriterEnds(id, g) => SameTableKeeps(h, Next(h, a));
  }

  lemma {:induction false} AlwaysInv(acts: seq<Action>)
    ensures Inv(After(acts))
    decreases |acts|
  {
    if acts != [] {
      AlwaysInv(acts[..|acts| - 1]);
      NextKeeps(After(acts[..|acts| - 1]), acts[|acts| - 1]);
    }
  }

  // ---------------------------------------------------------------------------
  // What it means
  // ---------------------------------------------------------------------------

  /** Each generation has at most one exit event, and none if it was closed. */
  lemma {:induction false} OneExitPerGeneration(acts: seq<Action>, i: nat, j: nat)
    requires i < j < |After(acts).exits|
    ensures After(acts).exits[i] != After(acts).exits[j]
    ensures After(acts).exits[i] !in After(acts).closed
  {
    AlwaysInv(acts);
    assert Differ(After(acts).exits, i, j);
  }

  /** An insert never overwrites a session, and the host never holds more than its limit. */
  lemma {:induction false} InsertNeverOverwrites(acts: seq<Action>)
    ensures var h := After(acts);
      && |h.sessions| <= MAX_TERMINALS_PER_INSTANCE_HOST
      && (h.opening.Some? ==> h.opening.value !in h.sessions && |h.sessions| < MAX_TERMINALS_PER_INSTANCE_HOST)
  {
    AlwaysInv(acts);
  }

  /** A terminal leaves the table, or is replaced, only when it is closed or failed by name,
      when all are closed, or when a thread of its very own generation ends. A thread of an
      earlier generation of the same id changes nothing, nor does any open. */
  lemma {:induction false} LeavesOnlyBy(acts: seq<Action>, a: Action, id: Id)
    requires id in After(acts).sessions
    requires var h' := Next(After(acts), a);
      id in h'.sessions ==> h'.sessions[id].generation != After(acts).sessions[id].generation
    ensures var g := After(acts).sessions[id].generation;
      a in {Close(id), Fail(id), CloseAll, ReaderEnds(id, g), WriterFails(id, g)} && id !in Next(After(acts), a).sessions
  {
    AlwaysInv(acts);
  }

  /** Whatever queue outcomes and wrong numbers come in between, the inputs accepted for a
      live terminal are 1, 2, 3, and so on without gap. */
  lemma {:induction false} InputsAreContiguous(acts: seq<Action>, id: Id)
    requires id in After(acts).sessions
    ensures var h := After(acts); var g := h.sessions[id].generation;
      && |Got(h, g)| + 1 == h.sessions[id].nextInput <= MAX_INPUT_SEQ
      && forall i :: 0 <= i < |Got(h, g)| ==> Got(h, g)[i] == i + 1
  {
    AlwaysInv(acts);
    assert Live(After(acts), id);
  }

  // ---------------------------------------------------------------------------
  // What each step does to the table
  // ---------------------------------------------------------------------------

  /** The end of a reader, or the failure of a writer, takes the thread's own terminal out of the
      table and sends its exit event; if another generation is there, or none, it does neither. */
  lemma {:induction false} ThreadEndRemoves(h: Host, a: Action)
    requires a.ReaderEnds? || a.WriterFails?
    requires (if a.ReaderEnds? then Reader(a.id, a.generation) else Writer(a.id, a.generation)) in h.threads
    ensures var h' := Next(h, a); var own := a.id in h.sessions && h.sessions[a.id].generation == a.generation;
      && h'.sessions == (if own then h.sessions - {a.id} else h.sessions)
      && h'.exits == (if own then h.exits + [a.generation] else h.exits)
      && h'.closed == h.closed && h'.opening == h.opening
  {
  }

  /** A close takes the terminal out without an exit event, a failure with one. */
  lemma {:induction false} CloseRemoves(h: Host, id: Id, x: Action)
    requires x == Close(id) || x == Fail(id)
    ensures var h' := Next(h, x);
      && h'.sessions == h.sessions - {id} && h'.threads == h.threads && h'.opening == h.opening
      && (id !in h.sessions ==> h' == h)
      && (id in h.sessions ==>
           var g := h.sessions[id].generation;
           if x.Close? then h'.closed == h.closed + {g} && h'.exits == h.exits
           else h'.closed == h.closed && h'.exits == h.exits + [g])
  {
    if id !in h.sessions {
      assert h.sessions - {id} == h.sessions;
    }
  }

  /** A close of all empties the table without an exit event. */
  lemma {:induction false} CloseAllRemoves(h: Host, id: Id)
    ensures var h' := Next(h, CloseAll);
      && h'.sessions == map[] && h'.exits == h.exits && h'.threads == h.threads
      && (id in h.sessions ==> h.sessions[id].generation in h'.closed)
  {
  }

  /** An open that passed its checks enters the table under the next generation, with its writer
      running, its process not yet read, and input 1 expected. */
  lemma {:induction false} OpenInserts(h: Host)
    ensures var h' := Next(h, FinishOpen); var g := h.nextGeneration;
      if h.opening.None? then h' == h
      else
        && h'.sessions == h.sessions[h.opening.value := Session(g, 1, true, false)]
        && h'.threads == h.threads + {Writer(h.opening.value, g)}
        && h'.nextGeneration == g + 1 && h'.opening == None && h'.exits == h.exits && h'.closed == h.closed
  {
  }

  /** A request holds the open lock exactly if there is room and the id is free. */
  lemma {:induction false} OpenChecks(h: Host, id: Id)
    ensures var h' := Next(h, BeginOpen(id));
      h' == if h.opening == None && |h.sessions| < MAX_TERMINALS_PER_INSTANCE_HOST && id !in h.sessions
            then h.(opening := Some(id)) else h
    ensures Next(h, OpenFails) == h.(opening := None)
  {
  }

  /** A started terminal is watched as long as it is in the table: its reader still runs, so
      that the end of the process will take it out; one not started still has its process. */
  ghost predicate Watched(h: Host, id: Id)
    requires id in h.sessions
  {
    var s := h.sessions[id];
    s.readerStarted == (Reader(id, s.generation) in h.threads) && s.child == !s.readerStarted
  }

  ghost predicate AllWatched(h: Host) {
    forall id {:trigger Watched(h, id)} :: id in h.sessions ==> Watched(h, id)
  }

  lemma NextWatches(h: Host, a: Action)
    requires Inv(h) && AllWatched(h)
    ensures AllWatched(Next(h, a))
  {
    var h' := Next(h, a);
    forall id | id in h'.sessions ensures Watched(h', id) {
      if id in h.sessions {
        assert Watched(h, id) && Live(h, id);
      }
      assert Reader(id, h.nextGeneration) in h.threads ==> Owned(h, Reader(id, h.nextGeneration));
    }
  }

  /** In every run, every terminal in the table is watched. */
  lemma {:induction false} StartedIsWatched(acts: seq<Action>, id: Id)
    requires id in After(acts).sessions
    ensures var h := After(acts); var s := h.sessions[id];
      && (s.readerStarted <==> Reader(id, s.generation) in h.threads)
      && (s.child <==> !s.readerStarted)
      && (s.readerStarted ==>
           var h' := Next(h, ReaderEnds(id, s.generation));
           id !in h'.sessions && s.generation in h'.exits)
  {
    AlwaysWatched(acts);
    assert Watched(After(acts), id);
  }

  lemma {:induction false} AlwaysWatched(acts: seq<Action>)
    ensures AllWatched(After(acts))
    decreases |acts|
  {
    if acts != [] {
      AlwaysWatched(acts[..|acts| - 1]);
      AlwaysInv(acts[..|acts| - 1]);
      NextWatches(After(acts[..|acts| - 1]), acts[|acts| - 1]);
    }
  }

  /** The reader of a terminal starts once. */
  lemma {:induction false} ReaderStartsOnce(acts: seq<Action>, id: Id)
    ensures var h := After(acts); var h' := Next(h, StartReader(id));
      if id !in h.sessions || Reader(id, h.sessions[id].generation) in h.threads then h' == h
      else
        var s := h.sessions[id];
        && h'.threads == h.threads + {Reader(id, s.generation)}
        && h'.sessions == h.sessions[id := s.(child := false, readerStarted := true)]
  {
    AlwaysWatched(acts);
    assert id in After(acts).sessions ==> Watched(After(acts), id);
  }

  // ---------------------------------------------------------------------------
  // The table as the program keeps it
  // ---------------------------------------------------------------------------

  datatype Opened = MayProceed | TooMany | Exists

  class TerminalHost {
    var sessions: map<Id, Session>
    var nextGeneration: nat
    ghost var abs: Host

    ghost predicate Valid()
      reads this
    {
      sessions == abs.sessions && nextGeneration == abs.nextGeneration && Inv(abs)
    }

    constructor ()
      ensures Valid() && abs == NEW_HOST
    {
      sessions, nextGeneration, abs := map[], 1, NEW_HOST;
    }

    /** The checks of an open, made under the open lock. */
    method CheckOpen(id: Id) returns (r: Opened)
      requires Valid() && abs.opening.None?
      modifies `abs
      ensures Valid() && abs == Next(old(abs), BeginOpen(id))
      ensures r.TooMany? <==> |sessions| >= MAX_TERMINALS_PER_INSTANCE_HOST
      ensures r.Exists? <==> |sessions| < MAX_TERMINALS_PER_INSTANCE_HOST && id in sessions
      ensures abs.opening == if r.MayProceed? then Some(id) else None
    {
      if |sessions| >= MAX_TERMINALS_PER_INSTANCE_HOST {
        r := TooMany;
      } else if id in sessions {
        r := Exists;
      } else {
        r := MayProceed;
      }
      NextKeeps(abs, BeginOpen(id));
      abs := Next(abs, BeginOpen(id));
    }

    /** The process runs: it enters the table under a new generation. */
    method InsertOpened(id: Id) returns (generation: nat)
      requires Valid() && abs.opening == Some(id)
      modifies this
      ensures Valid() && abs == Next(old(abs), FinishOpen)
      ensures id !in old(sessions) && generation !in old(abs).exits && generation !in old(abs).closed
      ensures sessions == old(sessions)[id := Session(generation, 1, true, false)]
      ensures nextGeneration > generation == old(nextGeneration)
    {
      NextKeeps(abs, FinishOpen);
      generation := nextGeneration;
      nextGeneration := nextGeneration + 1;
      sessions := sessions[id := Session(generation, 1, true, false)];
      abs := Next(abs, FinishOpen);
    }

    method TakeInput(id: Id, seqNo: nat, queue: Queue) returns (r: InputResult)
      requires Valid()
      modifies this
      ensures Valid() && abs == Next(old(abs), Input(id, seqNo, queue))
      ensures r == InputOutcome(old(sessions), id, seqNo, queue)
      ensures r == Accepted <==>
        id in old(sessions) && seqNo == old(sessions)[id].nextInput < MAX_INPUT_SEQ && queue == Takes
      ensures sessions == if r != Accepted then old(sessions)
                          else old(sessions)[id := old(sessions)[id].(nextInput := seqNo + 1)]
    {
      assert id in sessions ==> Live(abs, id);
      NextKeeps(abs, Input(id, seqNo, queue));
      abs := Next(abs, Input(id, seqNo, queue));
      if id !in sessions {
        return UnknownTerminal;
      }
      var s := sessions[id];
      if seqNo != s.nextInput {
        return OutOfOrder;
      }
      match queue
      case Takes =>
        if s.nextInput == MAX_INPUT_SEQ {
          return Exhausted;
        }
        sessions := sessions[id := s.(nextInput := s.nextInput + 1)];
        return Accepted;
      case Full => return QueueFull;
      case Closed => return QueueClosed;
    }

    /** Hands the process to a reader thread, once; returns the generation it reads for. */
    method TakeChild(id: Id) returns (reader: Option<nat>)
      requires Valid()
      modifies this
      ensures Valid() && abs == Next(old(abs), StartReader(id))
      ensures reader.Some? <==> id in old(sessions) && !old(sessions)[id].readerStarted && old(sessions)[id].child
      ensures reader.Some? ==>
        && reader.value == old(sessions)[id].generation
        && sessions == old(sessions)[id := old(sessions)[id].(child := false, readerStarted := true)]
        && abs.threads == old(abs).threads + {Reader(id, reader.value)}
      ensures reader.None? ==> abs == old(abs)
    {
      NextKeeps(abs, StartReader(id));
      abs := Next(abs, StartReader(id));
      if id !in sessions || sessions[id].readerStarted || !sessions[id].child {
        return None;
      }
      var s := sessions[id];
      sessions := sessions[id := s.(child := false, readerStarted := true)];
      return Some(s.generation);
    }

    /** Closed on request: no exit event. */
    method CloseTerminal(id: Id)
      requires Valid()
      modifies this
      ensures Valid() && abs == Next(old(abs), Close(id)) && abs.exits == old(abs).exits
      ensures sessions == old(sessions) - {id}
    {
      NextKeeps(abs, Close(id));
      if id in sessions {
        sessions := sessions - {id};
      }
      abs := Next(abs, Close(id));
    }

    /** A bad input or resize: the terminal goes, and an exit event is sent if it was there. */
    method FailTerminal(id: Id) returns (exit: bool)
      requires Valid()
      modifies this
      ensures Valid() && abs == Next(old(abs), Fail(id)) && (exit <==> id in old(sessions))
      ensures sessions == old(sessions) - {id}
      ensures abs.exits == old(abs).exits + if exit then [old(sessions)[id].generation] else []
    {
      NextKeeps(abs, Fail(id));
      exit := id in sessions;
      if exit {
        sessions := sessions - {id};
      }
      abs := Next(abs, Fail(id));
    }

    method CloseEverything()
      requires Valid()
      modifies this
      ensures Valid() && abs == Next(old(abs), CloseAll) && sessions == map[]
    {
      NextKeeps(abs, CloseAll);
      sessions := map[];
      abs := Next(abs, CloseAll);
    }

    /** A reader thread ends: it sends an exit event exactly if it removed its own generation. */
    method ReaderDone(id: Id, generation: nat) returns (exit: bool)
      requires Valid() && Reader(id, generation) in abs.threads
      modifies this
      ensures Valid() && abs == Next(old(abs), ReaderEnds(id, generation))
      ensures exit <==> id in old(sessions) && old(sessions)[id].generation == generation
      ensures sessions == if exit then old(sessions) - {id} else old(sessions)
      ensures abs.exits == old(abs).exits + if exit then [generation] else []
    {
      NextKeeps(abs, ReaderEnds(id, generation));
      exit := id in sessions && sessions[id].generation == generation;
      if exit {
        sessions := sessions - {id};
      }
      abs := Next(abs, ReaderEnds(id, generation));
    }

    /** A writer thread failed. */
    method WriterFailed(id: Id, generation: nat) returns (exit: bool)
      requires Valid() && Writer(id, generation) in abs.threads
      modifies this
      ensures Valid() && abs == Next(old(abs), WriterFails(id, generation))
      ensures exit <==> id in old(sessions) && old(sessions)[id].generation == generation
      ensures sessions == if exit then old(sessions) - {id} else old(sessions)
      ensures abs.exits == old(abs).exits + if exit then [generation] else []
    {
      NextKeeps(abs, WriterFails(id, generation));
      exit := id in sessions && sessions[id].generation == generation;
      if exit {
        sessions := sessions - {id};
      }
      abs := Next(abs, WriterFails(id, generation));
    }
  }
}
