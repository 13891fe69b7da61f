/** Whole runs of the disconnect buffer: any sequence of operations, any outcome of the file
    operations they perform. */
module BufferRuns {
  import opened Frames
  import opened Sessions
  import opened Budget
  import opened BufferSpec
  import opened BufferQueue
  import opened BufferBudget

  datatype Op =
    | DoPush(c: ChatId, f: Frame, openOk: bool, appendOk: bool, io: (nat, ChatId) -> bool)
    | DoDrain(c: ChatId, maxFrames: nat, maxBytes: nat, firstOk: bool, good: nat)
    | DoCommit(c: ChatId)
    | DoRollback(c: ChatId)
    | DoRollbackAll(ids: seq<ChatId>)
    | DoRemove(c: ChatId)

  function Apply(l: Limits, s: State, op: Op): (r: State)
    requires Wf(s)
    ensures Wf(r)
  {
    match op
    case DoPush(c, f, openOk, appendOk, io) => Push(l, s, c, f, openOk, appendOk, io).0
    case DoDrain(c, maxFrames, maxBytes, firstOk, good) => Drain(s, c, maxFrames, maxBytes, firstOk, good).0
    case DoCommit(c) => Commit(s, c)
    case DoRollback(c) => Rollback(l, s, c)
    case DoRollbackAll(ids) => RollbackEach(l, s, ids)
    case DoRemove(c) => Remove(s, c)
  }

  function Run(l: Limits, s: State, ops: seq<Op>): (r: State)
    requires Wf(s)
    ensures Wf(r)
    decreases |ops|
  {
    if ops == [] then s else Run(l, Apply(l, s, ops[0]), ops[1..])
  }

  /** The frames of `d` this operation confirms as sent. */
  function Sent(s: State, op: Op, d: ChatId): seq<Frame> {
    if op == DoCommit(d) then Bucket(s, d).inFlight else []
  }

  /** Everything `d` confirms as sent in a run, in order. */
  function Delivered(l: Limits, s: State, ops: seq<Op>, d: ChatId): seq<Frame>
    requires Wf(s)
    decreases |ops|
  {
    if ops == [] then [] else Sent(s, ops[0], d) + Delivered(l, Apply(l, s, ops[0]), ops[1..], d)
  }

  function PushedBy(l: Limits, op: Op, d: ChatId): seq<Frame> {
    if op.DoPush? && op.c == d && op.f.Size() <= l.maxFrame then [op.f] else []
  }

  /** What a run pushes into `d`, in order; an oversize frame is refused before it counts. */
  function Pushed(l: Limits, ops: seq<Op>, d: ChatId): seq<Frame> {
    if ops == [] then [] else PushedBy(l, ops[0], d) + Pushed(l, ops[1..], d)
  }

  /** The order guard at every push into `d`, and `d` is not removed. */
  ghost predicate Fifo(l: Limits, s: State, ops: seq<Op>, d: ChatId)
    requires Wf(s)
    decreases |ops|
  {
    ops != [] ==>
      && ops[0] != DoRemove(d)
      && (ops[0].DoPush? && ops[0].c == d ==> FifoPush(l, s, d, ops[0].f))
      && Fifo(l, Apply(l, s, ops[0]), ops[1..], d)
  }

  // ---------------------------------------------------------------------------
  // First in, first out
  // ---------------------------------------------------------------------------

  lemma SubseqConcat(a: seq<Frame>, b: seq<Frame>, c: seq<Frame>, d: seq<Frame>)
    requires Subseq(a, b) && Subseq(c, d)
    ensures Subseq(a + c, b + d)
  {
    var x :| SubseqBy(a, b, x);
    var y :| SubseqBy(c, d, y);
    var z := x + seq(|y|, i requires 0 <= i < |y| => |b| + y[i]);
    assert SubseqBy(a + c, b + d, z);
  }

  lemma PushQueues(l: Limits, s: State, op: Op, d: ChatId)
    requires Wf(s) && op.DoPush? && (op.c == d ==> FifoPush(l, s, d, op.f))
    ensures Subseq(Bucket(Apply(l, s, op), d).View(), Bucket(s, d).View() + PushedBy(l, op, d))
  {
    var v := Bucket(s, d).View();
    assert v + [] == v;
    if op.f.Size() > l.maxFrame {
      assert PushedBy(l, op, d) == [];
      SubseqRefl(v);
    } else {
      var m := if op.c == d then Admit(l, s, op.c, op.f, op.openOk, op.appendOk).0 else Bucket(s, d);
      PushEvicts(l, s, op.c, op.f, op.openOk, op.appendOk, op.io, d);
      if op.c == d {
        AdmitQueues(l, s, d, op.f, op.openOk, op.appendOk);
        assert PushedBy(l, op, d) == [op.f];
        SubseqTrans(Bucket(Apply(l, s, op), d).View(), m.View(), v + [op.f]);
      } else {
        assert PushedBy(l, op, d) == [];
      }
    }
  }

  lemma AdmitQueues(l: Limits, s: State, c: ChatId, f: Frame, openOk: bool, appendOk: bool)
    requires FifoPush(l, s, c, f)
    ensures Subseq(Admit(l, s, c, f, openOk, appendOk).0.View(), Bucket(s, c).View() + [f])
  {
    var e := Bucket(s, c);
    var (e', r) := Admit(l, s, c, f, openOk, appendOk);
    if r == Buffered {
      assert e'.View() == e.View() + [f] by {
        AppendAtEnd(e.inFlight, e.mem, e.disk, f);
      }
      SubseqRefl(e.View() + [f]);
    } else {
      assert e'.View() == e.View();
      SubseqPrefix(e.View(), e.View() + [f]);
    }
  }

  lemma AppendAtEnd(a: seq<Frame>, b: seq<Frame>, d: seq<Frame>, f: Frame)
    ensures a + b + (d + [f]) == (a + b + d) + [f]
    ensures d == [] ==> a + (b + [f]) + d == (a + b + d) + [f]
  {
  }

  lemma DrainQueues(l: Limits, s: State, op: Op, d: ChatId)
    requires Wf(s) && op.DoDrain?
    ensures Bucket(Apply(l, s, op), d).View() == Bucket(s, d).View()
  {
    DrainFrame(s, op.c, op.maxFrames, op.maxBytes, op.firstOk, op.good, d);
    if op.c in s.chats {
      DrainKeepsView(s, op.c, op.maxFrames, op.maxBytes, op.firstOk, op.good);
    }
  }

  lemma CommitQueues(l: Limits, s: State, op: Op, d: ChatId)
    requires Wf(s) && op.DoCommit?
    ensures Sent(s, op, d) + Bucket(Apply(l, s, op), d).View() == Bucket(s, d).View()
  {
    CommitDropsBatch(s, op.c, d);
    assert [] + Bucket(s, d).View() == Bucket(s, d).View();
  }

  lemma RollbackQueues(l: Limits, s: State, op: Op, d: ChatId)
    requires Wf(s) && (op.DoRollback? || op.DoRollbackAll?)
    ensures Subseq(Bucket(Apply(l, s, op), d).View(), Bucket(s, d).View())
  {
    if op.DoRollback? {
      RollbackThins(l, s, op.c, d);
    } else {
      RollbackEachThins(l, s, op.ids, d);
    }
  }

  lemma NothingSent(v': seq<Frame>, v: seq<Frame>)
    ensures [] + v' == v' && v + [] == v
  {
  }

  lemma OtherQueues(l: Limits, s: State, op: Op, d: ChatId)
    requires Wf(s) && op != DoRemove(d) && !op.DoPush? && !op.DoCommit?
    ensures Subseq(Bucket(Apply(l, s, op), d).View(), Bucket(s, d).View())
  {
    if op.DoDrain? {
      DrainQueues(l, s, op, d);
      SubseqRefl(Bucket(s, d).View());
    } else if op.DoRollback? || op.DoRollbackAll? {
      RollbackQueues(l, s, op, d);
    } else {
      SubseqRefl(Bucket(s, d).View());
    }
  }

  /** One operation: what it confirms, then what is left, was queued or pushed in that order. */
  lemma StepQueues(l: Limits, s: State, op: Op, d: ChatId)
    requires Wf(s) && op != DoRemove(d) && (op.DoPush? && op.c == d ==> FifoPush(l, s, d, op.f))
    ensures Subseq(Sent(s, op, d) + Bucket(Apply(l, s, op), d).View(), Bucket(s, d).View() + PushedBy(l, op, d))
  {
    if op.DoPush? {
      NothingSent(Bucket(Apply(l, s, op), d).View(), Bucket(s, d).View());
      PushQueues(l, s, op, d);
    } else if op.DoCommit? {
      NothingSent([], Bucket(s, d).View());
      SubseqRefl(Bucket(s, d).View());
      CommitQueues(l, s, op, d);
    } else {
      NothingSent(Bucket(Apply(l, s, op), d).View(), Bucket(s, d).View());
      OtherQueues(l, s, op, d);
    }
  }

  /** Over a whole run the three stores are one queue: what a chat confirms as sent, followed
      by what it still holds, is the initial queue followed by the pushes with some frames
      deleted and nothing reordered. */
  lemma {:induction false} RunIsFifo(l: Limits, s: State, ops: seq<Op>, d: ChatId)
    requires Wf(s) && Fifo(l, s, ops, d)
    ensures Subseq(Delivered(l, s, ops, d) + Bucket(Run(l, s, ops), d).View(), Bucket(s, d).View() + Pushed(l, ops, d))
    decreases |ops|
  {
    var v := Bucket(s, d).View();
    if ops == [] {
      assert v + [] == v && [] + v == v;
      SubseqRefl(v);
    } else {
      var t := Apply(l, s, ops[0]);
      var out, rest := Sent(s, ops[0], d), Delivered(l, t, ops[1..], d) + Bucket(Run(l, s, ops), d).View();
      var v', p' := Bucket(t, d).View(), Pushed(l, ops[1..], d);
      RunIsFifo(l, t, ops[1..], d);
      SubseqRefl(out);
      SubseqConcat(out, out, rest, v' + p');
      StepQueues(l, s, ops[0], d);
      SubseqRefl(p');
      SubseqConcat(out + v', v + PushedBy(l, ops[0], d), p', p');
      JoinQueues(out, Delivered(l, t, ops[1..], d), Bucket(Run(l, s, ops), d).View(), v', p', v, PushedBy(l, ops[0], d));
      SubseqTrans(out + rest, out + (v' + p'), v + Pushed(l, ops, d));
    }
  }

  lemma JoinQueues(out: seq<Frame>, a: seq<Frame>, b: seq<Frame>, v': seq<Frame>, p': seq<Frame>, v: seq<Frame>, p: seq<Frame>)
    ensures out + (v' + p') == (out + v') + p'
    ensures (v + p) + p' == v + (p + p')
    ensures out + (a + b) == (out + a) + b
  {
  }

  /** So a chat whose frames are pushed with growing sequence numbers sends them with growing
      sequence numbers. */
  lemma {:induction false} RunStaysAscending(l: Limits, s: State, ops: seq<Op>, d: ChatId)
    requires Wf(s) && Fifo(l, s, ops, d) && Ascending(Bucket(s, d).View() + Pushed(l, ops, d))
    ensures Ascending(Delivered(l, s, ops, d) + Bucket(Run(l, s, ops), d).View())
  {
    RunIsFifo(l, s, ops, d);
    SubseqAscending(Delivered(l, s, ops, d) + Bucket(Run(l, s, ops), d).View(),
                    Bucket(s, d).View() + Pushed(l, ops, d));
  }

  // ---------------------------------------------------------------------------
  // Conservation
  // ---------------------------------------------------------------------------

  lemma PushConservesAll(l: Limits, s: State, op: Op, d: ChatId)
    requires Wf(s) && op.DoPush?
    ensures Acc(Apply(l, s, op), d) == Acc(s, d) + multiset(PushedBy(l, op, d))
  {
    PushLoad(l, s, op.c, op.f, op.openOk, op.appendOk, op.io, d);
  }

  lemma CommitConserves(l: Limits, s: State, op: Op, d: ChatId)
    requires Wf(s) && op.DoCommit?
    ensures multiset(Sent(s, op, d)) + Acc(Apply(l, s, op), d) == Acc(s, d)
  {
    CommitLoad(s, op.c, d);
  }

  lemma OthersConserve(l: Limits, s: State, op: Op, d: ChatId)
    requires Wf(s) && !op.DoPush? && !op.DoCommit? && (op.DoRemove? ==> op.c != d)
    ensures Acc(Apply(l, s, op), d) == Acc(s, d)
  {
    if op.DoDrain? && op.c in s.chats {
      DrainLoad(s, op.c, op.maxFrames, op.maxBytes, op.firstOk, op.good, d);
    } else if op.DoRollback? {
      RollbackLoad(l, s, op.c, d);
    } else if op.DoRollbackAll? {
      RollbackEachLoad(l, s, op.ids, d);
    } else if op.DoRemove? {
      RemoveLoad(s, op.c, d);
    }
  }

  lemma StepConserves(l: Limits, s: State, op: Op, d: ChatId)
    requires Wf(s) && op != DoRemove(d)
    ensures multiset(Sent(s, op, d)) + Acc(Apply(l, s, op), d) == Acc(s, d) + multiset(PushedBy(l, op, d))
  {
    if op.DoPush? {
      PushConservesAll(l, s, op, d);
    } else if op.DoCommit? {
      CommitConserves(l, s, op, d);
    } else {
      OthersConserve(l, s, op, d);
    }
  }

  lemma SumParts(a: seq<Frame>, b: seq<Frame>, c: seq<Frame>, d: seq<Frame>,
                 x: multiset<Frame>, y: multiset<Frame>, z: multiset<Frame>)
    requires multiset(a) + y == x + multiset(c)
    requires multiset(b) + z == y + multiset(d)
    ensures multiset(a + b) + z == x + multiset(c + d)
  {
    calc {
      multiset(a + b) + z;
      multiset(a) + (multiset(b) + z);
      (multiset(a) + y) + multiset(d);
      x + multiset(c + d);
    }
  }

  /** Every frame pushed in a run, in whatever order things happened, is in exactly one place:
      confirmed as sent, still queued, evicted, or refused by a failed disk. */
  lemma {:induction false} RunConserves(l: Limits, s: State, ops: seq<Op>, d: ChatId)
    requires Wf(s) && DoRemove(d) !in ops
    ensures multiset(Delivered(l, s, ops, d)) + Acc(Run(l, s, ops), d) == Acc(s, d) + multiset(Pushed(l, ops, d))
    decreases |ops|
  {
    if ops != [] {
      var t := Apply(l, s, ops[0]);
      StepConserves(l, s, ops[0], d);
      RunConserves(l, t, ops[1..], d);
      SumParts(Sent(s, ops[0], d), Delivered(l, t, ops[1..], d), PushedBy(l, ops[0], d), Pushed(l, ops[1..], d),
               Acc(s, d), Acc(t, d), Acc(Run(l, s, ops), d));
    }
  }

  // ---------------------------------------------------------------------------
  // Budgets
  // ---------------------------------------------------------------------------

  lemma StepKeepsMemBudget(l: Limits, s: State, op: Op)
    requires Wf(s) && !OverMem(l, Total(s))
    ensures !OverMem(l, Total(Apply(l, s, op)))
    ensures !op.DoPush? && !OverTotal(l, Total(s)) ==> !OverTotal(l, Total(Apply(l, s, op)))
  {
    if op.DoPush? {
      PushKeepsMemBudget(l, s, op.c, op.f, op.openOk, op.appendOk, op.io);
    } else {
      OtherStepShrinks(l, s, op);
    }
  }

  lemma OtherStepShrinks(l: Limits, s: State, op: Op)
    requires Wf(s) && !OverMem(l, Total(s)) && !op.DoPush?
    ensures var u, u' := Total(s), Total(Apply(l, s, op));
      !OverMem(l, u') && u'.bytes <= u.bytes && u'.frames <= u.frames
  {
    match op
    case DoPush(_, _, _, _, _) =>
    case DoDrain(c, maxFrames, maxBytes, firstOk, good) => DrainTotal(s, c, maxFrames, maxBytes, firstOk, good);
    case DoCommit(c) =>
      if c in s.chats {
        CommitTotal(s, c);
      }
    case DoRollback(c) => RollbackKeepsBudgets(l, s, c);
    case DoRollbackAll(ids) => RollbackEachKeepsBudgets(l, s, ids);
    case DoRemove(c) =>
      if c in s.chats {
        RemoveTotal(s, c);
      }
  }

  /** The memory budget holds after every run. */
  lemma {:induction false} RunKeepsMemBudget(l: Limits, s: State, ops: seq<Op>)
    requires Wf(s) && Total(s).memBytes <= l.memBytes && Total(s).memFrames <= l.memFrames
    ensures Total(Run(l, s, ops)).memBytes <= l.memBytes && Total(Run(l, s, ops)).memFrames <= l.memFrames
    decreases |ops|
  {
    if ops != [] {
      StepKeepsMemBudget(l, s, ops[0]);
      RunKeepsMemBudget(l, Apply(l, s, ops[0]), ops[1..]);
    }
  }

  /** During one push the same segments can be read in every round. */
  ghost predicate SteadyReads(op: Op) {
    op.DoPush? ==> Steady(op.io, ReadsAt(op.io, 0))
  }

  /** The operation is a push that would leave more stuck than the shared budget allows. */
  predicate TooMuchStuck(l: Limits, s: State, op: Op) {
    op.DoPush? && Overflows(l, s, op.c, op.f, op.openOk, op.appendOk, ReadsAt(op.io, 0))
  }

  /** Every state of the run is within the shared budget. */
  ghost predicate Bounded(l: Limits, s: State, ops: seq<Op>)
    requires Wf(s)
    decreases |ops|
  {
    && Total(s).bytes <= l.totalBytes && Total(s).frames <= l.totalFrames
    && (ops != [] ==> Bounded(l, Apply(l, s, ops[0]), ops[1..]))
  }

  ghost predicate NeverTooMuch(l: Limits, s: State, ops: seq<Op>)
    requires Wf(s)
    decreases |ops|
  {
    ops != [] ==> !TooMuchStuck(l, s, ops[0]) && NeverTooMuch(l, Apply(l, s, ops[0]), ops[1..])
  }

  lemma StepOverIff(l: Limits, s: State, op: Op)
    requires Wf(s) && !OverMem(l, Total(s)) && !OverTotal(l, Total(s)) && SteadyReads(op)
    ensures OverTotal(l, Total(Apply(l, s, op))) <==> TooMuchStuck(l, s, op)
  {
    if op.DoPush? {
      PushOverIff(l, s, op.c, op.f, op.openOk, op.appendOk, op.io, ReadsAt(op.io, 0));
    } else {
      StepKeepsMemBudget(l, s, op);
    }
  }

  /** A run stays within the shared budget if and only if no push in it stores a frame that
      leaves more stuck than the budget allows. */
  lemma {:induction false} RunBoundedIff(l: Limits, s: State, ops: seq<Op>)
    requires Wf(s) && Total(s).memBytes <= l.memBytes && Total(s).memFrames <= l.memFrames
    requires Total(s).bytes <= l.totalBytes && Total(s).frames <= l.totalFrames
    requires forall i :: 0 <= i < |ops| ==> SteadyReads(ops[i])
    ensures Bounded(l, s, ops) <==> NeverTooMuch(l, s, ops)
    decreases |ops|
  {
    if ops != [] {
      StepOverIff(l, s, ops[0]);
      StepKeepsMemBudget(l, s, ops[0]);
      if !TooMuchStuck(l, s, ops[0]) {
        RunBoundedIff(l, Apply(l, s, ops[0]), ops[1..]);
      }
    }
  }

  /** The segment of the pushed chat itself can be read during the push. */
  ghost predicate OwnReads(op: Op) {
    op.DoPush? ==> forall n :: op.io(n, op.c)
  }

  /** Both budgets hold after every run in which each push can read its own chat's segment,
      whatever happens to the others. */
  lemma {:induction false} RunKeepsBudgets(l: Limits, s: State, ops: seq<Op>)
    requires Wf(s) && Total(s).memBytes <= l.memBytes && Total(s).memFrames <= l.memFrames
    requires Total(s).bytes <= l.totalBytes && Total(s).frames <= l.totalFrames
    requires forall i :: 0 <= i < |ops| ==> OwnReads(ops[i])
    ensures var u := Total(Run(l, s, ops));
      && u.memBytes <= l.memBytes && u.memFrames <= l.memFrames
      && u.bytes <= l.totalBytes && u.frames <= l.totalFrames
    decreases |ops|
  {
    if ops != [] {
      var op := ops[0];
      StepKeepsMemBudget(l, s, op);
      if op.DoPush? {
        ReadableDiskIsHardBudget(l, s, op.c, op.f, op.openOk, op.appendOk, op.io);
      }
      RunKeepsBudgets(l, Apply(l, s, op), ops[1..]);
    }
  }

  // ---------------------------------------------------------------------------
  // Without the order guard
  // ---------------------------------------------------------------------------

  /** Room for one frame in memory, plenty on disk. */
  ghost predicate Narrow(l: Limits) {
    l.memBytes >= 1 && l.memFrames == 1 && l.totalBytes >= 3 && l.totalFrames >= 3 && l.maxFrame >= 1
  }

  function Q(inFlight: seq<Frame>, mem: seq<Frame>, disk: seq<Frame>): Session {
    Session(inFlight, mem, disk, true, false, [], [])
  }

  ghost predicate Unit(f: Frame) { f.Size() == 1 }

  /** f1 fills memory, so f2 goes to disk. */
  lemma FillAndSpill(l: Limits, s: State, c: ChatId, f1: Frame, f2: Frame, io: (nat, ChatId) -> bool)
    requires s == EMPTY && Narrow(l) && Unit(f1) && Unit(f2)
    ensures Wf(s)
    ensures Apply(l, Apply(l, s, PushA(c, f1, io)), PushA(c, f2, io)) == One(c, Q([], [f1], [f2]))
  {
    OneFrame(f1);
    var e1, e2 := EMPTY_SESSION.(mem := [f1]), Q([], [f1], [f2]);
    PushOne(l, s, c, EMPTY_SESSION, NOTHING, true, f1, io, e1);
    PushOne(l, One(c, e1), c, e1, Usage(1, 1, 1, 1), false, f2, io, e2);
  }

  /** f1 was sent, so f3 goes to memory in front of f2. */
  lemma Overtake(l: Limits, c: ChatId, e: Session, e': Session, f2: Frame, f3: Frame, io: (nat, ChatId) -> bool)
    requires Narrow(l) && Unit(f2) && Unit(f3)
    requires e == Q([], [], [f2]) && e' == Q([], [f3], [f2])
    ensures Wf(One(c, e)) && !FifoPush(l, One(c, e), c, f3)
    ensures Push(l, One(c, e), c, f3, true, true, io).0 == One(c, e')
  {
    OneFrame(f2);
    PushOne(l, One(c, e), c, e, Usage(1, 1, 0, 0), true, f3, io, e');
  }

  lemma ReplayIs(c: ChatId, e: Session, maxFrames: nat, job: Job)
    requires NextJob(e, maxFrames, 9, true, 1) == Some(job) && |job.frames| <= |e.Pending()|
    ensures Wf(One(c, e)) && Drain(One(c, e), c, maxFrames, 9, true, 1).0 == One(c, TakeBatch(e, |job.frames|))
  {
    OneTotal(c, e);
    assert One(c, e).chats[c := TakeBatch(e, |job.frames|)] == map[c := TakeBatch(e, |job.frames|)];
  }

  lemma CommitIs(c: ChatId, e: Session)
    ensures Wf(One(c, e)) && Commit(One(c, e), c) == One(c, e.(inFlight := []))
  {
    OneTotal(c, e);
    assert One(c, e).chats[c := e.(inFlight := [])] == map[c := e.(inFlight := [])];
  }

  lemma ReplayOne(c: ChatId, f1: Frame, f2: Frame)
    requires Unit(f1)
    ensures Wf(One(c, Q([], [f1], [f2])))
    ensures Drain(One(c, Q([], [f1], [f2])), c, 1, 9, true, 1).0 == One(c, Q([f1], [], [f2]))
  {
    var e := Q([], [f1], [f2]);
    assert Reach(e, 1)[0] == f1 && Batch(Reach(e, 1)[1..], 0, 8) == 0;
    assert Batch(Reach(e, 1), 1, 9) == 1;
    ReplayIs(c, e, 1, Job(f1.seqNo, [f1]));
    assert TakeBatch(e, 1) == Q([f1], [], [f2]);
  }

  lemma ReplayBoth(c: ChatId, f3: Frame, f2: Frame)
    requires Unit(f2) && Unit(f3)
    ensures Wf(One(c, Q([], [f3], [f2])))
    ensures Drain(One(c, Q([], [f3], [f2])), c, 2, 9, true, 1).0 == One(c, Q([f3, f2], [], []))
  {
    var e, q := Q([], [f3], [f2]), [f3, f2];
    assert e.disk[..1] == [f2];
    assert Reach(e, 1) == q;
    assert q[1..] == [f2] && [f2][1..] == [];
    assert Batch([f2], 1, 8) == 1 + Batch([], 0, 7);
    assert Batch(q, 2, 9) == 1 + Batch(q[1..], 1, 8);
    assert q[..2] == q;
    ReplayIs(c, e, 2, Job(f3.seqNo, q));
    assert TakeBatch(e, 2) == Q([f3, f2], [], []);
  }

  function PushA(c: ChatId, f: Frame, io: (nat, ChatId) -> bool): Op {
    DoPush(c, f, true, true, io)
  }

  function SendOne(c: ChatId): seq<Op> { [DoDrain(c, 1, 9, true, 1), DoCommit(c)] }
  function SendTwo(c: ChatId): seq<Op> { [DoDrain(c, 2, 9, true, 1), DoCommit(c)] }

  /** The guard is needed. Memory is read before disk, and a frame may enter memory while
      older records of its chat are still on disk: pushed 1, 2, 3, sent 1, 3, 2, although
      every file operation worked. */
  lemma {:induction false} OverflowReorders(l: Limits, s: State, c: ChatId, f1: Frame, f2: Frame, f3: Frame, io: (nat, ChatId) -> bool)
    requires s == EMPTY && Narrow(l) && Unit(f1) && Unit(f2) && Unit(f3)
    ensures var ops := [PushA(c, f1, io), PushA(c, f2, io)] + (SendOne(c) + ([PushA(c, f3, io)] + SendTwo(c)));
      Wf(s) && Pushed(l, ops, c) == [f1, f2, f3] && Delivered(l, s, ops, c) == [f1, f3, f2]
  {
    var o2 := SendOne(c) + ([PushA(c, f3, io)] + SendTwo(c));
    SecondPart(l, c, f1, f2, f3, io);
    FillAndSpill(l, s, c, f1, f2, io);
    PairOfOps(l, c, s, PushA(c, f1, io), PushA(c, f2, io), o2);
    Three(f1, f2, f3);
  }

  lemma Three(f1: Frame, f2: Frame, f3: Frame)
    ensures [f1] + ([f2] + [f3]) == [f1, f2, f3] && [] + ([] + [f1, f2, f3]) == [f1, f2, f3]
    ensures [] + ([f1] + [f3, f2]) == [f1, f3, f2] && [] + ([] + [f1, f3, f2]) == [f1, f3, f2]
  {
  }

  lemma SecondPart(l: Limits, c: ChatId, f1: Frame, f2: Frame, f3: Frame, io: (nat, ChatId) -> bool)
    requires Narrow(l) && Unit(f1) && Unit(f2) && Unit(f3)
    ensures Wf(One(c, Q([], [f1], [f2])))
    ensures var ops := SendOne(c) + ([PushA(c, f3, io)] + SendTwo(c));
      Delivered(l, One(c, Q([], [f1], [f2])), ops, c) == [f1, f3, f2] && Pushed(l, ops, c) == [f3]
  {
    var o3 := [PushA(c, f3, io)] + SendTwo(c);
    ThirdPart(l, c, f2, f3, io);
    ReplayOne(c, f1, f2);
    CommitIs(c, Q([f1], [], [f2]));
    PairOfOps(l, c, One(c, Q([], [f1], [f2])), DoDrain(c, 1, 9, true, 1), DoCommit(c), o3);
    Three(f1, f2, f3);
  }

  lemma ThirdPart(l: Limits, c: ChatId, f2: Frame, f3: Frame, io: (nat, ChatId) -> bool)
    requires Narrow(l) && Unit(f2) && Unit(f3)
    ensures Wf(One(c, Q([], [], [f2])))
    ensures Delivered(l, One(c, Q([], [], [f2])), [PushA(c, f3, io)] + SendTwo(c), c) == [f3, f2]
    ensures Pushed(l, [PushA(c, f3, io)] + SendTwo(c), c) == [f3]
  {
    Overtake(l, c, Q([], [], [f2]), Q([], [f3], [f2]), f2, f3, io);
    ReplayBoth(c, f3, f2);
    CommitIs(c, Q([f3, f2], [], []));
    assert SendTwo(c) + [] == SendTwo(c);
    PairOfOps(l, c, One(c, Q([], [f3], [f2])), DoDrain(c, 2, 9, true, 1), DoCommit(c), []);
    assert ([PushA(c, f3, io)] + SendTwo(c))[1..] == SendTwo(c);
  }

  lemma PairOfOps(l: Limits, c: ChatId, s: State, x: Op, y: Op, rest: seq<Op>)
    requires Wf(s)
    ensures var t := Apply(l, s, x); var ops := [x, y] + rest;
      && Delivered(l, s, ops, c)
         == Sent(s, x, c) + (Sent(t, y, c) + Delivered(l, Apply(l, t, y), rest, c))
      && Pushed(l, ops, c) == PushedBy(l, x, c) + (PushedBy(l, y, c) + Pushed(l, rest, c))
  {
    var ops := [x, y] + rest;
    assert ops[1..] == [y] + rest && ops[1..][1..] == rest;
  }
}
