/** The resync loop while nothing new arrives: whatever its sends and disk reads do it is a run
    of hub steps; and if they work it ends, with everything replayed exactly if it fits. */
module ResyncTask {
  import opened Frames
  import opened Sessions
  import opened Budget
  import opened BufferSpec
  import opened BufferQueue
  import opened BufferBudget
  import opened HubSpec
  import opened HubQueues

  /** Every disk record can be read. */
  ghost predicate Readable(b: State, disks: ChatId -> DrainIo) {
    forall c {:trigger disks(c)} :: disks(c).firstOk && disks(c).good >= |Bucket(b, c).disk|
  }

  ghost predicate NoneInFlight(b: State) {
    forall c {:trigger Fl(b, c)} :: Fl(b, c) == []
  }

  /** Every frame of this queue fits a batch on its own. */
  ghost predicate Fits(fs: seq<Frame>) {
    forall f :: f in fs ==> f.Size() <= SYNC_BATCH_MAX_BYTES
  }

  /** What the loop meets in its n-th round: the order in which the pass visits the chats, what
      can be read, and whether the send works. */
  datatype Env = Env(orders: nat -> seq<ChatId>, disks: nat -> (ChatId -> DrainIo), sends: nat -> bool)

  datatype LoopEnd = Complete | Sleeping | Interrupted

  /** Chats and buffer afterwards, the batches sent, and how it ended: all live, about to sleep
      and try again, or a send failed and its batch was put back. */
  datatype Looped = Looped(chats: map<ChatId, Entry>, buffer: State, sent: seq<Picked>, end: LoopEnd)

  function Loop(l: Limits, env: Env, chats: map<ChatId, Entry>, b: State, n: nat): (r: Looped)
    requires Wf(b)
    ensures Wf(r.buffer)
    decreases Total(b).frames
  {
    var (chats', b', p) := Pass(chats, b, env.orders(n), env.disks(n));
    if p.None? then Looped(chats', b', [], if AllLive(chats') then Complete else Sleeping)
    else if !env.sends(n) then Looped(chats', Rollback(l, b', p.value.c), [], Interrupted)
    else
      PickShrinks(chats, b, env.orders(n), env.disks(n));
      var r := Loop(l, env, Confirmed(chats', p.value), Commit(b', p.value.c), n + 1);
      r.(sent := [p.value] + r.sent)
  }

  function Confirmed(chats: map<ChatId, Entry>, p: Picked): map<ChatId, Entry> {
    CommittedChats(chats, p.c, p.epoch, p.job.frames)
  }

  /** Confirming a batch is history: no flag changes. */
  lemma ConfirmedFlags(chats: map<ChatId, Entry>, p: Picked)
    ensures Confirmed(chats, p).Keys == chats.Keys
    ensures forall c :: c in chats ==> Confirmed(chats, p)[c].buffered == chats[c].buffered
  {
  }

  /** A batch written and confirmed takes at least one frame out of the budget. */
  lemma PickShrinks(chats: map<ChatId, Entry>, b: State, order: seq<ChatId>, disks: ChatId -> DrainIo)
    requires Wf(b) && Pass(chats, b, order, disks).2.Some?
    ensures var (_, b', p) := Pass(chats, b, order, disks);
      Total(Commit(b', p.value.c)).frames < Total(b).frames
  {
    PassEffect(chats, b, order, disks);
    var (_, b', p) := Pass(chats, b, order, disks);
    var c := p.value.c;
    DrainShrinks(b, c, SYNC_BATCH_MAX_FRAMES, SYNC_BATCH_MAX_BYTES, disks(c).firstOk, disks(c).good);
  }

  lemma DrainShrinks(b: State, c: ChatId, maxFrames: nat, maxBytes: nat, firstOk: bool, good: nat)
    requires Wf(b) && c in b.chats
    ensures var r := Drain(b, c, maxFrames, maxBytes, firstOk, good);
      r.1.Some? ==> c in r.0.chats && Total(Commit(r.0, c)).frames < Total(b).frames
  {
    var r := Drain(b, c, maxFrames, maxBytes, firstOk, good);
    DrainTotal(b, c, maxFrames, maxBytes, firstOk, good);
    DrainKeepsView(b, c, maxFrames, maxBytes, firstOk, good);
    if r.1.Some? {
      CommitTotal(r.0, c);
    }
  }

  /** Everything the loop sends of one chat, in order. */
  function SentOf(ps: seq<Picked>, c: ChatId): seq<Frame> {
    if ps == [] then []
    else (if ps[0].c == c then ps[0].job.frames else []) + SentOf(ps[1..], c)
  }

  // ---------------------------------------------------------------------------
  // One pass
  // ---------------------------------------------------------------------------

  /** The chat is buffering and its drain yields a batch. */
  predicate Yields(chats: map<ChatId, Entry>, b: State, disks: ChatId -> DrainIo, c: ChatId)
    requires Wf(b)
  {
    && c in chats && chats[c].buffered && Bucket(b, c).View() != []
    && Drain(b, c, SYNC_BATCH_MAX_FRAMES, SYNC_BATCH_MAX_BYTES, disks(c).firstOk, disks(c).good).1.Some?
  }

  /** The flags after these chats were visited: those with nothing pending have gone live. */
  function Visited(chats: map<ChatId, Entry>, b: State, cs: seq<ChatId>): map<ChatId, Entry> {
    map c | c in chats ::
      if c in cs && chats[c].buffered && Bucket(b, c).View() == [] then chats[c].(buffered := false) else chats[c]
  }

  lemma VisitedCons(chats: map<ChatId, Entry>, b: State, c: ChatId, cs: seq<ChatId>)
    ensures Visited(chats, b, []) == chats
    ensures Visited(Visited(chats, b, [c]), b, cs) == Visited(chats, b, [c] + cs)
  {
  }

  lemma VisitOne(chats: map<ChatId, Entry>, b: State, c: ChatId)
    ensures Visited(chats, b, [c]) ==
      if c in chats && chats[c].buffered && Bucket(b, c).View() == [] then chats[c := chats[c].(buffered := false)]
      else chats
  {
  }

  /** A chat that was visited and kept its flag, or was not buffering, yields what it yielded. */
  lemma VisitedYields(chats: map<ChatId, Entry>, b: State, disks: ChatId -> DrainIo, c: ChatId, d: ChatId)
    requires Wf(b)
    ensures Yields(Visited(chats, b, [c]), b, disks, d) <==> Yields(chats, b, disks, d)
    ensures Yields(chats, b, disks, d) ==> Visited(chats, b, [c])[d] == chats[d]
  {
  }

  /** The k-th chat in the order is the first that yields a batch, and the pass takes it; or k is
      the end of the order, and the pass takes none. */
  ghost predicate PicksAt(chats: map<ChatId, Entry>, b: State, order: seq<ChatId>, disks: ChatId -> DrainIo, k: nat)
    requires Wf(b) && k <= |order|
  {
    && (forall i :: 0 <= i < k ==> !Yields(chats, b, disks, order[i]))
    && if k == |order| then Pass(chats, b, order, disks) == (Visited(chats, b, order), b, None)
       else
         var c := order[k];
         var d := Drain(b, c, SYNC_BATCH_MAX_FRAMES, SYNC_BATCH_MAX_BYTES, disks(c).firstOk, disks(c).good);
         && Yields(chats, b, disks, c)
         && Pass(chats, b, order, disks)
            == (Visited(chats, b, order[..k]), d.0, Some(Picked(c, chats[c].epoch, d.1.value)))
  }

  lemma PassGoesOn(chats: map<ChatId, Entry>, b: State, order: seq<ChatId>, disks: ChatId -> DrainIo)
    requires Wf(b) && order != [] && !Yields(chats, b, disks, order[0])
    ensures Pass(chats, b, order, disks) == Pass(Visited(chats, b, [order[0]]), b, order[1..], disks)
  {
    VisitOne(chats, b, order[0]);
  }

  lemma NoneYieldsBefore(chats: map<ChatId, Entry>, b: State, order: seq<ChatId>, disks: ChatId -> DrainIo, j: nat)
    requires Wf(b) && order != [] && !Yields(chats, b, disks, order[0]) && j < |order|
    requires forall i :: 0 <= i < j ==> !Yields(Visited(chats, b, [order[0]]), b, disks, order[1..][i])
    ensures forall i :: 0 <= i < j + 1 ==> !Yields(chats, b, disks, order[i])
  {
    forall i | 0 <= i < j + 1 ensures !Yields(chats, b, disks, order[i]) {
      if i > 0 {
        assert order[i] == order[1..][i - 1];
        VisitedYields(chats, b, disks, order[0], order[i]);
      }
    }
  }

  lemma VisitedTail(chats: map<ChatId, Entry>, b: State, order: seq<ChatId>, j: nat)
    requires order != [] && j < |order|
    ensures Visited(Visited(chats, b, [order[0]]), b, order[1..][..j]) == Visited(chats, b, order[..j + 1])
  {
    VisitedCons(chats, b, order[0], order[1..][..j]);
    assert order[..j + 1] == [order[0]] + order[1..][..j];
  }

  lemma PicksLater(chats: map<ChatId, Entry>, b: State, order: seq<ChatId>, disks: ChatId -> DrainIo, j: nat)
    requires Wf(b) && order != [] && !Yields(chats, b, disks, order[0]) && j < |order|
    requires PicksAt(Visited(chats, b, [order[0]]), b, order[1..], disks, j)
    ensures PicksAt(chats, b, order, disks, j + 1)
  {
    PassGoesOn(chats, b, order, disks);
    VisitedTail(chats, b, order, j);
    NoneYieldsBefore(chats, b, order, disks, j);
    if j + 1 < |order| {
      VisitedYields(chats, b, disks, order[0], order[j + 1]);
      assert order[1..][j] == order[j + 1];
    } else {
      assert order[1..][..j] == order[1..] && order[..j + 1] == order;
    }
  }

  /** What a pass does, whatever can be read: it goes past every chat that yields nothing, makes
      those with nothing pending live, and takes exactly the batch of the first that yields one. */
  lemma {:induction false} PassPicksFirst(chats: map<ChatId, Entry>, b: State, order: seq<ChatId>, disks: ChatId -> DrainIo)
    returns (k: nat)
    requires Wf(b)
    ensures k <= |order| && PicksAt(chats, b, order, disks, k)
    decreases |order|
  {
    k := 0;
    if order == [] || Yields(chats, b, disks, order[0]) {
      VisitedCons(chats, b, "", []);
      assert order[..0] == [];
    } else {
      var j := PassPicksFirst(Visited(chats, b, [order[0]]), b, order[1..], disks);
      PicksLater(chats, b, order, disks, j);
      k := j + 1;
    }
  }

  /** A pass finds no batch if and only if no chat it visits yields one. */
  lemma {:induction false} PassEmptyIff(chats: map<ChatId, Entry>, b: State, order: seq<ChatId>, disks: ChatId -> DrainIo)
    requires Wf(b)
    ensures Pass(chats, b, order, disks).2.None? <==> forall c :: c in order ==> !Yields(chats, b, disks, c)
  {
    var k := PassPicksFirst(chats, b, order, disks);
  }

  /** One pass with its batch confirmed: the batch leaves the head of its queue, nothing else
      moves, and nothing is left in flight. */
  lemma PassSends(chats: map<ChatId, Entry>, b: State, order: seq<ChatId>, disks: ChatId -> DrainIo, d: ChatId)
    requires Wf(b) && NoneInFlight(b) && Pass(chats, b, order, disks).2.Some?
    ensures var (_, b', p) := Pass(chats, b, order, disks); var t := Commit(b', p.value.c);
      && Bucket(b, d).View() == (if d == p.value.c then p.value.job.frames else []) + Bucket(t, d).View()
      && Fl(t, d) == [] && |Bucket(t, d).disk| <= |Bucket(b, d).disk|
  {
    PassEffect(chats, b, order, disks);
    var (_, b', p) := Pass(chats, b, order, disks);
    var c, io := p.value.c, disks(p.value.c);
    assert Fl(b, c) == [] && Fl(b, d) == [];
    DrainCommits(b, c, SYNC_BATCH_MAX_FRAMES, SYNC_BATCH_MAX_BYTES, io.firstOk, io.good, d);
  }

  lemma DrainCommits(b: State, c: ChatId, maxFrames: nat, maxBytes: nat, firstOk: bool, good: nat, d: ChatId)
    requires Wf(b) && c in b.chats && Fl(b, c) == [] && Fl(b, d) == []
    requires Drain(b, c, maxFrames, maxBytes, firstOk, good).1.Some?
    ensures var r := Drain(b, c, maxFrames, maxBytes, firstOk, good); var t := Commit(r.0, c);
      && Bucket(b, d).View() == (if d == c then r.1.value.frames else []) + Bucket(t, d).View()
      && Fl(t, d) == [] && |Bucket(t, d).disk| <= |Bucket(b, d).disk|
  {
    var r := Drain(b, c, maxFrames, maxBytes, firstOk, good);
    if d == c {
      DrainKeepsView(b, c, maxFrames, maxBytes, firstOk, good);
      DrainShrinksDisk(b, c, maxFrames, maxBytes, firstOk, good);
      CommitsOwn(b, r.0, c, r.1.value.frames);
    } else {
      DrainFrame(b, c, maxFrames, maxBytes, firstOk, good, d);
      CommitDropsBatch(r.0, c, d);
      var v := Bucket(b, d).View();
      assert [] + v == v;
    }
  }

  lemma CommitsOwn(b: State, r: State, c: ChatId, batch: seq<Frame>)
    requires Wf(r) && Fl(b, c) == []
    requires Bucket(r, c).View() == Bucket(b, c).View() && Fl(r, c) == Fl(b, c) + batch
    ensures Bucket(b, c).View() == batch + Bucket(Commit(r, c), c).View()
    ensures Fl(Commit(r, c), c) == [] && Bucket(Commit(r, c), c).disk == Bucket(r, c).disk
  {
    CommitDropsBatch(r, c, c);
    assert [] + batch == batch;
  }

  lemma DrainShrinksDisk(b: State, c: ChatId, maxFrames: nat, maxBytes: nat, firstOk: bool, good: nat)
    requires Wf(b) && c in b.chats
    ensures |Bucket(Drain(b, c, maxFrames, maxBytes, firstOk, good).0, c).disk| <= |b.chats[c].disk|
  {
  }

  /** The chat is live and drained, or its oldest frame is larger than a batch may be. */
  predicate Settled(e: Entry, v: seq<Frame>) {
    if v == [] then !e.buffered else e.buffered && v[0].Size() > SYNC_BATCH_MAX_BYTES
  }

  /** A pass that finds no batch has settled every chat it visits. */
  lemma {:induction false} PassDone(chats: map<ChatId, Entry>, b: State, order: seq<ChatId>, disks: ChatId -> DrainIo, c: ChatId)
    requires Wf(b) && NoneInFlight(b) && Readable(b, disks)
    requires Pass(chats, b, order, disks).2.None? && c in order && c in chats && chats[c].buffered
    ensures c in Pass(chats, b, order, disks).0
    ensures Settled(Pass(chats, b, order, disks).0[c], Bucket(b, c).View())
    decreases |order|
  {
    var d := order[0];
    if d in chats && chats[d].buffered && Bucket(b, d).TotalFrames() == 0 {
      var chats1 := chats[d := chats[d].(buffered := false)];
      if d == c {
        PassEffect(chats1, b, order[1..], disks);
        assert Bucket(b, c).View() == [];
      } else {
        PassDone(chats1, b, order[1..], disks, c);
      }
    } else {
      PassEffect(chats, b, order[1..], disks);
      if d == c {
        assert Fl(b, c) == [];
        assert c in b.chats;
        DrainStuckIff(b, c, SYNC_BATCH_MAX_FRAMES, SYNC_BATCH_MAX_BYTES, disks(c).good);
        assert Bucket(b, c).View() != [];
      } else {
        PassDone(chats, b, order[1..], disks, c);
      }
    }
  }

  // ---------------------------------------------------------------------------
  // The whole loop
  // ---------------------------------------------------------------------------

  ghost predicate Visits(env: Env, chats: map<ChatId, Entry>) {
    forall n: nat, c {:trigger c in env.orders(n)} :: c in chats ==> c in env.orders(n)
  }

  /** In every round every disk record can be read. */
  ghost predicate AllReadable(b: State, env: Env) {
    forall n: nat {:trigger env.disks(n)} :: Readable(b, env.disks(n))
  }

  ghost predicate AllSent(env: Env) {
    forall n: nat :: env.sends(n)
  }

  /** Each confirmed pass leaves nothing in flight, and every disk readable. */
  lemma PassAgain(env: Env, chats: map<ChatId, Entry>, b: State, n: nat)
    requires Wf(b) && NoneInFlight(b) && Pass(chats, b, env.orders(n), env.disks(n)).2.Some?
    ensures var (_, b', p) := Pass(chats, b, env.orders(n), env.disks(n));
      && NoneInFlight(Commit(b', p.value.c))
      && (AllReadable(b, env) ==> AllReadable(Commit(b', p.value.c), env))
  {
    var (_, b', p) := Pass(chats, b, env.orders(n), env.disks(n));
    var t := Commit(b', p.value.c);
    forall c ensures Fl(t, c) == [] && |Bucket(t, c).disk| <= |Bucket(b, c).disk| {
      PassSends(chats, b, env.orders(n), env.disks(n), c);
    }
    if AllReadable(b, env) {
      forall m: nat ensures Readable(t, env.disks(m)) {
        StillReadable(b, t, env.disks(m));
      }
    }
  }

  lemma StillReadable(b: State, t: State, disks: ChatId -> DrainIo)
    requires Readable(b, disks) && forall c :: |Bucket(t, c).disk| <= |Bucket(b, c).disk|
    ensures Readable(t, disks)
  {
    forall c ensures disks(c).firstOk && disks(c).good >= |Bucket(t, c).disk| {
      assert disks(c).good >= |Bucket(b, c).disk|;
    }
  }

  /** The loop takes at most as many batches as frames were pending. */
  lemma {:induction false} LoopCounts(l: Limits, env: Env, chats: map<ChatId, Entry>, b: State, n: nat)
    requires Wf(b)
    ensures |Loop(l, env, chats, b, n).sent| <= Total(b).frames
    decreases Total(b).frames
  {
    var (chats', b', p) := Pass(chats, b, env.orders(n), env.disks(n));
    if p.Some? && env.sends(n) {
      PickShrinks(chats, b, env.orders(n), env.disks(n));
      LoopCounts(l, env, Confirmed(chats', p.value), Commit(b', p.value.c), n + 1);
    }
  }

  /** A batch picked and put back changes queues only by counted evictions. */
  lemma InterruptedThins(l: Limits, env: Env, chats: map<ChatId, Entry>, b: State, n: nat, c: ChatId)
    requires Wf(b) && Pass(chats, b, env.orders(n), env.disks(n)).2.Some?
    ensures var (_, b', p) := Pass(chats, b, env.orders(n), env.disks(n));
      Subseq(Bucket(Rollback(l, b', p.value.c), c).View(), Bucket(b, c).View())
  {
    PassEffect(chats, b, env.orders(n), env.disks(n));
    var (_, b', p) := Pass(chats, b, env.orders(n), env.disks(n));
    var io := env.disks(n)(p.value.c);
    DrainFrame(b, p.value.c, SYNC_BATCH_MAX_FRAMES, SYNC_BATCH_MAX_BYTES, io.firstOk, io.good, c);
    DrainKeepsView(b, p.value.c, SYNC_BATCH_MAX_FRAMES, SYNC_BATCH_MAX_BYTES, io.firstOk, io.good);
    RollbackThins(l, b', p.value.c, c);
  }

  /** `r` has sent of chat `c` the head of queue `v` and left the rest of it, but for some
      frames evicted if a send failed. */
  ghost predicate Accounts(r: Looped, c: ChatId, v: seq<Frame>) {
    var q := SentOf(r.sent, c) + Bucket(r.buffer, c).View();
    Subseq(q, v) && (r.end != Interrupted ==> q == v)
  }

  lemma NothingSent(r: Looped, c: ChatId, v: seq<Frame>)
    requires r.sent == [] && Subseq(Bucket(r.buffer, c).View(), v)
    requires r.end != Interrupted ==> Bucket(r.buffer, c).View() == v
    ensures Accounts(r, c, v)
  {
    var u := Bucket(r.buffer, c).View();
    assert [] + u == u;
  }

  /** Whatever fails: what the loop sends of a chat, followed by what is left, is the chat's
      queue with at most some frames evicted; none, if no send fails. */
  lemma {:induction false} LoopSends(l: Limits, env: Env, chats: map<ChatId, Entry>, b: State, n: nat, c: ChatId)
    requires Wf(b) && NoneInFlight(b)
    ensures Accounts(Loop(l, env, chats, b, n), c, Bucket(b, c).View())
    decreases Total(b).frames
  {
    PassEffect(chats, b, env.orders(n), env.disks(n));
    var (chats', b', p) := Pass(chats, b, env.orders(n), env.disks(n));
    var v, r := Bucket(b, c).View(), Loop(l, env, chats, b, n);
    if p.None? {
      SubseqRefl(v);
      NothingSent(r, c, v);
    } else if !env.sends(n) {
      InterruptedThins(l, env, chats, b, n, c);
      NothingSent(r, c, v);
    } else {
      PickShrinks(chats, b, env.orders(n), env.disks(n));
      PassAgain(env, chats, b, n);
      PassSends(chats, b, env.orders(n), env.disks(n), c);
      var t := Commit(b', p.value.c);
      LoopSends(l, env, Confirmed(chats', p.value), t, n + 1, c);
      var rest := Loop(l, env, Confirmed(chats', p.value), t, n + 1);
      JoinSent(p.value, rest.sent, c, v, Bucket(t, c).View(), Bucket(r.buffer, c).View());
    }
  }

  /** One batch sent, then the rest of the loop. */
  lemma JoinSent(p: Picked, sent: seq<Picked>, c: ChatId, v: seq<Frame>, u: seq<Frame>, left: seq<Frame>)
    requires v == (if p.c == c then p.job.frames else []) + u && Subseq(SentOf(sent, c) + left, u)
    ensures Subseq(SentOf([p] + sent, c) + left, v)
    ensures SentOf(sent, c) + left == u ==> SentOf([p] + sent, c) + left == v
  {
    var head := if p.c == c then p.job.frames else [];
    SentCons(p, sent, c);
    Assoc(head, SentOf(sent, c), left);
    HeadSubseq(head, SentOf(sent, c) + left, u);
  }

  lemma HeadSubseq(head: seq<Frame>, a: seq<Frame>, b: seq<Frame>)
    requires Subseq(a, b)
    ensures Subseq(head + a, head + b)
  {
    var x :| SubseqBy(a, b, x);
    var z := seq(|head|, i => i) + seq(|x|, i requires 0 <= i < |x| => |head| + x[i]);
    assert SubseqBy(head + a, head + b, z);
  }

  lemma Assoc(a: seq<Frame>, b: seq<Frame>, c: seq<Frame>)
    ensures a + (b + c) == (a + b) + c
  {
  }

  lemma SentCons(p: Picked, ps: seq<Picked>, c: ChatId)
    ensures SentOf([p] + ps, c) == (if p.c == c then p.job.frames else []) + SentOf(ps, c)
  {
    assert ([p] + ps)[1..] == ps;
  }

  /** The loop keeps the chats, and one that is live stays live. */
  lemma {:induction false} LoopLeavesLive(l: Limits, env: Env, chats: map<ChatId, Entry>, b: State, n: nat)
    requires Wf(b)
    ensures var r := Loop(l, env, chats, b, n).chats;
      && r.Keys == chats.Keys
      && forall c :: c in chats && !chats[c].buffered ==> !r[c].buffered
    decreases Total(b).frames
  {
    PassEffect(chats, b, env.orders(n), env.disks(n));
    var (chats', b', p) := Pass(chats, b, env.orders(n), env.disks(n));
    if p.Some? && env.sends(n) {
      PickShrinks(chats, b, env.orders(n), env.disks(n));
      ConfirmedFlags(chats', p.value);
      LoopLeavesLive(l, env, Confirmed(chats', p.value), Commit(b', p.value.c), n + 1);
    }
  }

  lemma {:induction false} LoopNotInterrupted(l: Limits, env: Env, chats: map<ChatId, Entry>, b: State, n: nat)
    requires Wf(b) && AllSent(env)
    ensures var r := Loop(l, env, chats, b, n);
      r.end != Interrupted && (r.end == Complete <==> AllLive(r.chats))
    decreases Total(b).frames
  {
    var (chats', b', p) := Pass(chats, b, env.orders(n), env.disks(n));
    if p.Some? {
      PickShrinks(chats, b, env.orders(n), env.disks(n));
      LoopNotInterrupted(l, env, Confirmed(chats', p.value), Commit(b', p.value.c), n + 1);
    }
  }

  lemma LiveStaysSettled(l: Limits, env: Env, chats: map<ChatId, Entry>, b: State, n: nat, c: ChatId)
    requires Wf(b) && NoneInFlight(b) && AllSent(env)
    requires c in chats && !chats[c].buffered && Bucket(b, c).View() == []
    ensures var r := Loop(l, env, chats, b, n);
      c in r.chats && Settled(r.chats[c], Bucket(r.buffer, c).View())
  {
    LoopLeavesLive(l, env, chats, b, n);
    LoopSends(l, env, chats, b, n, c);
    LoopNotInterrupted(l, env, chats, b, n);
  }

  /** After a confirmed batch the loop ends as from there. */
  lemma LoopGoesOn(l: Limits, env: Env, chats: map<ChatId, Entry>, b: State, n: nat)
    requires Wf(b) && env.sends(n) && Pass(chats, b, env.orders(n), env.disks(n)).2.Some?
    ensures var (chats', b', p) := Pass(chats, b, env.orders(n), env.disks(n));
      var r, rest := Loop(l, env, chats, b, n), Loop(l, env, Confirmed(chats', p.value), Commit(b', p.value.c), n + 1);
      r.chats == rest.chats && r.buffer == rest.buffer && r.end == rest.end
  {
  }

  /** A chat that was buffering, after a confirmed batch: it buffers still, or is drained. */
  lemma ChatAfterBatch(env: Env, chats: map<ChatId, Entry>, b: State, n: nat, c: ChatId)
    requires Wf(b) && NoneInFlight(b) && c in chats && Pass(chats, b, env.orders(n), env.disks(n)).2.Some?
    ensures var (chats', b', p) := Pass(chats, b, env.orders(n), env.disks(n));
      && c in Confirmed(chats', p.value)
      && (chats[c].buffered && !Confirmed(chats', p.value)[c].buffered ==>
           Bucket(Commit(b', p.value.c), c).View() == [])
  {
    PassEffect(chats, b, env.orders(n), env.disks(n));
    ConfirmedFlags(Pass(chats, b, env.orders(n), env.disks(n)).0, Pass(chats, b, env.orders(n), env.disks(n)).2.value);
    PassSends(chats, b, env.orders(n), env.disks(n), c);
  }

  /** When the loop finds nothing more to send, every chat it had to replay is settled. */
  lemma {:induction false} LoopSettles(l: Limits, env: Env, chats: map<ChatId, Entry>, b: State, n: nat, c: ChatId)
    requires Wf(b) && NoneInFlight(b) && AllReadable(b, env) && Visits(env, chats) && AllSent(env)
    requires c in chats && chats[c].buffered
    ensures var r := Loop(l, env, chats, b, n);
      c in r.chats && Settled(r.chats[c], Bucket(r.buffer, c).View())
    decreases Total(b).frames
  {
    var (chats', b', p) := Pass(chats, b, env.orders(n), env.disks(n));
    if p.None? {
      LastPassSettles(l, env, chats, b, n, c);
    } else {
      var t, chats1 := Commit(b', p.value.c), Confirmed(chats', p.value);
      PickShrinks(chats, b, env.orders(n), env.disks(n));
      PassAgain(env, chats, b, n);
      ChatAfterBatch(env, chats, b, n, c);
      StillVisits(env, chats, b, n);
      LoopGoesOn(l, env, chats, b, n);
      if chats1[c].buffered {
        LoopSettles(l, env, chats1, t, n + 1, c);
      } else {
        LiveStaysSettled(l, env, chats1, t, n + 1, c);
      }
    }
  }

  lemma StillVisits(env: Env, chats: map<ChatId, Entry>, b: State, n: nat)
    requires Wf(b) && Visits(env, chats) && Pass(chats, b, env.orders(n), env.disks(n)).2.Some?
    ensures var (chats', _, p) := Pass(chats, b, env.orders(n), env.disks(n));
      Visits(env, Confirmed(chats', p.value))
  {
    PassEffect(chats, b, env.orders(n), env.disks(n));
    ConfirmedFlags(Pass(chats, b, env.orders(n), env.disks(n)).0, Pass(chats, b, env.orders(n), env.disks(n)).2.value);
  }

  lemma LastPassSettles(l: Limits, env: Env, chats: map<ChatId, Entry>, b: State, n: nat, c: ChatId)
    requires Wf(b) && NoneInFlight(b) && AllReadable(b, env) && Visits(env, chats)
    requires c in chats && chats[c].buffered && Pass(chats, b, env.orders(n), env.disks(n)).2.None?
    ensures var r := Loop(l, env, chats, b, n);
      c in r.chats && Settled(r.chats[c], Bucket(r.buffer, c).View())
  {
    assert c in env.orders(n) && Readable(b, env.disks(n));
    PassEffect(chats, b, env.orders(n), env.disks(n));
    PassDone(chats, b, env.orders(n), env.disks(n), c);
  }

  /** No chat yields a batch, and none with an empty queue is still buffering. */
  ghost predicate Exhausted(chats: map<ChatId, Entry>, b: State, disks: ChatId -> DrainIo)
    requires Wf(b)
  {
    forall c {:trigger Bucket(b, c)} :: c in chats ==>
      !Yields(chats, b, disks, c) && (chats[c].buffered ==> Bucket(b, c).View() != [])
  }

  lemma EmptyPassExhausts(chats: map<ChatId, Entry>, b: State, order: seq<ChatId>, disks: ChatId -> DrainIo)
    requires Wf(b) && Pass(chats, b, order, disks).2.None? && forall c :: c in chats ==> c in order
    ensures var (chats', b', _) := Pass(chats, b, order, disks);
      b' == b && Exhausted(chats', b, disks)
  {
    var k := PassPicksFirst(chats, b, order, disks);
    PassEmptyIff(chats, b, order, disks);
    var chats' := Visited(chats, b, order);
    forall c | c in chats'
      ensures !Yields(chats', b, disks, c) && (chats'[c].buffered ==> Bucket(b, c).View() != [])
    {
      assert !Yields(chats, b, disks, c);
    }
  }

  /** The loop gives up for no other reason: unless a send fails it goes on until, in its last
      round m, no chat has a batch it could send, whatever cannot be read; and it is complete
      exactly if every chat is then live. */
  lemma {:induction false} LoopStopsWhenExhausted(l: Limits, env: Env, chats: map<ChatId, Entry>, b: State, n: nat)
    returns (m: nat)
    requires Wf(b) && Visits(env, chats)
    ensures var r := Loop(l, env, chats, b, n);
      r.end != Interrupted ==>
        && m >= n && Exhausted(r.chats, r.buffer, env.disks(m))
        && (r.end == Complete <==> forall c :: c in r.chats ==> !r.chats[c].buffered)
    decreases Total(b).frames
  {
    m := n;
    var (chats', b', p) := Pass(chats, b, env.orders(n), env.disks(n));
    PassEffect(chats, b, env.orders(n), env.disks(n));
    if p.None? {
      EmptyPassExhausts(chats, b, env.orders(n), env.disks(n));
    } else if env.sends(n) {
      PickShrinks(chats, b, env.orders(n), env.disks(n));
      ConfirmedFlags(chats', p.value);
      m := LoopStopsWhenExhausted(l, env, Confirmed(chats', p.value), Commit(b', p.value.c), n + 1);
    }
  }

  lemma {:induction false} WithinEach(fs: seq<Frame>)
    ensures forall f :: f in fs ==> f.Size() <= Bytes(fs)
  {
    if fs != [] {
      WithinEach(fs[1..]);
    }
  }

  lemma DrainFits(b: State, c: ChatId, firstOk: bool, good: nat)
    requires Wf(b) && c in b.chats
    ensures var r := Drain(b, c, SYNC_BATCH_MAX_FRAMES, SYNC_BATCH_MAX_BYTES, firstOk, good).1;
      r.Some? ==> Fits(r.value.frames)
  {
    var r := Drain(b, c, SYNC_BATCH_MAX_FRAMES, SYNC_BATCH_MAX_BYTES, firstOk, good).1;
    if r.Some? {
      BatchWithin(Reach(b.chats[c], good), SYNC_BATCH_MAX_FRAMES, SYNC_BATCH_MAX_BYTES);
      WithinEach(r.value.frames);
    }
  }

  lemma {:induction false} LoopFits(l: Limits, env: Env, chats: map<ChatId, Entry>, b: State, n: nat, c: ChatId)
    requires Wf(b)
    ensures Fits(SentOf(Loop(l, env, chats, b, n).sent, c))
    decreases Total(b).frames
  {
    var (chats', b', p) := Pass(chats, b, env.orders(n), env.disks(n));
    if p.Some? && env.sends(n) {
      var t, chats1 := Commit(b', p.value.c), Confirmed(chats', p.value);
      var io := env.disks(n)(p.value.c);
      PickShrinks(chats, b, env.orders(n), env.disks(n));
      PassEffect(chats, b, env.orders(n), env.disks(n));
      DrainFits(b, p.value.c, io.firstOk, io.good);
      LoopFits(l, env, chats1, t, n + 1, c);
      SentCons(p.value, Loop(l, env, chats1, t, n + 1).sent, c);
    }
  }

  /** With working sends and reads the loop ends with every chat live exactly if every frame it
      had to replay fits a batch, whichever chat each pass picks. */
  lemma {:induction false} ResyncCompletesIff(l: Limits, env: Env, chats: map<ChatId, Entry>, b: State)
    requires Wf(b) && NoneInFlight(b) && AllReadable(b, env) && Visits(env, chats) && AllSent(env)
    ensures Loop(l, env, chats, b, 0).end == Complete
       <==> forall c :: c in chats && chats[c].buffered ==> Fits(Bucket(b, c).View())
  {
    var r := Loop(l, env, chats, b, 0);
    LoopLeavesLive(l, env, chats, b, 0);
    LoopNotInterrupted(l, env, chats, b, 0);
    forall c | c in chats
      ensures c in r.chats && (!r.chats[c].buffered <==> !chats[c].buffered || Fits(Bucket(b, c).View()))
    {
      if chats[c].buffered {
        LoopSettles(l, env, chats, b, 0, c);
        LoopSends(l, env, chats, b, 0, c);
        LoopFits(l, env, chats, b, 0, c);
        FitsSplit(SentOf(r.sent, c), Bucket(r.buffer, c).View());
      }
    }
  }

  lemma FitsSplit(a: seq<Frame>, v: seq<Frame>)
    requires Fits(a)
    ensures v == [] ==> Fits(a + v)
    ensures v != [] && v[0].Size() > SYNC_BATCH_MAX_BYTES ==> !Fits(a + v)
  {
    if v != [] {
      assert v[0] in a + v;
    }
  }

  /** With every frame within the batch limit the loop replays each buffered chat completely
      and in order, in no more batches than there were frames, and ends with all live. */
  lemma {:induction false} ResyncReplaysAll(l: Limits, env: Env, chats: map<ChatId, Entry>, b: State, c: ChatId)
    requires Wf(b) && NoneInFlight(b) && AllReadable(b, env) && Visits(env, chats) && AllSent(env)
    requires forall d :: d in chats && chats[d].buffered ==> Fits(Bucket(b, d).View())
    requires c in chats && chats[c].buffered
    ensures var r := Loop(l, env, chats, b, 0);
      r.end == Complete && SentOf(r.sent, c) == Bucket(b, c).View() && |r.sent| <= Total(b).frames
  {
    var r := Loop(l, env, chats, b, 0);
    ResyncCompletesIff(l, env, chats, b);
    LoopNotInterrupted(l, env, chats, b, 0);
    LoopSettles(l, env, chats, b, 0, c);
    LoopSends(l, env, chats, b, 0, c);
    LoopCounts(l, env, chats, b, 0);
    assert Bucket(r.buffer, c).View() == [];
    assert SentOf(r.sent, c) + [] == SentOf(r.sent, c);
  }

  /** The default limit on one frame. */
  const DEFAULT_MAX_FRAME_BYTES: nat := 1024 * 1024

  /** The buffer accepts frames the resync loop can never send: with one of them at the head
      of a queue, that chat stays in buffering mode for good. */
  lemma {:induction false} AcceptedFrameBlocksReplay(l: Limits, s: State, c: ChatId, f: Frame, io: PushIo, env: Env,
                                                     chats: map<ChatId, Entry>)
    requires s == EMPTY && l.maxFrame == DEFAULT_MAX_FRAME_BYTES && SYNC_BATCH_MAX_BYTES < f.Size() <= l.maxFrame
    requires l.memBytes >= f.Size() && l.memFrames >= 1 && l.totalBytes >= f.Size() && l.totalFrames >= 1
    requires c in chats && chats[c].buffered && Visits(env, chats) && AllSent(env) && io.openOk && io.appendOk
    requires AllReadable(Push(l, s, c, f, io.openOk, io.appendOk, io.disks).0, env)
    ensures Push(l, s, c, f, io.openOk, io.appendOk, io.disks).1 == Buffered
    ensures Loop(l, env, chats, Push(l, s, c, f, io.openOk, io.appendOk, io.disks).0, 0).end == Sleeping
  {
    var e := EMPTY_SESSION.(mem := [f]);
    OneFrame(f);
    PushOne(l, s, c, EMPTY_SESSION, NOTHING, true, f, io.disks, e);
    OneTotal(c, e);
    var b := One(c, e);
    assert f in Bucket(b, c).View();
    ResyncCompletesIff(l, env, chats, b);
    LoopNotInterrupted(l, env, chats, b, 0);
  }

  // ---------------------------------------------------------------------------
  // The loop as steps of the hub
  // ---------------------------------------------------------------------------

  /** The steps of the hub machine one loop takes. */
  ghost function LoopSteps(l: Limits, env: Env, chats: map<ChatId, Entry>, b: State, n: nat): seq<Action>
    requires Wf(b)
    decreases Total(b).frames
  {
    var (chats', b', p) := Pass(chats, b, env.orders(n), env.disks(n));
    if p.None? then [ResyncPass(env.orders(n), env.disks(n))]
    else if !env.sends(n) then [ResyncPass(env.orders(n), env.disks(n)), BatchDone(false)]
    else
      PickShrinks(chats, b, env.orders(n), env.disks(n));
      [ResyncPass(env.orders(n), env.disks(n)), BatchWrite, BatchDone(true)]
      + LoopSteps(l, env, Confirmed(chats', p.value), Commit(b', p.value.c), n + 1)
  }

  /** The wire after these batches. */
  function Written(w: seq<Out>, ps: seq<Picked>): seq<Out>
    decreases |ps|
  {
    if ps == [] then w else Written(w + Outs(ps[0].c, ps[0].epoch, ps[0].job.frames), ps[1..])
  }

  /** Each pass visits every chat once. */
  ghost predicate Orders(env: Env, chats: map<ChatId, Entry>) {
    forall n: nat {:trigger env.orders(n)} :: NoDup(env.orders(n)) && Elems(env.orders(n)) == chats.Keys
  }

  function Ended(h: Hub, r: Looped): Hub {
    h.(chats := r.chats, buffer := r.buffer, wire := Written(h.wire, r.sent),
       sync := if r.end == Sleeping then Ready else Off)
  }

  lemma PassStep(l: Limits, h: Hub, order: seq<ChatId>, disks: ChatId -> DrainIo)
    requires Wf(h.buffer) && h.sync.Ready? && NoDup(order) && Elems(order) == h.chats.Keys
    ensures var (chats, b, p) := Pass(h.chats, h.buffer, order, disks);
      Next(l, h, ResyncPass(order, disks))
      == h.(chats := chats, buffer := b,
            sync := if p.Some? then Replaying(p.value.c, p.value.epoch, p.value.job, false)
                    else if AllLive(chats) then Off else Ready)
  {
    assert Enabled(h, ResyncPass(order, disks));
    assert Next(l, h, ResyncPass(order, disks)) == Resync(h, order, disks);
  }

  lemma SentStep(l: Limits, h: Hub, p: Picked)
    requires Wf(h.buffer) && h.up && h.sync == Replaying(p.c, p.epoch, p.job, false)
    ensures RunFrom(l, h, [BatchWrite, BatchDone(true)])
         == h.(chats := Confirmed(h.chats, p), buffer := Commit(h.buffer, p.c),
               wire := h.wire + Outs(p.c, p.epoch, p.job.frames), sync := Ready)
  {
    var h1 := Next(l, h, BatchWrite);
    RunFromOne(l, h1, BatchDone(true));
    assert [BatchWrite, BatchDone(true)][1..] == [BatchDone(true)];
  }

  lemma FailedStep(l: Limits, h: Hub, p: Picked)
    requires Wf(h.buffer) && h.sync == Replaying(p.c, p.epoch, p.job, false)
    ensures Next(l, h, BatchDone(false)) == h.(buffer := Rollback(l, h.buffer, p.c), sync := Off)
  {
  }

  /** Whatever its sends and reads do, the loop is a run of hub steps: a pass, a batch written,
      a batch confirmed, again and again. */
  lemma {:induction false} LoopIsRun(l: Limits, env: Env, h: Hub, n: nat)
    requires Wf(h.buffer) && h.sync.Ready? && h.up && Orders(env, h.chats)
    ensures RunFrom(l, h, LoopSteps(l, env, h.chats, h.buffer, n)) == Ended(h, Loop(l, env, h.chats, h.buffer, n))
    decreases Total(h.buffer).frames, 1
  {
    var order, disks := env.orders(n), env.disks(n);
    var (chats', b', p) := Pass(h.chats, h.buffer, order, disks);
    PassEffect(h.chats, h.buffer, order, disks);
    PassStep(l, h, order, disks);
    var h1 := Next(l, h, ResyncPass(order, disks));
    RunFromOne(l, h, ResyncPass(order, disks));
    if p.Some? {
      if env.sends(n) {
        PickShrinks(h.chats, h.buffer, order, disks);
        ConfirmedFlags(chats', p.value);
        SentRound(l, env, h, h1, n);
      } else {
        FailedStep(l, h1, p.value);
        RunFromOne(l, h1, BatchDone(false));
        RunFromJoin(l, h, [ResyncPass(order, disks)], [BatchDone(false)]);
        assert [ResyncPass(order, disks), BatchDone(false)] == [ResyncPass(order, disks)] + [BatchDone(false)];
      }
    }
  }

  lemma {:induction false} SentRound(l: Limits, env: Env, h: Hub, h1: Hub, n: nat)
    requires Wf(h.buffer) && h.up && h.sync.Ready? && Orders(env, h.chats) && env.sends(n)
    requires Pass(h.chats, h.buffer, env.orders(n), env.disks(n)).2.Some?
    requires var (chats', b', p) := Pass(h.chats, h.buffer, env.orders(n), env.disks(n));
      && h1 == h.(chats := chats', buffer := b', sync := Replaying(p.value.c, p.value.epoch, p.value.job, false))
      && chats'.Keys == h.chats.Keys && Confirmed(chats', p.value).Keys == h.chats.Keys
      && RunFrom(l, h, [ResyncPass(env.orders(n), env.disks(n))]) == h1
      && Total(Commit(b', p.value.c)).frames < Total(h.buffer).frames
    ensures RunFrom(l, h, LoopSteps(l, env, h.chats, h.buffer, n)) == Ended(h, Loop(l, env, h.chats, h.buffer, n))
    decreases Total(h.buffer).frames, 0
  {
    var p := Pass(h.chats, h.buffer, env.orders(n), env.disks(n)).2.value;
    var a, mid := [ResyncPass(env.orders(n), env.disks(n))], [BatchWrite, BatchDone(true)];
    SentStep(l, h1, p);
    var h2 := h1.(chats := Confirmed(h1.chats, p), buffer := Commit(h1.buffer, p.c),
                  wire := h1.wire + Outs(p.c, p.epoch, p.job.frames), sync := Ready);
    var rest := LoopSteps(l, env, h2.chats, h2.buffer, n + 1);
    LoopIsRun(l, env, h2, n + 1);
    SendsJoin(l, h, h1, h2, a, mid, rest);
    assert LoopSteps(l, env, h.chats, h.buffer, n) == a + (mid + rest);
    WrittenCons(h.wire, p, Loop(l, env, h2.chats, h2.buffer, n + 1).sent);
  }

  lemma SendsJoin(l: Limits, h: Hub, h1: Hub, h2: Hub, a: seq<Action>, mid: seq<Action>, rest: seq<Action>)
    requires Wf(h.buffer) && RunFrom(l, h, a) == h1 && RunFrom(l, h1, mid) == h2
    ensures RunFrom(l, h, a + (mid + rest)) == RunFrom(l, h2, rest)
  {
    RunFromJoin(l, h1, mid, rest);
    RunFromJoin(l, h, a, mid + rest);
  }

  lemma WrittenCons(w: seq<Out>, p: Picked, ps: seq<Picked>)
    ensures Written(w, [p] + ps) == Written(w + Outs(p.c, p.epoch, p.job.frames), ps)
  {
    assert ([p] + ps)[1..] == ps;
  }

  /** From any state the hub reaches with its resync task between two batches and its
      connection up, working sends and reads make every chat live exactly if everything to
      replay fits. */
  lemma {:induction false} HubResyncIff(l: Limits, env: Env, acts: seq<Action>)
    requires var h := After(l, acts);
      h.sync.Ready? && h.up && AllReadable(h.buffer, env) && Orders(env, h.chats) && AllSent(env)
    ensures var h := After(l, acts); var h' := After(l, acts + LoopSteps(l, env, h.chats, h.buffer, 0));
      (h'.sync.Off? && AllLive(h'.chats))
      <==> forall c :: c in h.chats && h.chats[c].buffered ==> Fits(Bucket(h.buffer, c).View())
  {
    var h := After(l, acts);
    forall c ensures Fl(h.buffer, c) == [] {
      ReadyMeansNoneInFlight(l, acts, c);
    }
    forall n: nat, c | c in h.chats ensures c in env.orders(n) {
      assert c in Elems(env.orders(n));
    }
    AfterMore(l, acts, LoopSteps(l, env, h.chats, h.buffer, 0));
    LoopIsRun(l, env, h, 0);
    ResyncCompletesIff(l, env, h.chats, h.buffer);
    LoopNotInterrupted(l, env, h.chats, h.buffer, 0);
  }
}
