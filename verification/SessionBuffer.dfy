/** One chat's bucket as the program keeps it: the queues and their redundant counters. */
module SessionBuffers {
  import opened Frames
  import opened Sessions

  /** The bucket as the program keeps it, its counters grouped in one record. `abs` is its
      meaning, without the counters. */
  class SessionBuffer {
    var inFlight: seq<Frame>
    var mem: seq<Frame>
    var disk: Option<seq<Frame>>
    var diskBroken: bool
    var tally: Tally
    ghost var abs: Session

    ghost predicate Valid()
      reads this
    {
      && inFlight == abs.inFlight
      && mem == abs.mem
      && disk == (if abs.segment then Some(abs.disk) else None)
      && (!abs.segment ==> abs.disk == [])
      && diskBroken == abs.broken
      && Counted(abs, tally)
    }

    constructor ()
      ensures Valid() && abs == EMPTY_SESSION
    {
      inFlight, mem, disk, diskBroken := [], [], None, false;
      tally := Tally(0, 0, 0, 0, 0, 0, 0);
      abs := EMPTY_SESSION;
    }

    /** Drops one frame of the memory tier. */
    method EvictMemOne() returns (len: Option<nat>)
      requires Valid()
      modifies this
      ensures Valid()
      ensures old(abs).mem == [] ==> len == None && abs == old(abs)
      ensures old(abs).mem != [] ==> len == Some(Evicted(old(abs)).Size()) && abs == Evict(old(abs))
    {
      if mem == [] {
        return None;
      }
      var pos := 0;
      if tally.memEvents > 0 {
        EventCountFindsVictim(mem);
        if mem[0].Kind() != Event {
          pos := FirstEvent(mem);
        }
      }
      EvictSums(abs);
      var bf := mem[pos];
      mem := Without(mem, pos);
      if bf.Kind() == Event {
        tally := tally.(memEvents := tally.memEvents - 1, droppedEvent := tally.droppedEvent + 1);
      } else {
        tally := tally.(droppedControl := tally.droppedControl + 1);
      }
      tally := tally.(memBytes := tally.memBytes - bf.Size(), bytes := tally.bytes - bf.Size(), frames := tally.frames - 1);
      abs := EvictMem(abs);
      return Some(bf.Size());
    }

    /** Drops one frame, memory first; reports its size and whether it came from memory. */
    method EvictAnyOne(readable: bool) returns (r: Option<(nat, bool)>)
      requires Valid()
      modifies this
      ensures Valid()
      ensures r.Some? <==> CanEvict(old(abs), false, readable)
      ensures r.None? ==> abs == old(abs)
      ensures r.Some? ==> abs == Evict(old(abs))
      ensures r.Some? ==> r.value == (Evicted(old(abs)).Size(), old(abs).mem != [])
    {
      var fromMem := EvictMemOne();
      if fromMem.Some? {
        return Some((fromMem.value, true));
      }
      if disk.Some? && disk.value != [] && readable {
        EvictSums(abs);
        var bf := disk.value[0];
        disk := Some(disk.value[1..]);
        if bf.Kind() == Event {
          tally := tally.(droppedEvent := tally.droppedEvent + 1);
        } else {
          tally := tally.(droppedControl := tally.droppedControl + 1);
        }
        tally := tally.(bytes := tally.bytes - bf.Size(), frames := tally.frames - 1);
        abs := EvictDisk(abs);
        return Some((bf.Size(), false));
      }
      return None;
    }

    /** Stores a pushed frame: memory if it fits, else the disk segment; a disk failure
        breaks the bucket for good. */
    method Admit(fits: bool, f: Frame, openOk: bool, appendOk: bool) returns (r: PushOutcome)
      requires Valid()
      modifies this
      ensures Valid() && (abs, r) == AdmitInto(old(abs), fits, f, openOk, appendOk)
    {
      AdmitTally(abs, tally, f);
      if diskBroken {
        Refuse(f);
        return DiskFailed;
      }
      if fits {
        mem := mem + [f];
        tally := tally.(memBytes := tally.memBytes + f.Size(),
                        memEvents := tally.memEvents + if f.Kind() == Event then 1 else 0);
      } else {
        if disk.None? {
          if !openOk {
            Refuse(f);
            return DiskFailed;
          }
          disk := Some([]);
          abs := abs.(segment := true);
        }
        if !appendOk {
          Refuse(f);
          return DiskFailed;
        }
        disk := Some(disk.value + [f]);
      }
      tally := tally.(bytes := tally.bytes + f.Size(), frames := tally.frames + 1);
      abs := AdmitInto(abs, fits, f, openOk, appendOk).0;
      return Buffered;
    }

    /** The disk has failed: the frame is counted, and the bucket takes no more. */
    method Refuse(f: Frame)
      requires Valid()
      modifies `diskBroken, `tally, `abs
      ensures Valid() && abs == old(abs).(broken := true, failed := old(abs).failed + [f])
    {
      diskBroken := true;
      tally := tally.(droppedDiskFailed := tally.droppedDiskFailed + 1);
      abs := abs.(broken := true, failed := abs.failed + [f]);
    }

    method FrontSeq(readable: bool) returns (r: Option<nat>)
      requires Valid()
      ensures r == FirstSeq(abs, readable)
    {
      if mem != [] {
        return Some(mem[0].seqNo);
      }
      if inFlight != [] {
        return Some(inFlight[0].seqNo);
      }
      if disk.Some? && disk.value != [] && readable {
        return Some(disk.value[0].seqNo);
      }
      return None;
    }

    /** The drain loop: pops memory, then reads the segment; `good` disk records can be
        read. Returns what memory holds afterwards, in bytes and in event frames. */
    method Collect(maxFrames: nat, maxBytes: nat, good: nat)
      returns (out: seq<Frame>, memBytes: nat, memEvents: nat)
      requires Valid()
      modifies `mem, `disk
      ensures Collected(abs, good, maxFrames, maxBytes, out, mem, disk, memBytes, memEvents)
    {
      ghost var e := abs;
      var m, d := mem, disk;
      var bytes: nat, j: nat := 0, 0;
      ghost var i: nat := 0;
      out, memBytes, memEvents := [], tally.memBytes, tally.memEvents;
      assert e.mem[0..] == e.mem && e.disk[0..] == e.disk;
      while |out| < maxFrames
        invariant Taking(e, good, maxFrames, maxBytes, i, j, out, bytes)
        invariant Holding(e, i, j, m, d, memBytes, memEvents)
      {
        if m != [] {
          var bf := m[0];
          if bytes + bf.Size() > maxBytes {
            break;
          }
          TakeFromMem(e, good, maxFrames, maxBytes, i, j, out, bytes, bf);
          HoldLessMem(e, i, j, m, d, memBytes, memEvents);
          m := m[1..];
          memBytes := memBytes - bf.Size();
          if bf.Kind() == Event {
            memEvents := memEvents - 1;
          }
          bytes := bytes + bf.Size();
          out := out + [bf];
          i := i + 1;
          continue;
        }
        if d.Some? {
          if d.value == [] || j == good {
            break;
          }
          var bf := d.value[0];
          if bytes + bf.Size() > maxBytes {
            break;
          }
          TakeFromDisk(e, good, maxFrames, maxBytes, i, j, out, bytes, bf);
          HoldLessDisk(e, i, j, m, d, memBytes, memEvents);
          d := Some(d.value[1..]);
          bytes := bytes + bf.Size();
          out := out + [bf];
          j := j + 1;
        } else {
          break;
        }
      }
      TakeEnds(e, good, maxFrames, maxBytes, i, j, out, bytes, m, d, memBytes, memEvents);
      mem, disk := m, d;
    }

    /** Moves the next batch behind the frames in flight. */
    method Take(maxFrames: nat, maxBytes: nat, good: nat) returns (out: seq<Frame>)
      requires Valid()
      modifies this
      ensures Valid()
      ensures var k := Batch(Reach(old(abs), good), maxFrames, maxBytes);
        && |out| == k <= |old(abs).Pending()| && out == Reach(old(abs), good)[..k]
        && abs == TakeBatch(old(abs), k)
    {
      var memBytes, memEvents;
      out, memBytes, memEvents := Collect(maxFrames, maxBytes, good);
      TakeCounted(abs, tally, |out|);
      inFlight := inFlight + out;
      tally := tally.(memBytes := memBytes, memEvents := memEvents);
      abs := TakeBatch(abs, |out|);
    }

    /** Empties the in-flight queue; reports what left. */
    method ClearInFlight() returns (bytes: nat, frames: nat)
      requires Valid()
      modifies this
      ensures Valid() && abs == old(abs).(inFlight := [])
      ensures bytes == Bytes(old(abs).inFlight) && frames == |old(abs).inFlight|
    {
      ghost var e := abs;
      bytes, frames := 0, 0;
      while inFlight != []
        invariant abs == e && mem == e.mem && diskBroken == e.broken
        invariant disk == (if e.segment then Some(e.disk) else None)
        invariant tally == old(tally)
        invariant bytes + Bytes(inFlight) == Bytes(e.inFlight)
        invariant frames + |inFlight| == |e.inFlight|
        decreases |inFlight|
      {
        bytes, frames := bytes + inFlight[0].Size(), frames + 1;
        inFlight := inFlight[1..];
      }
      tally := tally.(bytes := tally.bytes - bytes, frames := tally.frames - frames);
      abs := abs.(inFlight := []);
    }

    /** Puts the in-flight frames back in front of memory, last one first. */
    method PutBack() returns (bytes: nat, frames: nat)
      requires Valid()
      modifies this
      ensures Valid() && abs == Restore(old(abs))
      ensures bytes == Bytes(old(abs).inFlight) && frames == |old(abs).inFlight|
    {
      ghost var e := abs;
      var back := inFlight;
      inFlight := [];
      bytes, frames := 0, 0;
      while back != []
        invariant abs == e && inFlight == [] && diskBroken == e.broken
        invariant disk == (if e.segment then Some(e.disk) else None)
        invariant back + mem == e.inFlight + e.mem
        invariant tally == old(tally).(memBytes := Bytes(mem), memEvents := Events(mem))
        invariant bytes + Bytes(back) == Bytes(e.inFlight) && frames + |back| == |e.inFlight|
        decreases |back|
      {
        var bf := back[|back| - 1];
        PopLast(back);
        back := back[..|back| - 1];
        mem := [bf] + mem;
        tally := tally.(memBytes := tally.memBytes + bf.Size(),
                        memEvents := tally.memEvents + if bf.Kind() == Event then 1 else 0);
        bytes, frames := bytes + bf.Size(), frames + 1;
      }
      RestoreCounted(e, old(tally));
      abs := Restore(e);
    }
  }

  lemma AdmitTally(e: Session, t: Tally, f: Frame)
    requires Counted(e, t)
    ensures Bytes(e.mem + [f]) == Bytes(e.mem) + f.Size()
    ensures Bytes(e.disk + [f]) == Bytes(e.disk) + f.Size()
    ensures Events(e.mem + [f]) == Events(e.mem) + if f.Kind() == Event then 1 else 0
  {
    BytesAppend(e.mem, f);
    BytesAppend(e.disk, f);
    EventsConcat(e.mem, [f]);
    assert Events([f]) == if f.Kind() == Event then 1 else 0;
  }

  lemma RestoreCounted(e: Session, t: Tally)
    requires Counted(e, t)
    ensures Counted(Restore(e), t.(memBytes := Bytes(e.inFlight + e.mem), memEvents := Events(e.inFlight + e.mem)))
  {
    BytesConcat(e.inFlight, e.mem);
  }

  lemma PopLast(fs: seq<Frame>)
    requires fs != []
    ensures Bytes(fs) == Bytes(fs[..|fs| - 1]) + fs[|fs| - 1].Size()
  {
    BytesAppend(fs[..|fs| - 1], fs[|fs| - 1]);
    assert fs == fs[..|fs| - 1] + [fs[|fs| - 1]];
  }

  // ---------------------------------------------------------------------------
  // The drain loop: i memory frames and j disk records taken so far
  // ---------------------------------------------------------------------------

  ghost predicate Taking(e: Session, good: nat, maxFrames: nat, maxBytes: nat,
                         i: nat, j: nat, out: seq<Frame>, bytes: nat) {
    && i <= |e.mem| && j <= Min(good, |e.disk|) && (j > 0 ==> i == |e.mem|)
    && out == e.mem[..i] + e.disk[..j] && |out| <= maxFrames
    && bytes == Bytes(out) && bytes <= maxBytes
  }

  /** What the stores hold after i memory frames and j disk records have left them. */
  ghost predicate Holding(e: Session, i: nat, j: nat, mem: seq<Frame>, disk: Option<seq<Frame>>, memBytes: nat, memEvents: nat) {
    && i <= |e.mem| && j <= |e.disk|
    && mem == e.mem[i..] && disk == (if e.segment then Some(e.disk[j..]) else None)
    && (!e.segment ==> e.disk == [])
    && memBytes == Bytes(mem) && memEvents == Events(mem)
  }

  lemma HoldLessMem(e: Session, i: nat, j: nat, mem: seq<Frame>, disk: Option<seq<Frame>>, memBytes: nat, memEvents: nat)
    requires Holding(e, i, j, mem, disk, memBytes, memEvents) && mem != []
    ensures mem[0].Size() <= memBytes && (mem[0].Kind() == Event ==> memEvents > 0)
    ensures Holding(e, i + 1, j, mem[1..], disk, memBytes - mem[0].Size(),
                    if mem[0].Kind() == Event then memEvents - 1 else memEvents)
  {
  }

  lemma TakeFromMem(e: Session, good: nat, maxFrames: nat, maxBytes: nat,
                    i: nat, j: nat, out: seq<Frame>, bytes: nat, bf: Frame)
    requires Taking(e, good, maxFrames, maxBytes, i, j, out, bytes)
    requires i < |e.mem| && bf == e.mem[i] && |out| < maxFrames && bytes + bf.Size() <= maxBytes
    ensures Taking(e, good, maxFrames, maxBytes, i + 1, j, out + [bf], bytes + bf.Size())
  {
    BytesAppend(out, bf);
  }

  lemma TakeFromDisk(e: Session, good: nat, maxFrames: nat, maxBytes: nat,
                     i: nat, j: nat, out: seq<Frame>, bytes: nat, bf: Frame)
    requires Taking(e, good, maxFrames, maxBytes, i, j, out, bytes)
    requires i == |e.mem| && j < Min(good, |e.disk|) && bf == e.disk[j]
    requires |out| < maxFrames && bytes + bf.Size() <= maxBytes
    ensures Taking(e, good, maxFrames, maxBytes, i, j + 1, out + [bf], bytes + bf.Size())
  {
    BytesAppend(out, bf);
  }

  lemma HoldLessDisk(e: Session, i: nat, j: nat, mem: seq<Frame>, disk: Option<seq<Frame>>, memBytes: nat, memEvents: nat)
    requires Holding(e, i, j, mem, disk, memBytes, memEvents) && disk.Some? && disk.value != []
    ensures Holding(e, i, j + 1, mem, Some(disk.value[1..]), memBytes, memEvents)
  {
  }

  /** The longest batch within reach has been taken, and the stores hold the rest. */
  ghost predicate Collected(e: Session, good: nat, maxFrames: nat, maxBytes: nat, out: seq<Frame>,
                            mem: seq<Frame>, disk: Option<seq<Frame>>, memBytes: nat, memEvents: nat) {
    && |out| == Batch(Reach(e, good), maxFrames, maxBytes) && out == Reach(e, good)[..|out|]
    && |out| <= |e.Pending()|
    && (var t := TakeBatch(e, |out|);
        && t.inFlight == e.inFlight + out && mem == t.mem
        && disk == (if e.segment then Some(t.disk) else None) && (!e.segment ==> t.disk == []))
    && memBytes == Bytes(mem) && memEvents == Events(mem)
  }

  /** When the loop stops for any of its reasons, nothing more would have been taken. */
  lemma TakeEnds(e: Session, good: nat, maxFrames: nat, maxBytes: nat,
                 i: nat, j: nat, out: seq<Frame>, bytes: nat,
                 mem: seq<Frame>, disk: Option<seq<Frame>>, memBytes: nat, memEvents: nat)
    requires Taking(e, good, maxFrames, maxBytes, i, j, out, bytes)
    requires Holding(e, i, j, mem, disk, memBytes, memEvents)
    requires |out| == maxFrames
          || (mem != [] && bytes + mem[0].Size() > maxBytes)
          || (mem == [] && (disk.None? || disk.value == [] || j == good || bytes + disk.value[0].Size() > maxBytes))
    ensures Collected(e, good, maxFrames, maxBytes, out, mem, disk, memBytes, memEvents)
  {
    NothingMore(e, good, maxFrames, maxBytes, i, j, out, bytes);
    assert out == e.mem[..i] + e.disk[..j];
  }

  lemma NothingMore(e: Session, good: nat, maxFrames: nat, maxBytes: nat,
                    i: nat, j: nat, out: seq<Frame>, bytes: nat)
    requires Taking(e, good, maxFrames, maxBytes, i, j, out, bytes)
    requires |out| == maxFrames
          || (i < |e.mem| && bytes + e.mem[i].Size() > maxBytes)
          || (i == |e.mem| && (j == Min(good, |e.disk|) || bytes + e.disk[j].Size() > maxBytes))
    ensures Batch(Reach(e, good), maxFrames, maxBytes) == |out|
    ensures Reach(e, good)[..|out|] == out
  {
    var q := Reach(e, good);
    assert q[..|out|] == out;
    if i < |e.mem| {
      assert q[|out|] == e.mem[i];
    } else if j < Min(good, |e.disk|) {
      assert q[|out|] == e.disk[j];
    }
    StopsAt(q, |out|, maxFrames, maxBytes);
  }

  /** A prefix within both limits that cannot be continued is the batch. */
  lemma {:induction false} StopsAt(q: seq<Frame>, k: nat, maxFrames: nat, maxBytes: nat)
    requires k <= |q| && k <= maxFrames && Bytes(q[..k]) <= maxBytes
    requires k == |q| || k == maxFrames || Bytes(q[..k]) + q[k].Size() > maxBytes
    ensures Batch(q, maxFrames, maxBytes) == k
  {
    if k > 0 {
      assert q[..k][0] == q[0] && q[..k][1..] == q[1..][..k - 1];
      StopsAt(q[1..], k - 1, maxFrames - 1, maxBytes - q[0].Size());
    }
  }

  lemma TakeCounted(e: Session, t: Tally, k: nat)
    requires Counted(e, t) && k <= |e.Pending()|
    ensures var e' := TakeBatch(e, k);
      Counted(e', t.(memBytes := Bytes(e'.mem), memEvents := Events(e'.mem)))
  {
    if k <= |e.mem| {
      SplitSums(e.mem, k);
      BytesConcat(e.inFlight, e.mem[..k]);
    } else {
      var d := k - |e.mem|;
      SplitSums(e.disk, d);
      BytesConcat(e.inFlight + e.mem, e.disk[..d]);
      BytesConcat(e.inFlight, e.mem);
    }
  }
}
