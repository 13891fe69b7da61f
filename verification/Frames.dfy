/** Frames as the disconnect buffer sees them: an opaque serialised body, its
    sequence number and the envelope facts that decide its drop priority. */
module Frames {
  type Byte = b: int | 0 <= b < 256

  datatype Option<+T> = None | Some(value: T)

  datatype FrameKind = Event | Control

  /** `body` is the serialised record, so its length is the size every budget counts.
      `epoch` is a history field: the stream epoch the frame was stamped under. The
      program never reads it. */
  datatype Frame = Frame(seqNo: nat, epoch: nat, jsonrpc: bool, id: bool, body: seq<Byte>) {
    function Size(): nat { |body| }

    /** Structural classification of the envelope: a JSON-RPC wrapper that has an id. */
    function Kind(): FrameKind {
      if jsonrpc && id then Control else Event
    }
  }

  function Bytes(fs: seq<Frame>): nat {
    if fs == [] then 0 else fs[0].Size() + Bytes(fs[1..])
  }

  function Events(fs: seq<Frame>): nat {
    if fs == [] then 0 else (if fs[0].Kind() == Event then 1 else 0) + Events(fs[1..])
  }

  /** What the frames weigh is what their bodies weigh. */
  function Bodies(fs: seq<Frame>): seq<Byte> {
    if fs == [] then [] else fs[0].body + Bodies(fs[1..])
  }

  lemma {:induction false} BytesAreBodies(fs: seq<Frame>)
    ensures Bytes(fs) == |Bodies(fs)|
  {
    if fs != [] {
      BytesAreBodies(fs[1..]);
    }
  }

  /** How many of the frames are JSON-RPC envelopes with an id: requests and responses. */
  function Calls(fs: seq<Frame>): nat {
    if fs == [] then 0 else (if fs[0].jsonrpc && fs[0].id then 1 else 0) + Calls(fs[1..])
  }

  lemma {:induction false} EventsOrCalls(fs: seq<Frame>)
    ensures Events(fs) + Calls(fs) == |fs|
    ensures Calls(fs) == |fs| <==> forall i :: 0 <= i < |fs| ==> fs[i].jsonrpc && fs[i].id
  {
    if fs != [] {
      EventsOrCalls(fs[1..]);
      if forall i :: 0 <= i < |fs[1..]| ==> fs[1..][i].jsonrpc && fs[1..][i].id {
        forall i | 1 <= i < |fs| ensures fs[i].jsonrpc && fs[i].id {
          assert fs[1..][i - 1] == fs[i];
        }
      } else {
        var i :| 0 <= i < |fs[1..]| && !(fs[1..][i].jsonrpc && fs[1..][i].id);
        assert fs[i + 1] == fs[1..][i];
      }
    }
  }

  ghost predicate Ascending(fs: seq<Frame>) {
    forall i, j :: 0 <= i < j < |fs| ==> fs[i].seqNo < fs[j].seqNo
  }

  ghost predicate AllAbove(fs: seq<Frame>, n: int) {
    forall i :: 0 <= i < |fs| ==> n < fs[i].seqNo
  }

  ghost predicate AllBelow(fs: seq<Frame>, n: int) {
    forall i :: 0 <= i < |fs| ==> fs[i].seqNo < n
  }

  function Without(fs: seq<Frame>, i: nat): seq<Frame>
    requires i < |fs|
  {
    fs[..i] + fs[i + 1..]
  }

  lemma {:induction false} BytesConcat(a: seq<Frame>, b: seq<Frame>)
    ensures Bytes(a + b) == Bytes(a) + Bytes(b)
  {
    if a == [] {
      assert a + b == b;
    } else {
      assert (a + b)[1..] == a[1..] + b;
      BytesConcat(a[1..], b);
    }
  }

  lemma BytesAppend(fs: seq<Frame>, f: Frame)
    ensures Bytes(fs + [f]) == Bytes(fs) + f.Size()
  {
    BytesConcat(fs, [f]);
    assert Bytes([f]) == f.Size();
  }

  lemma {:induction false} EventsConcat(a: seq<Frame>, b: seq<Frame>)
    ensures Events(a + b) == Events(a) + Events(b)
  {
    if a == [] {
      assert a + b == b;
    } else {
      assert (a + b)[1..] == a[1..] + b;
      EventsConcat(a[1..], b);
    }
  }

  /** Removing one frame takes exactly its own size and kind out of the sums. */
  lemma {:induction false} RemoveOne(fs: seq<Frame>, i: nat)
    requires i < |fs|
    ensures Bytes(fs) == Bytes(Without(fs, i)) + fs[i].Size()
    ensures Events(fs) == Events(Without(fs, i)) + (if fs[i].Kind() == Event then 1 else 0)
    ensures multiset(fs) == multiset(Without(fs, i)) + multiset{fs[i]}
  {
    var tail := fs[i..];
    assert fs == fs[..i] + tail && tail == [fs[i]] + fs[i + 1..];
    BytesConcat(fs[..i], tail);
    EventsConcat(fs[..i], tail);
    BytesConcat(fs[..i], fs[i + 1..]);
    EventsConcat(fs[..i], fs[i + 1..]);
    assert tail[1..] == fs[i + 1..];
    assert multiset(fs) == multiset(fs[..i]) + multiset(tail);
    assert multiset(tail) == multiset{fs[i]} + multiset(fs[i + 1..]);
  }

  lemma {:induction false} SplitSums(fs: seq<Frame>, k: nat)
    requires k <= |fs|
    ensures Bytes(fs) == Bytes(fs[..k]) + Bytes(fs[k..])
    ensures Events(fs) == Events(fs[..k]) + Events(fs[k..])
    ensures multiset(fs) == multiset(fs[..k]) + multiset(fs[k..])
  {
    assert fs == fs[..k] + fs[k..];
    BytesConcat(fs[..k], fs[k..]);
    EventsConcat(fs[..k], fs[k..]);
  }

  lemma {:induction false} EventsBound(fs: seq<Frame>)
    ensures Events(fs) <= |fs|
    ensures Events(fs) > 0 <==> exists i :: 0 <= i < |fs| && fs[i].Kind() == Event
  {
    if fs != [] {
      EventsBound(fs[1..]);
      if exists i :: 0 <= i < |fs| && fs[i].Kind() == Event {
        var i :| 0 <= i < |fs| && fs[i].Kind() == Event;
        if i > 0 {
          assert fs[1..][i - 1] == fs[i];
        }
      }
      if Events(fs[1..]) > 0 {
        var j :| 0 <= j < |fs[1..]| && fs[1..][j].Kind() == Event;
        assert fs[j + 1].Kind() == Event;
      }
    }
  }

  /** Position of the oldest event frame. */
  function FirstEvent(fs: seq<Frame>): (i: nat)
    requires Events(fs) > 0
    ensures i < |fs| && fs[i].Kind() == Event
  {
    if fs[0].Kind() == Event then 0 else 1 + FirstEvent(fs[1..])
  }

  lemma {:induction false} FirstEventIsFirst(fs: seq<Frame>)
    requires Events(fs) > 0
    ensures forall j :: 0 <= j < FirstEvent(fs) ==> fs[j].Kind() == Control
  {
    if fs[0].Kind() != Event {
      FirstEventIsFirst(fs[1..]);
      forall j | 0 <= j < FirstEvent(fs) ensures fs[j].Kind() == Control {
        if j > 0 {
          assert fs[1..][j - 1] == fs[j];
        }
      }
    }
  }

  // ---------------------------------------------------------------------------
  // Subsequences: what is left after deletions
  // ---------------------------------------------------------------------------

  ghost predicate SubseqBy(a: seq<Frame>, b: seq<Frame>, at: seq<nat>) {
    && |at| == |a|
    && (forall i :: 0 <= i < |a| ==> at[i] < |b| && a[i] == b[at[i]])
    && (forall i, j :: 0 <= i < j < |at| ==> at[i] < at[j])
  }

  /** `a` is `b` with some frames deleted and the order of the others kept. */
  ghost predicate Subseq(a: seq<Frame>, b: seq<Frame>) {
    exists at :: SubseqBy(a, b, at)
  }

  lemma SubseqRefl(a: seq<Frame>)
    ensures Subseq(a, a)
  {
    assert SubseqBy(a, a, seq(|a|, i => i));
  }

  lemma SubseqPrefix(a: seq<Frame>, b: seq<Frame>)
    requires a <= b
    ensures Subseq(a, b)
  {
    assert SubseqBy(a, b, seq(|a|, i => i));
  }

  lemma SubseqTrans(a: seq<Frame>, b: seq<Frame>, c: seq<Frame>)
    requires Subseq(a, b) && Subseq(b, c)
    ensures Subseq(a, c)
  {
    var x :| SubseqBy(a, b, x);
    var y :| SubseqBy(b, c, y);
    var z := seq(|a|, i requires 0 <= i < |a| => y[x[i]]);
    assert SubseqBy(a, c, z);
  }

  lemma SubseqWithout(a: seq<Frame>, k: nat)
    requires k < |a|
    ensures Subseq(Without(a, k), a)
  {
    assert SubseqBy(Without(a, k), a, seq(|a| - 1, i => if i < k then i else i + 1));
  }

  lemma SubseqAscending(a: seq<Frame>, b: seq<Frame>)
    requires Subseq(a, b) && Ascending(b)
    ensures Ascending(a)
  {
    var x :| SubseqBy(a, b, x);
  }

  lemma SubseqBelow(a: seq<Frame>, b: seq<Frame>, n: int)
    requires Subseq(a, b)
    ensures AllBelow(b, n) ==> AllBelow(a, n)
    ensures AllAbove(b, n) ==> AllAbove(a, n)
    ensures forall f :: f in a ==> f in b
  {
    var x :| SubseqBy(a, b, x);
  }
}
