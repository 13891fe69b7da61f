/** Reading a child's output line by line under a byte limit, whatever pieces it comes in. */
module LineReader {
  import opened Frames

  const NEWLINE: Byte := 10

  /** Position of the first newline, or the length if there is none. */
  function Find(s: seq<Byte>): (p: nat)
    ensures p <= |s|
  {
    if s == [] || s[0] == NEWLINE then 0 else 1 + Find(s[1..])
  }

  lemma {:induction false} FindFinds(s: seq<Byte>)
    ensures Find(s) < |s| ==> s[Find(s)] == NEWLINE
    ensures forall i :: 0 <= i < Find(s) ==> s[i] != NEWLINE
  {
    if s != [] && s[0] != NEWLINE {
      FindFinds(s[1..]);
      forall i | 0 <= i < Find(s) ensures s[i] != NEWLINE {
        assert i > 0 ==> s[i] == s[1..][i - 1];
      }
    }
  }

  /** Length of the first line, its newline included. */
  function LineLength(s: seq<Byte>): (n: nat)
    ensures n <= |s| && (s != [] ==> n > 0)
  {
    if Find(s) < |s| then Find(s) + 1 else |s|
  }

  function Cut(s: seq<Byte>, limit: nat): (r: seq<Byte>)
    ensures |r| <= limit
  {
    if |s| <= limit then s else s[..limit]
  }

  /** One answer of the reader: the kept bytes, and whether the line was longer. */
  datatype Line = Line(kept: seq<Byte>, oversize: bool)

  function LineOf(s: seq<Byte>, limit: nat): Line {
    Line(Cut(s, limit), |s| > limit)
  }

  /** The newline-split lines of a stream. */
  function Split(s: seq<Byte>): seq<seq<Byte>>
    decreases |s|
  {
    if s == [] then [] else [s[..LineLength(s)]] + Split(s[LineLength(s)..])
  }

  function Lines(ls: seq<seq<Byte>>, limit: nat): seq<Line> {
    if ls == [] then [] else [LineOf(ls[0], limit)] + Lines(ls[1..], limit)
  }

  /** The caller sees every line, each cut to its first `limit` bytes and flagged exactly if that
      is not all of it. */
  lemma {:induction false} LinesAt(ls: seq<seq<Byte>>, limit: nat, k: nat)
    ensures |Lines(ls, limit)| == |ls|
    ensures k < |ls| ==>
      && Lines(ls, limit)[k].kept == (if |ls[k]| <= limit then ls[k] else ls[k][..limit])
      && (Lines(ls, limit)[k].oversize <==> |ls[k]| > limit)
  {
    if ls != [] {
      LinesAt(ls[1..], limit, if k == 0 then 0 else k - 1);
    }
  }

  function Joined(pieces: seq<seq<Byte>>): seq<Byte> {
    if pieces == [] then [] else pieces[0] + Joined(pieces[1..])
  }

  /** The lines are the stream: put together they give it back, and a newline ends every line
      but perhaps the last and occurs nowhere else. */
  lemma {:induction false} SplitIsAll(s: seq<Byte>)
    ensures Joined(Split(s)) == s
    ensures forall i :: 0 <= i < |Split(s)| ==>
      var l := Split(s)[i];
      l != [] && (forall j :: 0 <= j < |l| - 1 ==> l[j] != NEWLINE) && (i + 1 < |Split(s)| ==> l[|l| - 1] == NEWLINE)
    decreases |s|
  {
    if s != [] {
      var n := LineLength(s);
      var t := Split(s[n..]);
      FindFinds(s);
      SplitIsAll(s[n..]);
      assert Split(s)[1..] == t;
      forall i | 0 <= i < |Split(s)|
        ensures var l := Split(s)[i];
          l != [] && (forall j :: 0 <= j < |l| - 1 ==> l[j] != NEWLINE) && (i + 1 < |Split(s)| ==> l[|l| - 1] == NEWLINE)
      {
        if i > 0 {
          assert Split(s)[i] == t[i - 1];
        } else if |Split(s)| > 1 {
          assert n < |s|;
        }
      }
    }
  }

  // ---------------------------------------------------------------------------
  // The reader
  // ---------------------------------------------------------------------------

  /** How the stream is delivered: each look at the source finds at least one byte unless the
      stream has ended. */
  class Source {
    var pieces: seq<seq<Byte>>
    /** Whether the stream breaks with a read error instead of ending. */
    const fails: bool
    /** What has not been consumed yet. */
    ghost var pending: seq<Byte>

    ghost predicate Valid()
      reads this
    {
      (forall i :: 0 <= i < |pieces| ==> pieces[i] != []) && pending == Joined(pieces)
    }

    constructor (pieces: seq<seq<Byte>>, fails: bool)
      requires forall i :: 0 <= i < |pieces| ==> pieces[i] != []
      ensures Valid() && this.pieces == pieces && pending == Joined(pieces) && this.fails == fails
    {
      this.pieces, this.fails, pending := pieces, fails, Joined(pieces);
    }

    /** What is available now: nothing at the end of the stream, None for a read error. */
    method FillBuf() returns (available: Option<seq<Byte>>)
      requires Valid()
      ensures available.None? <==> pending == [] && fails
      ensures available.Some? ==> (available.value == [] <==> pending == []) && available.value <= pending
      ensures available.Some? && pieces != [] ==> available.value == pieces[0]
    {
      if pieces == [] {
        return if fails then None else Some([]);
      }
      return Some(pieces[0]);
    }

    method Consume(n: nat)
      requires Valid() && pieces != [] && n <= |pieces[0]|
      modifies this
      ensures Valid() && n <= |old(pending)| && pending == old(pending)[n..]
    {
      if n == |pieces[0]| {
        pieces := pieces[1..];
      } else {
        ghost var rest := pieces[1..];
        pieces := [pieces[0][n..]] + pieces[1..];
        assert pieces[1..] == rest;
      }
      pending := pending[n..];
    }
  }

  ghost predicate Clean(s: seq<Byte>) {
    forall i :: 0 <= i < |s| ==> s[i] != NEWLINE
  }

  /** `done` has been read of the line, `rest` is still to come. */
  ghost predicate Reading(s: seq<Byte>, done: seq<Byte>, rest: seq<Byte>, limit: nat, buf: seq<Byte>, oversize: bool) {
    s == done + rest && Clean(done) && Line(buf, oversize) == LineOf(done, limit)
  }

  /** The answer for a stream `s` of which `rest` is left: the first line, cut and flagged;
      none at the end of the stream. */
  ghost predicate Answered(s: seq<Byte>, limit: nat, got: bool, buf: seq<Byte>, oversize: bool, rest: seq<Byte>) {
    && rest == s[LineLength(s)..]
    && Line(buf, oversize) == LineOf(s[..LineLength(s)], limit) && |buf| <= limit
    && (got <==> s != [] && (limit > 0 || Find(s) < |s|))
  }

  /** The same without splitting the stream: n bytes are consumed, up to and with the first
      newline, or all if there is none; of them the first `limit` are kept. */
  lemma {:induction false} AnsweredIs(s: seq<Byte>, limit: nat, got: bool, buf: seq<Byte>, oversize: bool, rest: seq<Byte>)
    returns (n: nat)
    requires Answered(s, limit, got, buf, oversize, rest)
    ensures n <= |s| && rest == s[n..] && (n == 0 <==> s == [])
    ensures forall i :: 0 <= i < n - 1 ==> s[i] != NEWLINE
    ensures 0 < n < |s| ==> s[n - 1] == NEWLINE
    ensures buf == (if n <= limit then s[..n] else s[..limit]) && (oversize <==> n > limit)
    ensures got <==> n > 0 && (limit > 0 || s[n - 1] == NEWLINE)
  {
    n := LineLength(s);
    FindFinds(s);
    assert n > limit ==> s[..n][..limit] == s[..limit];
  }

  /** Reads one line. Keeps at most `limit` bytes at any time and consumes the whole line. It
      fails exactly if the stream breaks before the line ends. */
  method ReadLineBounded(reader: Source, limit: nat) returns (failed: bool, got: bool, oversize: bool, buf: seq<Byte>)
    requires reader.Valid()
    modifies reader
    ensures reader.Valid() && |buf| <= limit
    ensures failed <==> reader.fails && Find(old(reader.pending)) == |old(reader.pending)|
    ensures failed ==> !got && reader.pending == []
    ensures !failed ==> Answered(old(reader.pending), limit, got, buf, oversize, reader.pending)
  {
    failed, got, buf, oversize := false, false, [], false;
    ghost var s, done := reader.pending, [];
    assert s == done + s;
    while true
      invariant reader.Valid() && Reading(s, done, reader.pending, limit, buf, oversize)
      invariant !failed && !got
      decreases |reader.pending|
    {
      var found := reader.FillBuf();
      if found.None? {
        EndOfStream(s, done, limit, buf, oversize);
        failed := true;
        return;
      }
      var available := found.value;
      if available == [] {
        EndOfStream(s, done, limit, buf, oversize);
        got := buf != [];
        return;
      }
      var take := LineLength(available);
      var keep := Headroom(take, limit, |buf|);
      KeepStep(done, available, limit, buf, oversize);
      PieceStep(s, done, reader.pending, available, limit, buf, oversize, done + available[..take],
                reader.pending[take..], buf + available[..keep], oversize || take > keep);
      buf := buf + available[..keep];
      if take > keep {
        oversize := true;
      }
      reader.Consume(take);
      done := done + available[..take];
      if Find(available) < |available| {
        got := true;
        return;
      }
    }
  }

  /** How much of `take` bytes still fits. */
  function Headroom(take: nat, limit: nat, held: nat): (keep: nat)
    ensures keep <= take
  {
    var headroom := if limit >= held then limit - held else 0;
    if take < headroom then take else headroom
  }

  lemma {:induction false} FindIs(s: seq<Byte>, p: nat)
    requires p <= |s| && Clean(s[..p]) && (p < |s| ==> s[p] == NEWLINE)
    ensures Find(s) == p
  {
    if p > 0 {
      assert s[0] == s[..p][0];
      assert s[1..][..p - 1] == s[..p][1..];
      FindIs(s[1..], p - 1);
    }
  }

  lemma EndOfStream(s: seq<Byte>, done: seq<Byte>, limit: nat, buf: seq<Byte>, oversize: bool)
    requires Reading(s, done, [], limit, buf, oversize)
    ensures Answered(s, limit, buf != [], buf, oversize, []) && Find(s) == |s|
  {
    assert done + [] == done;
    assert s[..|s|] == s;
    FindIs(s, |s|);
  }

  /** What one piece adds: up to its newline it belongs to the line, and what fits is kept. */
  lemma PieceStep(s: seq<Byte>, done: seq<Byte>, rest: seq<Byte>, piece: seq<Byte>, limit: nat, buf: seq<Byte>, oversize: bool,
                  line: seq<Byte>, left: seq<Byte>, buf': seq<Byte>, oversize': bool)
    requires Reading(s, done, rest, limit, buf, oversize) && piece != [] && piece <= rest
    requires line == done + piece[..LineLength(piece)] && left == rest[LineLength(piece)..]
    requires Line(buf', oversize') == LineOf(line, limit)
    ensures Find(piece) < |piece| ==> Answered(s, limit, true, buf', oversize', left) && Find(s) < |s|
    ensures Find(piece) == |piece| ==> Reading(s, line, left, limit, buf', oversize')
  {
    TakenPart(done, rest, piece, line, left);
    if Find(piece) < |piece| {
      FoundLine(s, line, left, limit, buf', oversize');
    }
  }

  lemma KeepStep(done: seq<Byte>, piece: seq<Byte>, limit: nat, buf: seq<Byte>, oversize: bool)
    requires Line(buf, oversize) == LineOf(done, limit)
    ensures var take := LineLength(piece); var keep := Headroom(take, limit, |buf|);
      Line(buf + piece[..keep], oversize || take > keep) == LineOf(done + piece[..take], limit)
  {
    var part := piece[..LineLength(piece)];
    var keep := Headroom(|part|, limit, |buf|);
    KeepCut(done, part, limit);
    assert piece[..keep] == part[..keep];
  }

  lemma TakenPart(done: seq<Byte>, rest: seq<Byte>, piece: seq<Byte>, line: seq<Byte>, left: seq<Byte>)
    requires Clean(done) && piece != [] && piece <= rest
    requires line == done + piece[..LineLength(piece)] && left == rest[LineLength(piece)..]
    ensures done + rest == line + left && line != []
    ensures Find(piece) == |piece| ==> Clean(line)
    ensures Find(piece) < |piece| ==> Clean(line[..|line| - 1]) && line[|line| - 1] == NEWLINE
  {
    Rejoin(done, rest, piece, LineLength(piece));
    if Find(piece) < |piece| {
      PartWithNewline(done, piece, line);
    } else {
      PartWithout(done, piece, line);
    }
  }

  lemma Rejoin(done: seq<Byte>, rest: seq<Byte>, piece: seq<Byte>, n: nat)
    requires piece <= rest && n <= |piece|
    ensures done + rest == (done + piece[..n]) + rest[n..]
  {
    assert rest == piece[..n] + rest[n..];
  }

  lemma PartWithNewline(done: seq<Byte>, piece: seq<Byte>, line: seq<Byte>)
    requires Clean(done) && Find(piece) < |piece| && line == done + piece[..Find(piece) + 1]
    ensures line != [] && Clean(line[..|line| - 1]) && line[|line| - 1] == NEWLINE
  {
    FindFinds(piece);
    forall i | 0 <= i < |line| - 1 ensures line[i] != NEWLINE {
      assert line[i] == if i < |done| then done[i] else piece[i - |done|];
    }
  }

  lemma PartWithout(done: seq<Byte>, piece: seq<Byte>, line: seq<Byte>)
    requires Clean(done) && Find(piece) == |piece| && line == done + piece[..|piece|]
    ensures Clean(line)
  {
    FindFinds(piece);
    forall i | 0 <= i < |line| ensures line[i] != NEWLINE {
      assert line[i] == if i < |done| then done[i] else piece[i - |done|];
    }
  }

  lemma FoundLine(s: seq<Byte>, line: seq<Byte>, rest: seq<Byte>, limit: nat, buf: seq<Byte>, oversize: bool)
    requires s == line + rest && line != [] && Clean(line[..|line| - 1]) && line[|line| - 1] == NEWLINE
    requires Line(buf, oversize) == LineOf(line, limit)
    ensures Answered(s, limit, true, buf, oversize, rest) && Find(s) < |s|
  {
    var p := |line| - 1;
    assert s[..p] == line[..p];
    assert s[p] == line[p];
    FindIs(s, p);
    assert s[..p + 1] == line && s[p + 1..] == rest;
  }

  /** Keeping what fits of the next part keeps the first `limit` bytes of the line. */
  lemma KeepCut(done: seq<Byte>, part: seq<Byte>, limit: nat)
    ensures var buf := Cut(done, limit); var keep := Headroom(|part|, limit, |buf|);
      && Cut(done + part, limit) == buf + part[..keep]
      && (|done + part| > limit <==> |done| > limit || |part| > keep)
  {
  }

  // ---------------------------------------------------------------------------
  // The caller
  // ---------------------------------------------------------------------------

  /** The lines that end with a newline. */
  function Ended(s: seq<Byte>): seq<seq<Byte>>
    decreases |s|
  {
    if Find(s) == |s| then [] else [s[..LineLength(s)]] + Ended(s[LineLength(s)..])
  }

  /** They are all lines, but for a last one without a newline. */
  lemma {:induction false} EndedIsSplit(s: seq<Byte>)
    ensures Ended(s) <= Split(s) && |Split(s)| <= |Ended(s)| + 1
    decreases |s|
  {
    if Find(s) < |s| {
      EndedIsSplit(s[LineLength(s)..]);
    } else if s != [] {
      assert s[|s|..] == [];
    }
  }

  /** What the caller sees of a stream that ends, or that breaks. */
  function Seen(s: seq<Byte>, fails: bool): seq<seq<Byte>> {
    if fails then Ended(s) else Split(s)
  }

  /** Reads until the stream ends or breaks. With a positive limit the lines it sees are
      exactly the newline-split lines, each cut to the limit and flagged if it was longer;
      of a stream that breaks, those that end with a newline. */
  method ReadAll(reader: Source, limit: nat) returns (lines: seq<Line>)
    requires reader.Valid()
    modifies reader
    ensures limit > 0 ==> lines == Lines(Seen(old(reader.pending), reader.fails), limit) && reader.pending == []
  {
    lines := [];
    ghost var s := reader.pending;
    while true
      invariant reader.Valid() && SoFar(s, reader.fails, limit, lines, reader.pending)
      decreases |reader.pending|
    {
      ghost var t := reader.pending;
      var failed, got, oversize, line := ReadLineBounded(reader, limit);
      if failed || !got {
        NoMore(s, reader.fails, limit, lines, t);
        return;
      }
      OneLine(s, reader.fails, limit, lines, t, line, oversize, reader.pending);
      lines := lines + [Line(line, oversize)];
    }
  }

  /** `lines` have been seen, those of `rest` are still to come. */
  ghost predicate SoFar(s: seq<Byte>, fails: bool, limit: nat, lines: seq<Line>, rest: seq<Byte>) {
    Lines(Seen(s, fails), limit) == lines + Lines(Seen(rest, fails), limit)
  }

  lemma OneLine(s: seq<Byte>, fails: bool, limit: nat, lines: seq<Line>, t: seq<Byte>, line: seq<Byte>, oversize: bool, rest: seq<Byte>)
    requires SoFar(s, fails, limit, lines, t) && Answered(t, limit, true, line, oversize, rest)
    requires !(fails && Find(t) == |t|)
    ensures SoFar(s, fails, limit, lines + [Line(line, oversize)], rest) && |rest| < |t|
  {
    SeenCons(t, fails, limit);
  }

  lemma NoMore(s: seq<Byte>, fails: bool, limit: nat, lines: seq<Line>, t: seq<Byte>)
    requires SoFar(s, fails, limit, lines, t)
    ensures t == [] || (fails && Find(t) == |t|) ==> lines == Lines(Seen(s, fails), limit)
  {
    SeenCons(t, fails, limit);
  }

  lemma SeenCons(s: seq<Byte>, fails: bool, limit: nat)
    ensures Seen(s, fails) == [] <==> s == [] || (fails && Find(s) == |s|)
    ensures Seen(s, fails) != [] ==>
      Lines(Seen(s, fails), limit) == [LineOf(s[..LineLength(s)], limit)] + Lines(Seen(s[LineLength(s)..], fails), limit)
  {
    if Seen(s, fails) != [] {
      assert Seen(s, fails)[1..] == Seen(s[LineLength(s)..], fails);
    }
  }
}
