/** CR/LF framing of the debug stream: `_consume_lines`, the read loop around it and its final
flush, compared with the pieces the whole stream falls into. */
module Framing {

  type Byte = b: int | 0 <= b < 256

  const MAX_LINE_CHARS := 512
  const MAX_PENDING_BYTES := 4096
  const READ_BYTES := 1024

  predicate IsBreak(b: Byte) {
    b == 10 || b == 13
  }

  predicate Unbroken(raw: seq<Byte>) {
    forall i :: 0 <= i < |raw| ==> raw[i] != 10 && raw[i] != 13
  }

  /** The run collected so far, unless it is empty. */
  function Flush(run: seq<Byte>): seq<seq<Byte>> {
    if run == [] then [] else [run]
  }

  /** The non-empty runs of `run + stream` between CRs and LFs, in order. */
  function Pieces(run: seq<Byte>, stream: seq<Byte>): seq<seq<Byte>>
    decreases |stream|
  {
    if stream == [] then Flush(run)
    else if IsBreak(stream[0]) then Flush(run) + Pieces([], stream[1..])
    else Pieces(run + [stream[0]], stream[1..])
  }

  // ---------------------------------------------------------------- what the read loop does

  datatype Scan = Scan(lines: seq<seq<Byte>>, rest: seq<Byte>)

  /** The runs that are terminated within `run + bytes`, and the unterminated rest. */
  function Complete(run: seq<Byte>, bytes: seq<Byte>): Scan
    decreases |bytes|
  {
    if bytes == [] then Scan([], run)
    else if IsBreak(bytes[0]) then
      var s := Complete([], bytes[1..]);
      Scan(Flush(run) + s.lines, s.rest)
    else Complete(run + [bytes[0]], bytes[1..])
  }

  /** What is recorded once the pending bytes have met the limit, and what stays pending. */
  function Overflow(s: Scan): Scan {
    if |s.rest| > MAX_PENDING_BYTES then Scan(s.lines + [s.rest], []) else s
  }

  /** The raw lines recorded from `pending` on, chunk by chunk, with the flush at the end. */
  function Recorded(pending: seq<Byte>, chunks: seq<seq<Byte>>): seq<seq<Byte>>
    decreases |chunks|
  {
    if chunks == [] then Flush(pending)
    else
      var s := Overflow(Complete(pending, chunks[0]));
      s.lines + Recorded(s.rest, chunks[1..])
  }

  function Flatten(chunks: seq<seq<Byte>>): seq<Byte> {
    if chunks == [] then [] else chunks[0] + Flatten(chunks[1..])
  }

  // ---------------------------------------------------------------- splitting

  lemma {:induction false} CompleteThenPieces(run: seq<Byte>, a: seq<Byte>, b: seq<Byte>)
    ensures var s := Complete(run, a); Pieces(run, a + b) == s.lines + Pieces(s.rest, b)
    decreases |a|
  {
    if a == [] {
      assert a + b == b;
    } else {
      assert (a + b)[1..] == a[1..] + b;
      CompleteThenPieces(if IsBreak(a[0]) then [] else run + [a[0]], a[1..], b);
    }
  }

  lemma {:induction false} CompleteUnbroken(run: seq<Byte>, bytes: seq<Byte>)
    requires Unbroken(run)
    ensures Unbroken(Complete(run, bytes).rest) && |Complete(run, bytes).rest| <= |run| + |bytes|
    decreases |bytes|
  {
    if bytes != [] {
      CompleteUnbroken(if IsBreak(bytes[0]) then [] else run + [bytes[0]], bytes[1..]);
    }
  }

  /** A run that is under way is the start of the first piece. */
  lemma {:induction false} FirstPiece(run: seq<Byte>, stream: seq<Byte>)
    requires run != []
    ensures var p := Pieces(run, stream); p != [] && run <= p[0]
    ensures Pieces(run, stream)[0] == run ==> Pieces(run, stream) == [run] + Pieces([], stream)
    decreases |stream|
  {
    if stream != [] && !IsBreak(stream[0]) {
      FirstPiece(run + [stream[0]], stream[1..]);
    }
  }

  predicate AllAtMost(pieces: seq<seq<Byte>>, n: nat) {
    forall i :: 0 <= i < |pieces| ==> |pieces[i]| <= n
  }

  /** One more than the limit still frames right: the overflow record of a run of 4097 bytes is
      the record the whole run would have had. */
  lemma {:induction false} RecordedArePieces(pending: seq<Byte>, chunks: seq<seq<Byte>>)
    requires AllAtMost(Pieces(pending, Flatten(chunks)), 4097)
    ensures Recorded(pending, chunks) == Pieces(pending, Flatten(chunks))
    decreases |chunks|
  {
    hide Complete, IsBreak;
    if chunks != [] {
      var tail := Flatten(chunks[1..]);
      CompleteThenPieces(pending, chunks[0], tail);
      var s := Complete(pending, chunks[0]);
      var all := Pieces(pending, Flatten(chunks));
      var later := Pieces(s.rest, tail);
      assert forall i :: 0 <= i < |later| ==> later[i] == all[|s.lines| + i];
      if |s.rest| > MAX_PENDING_BYTES {
        FirstPiece(s.rest, tail);
        assert later[0] == s.rest;
        assert later[1..] == Pieces([], tail);
        RecordedArePieces([], chunks[1..]);
        assert all == s.lines + [s.rest] + Pieces([], tail);
      } else {
        RecordedArePieces(s.rest, chunks[1..]);
      }
    }
  }

  // ---------------------------------------------------------------- the limit is exact

  function Singles(stream: seq<Byte>): (chunks: seq<seq<Byte>>)
    ensures forall i :: 0 <= i < |chunks| ==> |chunks[i]| == 1
  {
    if stream == [] then [] else [[stream[0]]] + Singles(stream[1..])
  }

  lemma {:induction false} FlattenSingles(stream: seq<Byte>)
    ensures Flatten(Singles(stream)) == stream
  {
    if stream != [] {
      FlattenSingles(stream[1..]);
      assert Singles(stream)[1..] == Singles(stream[1..]);
    }
  }

  lemma RunLengthensFirstPiece(run: seq<Byte>, stream: seq<Byte>)
    requires run != []
    ensures if stream == [] || IsBreak(stream[0]) then Pieces(run, stream) == [run] + Pieces([], stream)
            else |Pieces(run, stream)| == |Pieces([], stream)|
    decreases |stream|
  {
    if stream != [] && !IsBreak(stream[0]) {
      assert [] + [stream[0]] == [stream[0]];
      SameCount(run + [stream[0]], [stream[0]], stream[1..]);
    }
  }

  lemma {:induction false} SameCount(a: seq<Byte>, b: seq<Byte>, stream: seq<Byte>)
    requires a != [] && b != []
    ensures |Pieces(a, stream)| == |Pieces(b, stream)|
    decreases |stream|
  {
    if stream != [] && !IsBreak(stream[0]) {
      SameCount(a + [stream[0]], b + [stream[0]], stream[1..]);
    }
  }

  /** Read byte by byte, a run of 4098 bytes or more costs at least one record too many. */
  lemma {:induction false} SinglesRecordMore(run: seq<Byte>, stream: seq<Byte>)
    requires |run| <= 4096
    ensures |Recorded(run, Singles(stream))| >= |Pieces(run, stream)|
    ensures !AllAtMost(Pieces(run, stream), 4097) ==>
              |Recorded(run, Singles(stream))| > |Pieces(run, stream)|
    decreases |stream|
  {
    if stream != [] {
      var b, tail := stream[0], stream[1..];
      assert Singles(stream)[1..] == Singles(tail) && [b][1..] == [];
      if IsBreak(b) {
        assert Complete(run, [b]) == Scan(Flush(run) + [], []);
        SinglesRecordMore([], tail);
        TailAtMost(Flush(run), Pieces([], tail));
      } else {
        assert Complete(run, [b]) == Scan([], run + [b]);
        if |run| < MAX_PENDING_BYTES {
          SinglesRecordMore(run + [b], tail);
        } else {
          SinglesRecordMore([], tail);
          RunLengthensFirstPiece(run + [b], tail);
          TailAtMost([run + [b]], Pieces([], tail));
        }
      }
    }
  }

  lemma TailAtMost(head: seq<seq<Byte>>, tail: seq<seq<Byte>>)
    requires AllAtMost(head, MAX_PENDING_BYTES + 1)
    ensures AllAtMost(tail, MAX_PENDING_BYTES + 1) ==> AllAtMost(head + tail, MAX_PENDING_BYTES + 1)
  {
  }

  // ---------------------------------------------------------------- the theorem

  predicate ReadSizes(chunks: seq<seq<Byte>>) {
    forall i :: 0 <= i < |chunks| ==> 1 <= |chunks[i]| <= 1024
  }

  /** The recorded lines do not depend on how the stream was cut into reads exactly when no run
      is longer than 4097 bytes, and then they are the pieces of the stream. */
  lemma ChunkIndependentIff(stream: seq<Byte>)
    ensures (forall chunks :: ReadSizes(chunks) && Flatten(chunks) == stream ==>
              Recorded([], chunks) == Pieces([], stream))
            <==> AllAtMost(Pieces([], stream), 4097)
  {
    if AllAtMost(Pieces([], stream), 4097) {
      forall chunks | ReadSizes(chunks) && Flatten(chunks) == stream
        ensures Recorded([], chunks) == Pieces([], stream)
      {
        RecordedArePieces([], chunks);
      }
    } else {
      var chunks := Singles(stream);
      FlattenSingles(stream);
      SinglesRecordMore([], stream);
      assert ReadSizes(chunks) && Flatten(chunks) == stream && Recorded([], chunks) != Pieces([], stream);
    }
  }

  /** `parts`, each with breaks behind it. */
  function Joined(parts: seq<seq<Byte>>, breaks: seq<seq<Byte>>): seq<Byte>
    requires |parts| == |breaks|
  {
    if parts == [] then [] else parts[0] + breaks[0] + Joined(parts[1..], breaks[1..])
  }

  predicate AllBreaks(bytes: seq<Byte>) {
    forall i :: 0 <= i < |bytes| ==> bytes[i] == 10 || bytes[i] == 13
  }

  lemma {:induction false} PiecesOfRun(run: seq<Byte>, part: seq<Byte>, tail: seq<Byte>)
    requires Unbroken(part)
    ensures Pieces(run, part + tail) == Pieces(run + part, tail)
    decreases |part|
  {
    if part == [] {
      assert part + tail == tail && run + part == run;
    } else {
      assert (part + tail)[1..] == part[1..] + tail;
      PiecesOfRun(run + [part[0]], part[1..], tail);
      assert run + [part[0]] + part[1..] == run + part;
    }
  }

  lemma {:induction false} PiecesOfBreaks(run: seq<Byte>, breaks: seq<Byte>, tail: seq<Byte>)
    requires AllBreaks(breaks) && breaks != []
    ensures Pieces(run, breaks + tail) == Flush(run) + Pieces([], tail)
    decreases |breaks|
  {
    assert (breaks + tail)[1..] == breaks[1..] + tail;
    if |breaks| > 1 {
      PiecesOfBreaks([], breaks[1..], tail);
    } else {
      assert breaks[1..] + tail == tail;
    }
  }

  /** What a piece is, independently of the scan: any lines, written with any non-empty mixture of
      CRs and LFs behind each, are exactly the pieces of the resulting stream. */
  lemma {:induction false} PiecesUndoJoined(parts: seq<seq<Byte>>, breaks: seq<seq<Byte>>)
    requires |parts| == |breaks|
    requires forall i :: 0 <= i < |parts| ==> parts[i] != [] && Unbroken(parts[i])
    requires forall i :: 0 <= i < |breaks| ==> breaks[i] != [] && AllBreaks(breaks[i])
    ensures Pieces([], Joined(parts, breaks)) == parts
  {
    if parts != [] {
      var tail := Joined(parts[1..], breaks[1..]);
      assert Joined(parts, breaks) == parts[0] + (breaks[0] + tail);
      PiecesOfRun([], parts[0], breaks[0] + tail);
      assert [] + parts[0] == parts[0];
      PiecesOfBreaks(parts[0], breaks[0], tail);
      PiecesUndoJoined(parts[1..], breaks[1..]);
    }
  }
}
