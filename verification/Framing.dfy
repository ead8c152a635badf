/** Newline-framed messages over reads and writes of any size. */
module Framing {
  import opened Blocks
  import opened Json
  import opened Wrappers

  const LF: Byte := 10
  const CR: Byte := 13
  const READ_SIZE: nat := 4096

  /** Where the first line feed is, or the length when there is none. */
  function FirstLf(data: Bytes): (i: nat)
    ensures i <= |data| && (i < |data| ==> data[i] == LF)
    ensures forall k :: 0 <= k < i ==> data[k] != LF
  {
    if data == [] || data[0] == LF then 0 else 1 + FirstLf(data[1..])
  }

  lemma {:induction false} FirstLfIs(data: Bytes, i: nat)
    requires i <= |data| && (i < |data| ==> data[i] == LF) && forall k :: 0 <= k < i ==> data[k] != LF
    ensures FirstLf(data) == i
    decreases |data|
  {
    if data != [] && data[0] != LF { FirstLfIs(data[1..], i - 1); }
  }

  function Strip(line: Bytes): Bytes {
    if line != [] && line[|line| - 1] == CR then line[..|line| - 1] else line
  }

  // --- reading one frame --------------------------------------------------------------

  datatype Frame = Line(text: Bytes) | EmptyFrame | TooLong | CutOff | Closed

  /** What a read leaves behind: bytes not used yet, and reads not made yet. */
  datatype Reading = Reading(frame: Frame, buffer: Bytes, chunks: seq<Bytes>)

  /** A read of nothing is the end of the stream. */
  function ReadFrame(limit: nat, buffer: Bytes, chunks: seq<Bytes>): (r: Reading)
    ensures r.frame.Line? || r.frame.EmptyFrame? ==> |r.buffer| + Total(r.chunks) < |buffer| + Total(chunks)
    decreases |chunks|
  {
    var i := FirstLf(buffer);
    if i < |buffer| then
      var text := Strip(buffer[..i]);
      Reading(if text == [] then EmptyFrame else Line(text), buffer[i + 1..], chunks)
    else if |buffer| > limit then Reading(TooLong, buffer, chunks)
    else if chunks == [] || chunks[0] == [] then Reading(if buffer == [] then Closed else CutOff, buffer, chunks)
    else ReadFrame(limit, buffer + chunks[0], chunks[1..])
  }

  /** What becomes of a frame: its text is dispatched, or the connection fails. */
  datatype Verdict = Dispatched(text: Bytes) | Malformed | Truncated | Eof

  function Judge(limit: nat, frame: Frame): Verdict {
    match frame
    case Line(text) => if |text| > limit then Malformed else Dispatched(text)
    case EmptyFrame => Malformed
    case TooLong => Malformed
    case CutOff => Truncated
    case Closed => Eof
  }

  /** Every read of a live stream brings at least one byte. */
  predicate Live(chunks: seq<Bytes>) {
    forall r :: r in chunks ==> r != []
  }

  // --- what the bytes alone decide ------------------------------------------------------

  /** The verdict on the first line of the data, however it is cut. */
  function Expected(limit: nat, data: Bytes): Verdict {
    var i := FirstLf(data);
    if i > limit then Malformed
    else if i < |data| then (if Strip(data[..i]) == [] then Malformed else Dispatched(Strip(data[..i])))
    else if data == [] then Eof
    else Truncated
  }

  /** A complete line of one byte more than the limit whose last byte is a carriage return. */
  predicate Edge(limit: nat, data: Bytes) {
    var i := FirstLf(data);
    i < |data| && i == limit + 1 && data[i - 1] == CR
  }

  lemma LfInFront(front: Bytes, rest: Bytes)
    requires FirstLf(front) < |front|
    ensures FirstLf(front + rest) == FirstLf(front)
  {
    FirstLfIs(front + rest, FirstLf(front));
  }

  lemma NoLfInFront(front: Bytes, rest: Bytes)
    requires FirstLf(front) == |front|
    ensures FirstLf(front + rest) == |front| + FirstLf(rest)
  {
    FirstLfIs(front + rest, |front| + FirstLf(rest));
  }

  lemma CutInFront(front: Bytes, rest: Bytes, i: nat)
    requires i < |front|
    ensures (front + rest)[..i] == front[..i] && (front + rest)[i + 1..] == front[i + 1..] + rest
  {
  }

  /** A line feed already in the buffer ends the frame, whatever is still to come. */
  lemma LineAtHand(buffer: Bytes, rest: Bytes)
    requires FirstLf(buffer) < |buffer|
    ensures var data, i := buffer + rest, FirstLf(buffer);
            FirstLf(data) == i && data[..i] == buffer[..i] && data[i + 1..] == buffer[i + 1..] + rest
  {
    hide FirstLf;
    LfInFront(buffer, rest);
    CutInFront(buffer, rest, FirstLf(buffer));
  }

  lemma NextRead(buffer: Bytes, chunks: seq<Bytes>)
    requires chunks != [] && Live(chunks)
    ensures Live(chunks[1..]) && chunks[0] != [] && buffer + Joined(chunks) == (buffer + chunks[0]) + Joined(chunks[1..])
  {
    assert chunks[0] in chunks;
    assert forall r :: r in chunks[1..] ==> r in chunks;
  }

  lemma FirstLineAtHand(limit: nat, buffer: Bytes, chunks: seq<Bytes>)
    requires FirstLf(buffer) < |buffer| && !Edge(limit, buffer + Joined(chunks))
    ensures var data, r := buffer + Joined(chunks), ReadFrame(limit, buffer, chunks);
            && Judge(limit, r.frame) == Expected(limit, data)
            && (Expected(limit, data).Dispatched? ==> r.buffer + Joined(r.chunks) == data[FirstLf(data) + 1..] && r.chunks == chunks)
  {
    hide FirstLf;
    hide Joined;
    LineAtHand(buffer, Joined(chunks));
  }

  /** Off the edge, the verdict depends on the bytes and not on how they are cut into reads;
      and after a dispatched line exactly the bytes behind it are left. */
  lemma {:induction false} FramingIgnoresCuts(limit: nat, buffer: Bytes, chunks: seq<Bytes>)
    requires Live(chunks) && !Edge(limit, buffer + Joined(chunks))
    ensures var data, r := buffer + Joined(chunks), ReadFrame(limit, buffer, chunks);
            && Judge(limit, r.frame) == Expected(limit, data)
            && (Expected(limit, data).Dispatched? ==> r.buffer + Joined(r.chunks) == data[FirstLf(data) + 1..] && Live(r.chunks))
    decreases |chunks|
  {
    hide FirstLf;
    hide Joined;
    hide Live;
    if FirstLf(buffer) < |buffer| {
      FirstLineAtHand(limit, buffer, chunks);
    } else {
      NoLfInFront(buffer, Joined(chunks));
      hide Edge;
      if |buffer| <= limit {
        if chunks == [] {
          NothingToCome(buffer);
        } else {
          NextRead(buffer, chunks);
          hide Expected;
          FramingIgnoresCuts(limit, buffer + chunks[0], chunks[1..]);
        }
      }
    }
  }

  lemma NothingToCome(buffer: Bytes)
    ensures buffer + Joined([]) == buffer
  {
  }

  /** However the bytes are cut and however long the line is: only a complete line is ever
      dispatched, without its line end, and never more than the limit. */
  lemma {:induction false} OnlyWholeLines(limit: nat, buffer: Bytes, chunks: seq<Bytes>)
    requires Live(chunks)
    ensures var data, v := buffer + Joined(chunks), Judge(limit, ReadFrame(limit, buffer, chunks).frame);
            v.Dispatched? ==>
              var i := FirstLf(data);
              i < |data| && v.text == Strip(data[..i]) && 0 < |v.text| <= limit
    decreases |chunks|
  {
    hide FirstLf;
    hide Joined;
    hide Live;
    if FirstLf(buffer) < |buffer| {
      LineAtHand(buffer, Joined(chunks));
    } else if |buffer| <= limit && chunks != [] {
      NextRead(buffer, chunks);
      OnlyWholeLines(limit, buffer + chunks[0], chunks[1..]);
    }
  }

  // --- on the edge the cut does matter ----------------------------------------------------

  function Bytewise(data: Bytes): seq<Bytes> {
    if data == [] then [] else [[data[0]]] + Bytewise(data[1..])
  }

  lemma {:induction false} ReadsBytewise(limit: nat, buffer: Bytes, data: Bytes, more: seq<Bytes>)
    requires LF !in buffer && LF !in data && |buffer| + |data| <= limit + 1
    ensures ReadFrame(limit, buffer, Bytewise(data) + more) == ReadFrame(limit, buffer + data, more)
    decreases |data|
  {
    if data == [] {
      assert Bytewise(data) + more == more && buffer + data == buffer;
    } else {
      var chunks := Bytewise(data) + more;
      assert chunks[0] == [data[0]] && chunks[1..] == Bytewise(data[1..]) + more;
      FirstLfIs(buffer, |buffer|);
      assert buffer + data == (buffer + [data[0]]) + data[1..];
      ReadsBytewise(limit, buffer + [data[0]], data[1..], more);
    }
  }

  lemma JoinedFirst(first: Bytes, more: seq<Bytes>)
    ensures Joined([first] + more) == first + Joined(more)
  {
    assert ([first] + more)[1..] == more;
  }

  lemma Regroup<T>(first: T, a: seq<T>, b: seq<T>)
    ensures ([first] + a) + b == [first] + (a + b)
  {
  }

  lemma {:induction false} JoinedBytewise(data: Bytes, more: seq<Bytes>)
    ensures Joined(Bytewise(data) + more) == data + Joined(more)
    decreases |data|
  {
    if data == [] {
      assert Bytewise(data) + more == more;
    } else {
      hide Joined;
      JoinedBytewise(data[1..], more);
      Regroup([data[0]], Bytewise(data[1..]), more);
      hide Bytewise;
      JoinedFirst([data[0]], Bytewise(data[1..]) + more);
      Regroup(data[0], data[1..], Joined(more));
      assert [data[0]] + data[1..] == data;
    }
  }

  lemma {:induction false} BytewiseLive(data: Bytes)
    ensures Live(Bytewise(data))
    decreases |data|
  {
    if data != [] { BytewiseLive(data[1..]); }
  }

  lemma TogetherAccepted(limit: nat, line: Bytes, more: seq<Bytes>)
    requires |line| == limit > 0 && LF !in line
    ensures Judge(limit, ReadFrame(limit, line, [[CR, LF]] + more).frame) == Dispatched(line)
  {
    var buffer, chunks := line + [CR, LF], [[CR, LF]] + more;
    FirstLfIs(line, limit);
    FirstLfIs(buffer, limit + 1);
    assert buffer[..limit + 1] == line + [CR] && Strip(line + [CR]) == line;
    assert chunks[1..] == more;
    assert ReadFrame(limit, line, chunks) == ReadFrame(limit, buffer, more);
  }

  lemma ApartRefused(limit: nat, line: Bytes, more: seq<Bytes>)
    requires |line| == limit > 0 && LF !in line
    ensures Judge(limit, ReadFrame(limit, line, [[CR]] + more).frame) == Malformed
  {
    FirstLfIs(line, limit);
    FirstLfIs(line + [CR], limit + 1);
    var chunks := [[CR]] + more;
    assert chunks[1..] == more;
    assert ReadFrame(limit, line, chunks) == ReadFrame(limit, line + [CR], more);
  }

  /** A way to cut the data into reads. */
  predicate Cuts(chunks: seq<Bytes>, data: Bytes) {
    Live(chunks) && Joined(chunks) == data
  }

  function VerdictOf(limit: nat, chunks: seq<Bytes>): Verdict {
    Judge(limit, ReadFrame(limit, [], chunks).frame)
  }

  lemma EdgeShape(limit: nat, data: Bytes)
    requires limit > 0 && Edge(limit, data)
    ensures |data| >= limit + 2 && LF !in data[..limit]
  {
  }

  lemma CutsLive(line: Bytes, rest: Bytes)
    ensures Live(Bytewise(line) + ([[CR, LF]] + Bytewise(rest)))
    ensures Live(Bytewise(line) + ([[CR]] + ([[LF]] + Bytewise(rest))))
  {
    BytewiseLive(line);
    BytewiseLive(rest);
    hide Bytewise;
  }

  /** On the edge, the line is accepted or refused depending on whether its two last bytes
      come in one read or in two. */
  lemma EdgeDependsOnCut(limit: nat, data: Bytes) returns (together: seq<Bytes>, apart: seq<Bytes>)
    requires limit > 0 && Edge(limit, data)
    ensures Cuts(together, data) && Cuts(apart, data)
    ensures VerdictOf(limit, together) == Dispatched(data[..limit]) && VerdictOf(limit, apart) == Malformed
  {
    var line, rest := data[..limit], data[limit + 2..];
    var more := Bytewise(rest);
    together, apart := Bytewise(line) + ([[CR, LF]] + more), Bytewise(line) + ([[CR]] + ([[LF]] + more));
    EdgeShape(limit, data);
    SameBytes(data, limit, line, rest, together, apart);
    CutsLive(line, rest);
    hide Live;
    hide Edge;
    hide FirstLf;
    hide ReadFrame;
    hide Bytewise;
    hide Joined;
    assert [] + line == line;
    ReadsBytewise(limit, [], line, [[CR, LF]] + more);
    ReadsBytewise(limit, [], line, [[CR]] + ([[LF]] + more));
    TogetherAccepted(limit, line, more);
    ApartRefused(limit, line, [[LF]] + more);
  }

  lemma SameBytes(data: Bytes, limit: nat, line: Bytes, rest: Bytes, together: seq<Bytes>, apart: seq<Bytes>)
    requires Edge(limit, data) && line == data[..limit] && rest == data[limit + 2..]
    requires together == Bytewise(line) + ([[CR, LF]] + Bytewise(rest))
    requires apart == Bytewise(line) + ([[CR]] + ([[LF]] + Bytewise(rest)))
    ensures Joined(together) == data && Joined(apart) == data
  {
    hide Bytewise;
    hide Joined;
    var more := Bytewise(rest);
    JoinedBytewise(rest, []);
    assert more + [] == more && Joined(more) == rest by { JoinedNothing(rest); }
    JoinedFirst([CR, LF], more);
    JoinedFirst([LF], more);
    JoinedFirst([CR], [[LF]] + more);
    JoinedBytewise(line, [[CR, LF]] + more);
    JoinedBytewise(line, [[CR]] + ([[LF]] + more));
    assert data == line + ([CR, LF] + rest);
    assert [CR] + ([LF] + rest) == [CR, LF] + rest;
  }

  lemma JoinedNothing(data: Bytes)
    ensures data + Joined([]) == data
  {
  }

  /** The verdict on a line is independent of the cut precisely off the edge. */
  lemma CutsAgreeOffTheEdge(limit: nat, data: Bytes)
    requires limit > 0
    ensures !Edge(limit, data) <==>
              forall a, b :: Cuts(a, data) && Cuts(b, data) ==> VerdictOf(limit, a) == VerdictOf(limit, b)
  {
    hide ReadFrame;
    hide Joined;
    if Edge(limit, data) {
      var together, apart := EdgeDependsOnCut(limit, data);
      assert VerdictOf(limit, together) != VerdictOf(limit, apart);
    } else {
      forall a | Cuts(a, data) ensures VerdictOf(limit, a) == Expected(limit, data) {
        assert [] + Joined(a) == data;
        FramingIgnoresCuts(limit, [], a);
      }
    }
  }

  // --- whole streams -----------------------------------------------------------------------

  /** All texts a connection dispatches, and how it ends. */
  datatype Transcript = Transcript(texts: seq<Bytes>, end: Verdict)

  function ReadAll(limit: nat, buffer: Bytes, chunks: seq<Bytes>): Transcript
    decreases |buffer| + Total(chunks)
  {
    var r := ReadFrame(limit, buffer, chunks);
    var v := Judge(limit, r.frame);
    if v.Dispatched? then
      var rest := ReadAll(limit, r.buffer, r.chunks);
      Transcript([v.text] + rest.texts, rest.end)
    else Transcript([], v)
  }

  function ExpectedAll(limit: nat, data: Bytes): Transcript
    decreases |data|
  {
    var v := Expected(limit, data);
    if v.Dispatched? then
      var rest := ExpectedAll(limit, data[FirstLf(data) + 1..]);
      Transcript([v.text] + rest.texts, rest.end)
    else Transcript([], v)
  }

  /** Every line the connection gets to, carriage return included, is off the edge. */
  predicate NoEdges(limit: nat, data: Bytes)
    decreases |data|
  {
    !Edge(limit, data) && (Expected(limit, data).Dispatched? ==> NoEdges(limit, data[FirstLf(data) + 1..]))
  }

  lemma {:induction false} StreamIgnoresCuts(limit: nat, buffer: Bytes, chunks: seq<Bytes>)
    requires Live(chunks) && NoEdges(limit, buffer + Joined(chunks))
    ensures ReadAll(limit, buffer, chunks) == ExpectedAll(limit, buffer + Joined(chunks))
    decreases |buffer| + Total(chunks)
  {
    hide ReadFrame;
    hide Expected;
    hide Edge;
    hide FirstLf;
    hide Joined;
    hide Live;
    FramingIgnoresCuts(limit, buffer, chunks);
    var r := ReadFrame(limit, buffer, chunks);
    if Judge(limit, r.frame).Dispatched? { StreamIgnoresCuts(limit, r.buffer, r.chunks); }
  }

  lemma DispatchedEnds(limit: nat, data: Bytes)
    requires Expected(limit, data).Dispatched?
    ensures FirstLf(data) < |data| && data != []
  {
    hide FirstLf;
  }

  lemma OneLine(limit: nat, front: Bytes, rest: seq<Bytes>)
    requires front != [] && FirstLf(front) == |front| - 1
    ensures var text := Strip(front[..|front| - 1]);
            ReadFrame(limit, [], [front] + rest) == Reading(if text == [] then EmptyFrame else Line(text), [], rest)
  {
    hide FirstLf;
    var chunks := [front] + rest;
    assert chunks[0] == front && chunks[1..] == rest && [] + front == front && front[|front|..] == [];
    assert FirstLf([]) == 0;
    assert ReadFrame(limit, [], chunks) == ReadFrame(limit, front, rest);
  }

  lemma LiveFirst(first: Bytes, more: seq<Bytes>)
    requires first != [] && Live(more)
    ensures Live([first] + more)
  {
  }

  lemma ReadsOn(limit: nat, text: Bytes, chunks: seq<Bytes>, rest: seq<Bytes>)
    requires ReadFrame(limit, [], chunks) == Reading(Line(text), [], rest) && |text| <= limit
    ensures var after := ReadAll(limit, [], rest);
            ReadAll(limit, [], chunks) == Transcript([text] + after.texts, after.end)
  {
    hide ReadFrame;
  }

  lemma FirstLineCut(limit: nat, data: Bytes, rest: seq<Bytes>)
    requires FirstLf(data) < |data| && Cuts(rest, data[FirstLf(data) + 1..])
    ensures Cuts([data[..FirstLf(data) + 1]] + rest, data)
  {
    var front := data[..FirstLf(data) + 1];
    hide FirstLf;
    hide Joined;
    hide Live;
    assert data == front + data[FirstLf(data) + 1..];
    JoinedFirst(front, rest);
    LiveFirst(front, rest);
  }

  /** A line read on its own leaves the rest of the stream as it was cut. */
  lemma FirstLineAlone(limit: nat, data: Bytes, rest: seq<Bytes>)
    requires Expected(limit, data).Dispatched? && FirstLf(data) < |data|
    ensures var after := ReadAll(limit, [], rest);
            ReadAll(limit, [], [data[..FirstLf(data) + 1]] + rest)
            == Transcript([Expected(limit, data).text] + after.texts, after.end)
  {
    hide ReadFrame;
    hide ReadAll;
    var i := FirstLf(data);
    var front := data[..i + 1];
    FirstLfIs(front, i);
    hide FirstLf;
    assert front[..i] == data[..i];
    OneLine(limit, front, rest);
    ReadsOn(limit, Expected(limit, data).text, [front] + rest, rest);
  }

  /** Once an edge line is reached, two cuts of the same bytes are read differently. */
  lemma {:induction false} EdgeReached(limit: nat, data: Bytes) returns (a: seq<Bytes>, b: seq<Bytes>)
    requires limit > 0 && !NoEdges(limit, data)
    ensures Cuts(a, data) && Cuts(b, data) && ReadAll(limit, [], a) != ReadAll(limit, [], b)
    decreases |data|
  {
    hide Edge;
    hide Expected;
    hide FirstLf;
    hide ReadFrame;
    hide Cuts;
    if Edge(limit, data) {
      a, b := EdgeDependsOnCut(limit, data);
    } else {
      DispatchedEnds(limit, data);
      var front := data[..FirstLf(data) + 1];
      var a', b' := EdgeReached(limit, data[FirstLf(data) + 1..]);
      FirstLineCut(limit, data, a');
      FirstLineCut(limit, data, b');
      FirstLineAlone(limit, data, a');
      FirstLineAlone(limit, data, b');
      a, b := [front] + a', [front] + b';
      var x, y := ReadAll(limit, [], a'), ReadAll(limit, [], b');
      var text := [Expected(limit, data).text];
      assert text + x.texts == text + y.texts ==> x.texts == y.texts by {
        assert (text + x.texts)[1..] == x.texts && (text + y.texts)[1..] == y.texts;
      }
    }
  }

  /** What a connection reads in all is independent of the cut precisely when it reaches no edge line. */
  lemma StreamCutsAgreeIff(limit: nat, data: Bytes)
    requires limit > 0
    ensures NoEdges(limit, data) <==>
              forall a, b :: Cuts(a, data) && Cuts(b, data) ==> ReadAll(limit, [], a) == ReadAll(limit, [], b)
  {
    hide ReadAll;
    hide NoEdges;
    hide Joined;
    if NoEdges(limit, data) {
      forall a | Cuts(a, data) ensures ReadAll(limit, [], a) == ExpectedAll(limit, data) {
        assert [] + Joined(a) == data;
        StreamIgnoresCuts(limit, [], a);
      }
    } else {
      var a, b := EdgeReached(limit, data);
    }
  }

  // --- what is sent is read back --------------------------------------------------------------

  /** What an encoded message looks like: one nonempty line within the limit. */
  predicate Sendable(limit: nat, text: Bytes) {
    0 < |text| <= limit && LF !in text && text[|text| - 1] != CR
  }

  function Wire(texts: seq<Bytes>): Bytes {
    if texts == [] then [] else texts[0] + [LF] + Wire(texts[1..])
  }

  lemma FirstOfWire(limit: nat, texts: seq<Bytes>)
    requires texts != [] && Sendable(limit, texts[0])
    ensures var t, data := texts[0], Wire(texts);
            && FirstLf(data) == |t| < |data| && data[|t| + 1..] == Wire(texts[1..])
            && Expected(limit, data) == Dispatched(t) && !Edge(limit, data)
  {
    var t, data := texts[0], Wire(texts);
    FirstLfIs(data, |t|);
    hide FirstLf;
    assert data[..|t|] == t && data[|t| + 1..] == Wire(texts[1..]);
  }

  lemma {:induction false} WireIsExpected(limit: nat, texts: seq<Bytes>)
    requires forall t :: t in texts ==> Sendable(limit, t)
    ensures ExpectedAll(limit, Wire(texts)) == Transcript(texts, Eof) && NoEdges(limit, Wire(texts))
    decreases |texts|
  {
    hide FirstLf;
    if texts != [] {
      assert texts[0] in texts;
      FirstOfWire(limit, texts);
      hide Expected;
      hide Edge;
      hide Wire;
      WireIsExpected(limit, texts[1..]);
    }
  }

  /** Lines that were sent are read back, all of them and in order, however the bytes are cut. */
  lemma SentIsReadBack(limit: nat, texts: seq<Bytes>, chunks: seq<Bytes>)
    requires (forall t :: t in texts ==> Sendable(limit, t)) && Cuts(chunks, Wire(texts))
    ensures ReadAll(limit, [], chunks) == Transcript(texts, Eof)
  {
    WireIsExpected(limit, texts);
    assert [] + Joined(chunks) == Wire(texts);
    StreamIgnoresCuts(limit, [], chunks);
  }

  // --- the stream -----------------------------------------------------------------------------

  datatype WriteResult = Sent | Oversized | WouldBlock

  class FrameStream {
    const limit: nat
    var buffer: Bytes
    var chunks: seq<Bytes>
    var sink: Bytes

    constructor (limit: nat, chunks: seq<Bytes>)
      requires limit >= 2
      ensures this.limit == limit && buffer == [] && this.chunks == chunks && sink == []
    {
      this.limit, buffer, this.chunks, sink := limit, [], chunks, [];
    }

    /** The reader honours the size it is asked for. */
    predicate Honest()
      reads this
    {
      forall r :: r in chunks ==> |r| <= READ_SIZE
    }

    method Read() returns (frame: Frame)
      modifies this`buffer, this`chunks
      ensures Reading(frame, buffer, chunks) == ReadFrame(limit, old(buffer), old(chunks))
      ensures old(Honest()) && |old(buffer)| <= limit + READ_SIZE ==> Honest() && |buffer| <= limit + READ_SIZE
    {
      while true
        invariant ReadFrame(limit, buffer, chunks) == ReadFrame(limit, old(buffer), old(chunks))
        invariant old(Honest()) && |old(buffer)| <= limit + READ_SIZE ==> Honest() && |buffer| <= limit + READ_SIZE
        decreases |chunks|
      {
        var lineEnd := FirstLf(buffer);
        if lineEnd < |buffer| {
          var line := buffer[..lineEnd];
          buffer := buffer[lineEnd + 1..];
          if line != [] && line[|line| - 1] == CR { line := line[..|line| - 1]; }
          return if line == [] then EmptyFrame else Line(line);
        }
        if |buffer| > limit { return TooLong; }
        if chunks == [] || chunks[0] == [] { return if buffer == [] then Closed else CutOff; }
        buffer, chunks := buffer + chunks[0], chunks[1..];
      }
    }

    /** accept tells how many bytes the writer takes at each attempt; none means it would block. */
    method Write(text: Bytes, accept: nat -> int) returns (r: WriteResult)
      modifies this`sink
      ensures r.Oversized? <==> |text| > limit
      ensures r.Sent? ==> sink == old(sink) + text + [LF]
      ensures r.Oversized? ==> sink == old(sink)
      ensures r.WouldBlock? ==> exists k :: 0 <= k <= |text| && sink == old(sink) + (text + [LF])[..k]
      ensures |text| <= limit && (forall i :: accept(i) > 0) ==> r.Sent?
    {
      if |text| > limit { return Oversized; }
      var data := text + [LF];
      var offset, attempt := 0, 0;
      assert sink == old(sink) + data[..0];
      while offset < |data|
        invariant offset <= |data| && sink == old(sink) + data[..offset]
        decreases |data| - offset
      {
        var count := accept(attempt);
        attempt := attempt + 1;
        if count <= 0 { return WouldBlock; }
        if count > |data| - offset { count := |data| - offset; }
        assert data[..offset + count] == data[..offset] + data[offset..][..count];
        sink := sink + data[offset..][..count];
        offset := offset + count;
      }
      assert data[..|data|] == data;
      r := Sent;
    }

    /** Sends every text in turn, each through as many partial writes as it takes. */
    method WriteAll(texts: seq<Bytes>, accept: (nat, nat) -> int)
      requires forall t :: t in texts ==> |t| <= limit
      requires forall m, i :: accept(m, i) > 0
      modifies this`sink
      ensures sink == old(sink) + Wire(texts)
    {
      assert Wire(texts[..0]) == [];
      for m := 0 to |texts|
        invariant sink == old(sink) + Wire(texts[..m])
      {
        assert texts[m] in texts;
        var r := Write(texts[m], (i: nat) => accept(m, i));
        WireAppend(texts[..m], texts[m]);
        assert texts[..m + 1] == texts[..m] + [texts[m]];
      }
      assert texts[..|texts|] == texts;
    }
  }

  lemma {:induction false} WireAppend(texts: seq<Bytes>, t: Bytes)
    ensures Wire(texts + [t]) == Wire(texts) + t + [LF]
    decreases |texts|
  {
    if texts == [] {
      assert texts + [t] == [t] && [t][1..] == [];
      assert Wire([t]) == t + [LF] + Wire([]);
    } else {
      assert (texts + [t])[1..] == texts[1..] + [t];
      WireAppend(texts[1..], t);
      assert texts[0] + [LF] + (Wire(texts[1..]) + t + [LF]) == (texts[0] + [LF] + Wire(texts[1..])) + t + [LF];
    }
  }

  // --- messages -------------------------------------------------------------------------------

  /** What is assumed of the text codec on the messages that are sent: it round-trips, and its output is a
      nonempty line without a line feed (control characters are escaped, section 7 of RFC 8259) that does not
      end in a carriage return. */
  ghost predicate Codec(encode: Json -> Bytes, decode: Bytes -> Option<Json>, messages: seq<Json>) {
    forall j :: j in messages ==>
      encode(j) != [] && LF !in encode(j) && encode(j)[|encode(j)| - 1] != CR && decode(encode(j)) == Some(j)
  }

  function Encoded(encode: Json -> Bytes, messages: seq<Json>): (texts: seq<Bytes>)
    ensures |texts| == |messages| && forall i :: 0 <= i < |messages| ==> texts[i] == encode(messages[i])
  {
    seq(|messages|, i requires 0 <= i < |messages| => encode(messages[i]))
  }

  function PositionOf(messages: seq<Json>, j: Json): (k: nat)
    ensures k <= |messages| && (j in messages ==> k < |messages| && messages[k] == j)
  {
    if messages == [] || messages[0] == j then 0 else 1 + PositionOf(messages[1..], j)
  }

  /** For every list of messages there is such a codec. */
  lemma CodecExists(messages: seq<Json>) returns (encode: Json -> Bytes, decode: Bytes -> Option<Json>)
    ensures Codec(encode, decode, messages)
  {
    encode := j => seq(PositionOf(messages, j) + 1, _ => 65 as Byte);
    decode := b => if 0 < |b| <= |messages| then Some(messages[|b| - 1]) else None;
  }

  /** The transcript is these messages, all of them and in order, and then the end of the stream. */
  ghost predicate Delivers(t: Transcript, decode: Bytes -> Option<Json>, messages: seq<Json>) {
    && t.end == Eof && |t.texts| == |messages|
    && forall i :: 0 <= i < |messages| ==> decode(t.texts[i]) == Some(messages[i])
  }

  /** Messages within the limit arrive complete and in order, however their bytes are cut into reads. */
  lemma MessagesReadBack(limit: nat, encode: Json -> Bytes, decode: Bytes -> Option<Json>, messages: seq<Json>, chunks: seq<Bytes>)
    requires Codec(encode, decode, messages) && (forall m :: m in messages ==> |encode(m)| <= limit)
    requires Cuts(chunks, Wire(Encoded(encode, messages)))
    ensures Delivers(ReadAll(limit, [], chunks), decode, messages)
  {
    var texts := Encoded(encode, messages);
    forall t | t in texts ensures Sendable(limit, t) {
      var i :| 0 <= i < |texts| && texts[i] == t;
      assert messages[i] in messages;
    }
    SentIsReadBack(limit, texts, chunks);
    hide ReadAll;
    hide Wire;
    forall i | 0 <= i < |messages| ensures decode(texts[i]) == Some(messages[i]) {
      assert messages[i] in messages;
    }
  }

  /** From one end to the other: what a fresh stream puts out for the messages, through partial writes of any
      sizes, is read back as these messages under every cut into reads. */
  method SendMessages(stream: FrameStream, encode: Json -> Bytes, ghost decode: Bytes -> Option<Json>, messages: seq<Json>,
                      accept: (nat, nat) -> int)
    requires stream.sink == [] && Codec(encode, decode, messages)
    requires forall m :: m in messages ==> |encode(m)| <= stream.limit
    requires forall m, i :: accept(m, i) > 0
    modifies stream`sink
    ensures stream.sink == Wire(Encoded(encode, messages))
    ensures forall chunks :: Cuts(chunks, stream.sink) ==> Delivers(ReadAll(stream.limit, [], chunks), decode, messages)
  {
    hide Cuts;
    hide Delivers;
    hide Codec;
    hide Wire;
    var texts := Encoded(encode, messages);
    forall t | t in texts ensures |t| <= stream.limit {
      var i :| 0 <= i < |texts| && texts[i] == t;
      assert messages[i] in messages;
    }
    stream.WriteAll(texts, accept);
    assert stream.sink == Wire(texts);
    forall chunks | Cuts(chunks, stream.sink) ensures Delivers(ReadAll(stream.limit, [], chunks), decode, messages) {
      MessagesReadBack(stream.limit, encode, decode, messages, chunks);
    }
  }
}
