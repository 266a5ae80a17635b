/** Newline-delimited frames read from a stream that arrives in pieces. A frame over the limit is
reported as such and skipped to its end. */
module Frames {
  import opened Ordering
  import opened Pieces
  import opened Rules

  const NEWLINE: byte := 10
  const RETURN: byte := 13

  datatype Frame = Data(bytes: seq<byte>) | TooLarge

  ghost predicate NoNewline(s: seq<byte>) {
    Lacks(s, NEWLINE)
  }

  /** The frame a piece becomes. One return before the newline belongs to the delimiter. */
  function FrameOf(seg: seq<byte>, terminated: bool, limit: nat): Frame {
    if |seg| > limit then TooLarge
    else if terminated && seg != [] && seg[|seg| - 1] == RETURN then Data(seg[..|seg| - 1])
    else Data(seg)
  }

  /** The frames of a whole stream, from its pieces: every piece but the last was terminated, and an
  empty last piece is no frame. */
  function FramesOf(segments: seq<seq<byte>>, limit: nat): seq<Frame>
    requires segments != []
  {
    if |segments| == 1 then (if segments[0] == [] then [] else [FrameOf(segments[0], false, limit)])
    else [FrameOf(segments[0], true, limit)] + FramesOf(segments[1..], limit)
  }

  /** Position of the first newline, or the length. */
  function Newline(s: seq<byte>): (n: nat)
    ensures n <= |s| && NoNewline(s[..n]) && (n < |s| ==> s[n] == NEWLINE)
  {
    if s == [] || s[0] == NEWLINE then 0
    else
      var n := 1 + Newline(s[1..]);
      assert s[..n] == [s[0]] + s[1..][..n - 1];
      n
  }

  /** Reading takes exactly the first frame off the stream's frames. */
  lemma FirstFrame(s: seq<byte>, limit: nat)
    requires s != []
    ensures var n := Newline(s);
            FramesOf(Split(s, NEWLINE), limit) ==
              [FrameOf(s[..n], n < |s|, limit)] + (if n < |s| then FramesOf(Split(s[n + 1..], NEWLINE), limit) else [])
  {
    var n := Newline(s);
    if n < |s| {
      assert s == s[..n] + [NEWLINE] + s[n + 1..];
      SplitFirst(s[..n], NEWLINE, s[n + 1..]);
    } else {
      assert s[..n] == s;
      SplitOne(s, NEWLINE);
    }
  }

  /** A line as a client sends it, ended by a newline with or without a return before it. */
  datatype Line = Line(bytes: seq<byte>, crlf: bool) {
    /** The end can be told from the contents. */
    ghost predicate Clean() {
      NoNewline(bytes) && (!crlf && bytes != [] ==> bytes[|bytes| - 1] != RETURN)
    }

    function Body(): seq<byte> {
      if crlf then bytes + [RETURN] else bytes
    }

    function Wire(): seq<byte> {
      Body() + [NEWLINE]
    }

    /** The return counts against the limit. */
    function Expected(limit: nat): Frame {
      if |bytes| + (if crlf then 1 else 0) > limit then TooLarge else Data(bytes)
    }
  }

  function Wires(lines: seq<Line>): seq<byte> {
    if lines == [] then [] else lines[0].Wire() + Wires(lines[1..])
  }

  function Expected(lines: seq<Line>, limit: nat): seq<Frame> {
    if lines == [] then [] else [lines[0].Expected(limit)] + Expected(lines[1..], limit)
  }

  lemma LineIsFramed(line: Line, limit: nat)
    requires line.Clean()
    ensures NoNewline(line.Body()) && FrameOf(line.Body(), true, limit) == line.Expected(limit)
  {
    if line.crlf {
      assert line.Body()[..|line.bytes|] == line.bytes;
    }
  }

  /** What was sent line by line comes back line by line, without its endings; a line over the limit comes back as
  such, in its place; and what follows the last newline comes back as it is. */
  lemma {:induction false} LinesComeBack(lines: seq<Line>, tail: seq<byte>, limit: nat)
    requires (forall i :: 0 <= i < |lines| ==> lines[i].Clean()) && NoNewline(tail)
    ensures FramesOf(Split(Wires(lines) + tail, NEWLINE), limit) ==
              Expected(lines, limit) + if tail == [] then [] else if |tail| > limit then [TooLarge] else [Data(tail)]
  {
    if lines == [] {
      assert Wires(lines) + tail == tail;
      SplitOne(tail, NEWLINE);
    } else {
      var rest := Wires(lines[1..]) + tail;
      LinesComeBack(lines[1..], tail, limit);
      LineIsFramed(lines[0], limit);
      assert Wires(lines) + tail == lines[0].Body() + [NEWLINE] + rest;
      SplitFirst(lines[0].Body(), NEWLINE, rest);
    }
  }

  /** A buffered reader: `rest` is everything not yet consumed, `buffered` how much of it has arrived. */
  class Reader {
    var rest: seq<byte>
    var buffered: nat

    ghost predicate Valid()
      reads this
    {
      buffered <= |rest|
    }

    constructor (stream: seq<byte>)
      ensures Valid() && rest == stream
    {
      rest := stream;
      buffered := 0;
    }

    /** Waits for bytes if none are buffered; how many arrive is up to the stream. */
    method FillBuf() returns (available: Result<seq<byte>>)
      requires Valid()
      modifies this`buffered
      ensures Valid()
      ensures available.Ok? ==> available.value == rest[..buffered] && (rest != [] ==> buffered > 0)
    {
      if buffered == 0 && rest != [] {
        var broken := *;
        if broken {
          return Err;
        }
        var arrived: nat :| 0 < arrived <= |rest|;
        buffered := arrived;
      }
      return Ok(rest[..buffered]);
    }

    method Consume(n: nat)
      requires Valid() && n <= buffered
      modifies this
      ensures Valid() && rest == old(rest)[n..]
    {
      rest := rest[n..];
      buffered := buffered - n;
    }
  }

  /** Finds a newline among the bytes at hand. */
  method Position(available: seq<byte>) returns (newline: Option<nat>)
    ensures newline.None? ==> NoNewline(available)
    ensures newline.Some? ==>
              newline.value < |available| && available[newline.value] == NEWLINE && NoNewline(available[..newline.value])
  {
    var i := 0;
    while i < |available|
      invariant 0 <= i <= |available| && NoNewline(available[..i])
    {
      if available[i] == NEWLINE {
        return Some(i);
      }
      i := i + 1;
    }
    return None;
  }

  lemma NewlineIsFirst(s: seq<byte>, n: nat)
    requires n <= |s| && NoNewline(s[..n]) && (n < |s| ==> s[n] == NEWLINE)
    ensures Newline(s) == n
  {
    forall i | 0 <= i < n ensures s[i] != NEWLINE {
      assert s[..n][i] == s[i];
    }
    forall i | 0 <= i < Newline(s) ensures s[i] != NEWLINE {
      assert s[..Newline(s)][i] == s[i];
    }
  }

  /** What the reader holds of a piece seen so far: all of it, or only that it is too large. */
  ghost predicate Holds(data: seq<byte>, tooLarge: bool, seen: seq<byte>, limit: nat) {
    tooLarge == (|seen| > limit) && data == if tooLarge then [] else seen
  }

  method Absorb(data: seq<byte>, tooLarge: bool, payload: seq<byte>, limit: nat, ghost seen: seq<byte>)
    returns (data': seq<byte>, tooLarge': bool)
    requires Holds(data, tooLarge, seen, limit)
    ensures Holds(data', tooLarge', seen + payload, limit)
  {
    if tooLarge {
      return data, true;
    }
    if |data| + |payload| <= limit {
      return data + payload, false;
    }
    return [], true;
  }

  method Deliver(data: seq<byte>, tooLarge: bool, limit: nat, ghost seen: seq<byte>) returns (frame: Frame)
    requires Holds(data, tooLarge, seen, limit)
    ensures frame == FrameOf(seen, true, limit)
  {
    if tooLarge {
      return TooLarge;
    }
    if data != [] && data[|data| - 1] == RETURN {
      return Data(data[..|data| - 1]);
    }
    return Data(data);
  }

  lemma SeenSoFar(start: seq<byte>, k: nat, available: seq<byte>, payload: nat)
    requires k <= |start| && available <= start[k..] && payload <= |available|
    requires NoNewline(start[..k]) && NoNewline(available[..payload])
    ensures start[..k + payload] == start[..k] + available[..payload] && NoNewline(start[..k + payload])
    ensures payload < |available| ==> start[k + payload] == available[payload]
  {
    forall i | 0 <= i < k + payload ensures start[i] == (start[..k] + available[..payload])[i] {
      if i >= k {
        assert start[i] == start[k..][i - k];
      }
    }
  }

  /** What one read must return and leave. */
  ghost predicate ReadsFirst(before: seq<byte>, after: seq<byte>, r: Option<Frame>, limit: nat) {
    if before == [] then r == None && after == []
    else
      var n := Newline(before);
      r == Some(FrameOf(before[..n], n < |before|, limit)) && after == if n < |before| then before[n + 1..] else []
  }

  lemma FoundNewline(before: seq<byte>, n: nat, frame: Frame, limit: nat)
    requires n < |before| && NoNewline(before[..n]) && before[n] == NEWLINE && frame == FrameOf(before[..n], true, limit)
    ensures ReadsFirst(before, before[n + 1..], Some(frame), limit)
  {
    NewlineIsFirst(before, n);
  }

  lemma FoundEnd(before: seq<byte>, data: seq<byte>, tooLarge: bool, limit: nat)
    requires NoNewline(before) && Holds(data, tooLarge, before, limit)
    ensures ReadsFirst(before, [], if data == [] && !tooLarge then None else if tooLarge then Some(TooLarge) else Some(Data(data)), limit)
  {
    assert before[..|before|] == before;
    NewlineIsFirst(before, |before|);
  }

  /** In the middle of a piece: `k` bytes of `start` seen, without a newline, and the rest still to come. */
  ghost predicate Within(start: seq<byte>, k: nat, rest: seq<byte>, data: seq<byte>, tooLarge: bool, limit: nat) {
    k <= |start| && rest == start[k..] && NoNewline(start[..k]) && Holds(data, tooLarge, start[..k], limit)
  }

  /** Takes in what is at hand up to a newline, and consumes it with the newline. */
  method TakeIn(reader: Reader, available: seq<byte>, data: seq<byte>, tooLarge: bool, limit: nat, ghost start: seq<byte>, ghost k: nat)
    returns (data': seq<byte>, tooLarge': bool, ended: bool, ghost k': nat)
    requires reader.Valid() && Within(start, k, reader.rest, data, tooLarge, limit)
    requires available != [] && available <= reader.rest && |available| <= reader.buffered
    modifies reader
    ensures reader.Valid() && k <= k' <= |start| && NoNewline(start[..k']) && Holds(data', tooLarge', start[..k'], limit)
    ensures !ended ==> k < k' && reader.rest == start[k'..]
    ensures ended ==> k' < |start| && start[k'] == NEWLINE && reader.rest == start[k' + 1..]
  {
    var newline := Position(available);
    var consumed := if newline.Some? then newline.value + 1 else |available|;
    var payload := if newline.Some? then newline.value else |available|;
    SeenSoFar(start, k, available, payload);
    data', tooLarge' := Absorb(data, tooLarge, available[..payload], limit, start[..k]);
    reader.Consume(consumed);
    assert start[k..][consumed..] == start[k + consumed..];
    ended := newline.Some?;
    k' := k + payload;
  }

  /** Reads one frame, however the stream is cut into arrivals: the first frame of what was left, and
  the rest stays. Nothing is returned only at the end of the stream. */
  method ReadBoundedFrame(reader: Reader, limit: nat) returns (r: Result<Option<Frame>>)
    requires reader.Valid()
    modifies reader
    ensures reader.Valid()
    ensures r.Ok? ==> ReadsFirst(old(reader.rest), reader.rest, r.value, limit)
  {
    ghost var start, k := reader.rest, 0;
    var data: seq<byte>, tooLarge := [], false;
    while true
      invariant reader.Valid() && Within(start, k, reader.rest, data, tooLarge, limit)
      decreases |start| - k
    {
      var filled := reader.FillBuf();
      if filled.Err? {
        return Err;
      }
      if filled.value == [] {
        assert start[..k] == start;
        FoundEnd(start, data, tooLarge, limit);
        return Ok(if data == [] && !tooLarge then None else if tooLarge then Some(TooLarge) else Some(Data(data)));
      }
      var ended: bool;
      data, tooLarge, ended, k := TakeIn(reader, filled.value, data, tooLarge, limit, start, k);
      if ended {
        var frame := Deliver(data, tooLarge, limit, start[..k]);
        FoundNewline(start, k, frame, limit);
        return Ok(Some(frame));
      }
    }
  }

  /** The serving loop's view: repeated reads deliver the frames of the whole stream, in order and
  independent of how it arrived, or a prefix of them if the stream breaks. */
  method ReadAll(reader: Reader, limit: nat) returns (frames: seq<Frame>, broken: bool)
    requires reader.Valid()
    modifies reader
    ensures frames <= FramesOf(Split(old(reader.rest), NEWLINE), limit)
    ensures !broken ==> frames == FramesOf(Split(old(reader.rest), NEWLINE), limit) && reader.rest == []
  {
    ghost var all := FramesOf(Split(reader.rest, NEWLINE), limit);
    frames := [];
    while true
      invariant reader.Valid() && all == frames + FramesOf(Split(reader.rest, NEWLINE), limit)
      decreases |reader.rest|
    {
      if reader.rest != [] {
        FirstFrame(reader.rest, limit);
      }
      var r := ReadBoundedFrame(reader, limit);
      if r.Err? {
        return frames, true;
      }
      if r.value.None? {
        return frames, false;
      }
      frames := frames + [r.value.value];
    }
  }
}
