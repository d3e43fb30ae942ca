/**
 One socket of a gateway: the non-blocking reader and writer with their partial-message
 state, over byte pipes that read and write as little as they like.
 */
module Socket {
  import opened Common
  import opened Messages
  import opened MessageQueue
  import opened Framing

  /** How far a round of reading has got. */
  datatype Progress = Broken | Blocked | HeaderRead | MessageRead

  /** What read(2) and write(2) may report on a non-blocking socket. */
  datatype IoResult = Moved(count: nat) | WouldBlock | EndOfFile | Failed

  /** One direction of a TCP stream: the bytes written and not yet read. */
  class Pipe {
    var content: seq<byte>
    ghost var answers: seq<IoResult>  // what all reads and writes so far have reported

    constructor ()
      ensures content == [] && answers == []
    {
      content, answers := [], [];
    }

    /** Reads between 1 and len bytes into buf, or none at all; which, is up to the network. */
    method Read(buf: array<byte>, off: nat, len: nat) returns (r: IoResult)
      requires 0 < len && off + len <= buf.Length
      modifies this, buf
      ensures answers == old(answers) + [r]
      ensures r.Moved? ==> 0 < r.count <= len && r.count <= |old(content)|
      ensures var n := if r.Moved? then r.count else 0;
              && old(content) == buf[off..off + n] + content
              && buf[..off] == old(buf[..off])
    {
      var n: int := *;
      if 0 < n <= len && n <= |content| {
        forall i | off <= i < off + n { buf[i] := content[i - off]; }
        content, answers := content[n..], answers + [Moved(n)];
        return Moved(n);
      }
      r := if n == 0 then EndOfFile else if n == -1 then Failed else WouldBlock;
      answers := answers + [r];
    }

    /** Accepts a non-empty prefix of data, or nothing. */
    method Write(data: seq<byte>) returns (r: IoResult)
      requires data != []
      modifies this
      ensures answers == old(answers) + [r]
      ensures !r.EndOfFile? && (r.Moved? ==> 0 < r.count <= |data|)
      ensures content == old(content) + data[..if r.Moved? then r.count else 0]
    {
      var n: int := *;
      if 0 < n <= |data| {
        content, answers := content + data[..n], answers + [Moved(n)];
        return Moved(n);
      }
      r := if n == -1 then Failed else WouldBlock;
      answers := answers + [r];
    }
  }

  /** There has been an answer since, this is the last, and all others since have moved bytes. */
  ghost predicate LastAnswer(before: seq<IoResult>, answers: seq<IoResult>, r: IoResult) {
    && before < answers && answers[|answers| - 1] == r
    && forall i :: |before| <= i < |answers| - 1 ==> answers[i].Moved?
  }

  lemma MoreAnswers(before: seq<IoResult>, answers: seq<IoResult>, r: IoResult, more: seq<IoResult>, next: IoResult)
    requires LastAnswer(before, answers, r) && r.Moved? && LastAnswer(answers, more, next)
    ensures LastAnswer(before, more, next)
  {}

  /** The pending-data counters shared by all sockets of a gateway (64-bit, unsigned). */
  class Pending {
    var messages: int
    var size: int

    constructor ()
      ensures messages == 0 && size == 0
    {
      messages, size := 0, 0;
    }
  }

  ghost function Last(queue: seq<Frame>): Frame { if queue == [] then [] else queue[|queue| - 1] }

  lemma LastAppended(ms: seq<Frame>, m: Frame)
    ensures |ms + [m]| == |ms| + 1 && Last(ms + [m]) == m
  {}

  function Wrap64(x: int): int { x % 0x1_0000_0000_0000_0000 }

  class SocketInfo {
    const kind: SocketType
    const source: Pipe
    const sink: Pipe
    const inQueue: Queue<Frame>
    const outQueue: Queue<Frame>
    const pending: Pending

    var readWrite: bool  // epoll state: STATE_RW or STATE_RO

    var inBuf: array?<byte>
    var inPos: nat
    var inCount: nat
    var inBytes: nat
    var inMessages: nat

    var out: Option<Frame>
    var outPos: nat
    var outCount: nat
    var outBytes: nat
    var outMessages: nat

    constructor (kind: SocketType, source: Pipe, sink: Pipe,
                 inQueue: Queue<Frame>, outQueue: Queue<Frame>, pending: Pending)
      ensures this.source == source && this.sink == sink && this.kind == kind
      ensures this.inQueue == inQueue && this.outQueue == outQueue && this.pending == pending
      ensures ReadValid() && Partial() == [] && WriteValid() && out == None
    {
      this.kind, this.source, this.sink := kind, source, sink;
      this.inQueue, this.outQueue, this.pending := inQueue, outQueue, pending;
      readWrite := false;
      inBuf, inPos, inCount, inBytes, inMessages := null, 0, 0, 0, 0;
      out, outPos, outCount, outBytes, outMessages := None, 0, 0, 0, 0;
    }

    // ---- reading ----

    /** At rest the buffer holds an unfinished header, or an unfinished message of known length. */
    ghost predicate ReadValid()
      reads this, inBuf
    {
      inBuf != null ==>
        && inBuf.Length == inCount && inPos < inCount
        && (inCount == HEADER_SIZE
            || (HEADER_SIZE < inCount && HEADER_SIZE <= inPos
                && FramedLength(kind, inBuf[..HEADER_SIZE]) == inCount))
    }

    ghost function Partial(): Frame
      requires ReadValid()
      reads this, inBuf
    {
      if inBuf == null then [] else inBuf[..inPos]
    }

    /** The reader's state as a parser of the bytes consumed so far. */
    ghost function ReadState(): Parser
      requires ReadValid()
      reads this, inBuf, inQueue, inQueue.spine
    {
      Parser(inQueue.Contents(), Partial())
    }

    ghost predicate ReadReady()
      reads this, inBuf, inQueue, inQueue.spine, source
    {
      ReadValid() && inQueue.Valid() && LengthsCoverHeader(kind, Partial() + source.content)
    }

    /** The inner read loop: fills inBuf from count on, until full or until a read moves nothing. */
    method FillBuffer() returns (count: nat, r: IoResult, ghost chunk: seq<byte>)
      requires inBuf != null && inBuf.Length == inCount && inPos < inCount
      modifies source, inBuf
      ensures inPos <= count <= inCount && (r.Moved? <==> count == inCount)
      ensures old(source.content) == chunk + source.content
      ensures inBuf[..count] == old(inBuf[..inPos]) + chunk
      ensures LastAnswer(old(source.answers), source.answers, r)
    {
      count, chunk, r := inPos, [], Moved(0);
      while count < inCount
        invariant inPos <= count <= inCount
        invariant old(source.content) == chunk + source.content
        invariant inBuf[..count] == old(inBuf[..inPos]) + chunk
        invariant r.Moved?
        invariant if count == inPos then source.answers == old(source.answers)
                  else LastAnswer(old(source.answers), source.answers, r)
      {
        ghost var before := inBuf[..count];
        r := source.Read(inBuf, count, inCount - count);
        if !r.Moved? { return; }
        assert inBuf[..count + r.count] == before + inBuf[count..count + r.count];
        chunk := chunk + inBuf[count..count + r.count];
        count := count + r.count;
      }
    }

    /** Allocates a header-sized buffer if there is none, and fills the buffer as far as it goes. */
    method ReadChunk() returns (count: nat, r: IoResult, ghost chunk: seq<byte>)
      requires ReadValid() && inQueue.Valid()
      modifies this`inBuf, this`inPos, this`inCount, source, inBuf
      ensures inQueue.Valid() && inQueue.Contents() == old(inQueue.Contents())
      ensures inBuf != null && inBuf.Length == inCount && count <= inCount
      ensures inCount == HEADER_SIZE
              || (HEADER_SIZE < inCount && HEADER_SIZE <= count && HEADER_SIZE <= |old(Partial())|
                  && FramedLength(kind, inBuf[..HEADER_SIZE]) == inCount)
      ensures old(inBuf) == null || old(inCount) == HEADER_SIZE ==> inCount == HEADER_SIZE
      ensures r.Moved? <==> count == inCount
      ensures count == inCount ==> chunk != []
      ensures inBuf[..count] == old(Partial()) + chunk
      ensures old(source.content) == chunk + source.content
      ensures inBuf[..count] + source.content == old(Partial() + source.content)
      ensures inBuf == old(inBuf) || fresh(inBuf)
      ensures LastAnswer(old(source.answers), source.answers, r)
    {
      if inBuf == null {
        inBuf := new byte[HEADER_SIZE];
        inPos, inCount := 0, HEADER_SIZE;
      }
      ghost var start := inBuf[..inPos];
      assert start == old(Partial());
      assert inCount > HEADER_SIZE ==> start[..HEADER_SIZE] == inBuf[..HEADER_SIZE];
      count, r, chunk := FillBuffer();
      assert inCount > HEADER_SIZE ==> inBuf[..count][..HEADER_SIZE] == inBuf[..HEADER_SIZE];
      assert start + (chunk + source.content) == start + chunk + source.content;
    }

    /**
     Reads until the socket would block or one message is complete. Its effect is FeedAll
     of the bytes it consumed, whatever sizes the individual reads had. A failed read queues nothing.
     r is what the socket has answered last: the call fails exactly if that is the end of the file
     or a failure, and sets more exactly if it is some bytes.
     */
    method NonblockReadMessage() returns (ok: bool, more: bool, ghost consumed: seq<byte>, ghost r: IoResult)
      requires ReadReady()
      modifies this`inBuf, this`inPos, this`inCount, this`inBytes, this`inMessages
      modifies source, inBuf, inQueue, inQueue.spine
      ensures ok ==> ReadReady() && Fed(kind, old(ReadState()), old(source.content), consumed, more,
                                        ReadState(), source.content)
      ensures !ok ==> !more && Unfed(old(inQueue.Contents()), old(source.content), consumed)
      ensures LastAnswer(old(source.answers), source.answers, r)
      ensures (more <==> r.Moved?) && (ok <==> r.Moved? || r == WouldBlock)
      ensures inMessages == old(inMessages) + (if more then 1 else 0)
      ensures inBytes == old(inBytes) + (if more then |Last(inQueue.Contents())| else 0)
      ensures inBuf == null || inBuf == old(inBuf) || fresh(inBuf)
      decreases inBuf == null || inCount == HEADER_SIZE
    {
      ghost var before, content := ReadState(), source.content;
      var progress;
      progress, consumed, r := ReadPart();
      if progress == HeaderRead {
        ghost var between, left, asked, answer := ReadState(), source.content, source.answers, r;
        ghost var rest;
        ok, more, rest, r := NonblockReadMessage();
        MoreAnswers(old(source.answers), asked, answer, source.answers, r);
        if ok { FedTwice(kind, before, content, consumed, between, left, rest, more, ReadState(), source.content); }
        Regroup(content, consumed, left, rest, source.content);
        consumed := consumed + rest;
      } else {
        ok, more := progress != Broken, progress == MessageRead;
      }
    }

    /** Nothing has been queued since the queue held waiting, whatever has been read. */
    ghost predicate Unfed(waiting: seq<Frame>, content: seq<byte>, consumed: seq<byte>)
      reads this, inQueue, inQueue.spine, source
    {
      inQueue.Valid() && inQueue.Contents() == waiting && content == consumed + source.content
    }

    /** One round of it: a header or a message is read, or part of it. */
    method ReadPart() returns (progress: Progress, ghost consumed: seq<byte>, ghost r: IoResult)
      requires ReadReady()
      modifies this`inBuf, this`inPos, this`inCount, this`inBytes, this`inMessages
      modifies source, inBuf, inQueue, inQueue.spine
      ensures progress != Broken ==>
                ReadReady() && Fed(kind, old(ReadState()), old(source.content), consumed, progress == MessageRead,
                                   ReadState(), source.content)
      ensures progress == Broken ==> Unfed(old(inQueue.Contents()), old(source.content), consumed)
      ensures progress == HeaderRead ==> inQueue.Contents() == old(inQueue.Contents())
      ensures progress == HeaderRead ==> inQueue.spine == old(inQueue.spine)
      ensures progress == HeaderRead ==> (old(inBuf) == null || old(inCount) == HEADER_SIZE)
      ensures progress == HeaderRead ==> fresh(inBuf) && inCount > HEADER_SIZE
      ensures LastAnswer(old(source.answers), source.answers, r)
      ensures progress == Blocked <==> r == WouldBlock
      ensures progress == MessageRead || progress == HeaderRead <==> r.Moved?
      ensures inMessages == old(inMessages) + (if progress == MessageRead then 1 else 0)
      ensures inBytes == old(inBytes) + (if progress == MessageRead then |Last(inQueue.Contents())| else 0)
      ensures inBuf == null || inBuf == old(inBuf) || fresh(inBuf)
    {
      ghost var before := ReadState();
      var count, answer;
      count, answer, consumed := ReadChunk();
      r := answer;
      if count < inCount {
        if answer != WouldBlock { return Broken, consumed, r; }
        SuspendRead(count, before, consumed);
        return Blocked, consumed, r;
      }
      assert inBuf[..] == inBuf[..count];
      if count > HEADER_SIZE || FramedLength(kind, inBuf[..]) == HEADER_SIZE {
        DeliverMessage(before, consumed);
        return MessageRead, consumed, r;
      }
      GrowBuffer(before, consumed);
      return HeaderRead, consumed, r;
    }

    /** The socket is empty: remember how far the message in progress has come. */
    method SuspendRead(count: nat, ghost before: Parser, ghost consumed: seq<byte>)
      requires inBuf != null && inBuf.Length == inCount && count < inCount
      requires inCount == HEADER_SIZE
               || (HEADER_SIZE < inCount && HEADER_SIZE <= count && HEADER_SIZE <= |before.partial|
                   && FramedLength(kind, inBuf[..HEADER_SIZE]) == inCount)
      requires inBuf[..count] == before.partial + consumed
      requires inQueue.Valid() && before.delivered == inQueue.Contents()
      requires LengthsCoverHeader(kind, inBuf[..count] + source.content)
      modifies this`inPos
      ensures ReadReady() && ReadState() == FeedAll(kind, before, consumed)
    {
      BlockedMidMessage(kind, before, consumed, inBuf[..]);
      inPos := count;
    }

    /** The buffer holds a whole message: queue it and start afresh. */
    method DeliverMessage(ghost before: Parser, ghost consumed: seq<byte>)
      requires inBuf != null && inBuf.Length == inCount && WellFramed(kind, inBuf[..])
      requires consumed != [] && inBuf[..] == before.partial + consumed
      requires inQueue.Valid() && before.delivered == inQueue.Contents()
      requires LengthsCoverHeader(kind, inBuf[..] + source.content)
      modifies this`inBuf, this`inPos, this`inCount, this`inBytes, this`inMessages, inQueue, inQueue.spine
      ensures ReadReady() && inBuf == null
      ensures ReadState() == FeedAll(kind, before, consumed)
      ensures |inQueue.Contents()| == |before.delivered| + 1
      ensures inMessages == old(inMessages) + 1 && inBytes == old(inBytes) + |Last(inQueue.Contents())|
    {
      ghost var m := inBuf[..];
      FeedCompletes(kind, before, consumed);
      RestQualifies(kind, m, source.content);
      inQueue.Enqueue(inBuf[..]);
      LastAppended(before.delivered, m);
      inBytes, inMessages := inBytes + inCount, inMessages + 1;
      inBuf, inPos, inCount := null, 0, if inCount > HEADER_SIZE then 0 else HEADER_SIZE;
      assert [] + source.content == source.content;
    }

    /** Only a header has been read so far: make room for the whole message it announces. */
    method GrowBuffer(ghost before: Parser, ghost consumed: seq<byte>)
      requires inBuf != null && inBuf.Length == inCount == HEADER_SIZE
      requires FramedLength(kind, inBuf[..]) != HEADER_SIZE
      requires inBuf[..] == before.partial + consumed
      requires inQueue.Valid() && before.delivered == inQueue.Contents()
      requires LengthsCoverHeader(kind, inBuf[..] + source.content)
      modifies this`inBuf, this`inPos, this`inCount
      ensures ReadReady() && ReadState() == FeedAll(kind, before, consumed)
      ensures fresh(inBuf) && inCount > HEADER_SIZE
    {
      ghost var header, waiting := inBuf[..], inQueue.Contents();
      FeedWithin(kind, before, consumed);
      HeaderCovered(kind, header, source.content);
      Reallocate(FramedLength(kind, inBuf[..]));
      assert Partial() == header;
    }

    /** realloc: a longer buffer that starts with the bytes of the old one. */
    method Reallocate(len: nat)
      requires inBuf != null && inBuf.Length == HEADER_SIZE < len && inQueue.Valid()
      modifies this`inBuf, this`inPos, this`inCount
      ensures fresh(inBuf) && inBuf.Length == inCount == len && inPos == HEADER_SIZE
      ensures inBuf[..HEADER_SIZE] == old(inBuf[..])
      ensures inQueue.Valid() && inQueue.Contents() == old(inQueue.Contents())
    {
      var grown := new byte[len];
      forall i | 0 <= i < HEADER_SIZE { grown[i] := inBuf[i]; }
      assert grown[..HEADER_SIZE] == inBuf[..];
      inBuf, inPos, inCount := grown, HEADER_SIZE, len;
    }

    // ---- writing ----

    ghost predicate WriteValid()
      reads this
    {
      match out
      case None => outPos == 0
      case Some(m) => WellFramed(kind, m) && outCount == |m| && outPos < outCount
    }

    ghost predicate WriteReady()
      reads this, outQueue, outQueue.spine
    {
      WriteValid() && outQueue.Valid() && forall m :: m in outQueue.Contents() ==> WellFramed(kind, m)
    }

    // The message in progress, its position and the rest of the queue, once a message has
    // been taken from the queue if none was in progress.

    ghost function NextOut(): Option<Frame>
      reads this, outQueue, outQueue.spine
    {
      if out.Some? || outQueue.Contents() == [] then out else Some(outQueue.Contents()[0])
    }

    ghost function NextQueue(): seq<Frame>
      reads this, outQueue, outQueue.spine
    {
      if out.Some? || outQueue.Contents() == [] then outQueue.Contents() else outQueue.Contents()[1..]
    }

    /** Makes sure a message is in progress; false when there is none to be found. */
    method PrepareMessage() returns (ready: bool)
      requires WriteReady()
      modifies this`out, this`outPos, this`outCount, outQueue
      ensures WriteReady()
      ensures out == old(NextOut()) && outQueue.Contents() == old(NextQueue()) && outPos == old(outPos)
      ensures ready == out.Some?
      ensures forall n :: n in outQueue.spine ==> n in old(outQueue.spine)
    {
      if out.Some? { return true; }
      var empty := outQueue.IsEmpty();
      if empty { return false; }
      ghost var waiting := outQueue.Contents();
      assert waiting == [waiting[0]] + waiting[1..] && WellFramed(kind, waiting[0]);
      out := outQueue.Dequeue();
      outPos := 0;
      outCount := FramedLength(kind, out.value);
      return true;
    }

    method EnsureStateRo()
      modifies this`readWrite
      ensures !readWrite
    {
      if readWrite { readWrite := false; }
    }

    /**
     Writes until the message in progress is finished (more) or the socket would block. A
     message leaves the socket and the counters exactly when its last byte is written. r is what the
     socket has answered last.
     */
    method NonblockWriteMessage() returns (ok: bool, more: bool, ghost written: seq<byte>, ghost r: IoResult)
      requires WriteReady()
      modifies this`out, this`outPos, this`outCount, this`outBytes, this`outMessages, this`readWrite
      modifies outQueue, sink, pending
      ensures sink.content == old(sink.content) + written
      ensures WriteReady() && outQueue.Contents() == old(NextQueue())
      ensures forall n :: n in outQueue.spine ==> n in old(outQueue.spine)
      ensures old(NextOut()) == None ==> ok && !more && written == [] && out == None && !readWrite
      ensures old(NextOut()) == None ==> sink.answers == old(sink.answers)
      ensures old(NextOut()).Some? ==> LastAnswer(old(sink.answers), sink.answers, r) && readWrite == old(readWrite)
      ensures old(NextOut()).Some? ==> (more <==> r.Moved?) && (ok <==> !r.Failed?)
      ensures outMessages == old(outMessages) + (if more then 1 else 0)
      ensures outBytes == old(outBytes) + (if more then |old(NextOut()).value| else 0)
      ensures old(NextOut()).Some? ==>
                var m, end := old(NextOut().value), old(outPos) + |written|;
                && end <= |m| && written == m[old(outPos)..end]
                && (more <==> end == |m|) && (more ==> ok && written != [])
                && out == (if more then None else Some(m))
                && outPos == (if more then 0 else if ok then end else old(outPos))
      ensures var done := if more && kind.Data? then |old(NextOut()).value| else 0;
              && pending.messages == (if more && kind.Data? then Wrap64(old(pending.messages) - 1)
                                      else old(pending.messages))
              && pending.size == (if more && kind.Data? then Wrap64(old(pending.size) - done)
                                  else old(pending.size))
    {
      written, more, r := [], false, WouldBlock;
      var ready := PrepareMessage();
      if !ready {
        EnsureStateRo();
        return true, false, written, r;
      }
      var count, answer;
      count, answer, written := DrainMessage();
      r := answer;
      if count < outCount {
        if answer != WouldBlock { return false, false, written, r; }
        outPos := count;
        return true, false, written, r;
      }
      FinishMessage(count);
      return true, true, written, r;
    }

    /** The last byte of the message in progress has been written: free it and update the counters. */
    method FinishMessage(count: nat)
      requires WriteReady() && out.Some? && count == outCount
      modifies this`out, this`outPos, this`outCount, this`outBytes, this`outMessages, pending
      ensures out == None && WriteReady() && outQueue.Contents() == old(outQueue.Contents())
      ensures outMessages == old(outMessages) + 1 && outBytes == old(outBytes) + |old(out).value|
      ensures pending.messages == (if kind.Data? then Wrap64(old(pending.messages) - 1) else old(pending.messages))
      ensures pending.size == (if kind.Data? then Wrap64(old(pending.size) - |old(out).value|)
                               else old(pending.size))
    {
      outBytes, outMessages := outBytes + count, outMessages + 1;
      out, outPos, outCount := None, 0, 0;
      if kind == Data {
        pending.messages := Wrap64(pending.messages - 1);
        pending.size := Wrap64(pending.size - count);
      }
    }

    /** The inner write loop: from outPos on, until the message ends or a write moves nothing. */
    method DrainMessage() returns (count: nat, r: IoResult, ghost written: seq<byte>)
      requires WriteReady() && out.Some?
      modifies sink
      ensures WriteReady() && outQueue.Contents() == old(outQueue.Contents())
      ensures outPos <= count <= outCount && (r.Moved? <==> count == outCount) && !r.EndOfFile?
      ensures written == out.value[outPos..count] && sink.content == old(sink.content) + written
      ensures LastAnswer(old(sink.answers), sink.answers, r)
    {
      count, written, r := outPos, [], Moved(0);
      while count < outCount
        invariant outPos <= count <= outCount && r.Moved?
        invariant if count == outPos then sink.answers == old(sink.answers)
                  else LastAnswer(old(sink.answers), sink.answers, r)
        invariant written == out.value[outPos..count] && sink.content == old(sink.content) + written
      {
        r := sink.Write(out.value[count..]);
        if !r.Moved? { return; }
        assert out.value[outPos..count] + out.value[count..][..r.count] == out.value[outPos..count + r.count];
        written := written + out.value[count..][..r.count];
        count := count + r.count;
      }
    }
  }

  /** From p to p' the parser has been fed the consumed part of the content; more: that completed a message. */
  ghost predicate Fed(t: SocketType, p: Parser, content: seq<byte>, consumed: seq<byte>, more: bool,
                      p': Parser, left: seq<byte>)
  {
    && content == consumed + left && p' == FeedAll(t, p, consumed)
    && |p'.delivered| == |p.delivered| + if more then 1 else 0
  }

  lemma FedTwice(t: SocketType, p: Parser, content: seq<byte>, consumed: seq<byte>, between: Parser, left: seq<byte>,
                 rest: seq<byte>, more: bool, p': Parser, left': seq<byte>)
    requires Fed(t, p, content, consumed, false, between, left) && Fed(t, between, left, rest, more, p', left')
    ensures Fed(t, p, content, consumed + rest, more, p', left')
  {
    FeedConcat(t, p, consumed, rest);
    Regroup(content, consumed, left, rest, left');
  }

  lemma Regroup(content: seq<byte>, consumed: seq<byte>, left: seq<byte>, rest: seq<byte>, left': seq<byte>)
    requires content == consumed + left && left == rest + left'
    ensures content == consumed + rest + left'
  {}

  /** A read that blocks inside a message only extends the partial message. */
  lemma BlockedMidMessage(t: SocketType, p: Parser, chunk: seq<byte>, buf: Frame)
    requires p.partial + chunk < buf
    requires |buf| == HEADER_SIZE || (|buf| > HEADER_SIZE && |p.partial| >= HEADER_SIZE && WellFramed(t, buf))
    ensures FeedAll(t, p, chunk) == Parser(p.delivered, p.partial + chunk)
  {
    forall n | 0 < n <= |chunk| ensures !WellFramed(t, p.partial + chunk[..n]) {
      if |buf| > HEADER_SIZE {
        assert p.partial + chunk[..n] <= buf;
        PrefixWellFramed(t, buf, p.partial + chunk[..n]);
      }
    }
    FeedWithin(t, p, chunk);
  }

  lemma HeaderCovered(t: SocketType, m: Frame, rest: seq<byte>)
    requires |m| == HEADER_SIZE && LengthsCoverHeader(t, m + rest)
    ensures FramedLength(t, m) >= HEADER_SIZE
  {
    assert forall i :: 0 <= i < HEADER_SIZE ==> (m + rest)[i] == m[i];
    assert FramedLength(t, m + rest) == FramedLength(t, m);
  }

  /** Once a message is complete, what follows it on the stream meets the reader's precondition. */
  lemma RestQualifies(t: SocketType, m: Frame, rest: seq<byte>)
    requires WellFramed(t, m) && LengthsCoverHeader(t, m + rest)
    ensures LengthsCoverHeader(t, rest)
  {
    assert forall i :: 0 <= i < HEADER_SIZE ==> (m + rest)[i] == m[i];
    assert FramedLength(t, m + rest) == |m|;
    assert (m + rest)[|m|..] == rest;
  }
}
