/**
 Messages as the gateways see them: byte sequences that begin with a header of four
 32-bit words (opcode, source PID, destination PID, length), and for data messages five
 more (communicator, source rank, destination rank, tag, element count).
 */
module Messages {
  type byte = x: int | 0 <= x < 256
  type uint32 = x: int | 0 <= x < 0x1_0000_0000
  type Frame = seq<byte>

  const HEADER_SIZE := 16
  const DATA_MESSAGE_SIZE := 36
  const ANY_SOURCE := -1
  const ANY_TAG := -1

  /** Messages to and from the server are in network byte order, data messages in host order. */
  datatype SocketType = Server | Data

  /** The host-order word at a byte offset. */
  function Word(m: Frame, off: nat): (w: uint32)
    requires off + 4 <= |m|
  {
    var b0: int, b1: int, b2: int, b3: int := m[off], m[off + 1], m[off + 2], m[off + 3];
    b0 + 0x100 * b1 + 0x1_0000 * b2 + 0x100_0000 * b3
  }

  /** The same word read as a two's complement int. */
  function SignedWord(m: Frame, off: nat): int
    requires off + 4 <= |m|
  {
    var w := Word(m, off);
    if w < 0x8000_0000 then w else w - 0x1_0000_0000
  }

  function WordBytes(w: uint32): (b: Frame)
    ensures |b| == 4 && Word(b, 0) == w
  {
    var w1: nat := w / 0x100;
    var w2: nat := w1 / 0x100;
    [w % 0x100, w1 % 0x100, w2 % 0x100, w2 / 0x100]
  }

  /** The 32-bit pattern of an int. */
  function Unsigned(x: int): uint32
    requires -0x8000_0000 <= x < 0x8000_0000
  {
    if x < 0 then x + 0x1_0000_0000 else x
  }

  function FramedLength(t: SocketType, m: Frame): uint32
    requires |m| >= HEADER_SIZE
  {
    if t.Data? then Word(m, 12) else Word([m[15], m[14], m[13], m[12]], 0)
  }

  /** The length field of the header tells the true size, header included. */
  predicate WellFramed(t: SocketType, m: Frame) {
    |m| >= HEADER_SIZE && FramedLength(t, m) == |m|
  }

  predicate IsDataMessage(m: Frame) {
    |m| >= DATA_MESSAGE_SIZE && WellFramed(Data, m)
  }

  function SrcPid(m: Frame): uint32 requires |m| >= HEADER_SIZE { Word(m, 4) }
  function DstPid(m: Frame): uint32 requires |m| >= HEADER_SIZE { Word(m, 8) }
  function Comm(m: Frame): int requires |m| >= DATA_MESSAGE_SIZE { SignedWord(m, 16) }
  function Source(m: Frame): int requires |m| >= DATA_MESSAGE_SIZE { SignedWord(m, 20) }
  function Opcode(m: Frame): uint32 requires |m| >= HEADER_SIZE { Word(m, 0) }
  function Dest(m: Frame): int requires |m| >= DATA_MESSAGE_SIZE { SignedWord(m, 24) }
  function ElementCount(m: Frame): int requires |m| >= DATA_MESSAGE_SIZE { SignedWord(m, 32) }
  function Tag(m: Frame): int requires |m| >= DATA_MESSAGE_SIZE { SignedWord(m, 28) }

  type int32 = x: int | -0x8000_0000 <= x < 0x8000_0000

  /** What create_data_message builds once the packed payload has been copied in. */
  function CreateDataMessage(opcode: uint32, srcPid: uint32, dstPid: uint32,
                             comm: int32, source: int32, dest: int32, tag: int32, count: int32,
                             payload: Frame): (m: Frame)
    requires DATA_MESSAGE_SIZE + |payload| < 0x1_0000_0000
    ensures IsDataMessage(m)
    ensures Opcode(m) == opcode && SrcPid(m) == srcPid && DstPid(m) == dstPid
    ensures Comm(m) == comm && Source(m) == source && Dest(m) == dest && Tag(m) == tag && ElementCount(m) == count
    ensures m[DATA_MESSAGE_SIZE..] == payload
  {
    var words := [opcode, srcPid, dstPid, DATA_MESSAGE_SIZE + |payload|,
                  Unsigned(comm), Unsigned(source), Unsigned(dest), Unsigned(tag), Unsigned(count)];
    HeaderWords(words, payload);
    Words(words) + payload
  }

  lemma HeaderWords(ws: seq<uint32>, rest: Frame)
    requires |ws| == 9
    ensures |Words(ws)| == DATA_MESSAGE_SIZE && (Words(ws) + rest)[DATA_MESSAGE_SIZE..] == rest
    ensures var m := Words(ws) + rest;
            && Word(m, 0) == ws[0] && Word(m, 4) == ws[1] && Word(m, 8) == ws[2] && Word(m, 12) == ws[3]
            && Word(m, 16) == ws[4] && Word(m, 20) == ws[5] && Word(m, 24) == ws[6] && Word(m, 28) == ws[7]
            && Word(m, 32) == ws[8]
  {
    WordsLength(ws);
    WordsAt(ws, rest, 0); WordsAt(ws, rest, 1); WordsAt(ws, rest, 2);
    WordsAt(ws, rest, 3); WordsAt(ws, rest, 4); WordsAt(ws, rest, 5);
    WordsAt(ws, rest, 6); WordsAt(ws, rest, 7); WordsAt(ws, rest, 8);
  }

  function Words(ws: seq<uint32>): Frame {
    if ws == [] then [] else Words(ws[..|ws| - 1]) + WordBytes(ws[|ws| - 1])
  }

  lemma {:induction false} WordsLength(ws: seq<uint32>)
    ensures |Words(ws)| == 4 * |ws|
  {
    if ws != [] { WordsLength(ws[..|ws| - 1]); }
  }

  lemma {:induction false} WordsAt(ws: seq<uint32>, rest: Frame, k: nat)
    requires k < |ws|
    ensures |Words(ws)| == 4 * |ws|
    ensures Word(Words(ws) + rest, 4 * k) == ws[k]
  {
    var n := |ws| - 1;
    WordsLength(ws[..n]);
    assert Words(ws) + rest == Words(ws[..n]) + (WordBytes(ws[n]) + rest);
    if k < n {
      WordsAt(ws[..n], WordBytes(ws[n]) + rest, k);
    } else {
      var m := Words(ws) + rest;
      assert m[4 * n] == WordBytes(ws[n])[0] && m[4 * n + 1] == WordBytes(ws[n])[1]
        && m[4 * n + 2] == WordBytes(ws[n])[2] && m[4 * n + 3] == WordBytes(ws[n])[3];
    }
  }

  /** match_message: does a data message answer a receive for (comm, source, tag)? */
  datatype Request = Request(comm: int, source: int, tag: int)

  predicate MatchMessage(r: Request, m: Frame)
    requires |m| >= DATA_MESSAGE_SIZE
  {
    && r.comm == Comm(m)
    && (r.source == ANY_SOURCE || r.source == Source(m))
    && (r.tag == ANY_TAG || r.tag == Tag(m))
  }

  /** Exactly if the message was created for this communicator, source and tag; -1 stands for any. */
  lemma MatchesCreated(r: Request, opcode: uint32, srcPid: uint32, dstPid: uint32, comm: int32, source: int32,
                       dest: int32, tag: int32, count: int32, payload: Frame)
    requires DATA_MESSAGE_SIZE + |payload| < 0x1_0000_0000
    ensures MatchMessage(r, CreateDataMessage(opcode, srcPid, dstPid, comm, source, dest, tag, count, payload))
            <==> r.comm == comm && (r.source == -1 || r.source == source) && (r.tag == -1 || r.tag == tag)
  {}

  /** The byte order of the length: as the words of the host for data messages, reversed for the server's. */
  lemma LengthBytes(m: Frame)
    requires |m| >= 16
    ensures FramedLength(Data, m)
            == m[12] as int + 0x100 * m[13] as int + 0x1_0000 * m[14] as int + 0x100_0000 * m[15] as int
    ensures FramedLength(Server, m)
            == 0x100_0000 * m[12] as int + 0x1_0000 * m[13] as int + 0x100 * m[14] as int + m[15] as int
  {}

  /** Where the fields of the header are. */
  lemma HeaderLayout(opcode: uint32, srcPid: uint32, dstPid: uint32, comm: int32, source: int32,
                     dest: int32, tag: int32, count: int32, payload: Frame)
    requires DATA_MESSAGE_SIZE + |payload| < 0x1_0000_0000
    ensures var m := CreateDataMessage(opcode, srcPid, dstPid, comm, source, dest, tag, count, payload);
            && Word(m, 0) == opcode && Word(m, 4) == srcPid && Word(m, 8) == dstPid && Word(m, 12) == 36 + |payload|
            && SignedWord(m, 16) == comm && SignedWord(m, 20) == source && SignedWord(m, 24) == dest
            && SignedWord(m, 28) == tag && SignedWord(m, 32) == count && m[36..] == payload
  {}
}
