/**
 Framing of messages on a byte stream, as a function of the bytes alone: however reads
 and writes are fragmented, the reader's state is FeedAll of the bytes it has consumed.
 */
module Framing {
  import opened Common
  import opened Messages

  /** Messages put on the incoming queue so far, and the bytes of the one in progress. */
  datatype Parser = Parser(delivered: seq<Frame>, partial: Frame)

  function Feed(t: SocketType, p: Parser, b: byte): Parser {
    var m := p.partial + [b];
    if WellFramed(t, m) then Parser(p.delivered + [m], []) else Parser(p.delivered, m)
  }

  function FeedAll(t: SocketType, p: Parser, bs: seq<byte>): Parser {
    if bs == [] then p else Feed(t, FeedAll(t, p, bs[..|bs| - 1]), bs[|bs| - 1])
  }

  /** Fragmentation does not matter: feeding a then b is feeding a + b. */
  lemma {:induction false} FeedConcat(t: SocketType, p: Parser, a: seq<byte>, b: seq<byte>)
    ensures FeedAll(t, p, a + b) == FeedAll(t, FeedAll(t, p, a), b)
  {
    if b == [] {
      assert a + b == a;
    } else {
      var n := |b| - 1;
      assert (a + b)[..|a + b| - 1] == a + b[..n];
      FeedConcat(t, p, a, b[..n]);
    }
  }

  /** Bytes that complete no message just pile up. */
  lemma {:induction false} FeedWithin(t: SocketType, p: Parser, bs: seq<byte>)
    requires forall n :: 0 < n <= |bs| ==> !WellFramed(t, p.partial + bs[..n])
    ensures FeedAll(t, p, bs) == Parser(p.delivered, p.partial + bs)
  {
    if bs == [] {
      assert p.partial + bs == p.partial;
    } else {
      var n := |bs| - 1;
      assert forall i :: 0 <= i <= n ==> bs[..n][..i] == bs[..i];
      FeedWithin(t, p, bs[..n]);
      assert p.partial + bs[..n] + [bs[n]] == p.partial + bs[..|bs|];
    }
  }

  /** The byte that completes a message delivers it. */
  lemma FeedCompletes(t: SocketType, p: Parser, bs: seq<byte>)
    requires bs != [] && WellFramed(t, p.partial + bs)
    ensures FeedAll(t, p, bs) == Parser(p.delivered + [p.partial + bs], [])
  {
    var n, m := |bs| - 1, p.partial + bs;
    forall i | 0 < i <= n ensures !WellFramed(t, p.partial + bs[..n][..i]) {
      assert bs[..n][..i] == bs[..i];
      PrefixWellFramed(t, m, p.partial + bs[..i]);
    }
    FeedWithin(t, p, bs[..n]);
    assert p.partial + bs[..n] + [bs[n]] == m;
  }

  /** Every header found on the stream announces at least its own 16 bytes. */
  predicate LengthsCoverHeader(t: SocketType, bs: seq<byte>) {
    |bs| < HEADER_SIZE ||
    var len := FramedLength(t, bs);
    HEADER_SIZE <= len && (|bs| < len || LengthsCoverHeader(t, bs[len..]))
  }

  /** Round trip: the bytes of well-framed messages parse back to those messages, at every prefix. */
  lemma {:induction false} ParsePrefix(t: SocketType, ms: seq<Frame>, bs: seq<byte>)
    requires forall m :: m in ms ==> WellFramed(t, m)
    requires bs <= Flatten(ms)
    ensures var p := FeedAll(t, Parser([], []), bs);
            && p.delivered <= ms
            && Flatten(p.delivered) + p.partial == bs
            && (if |p.delivered| == |ms| then p.partial == [] else p.partial < ms[|p.delivered|])
  {
    if bs == [] {
      if ms != [] { assert WellFramed(t, ms[0]); }
    } else {
      var n, b := |bs| - 1, bs[|bs| - 1];
      ParsePrefix(t, ms, bs[..n]);
      var p := FeedAll(t, Parser([], []), bs[..n]);
      var k := |p.delivered|;
      assert p.delivered == ms[..k];
      assert k < |ms| by { assert ms[..|ms|] == ms; }
      ParseOneMore(t, ms, k, p.partial, bs);
    }
  }

  /** The inductive step of ParsePrefix: the next byte extends message k of the list. */
  lemma ParseOneMore(t: SocketType, ms: seq<Frame>, k: nat, partial: Frame, bs: seq<byte>)
    requires forall m :: m in ms ==> WellFramed(t, m)
    requires bs != [] && bs <= Flatten(ms) && k < |ms|
    requires Flatten(ms[..k]) + partial == bs[..|bs| - 1] && partial < ms[k]
    ensures var p := Feed(t, Parser(ms[..k], partial), bs[|bs| - 1]);
            && p.delivered <= ms
            && Flatten(p.delivered) + p.partial == bs
            && (if |p.delivered| == |ms| then p.partial == [] else p.partial < ms[|p.delivered|])
  {
    var m, b := ms[k], bs[|bs| - 1];
    NextByte(ms, k, partial, bs);
    var m' := partial + [b];
    assert WellFramed(t, m);
    assert m' <= m;
    PrefixWellFramed(t, m, m');
    assert Flatten(ms[..k]) + m' == bs;
    if m' == m {
      FlattenSnoc(ms[..k], m);
      assert ms[..k] + [m] == ms[..k + 1];
      if k + 1 < |ms| { assert WellFramed(t, ms[k + 1]); }
    }
  }

  /** A proper prefix of a well-framed message is not well framed. */
  lemma PrefixWellFramed(t: SocketType, m: Frame, m': Frame)
    requires WellFramed(t, m) && m' <= m
    ensures WellFramed(t, m') <==> m' == m
  {
    if |m'| >= HEADER_SIZE {
      assert forall i :: 0 <= i < HEADER_SIZE ==> m'[i] == m[i];
      assert FramedLength(t, m') == FramedLength(t, m);
    }
  }

  lemma NextByte(ms: seq<Frame>, k: nat, partial: Frame, bs: seq<byte>)
    requires bs != [] && bs <= Flatten(ms) && k < |ms|
    requires Flatten(ms[..k]) + partial == bs[..|bs| - 1] && partial < ms[k]
    ensures bs[|bs| - 1] == ms[k][|partial|]
  {
    FlattenSplit(ms, k);
    var pre := Flatten(ms[..k]);
    assert |bs| - 1 == |pre| + |partial|;
    assert bs[|bs| - 1] == Flatten(ms)[|pre| + |partial|];
  }

  /** When all bytes have been consumed, exactly the written messages have been delivered. */
  lemma RoundTrip(t: SocketType, ms: seq<Frame>)
    requires forall m :: m in ms ==> WellFramed(t, m)
    ensures FeedAll(t, Parser([], []), Flatten(ms)) == Parser(ms, [])
  {
    var all := Flatten(ms);
    ParsePrefix(t, ms, all);
    var p := FeedAll(t, Parser([], []), all);
    var k := |p.delivered|;
    assert p.delivered == ms[..k];
    if k < |ms| {
      FlattenSplit(ms, k);
    }
  }

  /** The streams that well-framed messages produce meet the reader's precondition, at every prefix. */
  lemma {:induction false} FramedStreamsQualify(t: SocketType, ms: seq<Frame>, bs: seq<byte>)
    requires forall m :: m in ms ==> WellFramed(t, m)
    requires bs <= Flatten(ms)
    ensures LengthsCoverHeader(t, bs)
    decreases |ms|
  {
    if |bs| >= HEADER_SIZE {
      assert WellFramed(t, ms[0]);
      assert forall i :: 0 <= i < HEADER_SIZE ==> bs[i] == ms[0][i];
      assert FramedLength(t, bs) == |ms[0]|;
      if |bs| >= |ms[0]| {
        FramedStreamsQualify(t, ms[1..], bs[|ms[0]|..]);
      }
    }
  }
}
