/** Receive buffers that are filled block by block. */
module Buffers {

  /** buf with block copied over it at off. */
  function Paste<T>(buf: seq<T>, off: nat, block: seq<T>): (r: seq<T>)
    requires off + |block| <= |buf|
    ensures |r| == |buf|
  {
    buf[..off] + block + buf[off + |block|..]
  }

  ghost predicate Fits<T>(size: nat, displs: seq<nat>, blocks: seq<seq<T>>) {
    |displs| == |blocks| && forall i :: 0 <= i < |blocks| ==> displs[i] + |blocks[i]| <= size
  }

  /** The blocks copied one after the other. */
  function PasteAll<T>(buf: seq<T>, displs: seq<nat>, blocks: seq<seq<T>>): (r: seq<T>)
    requires Fits(|buf|, displs, blocks)
    ensures |r| == |buf|
  {
    if blocks == [] then buf
    else
      var n := |blocks| - 1;
      Paste(PasteAll(buf, displs[..n], blocks[..n]), displs[n], blocks[n])
  }

  lemma PasteOneMore<T>(buf: seq<T>, displs: seq<nat>, blocks: seq<seq<T>>, i: nat)
    requires Fits(|buf|, displs, blocks) && i < |blocks|
    ensures Fits(|buf|, displs[..i], blocks[..i]) && Fits(|buf|, displs[..i + 1], blocks[..i + 1])
    ensures PasteAll(buf, displs[..i + 1], blocks[..i + 1])
            == Paste(PasteAll(buf, displs[..i], blocks[..i]), displs[i], blocks[i])
  {
    assert displs[..i + 1][..i] == displs[..i] && blocks[..i + 1][..i] == blocks[..i];
  }

  /** MPI forbids that a location is written twice: no two blocks overlap. */
  ghost predicate Apart<T>(displs: seq<nat>, blocks: seq<seq<T>>)
    requires |displs| == |blocks|
  {
    forall i, j :: 0 <= i < j < |blocks| ==>
      displs[i] + |blocks[i]| <= displs[j] || displs[j] + |blocks[j]| <= displs[i]
  }

  /** Every block stands in its place, and everything else is as it was. */
  ghost predicate Scattered<T>(before: seq<T>, after: seq<T>, displs: seq<nat>, blocks: seq<seq<T>>)
    requires Fits(|before|, displs, blocks)
  {
    && |after| == |before|
    && (forall i :: 0 <= i < |blocks| ==> after[displs[i]..displs[i] + |blocks[i]|] == blocks[i])
    && (forall k ::
          0 <= k < |before| && (forall i :: 0 <= i < |blocks| ==> !(displs[i] <= k < displs[i] + |blocks[i]|)) ==>
            after[k] == before[k])
  }

  lemma {:induction false} PasteAllScatters<T>(buf: seq<T>, displs: seq<nat>, blocks: seq<seq<T>>)
    requires Fits(|buf|, displs, blocks) && Apart(displs, blocks)
    ensures Scattered(buf, PasteAll(buf, displs, blocks), displs, blocks)
  {
    if blocks != [] {
      var n := |blocks| - 1;
      PasteAllScatters(buf, displs[..n], blocks[..n]);
      PasteScatters(buf, PasteAll(buf, displs[..n], blocks[..n]), displs, blocks);
    }
  }

  lemma PasteScatters<T>(buf: seq<T>, mid: seq<T>, displs: seq<nat>, blocks: seq<seq<T>>)
    requires Fits(|buf|, displs, blocks) && Apart(displs, blocks) && blocks != []
    requires Scattered(buf, mid, displs[..|blocks| - 1], blocks[..|blocks| - 1])
    ensures Scattered(buf, Paste(mid, displs[|blocks| - 1], blocks[|blocks| - 1]), displs, blocks)
  {
    var n := |blocks| - 1;
    var after := Paste(mid, displs[n], blocks[n]);
    forall i | 0 <= i < |blocks| ensures after[displs[i]..displs[i] + |blocks[i]|] == blocks[i] {
      if i < n {
        var d, b := displs[..n][i], blocks[..n][i];
        assert mid[d..d + |b|] == b;
        assert after[d..d + |b|] == mid[d..d + |b|];
      }
    }
    forall k | 0 <= k < |buf| && (forall i :: 0 <= i < |blocks| ==> !(displs[i] <= k < displs[i] + |blocks[i]|))
      ensures after[k] == buf[k]
    {
      forall i | 0 <= i < n ensures !(displs[..n][i] <= k < displs[..n][i] + |blocks[..n][i]|) {
        assert !(displs[i] <= k < displs[i] + |blocks[i]|);
      }
      assert !(displs[n] <= k < displs[n] + |blocks[n]|);
    }
  }

  /** memcpy, or a receive into the buffer. */
  method CopyInto<T>(a: array<T>, off: nat, block: seq<T>)
    requires off + |block| <= a.Length
    modifies a
    ensures a[..] == Paste(old(a[..]), off, block)
  {
    forall i | 0 <= i < |block| { a[off + i] := block[i]; }
  }
}
