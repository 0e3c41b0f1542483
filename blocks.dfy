/**
 * Texts laid out as blocks of equal length, one after the other: where the
 * k-th element of block y ends up.
 */
module Blocks {

  import opened Arithmetic

  /** The blocks written one after the other. */
  function Flatten<T>(blocks: seq<seq<T>>): seq<T>
  {
    if |blocks| == 0 then [] else Flatten(blocks[..|blocks| - 1]) + blocks[|blocks| - 1]
  }

  /** Whether every block has `len` elements. */
  predicate BlocksOf<T>(blocks: seq<seq<T>>, len: nat)
  {
    forall y :: 0 <= y < |blocks| ==> |blocks[y]| == len
  }

  /** n blocks of `len` elements make Offset(n, len) elements. */
  lemma {:induction false} FlattenLength<T>(blocks: seq<seq<T>>, len: nat)
    requires BlocksOf(blocks, len)
    ensures |Flatten(blocks)| == Offset(|blocks|, len)
  {
    if |blocks| > 0 {
      FlattenLength(blocks[..|blocks| - 1], len);
    }
  }

  /** Element k of block y sits at Offset(y, len) + k. */
  lemma {:induction false} FlattenAt<T>(blocks: seq<seq<T>>, len: nat, y: nat, k: nat)
    requires BlocksOf(blocks, len) && y < |blocks| && k < len
    ensures Offset(y, len) + k < |Flatten(blocks)|
    ensures Flatten(blocks)[Offset(y, len) + k] == blocks[y][k]
  {
    var n := |blocks|;
    var front := blocks[..n - 1];
    FlattenLength(blocks, len);
    FlattenLength(front, len);
    OffsetMonotone(y, n, len);
    var before := Flatten(front);
    var i := Offset(y, len) + k;
    assert Flatten(blocks) == before + blocks[n - 1];
    if y < n - 1 {
      OffsetMonotone(y, n - 1, len);
      FlattenAt(front, len, y, k);
      assert front[y] == blocks[y];
      assert before[i] == blocks[y][k];
    } else {
      assert i - |before| == k;
    }
  }
}
