// Which sequence and which cache block a gathered token belongs to.
module TokenLocation {
  import opened Alignment

  // Cumulative sequence lengths: from 0 to the number of tokens, never falling.
  ghost predicate CuSeqLens(cu: seq<int>, tokens: nat) {
    && |cu| >= 2 && cu[0] == 0 && cu[|cu| - 1] == tokens
    && forall i, j :: 0 <= i <= j < |cu| ==> cu[i] <= cu[j]
  }

  // torch.searchsorted (left): how many leading entries are below t.
  function SearchSorted(cu: seq<int>, t: int): nat {
    if cu == [] || cu[0] >= t then 0 else 1 + SearchSorted(cu[1..], t)
  }

  lemma {:induction false} SearchSortedSplits(cu: seq<int>, t: int)
    ensures SearchSorted(cu, t) <= |cu|
    ensures forall i :: 0 <= i < SearchSorted(cu, t) ==> cu[i] < t
    ensures SearchSorted(cu, t) < |cu| ==> cu[SearchSorted(cu, t)] >= t
  {
    if cu != [] && cu[0] < t {
      SearchSortedSplits(cu[1..], t);
      forall i | 0 <= i < SearchSorted(cu, t) ensures cu[i] < t {
        if i > 0 {
          assert cu[1..][i - 1] == cu[i];
        }
      }
    }
  }

  function Clamp(x: int, lo: int, hi: int): int {
    if x < lo then lo else if x > hi then hi else x
  }

  // batch_indices for token t (tokens count from 1).
  function SequenceOf(cu: seq<int>, t: int): int {
    Clamp(SearchSorted(cu, t) - 1, 0, |cu| - 2)
  }

  ghost predicate Contains(cu: seq<int>, b: int, t: int)
    requires 0 <= b < |cu| - 1
  {
    cu[b] < t <= cu[b + 1]
  }

  // The search finds the one sequence that holds the token; the clamp never acts; and the
  // position inside the sequence runs from 1 to its length.
  lemma TokenIsLocated(cu: seq<int>, tokens: nat, t: int)
    requires CuSeqLens(cu, tokens) && 1 <= t <= tokens
    ensures 0 <= SequenceOf(cu, t) < |cu| - 1 && SequenceOf(cu, t) == SearchSorted(cu, t) - 1
    ensures Contains(cu, SequenceOf(cu, t), t)
    ensures forall b :: 0 <= b < |cu| - 1 && Contains(cu, b, t) ==> b == SequenceOf(cu, t)
    ensures 1 <= t - cu[SequenceOf(cu, t)] <= cu[SequenceOf(cu, t) + 1] - cu[SequenceOf(cu, t)]
  {
    SearchSortedSplits(cu, t);
    var s := SearchSorted(cu, t);
    assert s > 0;
    assert cu[|cu| - 1] >= t;
    assert s < |cu|;
    forall b | 0 <= b < |cu| - 1 && Contains(cu, b, t) ensures b == s - 1 {
      assert cu[b] < t <= cu[b + 1];
    }
  }

  // Conversely every position of every sequence is the place of exactly one token.
  lemma PositionIsToken(cu: seq<int>, tokens: nat, b: int, p: int)
    requires CuSeqLens(cu, tokens) && 0 <= b < |cu| - 1 && 1 <= p <= cu[b + 1] - cu[b]
    ensures 1 <= cu[b] + p <= tokens && SequenceOf(cu, cu[b] + p) == b
    ensures forall t :: 1 <= t <= tokens && SequenceOf(cu, t) == b && t - cu[b] == p ==> t == cu[b] + p
  {
    assert cu[0] <= cu[b] && cu[b + 1] <= cu[|cu| - 1];
    TokenIsLocated(cu, tokens, cu[b] + p);
    assert Contains(cu, b, cu[b] + p);
  }

  // ---------------------------------------------------------------- cache blocks

  // Column of the block table that the code reads for position p (positions count from 1).
  function TableColumn(p: nat, blockSize: nat): nat
    requires blockSize > 0
  {
    p / blockSize
  }

  // The block that holds position p.
  function BlockOf(p: nat, blockSize: nat): nat
    requires blockSize > 0 && p > 0
  {
    (p - 1) / blockSize
  }

  // Block q holds the positions q * block_size + 1 to (q + 1) * block_size.
  lemma BlockHolds(p: nat, blockSize: nat)
    requires blockSize > 0 && p > 0
    ensures BlockOf(p, blockSize) * blockSize < p <= (BlockOf(p, blockSize) + 1) * blockSize
    ensures TableColumn(p, blockSize) * blockSize <= p < (TableColumn(p, blockSize) + 1) * blockSize
  {
    DivBounds(p - 1, blockSize);
    DivBounds(p, blockSize);
    NextMultiple(BlockOf(p, blockSize), blockSize);
    NextMultiple(TableColumn(p, blockSize), blockSize);
  }

  // The code reads the right column except for the last position of each block, where it reads
  // the next one.
  lemma ColumnIsRightExactlyInsideBlocks(p: nat, blockSize: nat)
    requires blockSize > 0 && p > 0
    ensures TableColumn(p, blockSize) == BlockOf(p, blockSize) <==> p % blockSize != 0
    ensures p % blockSize == 0 ==> TableColumn(p, blockSize) == BlockOf(p, blockSize) + 1
  {
    var q, r := p / blockSize, p % blockSize;
    assert p == q * blockSize + r;
    if r != 0 {
      QuotientUnique(q, r - 1, blockSize);
    } else {
      assert q > 0;
      assert p - 1 == (q - 1) * blockSize + (blockSize - 1) by {
        assert q * blockSize == (q - 1) * blockSize + blockSize;
      }
      QuotientUnique(q - 1, blockSize - 1, blockSize);
    }
  }

  // The last position of the first block is looked up in the second column.
  lemma WrongColumn()
    ensures BlockOf(64, 64) == 0 && TableColumn(64, 64) == 1
  {
  }

  // In particular a sequence that fills its last block makes the code read one column past its
  // blocks.
  lemma LastTokenOverruns(len: nat, blockSize: nat)
    requires blockSize > 0 && len > 0
    ensures TableColumn(len, blockSize) < CeilDiv(len, blockSize) <==> len % blockSize != 0
  {
    var q, r := (len - 1) / blockSize, (len - 1) % blockSize;
    assert len - 1 == q * blockSize + r;
    NextMultiple(q, blockSize);
    assert len + blockSize - 1 == (q + 1) * blockSize + r;
    QuotientUnique(q + 1, r, blockSize);
    ColumnIsRightExactlyInsideBlocks(len, blockSize);
  }
}
