// Shape and strides of the transposed scale tensor of rms_norm_per_block_quant.
module ScaleLayout {
  import opened Alignment

  datatype Layout =
    | Invalid                                  // the shape and stride tuples do not fit together
    | Flat(rows: nat, cols: nat, rowStride: nat, colStride: nat)
    | Batched(batch: nat, rows: nat, cols: nat, batchStride: nat, rowStride: nat, colStride: nat)

  function Product(dims: seq<nat>): nat {
    if dims == [] then 1 else dims[0] * Product(dims[1..])
  }

  // dims is the input's shape; alignment 0 means none.
  function ScaleLayoutOf(dims: seq<nat>, group: nat, alignment: nat): Layout
    requires group > 0
  {
    var d := |dims|;
    if d == 0 then Invalid
    else if alignment == 0 then
      var rows := Product(dims[..d - 1]);
      Flat(rows, dims[d - 1] / group, 1, rows)
    else if d == 1 then Invalid
    else
      var m, k := dims[d - 2], dims[d - 1] / group;
      var aligned := AlignUp(m, alignment);
      if d == 2 then Flat(m, k, 1, aligned)
      else if d == 3 then Batched(dims[0], m, k, aligned * k, 1, aligned)
      else Invalid
  }

  lemma MixedRadix(i: nat, j: nat, i': nat, j': nat, n: nat)
    requires i < n && i' < n && i + j * n == i' + j' * n
    ensures i == i' && j == j'
  {
    QuotientUnique(j, i, n);
    QuotientUnique(j', i', n);
  }

  lemma RadixBound(i: nat, j: nat, n: nat, k: nat)
    requires i < n && j < k
    ensures i + j * n < n * k
  {
    NextMultiple(j, n);
    MulMonotone(j + 1, k, n);
  }

  function FlatAddress(l: Layout, i: nat, j: nat): nat
    requires l.Flat?
  {
    i * l.rowStride + j * l.colStride
  }

  function BatchedAddress(l: Layout, b: nat, i: nat, j: nat): nat
    requires l.Batched?
  {
    b * l.batchStride + (i * l.rowStride + j * l.colStride)
  }

  // Two-dimensional scales: different entries have different addresses, all inside the buffer.
  lemma FlatIsInjective(dims: seq<nat>, group: nat, alignment: nat, i: nat, j: nat, i': nat, j': nat)
    requires group > 0 && ScaleLayoutOf(dims, group, alignment).Flat?
    requires var l := ScaleLayoutOf(dims, group, alignment);
             i < l.rows && i' < l.rows && j < l.cols && j' < l.cols
    ensures var l := ScaleLayoutOf(dims, group, alignment);
            && FlatAddress(l, i, j) < l.colStride * l.cols
            && (FlatAddress(l, i, j) == FlatAddress(l, i', j') ==> i == i' && j == j')
  {
    var l := ScaleLayoutOf(dims, group, alignment);
    var n := l.colStride;
    if alignment > 0 {
      AlignUpIsLeast(l.rows, alignment);
    }
    assert l.rows <= n;
    RadixBound(i, j, n, l.cols);
    if FlatAddress(l, i, j) == FlatAddress(l, i', j') {
      MixedRadix(i, j, i', j', n);
    }
  }

  lemma ThreeDigits(b: nat, i: nat, j: nat, b': nat, i': nat, j': nat, n: nat, k: nat, size: nat, batch: nat)
    requires b < batch && b' < batch && i < n && i' < n && j < k && j' < k && size == n * k
    ensures b * size + (i + j * n) < size * batch
    ensures b * size + (i + j * n) == b' * size + (i' + j' * n) ==> b == b' && i == i' && j == j'
  {
    RadixBound(i, j, n, k);
    RadixBound(i', j', n, k);
    RadixBound(i + j * n, b, size, batch);
    if b * size + (i + j * n) == b' * size + (i' + j' * n) {
      MixedRadix(i + j * n, b, i' + j' * n, b', size);
      MixedRadix(i, j, i', j', n);
    }
  }

  // Three-dimensional scales, whatever the batch.
  lemma BatchedIsInjective(dims: seq<nat>, group: nat, alignment: nat,
                           b: nat, i: nat, j: nat, b': nat, i': nat, j': nat)
    requires group > 0 && ScaleLayoutOf(dims, group, alignment).Batched?
    requires var l := ScaleLayoutOf(dims, group, alignment);
             b < l.batch && b' < l.batch && i < l.rows && i' < l.rows && j < l.cols && j' < l.cols
    ensures var l := ScaleLayoutOf(dims, group, alignment);
            && BatchedAddress(l, b, i, j) < l.batchStride * l.batch
            && (BatchedAddress(l, b, i, j) == BatchedAddress(l, b', i', j') ==> b == b' && i == i' && j == j')
  {
    var l := ScaleLayoutOf(dims, group, alignment);
    AlignUpIsLeast(l.rows, alignment);
    ThreeDigits(b, i, j, b', i', j', l.colStride, l.cols, l.batchStride, l.batch);
  }

  // The layout of an aligned two-dimensional input: columns one after the other, each as long as the
  // least multiple of the alignment that holds its rows.
  lemma AlignedFlat(m: nat, n: nat, group: nat, alignment: nat, i: nat, j: nat)
    requires group > 0 && alignment > 0
    ensures var l, column := ScaleLayoutOf([m, n], group, alignment), AlignUp(m, alignment);
            && l.Flat? && l.rows == m && l.cols == n / group && FlatAddress(l, i, j) == i + j * column
            && m <= column && Multiple(column, alignment) && forall y: nat :: Multiple(y, alignment) && m <= y ==> column <= y
  {
    AlignUpIsLeast(m, alignment);
  }

  lemma AlignedBatched(b: nat, m: nat, n: nat, group: nat, alignment: nat, c: nat, i: nat, j: nat)
    requires group > 0 && alignment > 0
    ensures var l, column := ScaleLayoutOf([b, m, n], group, alignment), AlignUp(m, alignment);
            && l.Batched? && l.batch == b && l.rows == m && l.cols == n / group
            && BatchedAddress(l, c, i, j) == c * (column * (n / group)) + (i + j * column)
  {
  }

  // Without alignment the rows of all leading dimensions are counted together.
  lemma Unaligned(dims: seq<nat>, n: nat, group: nat, i: nat, j: nat)
    requires group > 0
    ensures var l := ScaleLayoutOf(dims + [n], group, 0);
            && l.Flat? && l.rows == Product(dims) && l.cols == n / group && FlatAddress(l, i, j) == i + j * Product(dims)
  {
    assert (dims + [n])[..|dims|] == dims;
  }

  // The tuples do not fit together exactly without a dimension, or with an alignment and neither
  // two nor three dimensions.
  lemma InvalidExactly(dims: seq<nat>, group: nat, alignment: nat)
    requires group > 0
    ensures ScaleLayoutOf(dims, group, alignment).Invalid? <==> |dims| == 0 || (alignment > 0 && |dims| != 2 && |dims| != 3)
  {
  }
}
