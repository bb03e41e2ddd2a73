/** Row-major (C-order) flattening of a nested list, the effect of building a
    NumPy array from a list of equally long rows and reshaping it to one
    row per innermost element. */
module NumPyReshape {

  /** The rows laid end to end, first row first. */
  function Flatten<T>(rows: seq<seq<T>>): (flat: seq<T>)
    ensures rows == [] ==> flat == []
    ensures rows != [] ==> rows[0] <= flat
  {
    if rows == [] then [] else rows[0] + Flatten(rows[1..])
  }

  /** Every row has exactly `width` elements. */
  ghost predicate Uniform<T>(rows: seq<seq<T>>, width: nat)
  {
    forall i :: 0 <= i < |rows| ==> |rows[i]| == width
  }

  /** Flattening `n` rows of `width` elements gives `n * width` elements. */
  lemma {:induction false} FlattenLength<T>(rows: seq<seq<T>>, width: nat)
    requires Uniform(rows, width)
    ensures |Flatten(rows)| == |rows| * width
  {
    if rows != [] {
      FlattenLength(rows[1..], width);
      assert |Flatten(rows)| == width + (|rows| - 1) * width;
    }
  }

  /** Element `j` of row `i` lands at position `i * width + j`. */
  lemma {:induction false} FlattenAt<T>(rows: seq<seq<T>>, width: nat, i: nat, j: nat)
    requires Uniform(rows, width)
    requires i < |rows| && j < width
    ensures i * width + j < |Flatten(rows)|
    ensures Flatten(rows)[i * width + j] == rows[i][j]
  {
    FlattenLength(rows, width);
    if i > 0 {
      FlattenAt(rows[1..], width, i - 1, j);
      assert i * width + j == width + ((i - 1) * width + j);
    }
  }

  /** Conversely, position `p` of the flattened rows holds element
      `p % width` of row `p / width`: this is NumPy's C-order reshape. */
  lemma FlattenIndex<T>(rows: seq<seq<T>>, width: nat, p: nat)
    requires Uniform(rows, width)
    requires p < |Flatten(rows)|
    ensures width > 0 && p / width < |rows|
    ensures Flatten(rows)[p] == rows[p / width][p % width]
  {
    FlattenLength(rows, width);
    DivisionInRange(p, width, |rows|);
    var i, j := p / width, p % width;
    assert i < |rows| && j < width && p == i * width + j;
    FlattenAt(rows, width, i, j);
  }

  /** Arithmetic behind FlattenIndex: a position below n * width splits
      into a row below n and a column below width. */
  lemma DivisionInRange(p: nat, width: nat, n: nat)
    requires p < n * width
    ensures width > 0 && 0 <= p / width < n && 0 <= p % width < width
    ensures p == (p / width) * width + p % width
  {
    if width > 0 && p / width >= n {
      MultiplyMonotone(n, p / width, width);
    }
  }

  lemma MultiplyMonotone(a: nat, b: nat, c: nat)
    requires a <= b
    ensures a * c <= b * c
  {
  }

  lemma DivisionMonotone(p: nat, q: nat, d: nat)
    requires p <= q && d > 0
    ensures p / d <= q / d
  {
    if p / d > q / d {
      MultiplyMonotone(q / d + 1, p / d, d);
    }
  }

  /** The `i`-th run of `width` consecutive elements of `flat`. */
  function Block<T>(flat: seq<T>, width: nat, i: nat): seq<T>
    requires (i + 1) * width <= |flat|
  {
    flat[i * width .. (i + 1) * width]
  }

  /** Row `i` occupies the contiguous block [i * width, (i + 1) * width). */
  lemma FlattenBlock<T>(rows: seq<seq<T>>, width: nat, i: nat)
    requires Uniform(rows, width)
    requires i < |rows|
    ensures (i + 1) * width <= |Flatten(rows)|
    ensures Block(Flatten(rows), width, i) == rows[i]
  {
    FlattenLength(rows, width);
    MultiplyMonotone(i + 1, |rows|, width);
    assert (i + 1) * width == i * width + width;
    forall j | 0 <= j < width
      ensures Block(Flatten(rows), width, i)[j] == rows[i][j]
    {
      FlattenAt(rows, width, i, j);
    }
  }

  /** Flattening distributes over concatenation of the row lists. */
  lemma {:induction false} FlattenAppend<T>(a: seq<seq<T>>, b: seq<seq<T>>)
    ensures Flatten(a + b) == Flatten(a) + Flatten(b)
  {
    if a != [] {
      assert (a + b)[1..] == a[1..] + b;
      FlattenAppend(a[1..], b);
    } else {
      assert a + b == b;
    }
  }
}
