/** Shared vocabulary of the Gomoku model: players, cells and the row-major
    flat indexing of an N×N board (cell (r, c) lives at index r*N + c). */
module Board {

  datatype Option<T> = None | Some(value: T)

  /** The two stone colours; X ("Black") moves first. */
  datatype Player = X | O

  /** One board cell: the source's `null`, or a player's letter. */
  datatype Cell = Empty | Mark(owner: Player)

  /** The opponent of `p`: the source's `p === 'X' ? 'O' : 'X'`. */
  function Other(p: Player): (q: Player)
    ensures q != p
  {
    if p == X then O else X
  }

  /** The board after p's stone is put at `index`; every other cell is kept. */
  function WithMove(b: seq<Cell>, index: int, p: Player): (b': seq<Cell>)
    requires 0 <= index < |b|
    ensures |b'| == |b| && b'[index] == Mark(p)
    ensures forall j :: 0 <= j < |b| && j != index ==> b'[j] == b[j]
  {
    b[index := Mark(p)]
  }

  /** Flat index of row `r`, column `c`. */
  function Flat(size: int, r: int, c: int): int
  {
    r * size + c
  }

  /** A product with a positive factor of at least 1 is at least the other factor. */
  lemma MulAtLeast(a: int, b: int)
    requires a >= 1 && b >= 0
    ensures a * b >= b
  {
  }

  /** One more copy of w. */
  lemma MulStep(m: int, w: int)
    ensures m * w + w == (m + 1) * w
  {
  }

  /** Multiplication by a non-negative factor is monotone. */
  lemma MulMonotone(a: int, b: int, w: int)
    requires a <= b && w >= 0
    ensures a * w <= b * w
  {
    if a < b {
      MulAtLeast(1, w);
      assert b * w - a * w == (b - a) * w;
      if w > 0 {
        MulAtLeast(b - a, w);
      }
    }
  }

  /** A non-zero factor can be cancelled. */
  lemma MulCancel(a: int, b: int, m: int)
    requires m != 0 && a * m == b * m
    ensures a == b
  {
    assert (a - b) * m == 0;
  }

  /** Row and column are recovered from a flat index by floor division and
      remainder (on non-negative operands JavaScript's `Math.floor(i / n)` and
      `i % n` agree with Dafny's `/` and `%`). */
  lemma FlatDecode(size: int, r: int, c: int)
    requires size >= 1 && 0 <= c < size
    ensures Flat(size, r, c) / size == r
    ensures Flat(size, r, c) % size == c
  {
    var i := r * size + c;
    var q, m := i / size, i % size;
    assert q * size + m == r * size + c;
    assert (q - r) * size == c - m;
    if q - r >= 1 {
      MulAtLeast(q - r, size);
      assert false;
    } else if r - q >= 1 {
      MulAtLeast(r - q, size);
      assert false;
    }
  }

  /** An on-board (row, column) pair has an index on the board. */
  lemma FlatInBounds(size: int, r: int, c: int)
    requires 0 <= r < size && 0 <= c < size
    ensures 0 <= Flat(size, r, c) < size * size
  {
    assert r * size <= (size - 1) * size by {
      MulAtLeast(size - 1 - r + 1, size);
      assert (size - r) * size >= size;
    }
  }

  /** The cell at row `r`, column `c` of an N×N board. */
  function CellAt(b: seq<Cell>, size: int, r: int, c: int): Cell
    requires |b| == size * size && 0 <= r < size && 0 <= c < size
  {
    FlatInBounds(size, r, c);
    b[Flat(size, r, c)]
  }

  /** An on-board flat index decodes to an on-board (row, column) pair. */
  lemma DecodeInBounds(size: int, i: int)
    requires size >= 1 && 0 <= i < size * size
    ensures 0 <= i / size < size && 0 <= i % size < size
    ensures i == Flat(size, i / size, i % size)
  {
    var q := i / size;
    if q >= size {
      MulMonotone(size, q, size);
      assert false;
    }
    if q < 0 {
      MulMonotone(q, -1, size);
      assert false;
    }
  }

  /** Distinct (row, column) pairs on the board have distinct flat indices. */
  lemma FlatInjective(size: int, r1: int, c1: int, r2: int, c2: int)
    requires size >= 1 && 0 <= c1 < size && 0 <= c2 < size
    requires Flat(size, r1, c1) == Flat(size, r2, c2)
    ensures r1 == r2 && c1 == c2
  {
    FlatDecode(size, r1, c1);
    FlatDecode(size, r2, c2);
  }
}
