/** Products of integers, one small fact at a time. */
module Arithmetic {

  lemma {:induction false} ProductIsNonNegative(a: nat, b: nat)
    ensures a * b >= 0
  {
    if a > 0 {
      ProductIsNonNegative(a - 1, b);
      assert a * b == (a - 1) * b + b;
    }
  }

  lemma Commute(x: int, y: int)
    ensures x * y == y * x
  {
  }

  lemma MultiplyMonotone(a: int, x: int, y: int)
    requires a >= 0 && x <= y
    ensures a * x <= a * y
  {
    ProductIsNonNegative(a, y - x);
    assert a * (y - x) == a * y - a * x;
  }

  lemma MultiplyStrict(a: int, x: int, y: int)
    requires a > 0 && x < y
    ensures a * x < a * y
  {
    MultiplyMonotone(a, x + 1, y);
    assert a * (x + 1) == a * x + a;
  }

  lemma Negate(a: int, x: int)
    ensures -a * x == -(a * x)
  {
  }

  lemma MultiplyReflects(a: int, x: int, y: int)
    requires a >= 0 && a * x < a * y
    ensures x < y
  {
    if y <= x {
      MultiplyMonotone(a, y, x);
    }
  }

  lemma RowsAdd(rows: int, width: int)
    ensures (rows + 1) * width == rows * width + width
  {
  }

  /** Multiplication as repeated addition: the size of so many rows. */
  function Area(rows: nat, width: nat): nat {
    if rows == 0 then 0 else Area(rows - 1, width) + width
  }

  lemma {:induction false} AreaIsProduct(rows: nat, width: nat)
    ensures Area(rows, width) == rows * width
  {
    if rows > 0 {
      AreaIsProduct(rows - 1, width);
      RowsAdd(rows - 1, width);
    }
  }

  lemma {:induction false} AreaGrows(row: nat, rows: nat, width: nat)
    requires row <= rows
    ensures Area(row, width) <= Area(rows, width)
  {
    if row < rows {
      AreaGrows(row, rows - 1, width);
    }
  }

  /** Rows of a table do not overlap. */
  lemma RowsApart(row: int, row': int, width: int)
    requires row < row' && 0 <= width
    ensures row * width + width <= row' * width
  {
    MultiplyMonotone(width, row + 1, row');
    Commute(width, row + 1);
    Commute(width, row');
    RowsAdd(row, width);
  }

  /** A place in a table has one row and one column. */
  lemma SameQuotient(width: nat, q: int, r: int, q': int, r': int)
    requires 0 <= r < width && 0 <= r' < width && q * width + r == q' * width + r'
    ensures q == q' && r == r'
  {
    if q < q' {
      RowsApart(q, q', width);
    } else if q' < q {
      RowsApart(q', q, width);
    }
  }
}
