// Conversion of a Unity 4x4 transform into the flat 16-value layout the
// point-cloud SDK expects (UDUtilities.GetUDMatrix).
//
// The element type is a type parameter: the conversion only moves values,
// so nothing here depends on single- or double-precision arithmetic.
module UDMatrix {

  /** A Unity Matrix4x4: field mRC is the element at row R, column C. */
  datatype Matrix4x4<T> = Matrix4x4(
    m00: T, m01: T, m02: T, m03: T,
    m10: T, m11: T, m12: T, m13: T,
    m20: T, m21: T, m22: T, m23: T,
    m30: T, m31: T, m32: T, m33: T)
  {
    /** The element at (row, col), both in 0..3. */
    function Get(row: nat, col: nat): T
      requires row < 4 && col < 4
    {
      if row == 0 then
        (if col == 0 then m00 else if col == 1 then m01 else if col == 2 then m02 else m03)
      else if row == 1 then
        (if col == 0 then m10 else if col == 1 then m11 else if col == 2 then m12 else m13)
      else if row == 2 then
        (if col == 0 then m20 else if col == 1 then m21 else if col == 2 then m22 else m23)
      else
        (if col == 0 then m30 else if col == 1 then m31 else if col == 2 then m32 else m33)
    }
  }

  /** Position of element (row, col) in the SDK's flat layout. */
  function Slot(row: nat, col: nat): nat
  {
    4 * col + row
  }

  /** Row and column of flat position k: the inverse of Slot. */
  function SlotRow(k: nat): nat { k % 4 }
  function SlotCol(k: nat): nat { k / 4 }

  /**
   * UDUtilities.GetUDMatrix: the 16 elements, column by column, so that
   * position 4*c + r holds the element at row r, column c.
   */
  function GetUDMatrix<T>(m: Matrix4x4<T>): (ud: seq<T>)
    ensures |ud| == 16
    ensures forall row: nat, col: nat | row < 4 && col < 4 :: Slot(row, col) < 16 && ud[Slot(row, col)] == m.Get(row, col)
  {
    [m.m00, m.m10, m.m20, m.m30,
     m.m01, m.m11, m.m21, m.m31,
     m.m02, m.m12, m.m22, m.m32,
     m.m03, m.m13, m.m23, m.m33]
  }

  /** Reads a flat SDK layout back into a matrix: (r, c) comes from position 4*c + r. */
  function FromUDMatrix<T>(ud: seq<T>): (m: Matrix4x4<T>)
    requires |ud| == 16
    ensures forall row: nat, col: nat | row < 4 && col < 4 :: Slot(row, col) < 16 && m.Get(row, col) == ud[Slot(row, col)]
  {
    Matrix4x4(
      ud[0], ud[4], ud[8], ud[12],
      ud[1], ud[5], ud[9], ud[13],
      ud[2], ud[6], ud[10], ud[14],
      ud[3], ud[7], ud[11], ud[15])
  }

  /** The matrix with rows and columns exchanged. */
  function Transpose<T>(m: Matrix4x4<T>): (t: Matrix4x4<T>)
    ensures forall row: nat, col: nat | row < 4 && col < 4 :: t.Get(row, col) == m.Get(col, row)
  {
    Matrix4x4(
      m.m00, m.m10, m.m20, m.m30,
      m.m01, m.m11, m.m21, m.m31,
      m.m02, m.m12, m.m22, m.m32,
      m.m03, m.m13, m.m23, m.m33)
  }

  /** The 16 elements read row by row: the matrix's elements as a list. */
  function RowMajor<T>(m: Matrix4x4<T>): seq<T>
  {
    [m.m00, m.m01, m.m02, m.m03,
     m.m10, m.m11, m.m12, m.m13,
     m.m20, m.m21, m.m22, m.m23,
     m.m30, m.m31, m.m32, m.m33]
  }

  /** Slot is a bijection from 0..3 x 0..3 onto 0..15, with inverse (SlotRow, SlotCol). */
  lemma SlotBijective()
    ensures forall row: nat, col: nat | row < 4 && col < 4 ::
      Slot(row, col) < 16 && SlotRow(Slot(row, col)) == row && SlotCol(Slot(row, col)) == col
    ensures forall k: nat | k < 16 ::
      SlotRow(k) < 4 && SlotCol(k) < 4 && Slot(SlotRow(k), SlotCol(k)) == k
  {
  }

  /** Every output value is the input element at the position Slot maps back to. */
  lemma GetUDMatrixAt<T>(m: Matrix4x4<T>, k: nat)
    requires k < 16
    ensures SlotRow(k) < 4 && SlotCol(k) < 4
    ensures GetUDMatrix(m)[k] == m.Get(SlotRow(k), SlotCol(k))
  {
    SlotBijective();
    assert Slot(SlotRow(k), SlotCol(k)) == k;
  }

  /** Reading the flat layout back recovers the original matrix exactly. */
  lemma FromGetUDMatrix<T>(m: Matrix4x4<T>)
    ensures FromUDMatrix(GetUDMatrix(m)) == m
  {
  }

  /** Flattening a read-back layout gives the layout back: the two are inverse. */
  lemma GetFromUDMatrix<T>(ud: seq<T>)
    requires |ud| == 16
    ensures GetUDMatrix(FromUDMatrix(ud)) == ud
  {
    var r := GetUDMatrix(FromUDMatrix(ud));
    forall k: nat | k < 16 ensures r[k] == ud[k] {
      GetUDMatrixAt(FromUDMatrix(ud), k);
      SlotBijective();
    }
  }

  /** Two matrices with the same SDK layout are equal: no information is lost. */
  lemma GetUDMatrixInjective<T>(a: Matrix4x4<T>, b: Matrix4x4<T>)
    requires GetUDMatrix(a) == GetUDMatrix(b)
    ensures a == b
  {
    FromGetUDMatrix(a);
    FromGetUDMatrix(b);
  }

  /** The layout is the row-by-row reading of the transpose. */
  lemma GetUDMatrixIsTransposedRows<T>(m: Matrix4x4<T>)
    ensures GetUDMatrix(m) == RowMajor(Transpose(m))
  {
  }

  /** 1 when a is x, 0 otherwise. */
  ghost function Hit<T>(a: T, x: T): nat
  {
    if a == x then 1 else 0
  }

  /** Appending a adds Hit(a, x) occurrences of x. */
  lemma MultisetOfSnoc<T>(s: seq<T>, a: T, x: T)
    ensures multiset(s + [a])[x] == multiset(s)[x] + Hit(a, x)
  {
    assert multiset(s + [a]) == multiset(s) + multiset{a};
  }

  /** How often x occurs in a four-element sequence. */
  lemma MultisetOfFour<T>(a: T, b: T, c: T, d: T, x: T)
    ensures multiset([a, b, c, d])[x] == Hit(a, x) + Hit(b, x) + Hit(c, x) + Hit(d, x)
  {
    MultisetOfSnoc([], a, x);
    assert [a] + [b] == [a, b];
    MultisetOfSnoc([a], b, x);
    assert [a, b] + [c] == [a, b, c];
    MultisetOfSnoc([a, b], c, x);
    assert [a, b, c] + [d] == [a, b, c, d];
    MultisetOfSnoc([a, b, c], d, x);
  }

  /** How often x occurs in a concatenation of four sequences. */
  lemma MultisetOfConcat<T>(p: seq<T>, q: seq<T>, r: seq<T>, s: seq<T>, x: T)
    ensures multiset(p + q + r + s)[x] == multiset(p)[x] + multiset(q)[x] + multiset(r)[x] + multiset(s)[x]
  {
  }

  /** The layout is the four columns one after the other; RowMajor the four rows. */
  lemma LayoutByColumns<T>(m: Matrix4x4<T>)
    ensures GetUDMatrix(m) == [m.m00, m.m10, m.m20, m.m30] + [m.m01, m.m11, m.m21, m.m31]
                            + [m.m02, m.m12, m.m22, m.m32] + [m.m03, m.m13, m.m23, m.m33]
    ensures RowMajor(m) == [m.m00, m.m01, m.m02, m.m03] + [m.m10, m.m11, m.m12, m.m13]
                         + [m.m20, m.m21, m.m22, m.m23] + [m.m30, m.m31, m.m32, m.m33]
  {
  }

  /** x occurs as often in the layout as among the matrix's elements. */
  lemma GetUDMatrixCountAt<T>(m: Matrix4x4<T>, x: T)
    ensures multiset(GetUDMatrix(m))[x] == multiset(RowMajor(m))[x]
  {
    LayoutByColumns(m);
    MultisetOfConcat([m.m00, m.m10, m.m20, m.m30], [m.m01, m.m11, m.m21, m.m31],
                     [m.m02, m.m12, m.m22, m.m32], [m.m03, m.m13, m.m23, m.m33], x);
    MultisetOfConcat([m.m00, m.m01, m.m02, m.m03], [m.m10, m.m11, m.m12, m.m13],
                     [m.m20, m.m21, m.m22, m.m23], [m.m30, m.m31, m.m32, m.m33], x);
    MultisetOfFour(m.m00, m.m10, m.m20, m.m30, x);
    MultisetOfFour(m.m01, m.m11, m.m21, m.m31, x);
    MultisetOfFour(m.m02, m.m12, m.m22, m.m32, x);
    MultisetOfFour(m.m03, m.m13, m.m23, m.m33, x);
    MultisetOfFour(m.m00, m.m01, m.m02, m.m03, x);
    MultisetOfFour(m.m10, m.m11, m.m12, m.m13, x);
    MultisetOfFour(m.m20, m.m21, m.m22, m.m23, x);
    MultisetOfFour(m.m30, m.m31, m.m32, m.m33, x);
  }

  /** Two sequences in which every value occurs equally often have the same multiset. */
  lemma SameCountsSameMultiset<T>(a: seq<T>, b: seq<T>)
    requires forall x: T :: multiset(a)[x] == multiset(b)[x]
    ensures multiset(a) == multiset(b)
  {
  }

  /** Each input element appears exactly once in the output: it is a permutation of the elements. */
  lemma GetUDMatrixPermutes<T>(m: Matrix4x4<T>)
    ensures multiset(GetUDMatrix(m)) == multiset(RowMajor(m))
  {
    forall x: T ensures multiset(GetUDMatrix(m))[x] == multiset(RowMajor(m))[x] {
      GetUDMatrixCountAt(m, x);
    }
    SameCountsSameMultiset(GetUDMatrix(m), RowMajor(m));
  }
}
