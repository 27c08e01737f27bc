/** Group keys and their order.

    A pandas `groupby` over one or more columns sorts its groups by the
    tuple of key values, compared the way Python compares tuples: element
    by element, a proper prefix first. A key column holds either integers
    (codes such as `mnth` or `yr`) or strings (the weather label), and
    Python compares strings code point by code point, again with a prefix
    first. A key is therefore a sequence of cells, and `KeyLt` is the
    lexicographic order over cells. */
module Keys {

  datatype Cell = Int(n: int) | Text(s: string)

  type Key = seq<Cell>

  /** Python's `<` on strings. */
  predicate TextLt(a: string, b: string)
    decreases |a|
  {
    if |b| == 0 then false
    else if |a| == 0 then true
    else a[0] < b[0] || (a[0] == b[0] && TextLt(a[1..], b[1..]))
  }

  /** Cells of one key column are all of one kind; across kinds the order
      is fixed arbitrarily (integers first) so that the order is total. */
  predicate CellLt(a: Cell, b: Cell)
  {
    match (a, b)
    case (Int(x), Int(y)) => x < y
    case (Text(x), Text(y)) => TextLt(x, y)
    case (Int(_), Text(_)) => true
    case (Text(_), Int(_)) => false
  }

  /** Python's `<` on tuples of key cells. */
  predicate KeyLt(a: Key, b: Key)
    decreases |a|
  {
    if |b| == 0 then false
    else if |a| == 0 then true
    else CellLt(a[0], b[0]) || (a[0] == b[0] && KeyLt(a[1..], b[1..]))
  }

  lemma {:induction false} TextLtIrreflexive(a: string)
    ensures !TextLt(a, a)
    decreases |a|
  {
    if |a| > 0 { TextLtIrreflexive(a[1..]); }
  }

  lemma {:induction false} TextLtTransitive(a: string, b: string, c: string)
    requires TextLt(a, b) && TextLt(b, c)
    ensures TextLt(a, c)
    decreases |a|
  {
    if |a| > 0 && a[0] == b[0] && b[0] == c[0] {
      TextLtTransitive(a[1..], b[1..], c[1..]);
    }
  }

  lemma {:induction false} TextLtTotal(a: string, b: string)
    requires a != b
    ensures TextLt(a, b) || TextLt(b, a)
    decreases |a|
  {
    if |a| > 0 && |b| > 0 && a[0] == b[0] {
      assert a == [a[0]] + a[1..] && b == [b[0]] + b[1..];
      TextLtTotal(a[1..], b[1..]);
    }
  }

  lemma CellLtIrreflexive(a: Cell)
    ensures !CellLt(a, a)
  {
    if a.Text? { TextLtIrreflexive(a.s); }
  }

  lemma CellLtTransitive(a: Cell, b: Cell, c: Cell)
    requires CellLt(a, b) && CellLt(b, c)
    ensures CellLt(a, c)
  {
    if a.Text? && b.Text? && c.Text? { TextLtTransitive(a.s, b.s, c.s); }
  }

  lemma CellLtTotal(a: Cell, b: Cell)
    requires a != b
    ensures CellLt(a, b) || CellLt(b, a)
  {
    if a.Text? && b.Text? { TextLtTotal(a.s, b.s); }
  }

  lemma {:induction false} KeyLtIrreflexive(a: Key)
    ensures !KeyLt(a, a)
    decreases |a|
  {
    if |a| > 0 {
      CellLtIrreflexive(a[0]);
      KeyLtIrreflexive(a[1..]);
    }
  }

  lemma {:induction false} KeyLtTransitive(a: Key, b: Key, c: Key)
    requires KeyLt(a, b) && KeyLt(b, c)
    ensures KeyLt(a, c)
    decreases |a|
  {
    if |a| > 0 {
      if CellLt(a[0], b[0]) && CellLt(b[0], c[0]) {
        CellLtTransitive(a[0], b[0], c[0]);
      } else if a[0] == b[0] && b[0] == c[0] {
        KeyLtTransitive(a[1..], b[1..], c[1..]);
      }
    }
  }

  lemma {:induction false} KeyLtTotal(a: Key, b: Key)
    requires a != b
    ensures KeyLt(a, b) || KeyLt(b, a)
    decreases |a|
  {
    if |a| > 0 && |b| > 0 {
      if a[0] == b[0] {
        assert a == [a[0]] + a[1..] && b == [b[0]] + b[1..];
        KeyLtTotal(a[1..], b[1..]);
      } else {
        CellLtTotal(a[0], b[0]);
      }
    }
  }

  /** On the two-integer keys of a `groupby([code, "yr"])` the order is
      the lexicographic order on pairs of integers. */
  lemma PairKeyLt(a1: int, b1: int, a2: int, b2: int)
    ensures KeyLt([Int(a1), Int(b1)], [Int(a2), Int(b2)])
        <==> a1 < a2 || (a1 == a2 && b1 < b2)
  {
    assert [Int(a1), Int(b1)][1..] == [Int(b1)];
    assert [Int(a2), Int(b2)][1..] == [Int(b2)];
    SingleKeyLt(b1, b2);
  }

  /** On the one-integer keys of a `groupby(code)` it is `<` on integers. */
  lemma SingleKeyLt(a: int, b: int)
    ensures KeyLt([Int(a)], [Int(b)]) <==> a < b
  {
    assert [Int(a)][1..] == [] && [Int(b)][1..] == [];
  }

  /** On one-string keys it is `<` on strings. */
  lemma TextKeyLt(a: string, b: string)
    ensures KeyLt([Text(a)], [Text(b)]) <==> TextLt(a, b)
  {
    assert [Text(a)][1..] == [] && [Text(b)][1..] == [];
  }

}
