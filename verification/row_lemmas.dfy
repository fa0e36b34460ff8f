/** Facts about filtering and summing CartItem rows, used by the cart properties. */
module RowLemmas {
  import opened CartStore

  lemma {:induction false} FilterAppend(a: seq<Row>, b: seq<Row>, f: RowFilter)
    ensures Filter(a + b, f) == Filter(a, f) + Filter(b, f)
    decreases |a|
  {
    if |a| == 0 {
      assert a + b == b;
    } else {
      assert (a + b)[1..] == a[1..] + b;
      FilterAppend(a[1..], b, f);
    }
  }

  /** A filter keeps every matching row exactly as many times as the table holds it, and no
      other row. */
  lemma {:induction false} FilterCounts(rows: seq<Row>, f: RowFilter)
    ensures forall r :: multiset(Filter(rows, f))[r] == if Matches(f, r) then multiset(rows)[r] else 0
    decreases |rows|
  {
    if |rows| > 0 {
      FilterCounts(rows[1..], f);
      assert rows == [rows[0]] + rows[1..];
    }
  }

  lemma {:induction false} SumsAppend(a: seq<Row>, b: seq<Row>)
    ensures SumQuantity(a + b) == SumQuantity(a) + SumQuantity(b)
    ensures SumPrice(a + b) == SumPrice(a) + SumPrice(b)
    decreases |a|
  {
    if |a| == 0 {
      assert a + b == b;
    } else {
      assert (a + b)[1..] == a[1..] + b;
      SumsAppend(a[1..], b);
    }
  }

  lemma FilterSingle(r: Row, f: RowFilter)
    ensures Filter([r], f) == if Matches(f, r) then [r] else []
  {
  }

  lemma SumsSingle(r: Row)
    ensures SumQuantity([r]) == r.quantity && SumPrice([r]) == r.price
  {
  }

  /** A table split around position i, so that the append lemmas apply. */
  lemma SplitAt(rows: seq<Row>, i: nat, r: Row)
    requires i < |rows|
    ensures rows == rows[..i] + [rows[i]] + rows[i + 1..]
    ensures rows[i := r] == rows[..i] + [r] + rows[i + 1..]
  {
  }

  /** Filtering the three parts of a split table. */
  lemma FilterAround(rows: seq<Row>, i: nat, r: Row, f: RowFilter)
    requires i < |rows|
    ensures Filter(rows, f) == Filter(rows[..i], f) + Filter([rows[i]], f) + Filter(rows[i + 1..], f)
    ensures Filter(rows[i := r], f) == Filter(rows[..i], f) + Filter([r], f) + Filter(rows[i + 1..], f)
    ensures Filter(rows[..i] + rows[i + 1..], f) == Filter(rows[..i], f) + Filter(rows[i + 1..], f)
  {
    SplitAt(rows, i, r);
    FilterAppend(rows[..i] + [rows[i]], rows[i + 1..], f);
    FilterAppend(rows[..i], [rows[i]], f);
    FilterAppend(rows[..i] + [r], rows[i + 1..], f);
    FilterAppend(rows[..i], [r], f);
    FilterAppend(rows[..i], rows[i + 1..], f);
  }

  /** Replacing a row by one of the same cart shifts that cart's sums by the difference
      and leaves every other cart's lines as they were. */
  lemma ReplaceRowSums(rows: seq<Row>, i: nat, r: Row)
    requires i < |rows| && rows[i].user == r.user
    ensures SumQuantity(CartRows(rows[i := r], r.user))
            == SumQuantity(CartRows(rows, r.user)) - rows[i].quantity + r.quantity
    ensures SumPrice(CartRows(rows[i := r], r.user))
            == SumPrice(CartRows(rows, r.user)) - rows[i].price + r.price
    ensures forall v :: v != r.user ==> CartRows(rows[i := r], v) == CartRows(rows, v)
  {
    var u := r.user;
    FilterAround(rows, i, r, OfCart(u));
    var pre, post := CartRows(rows[..i], u), CartRows(rows[i + 1..], u);
    SumsAppend(pre + [rows[i]], post);
    SumsAppend(pre, [rows[i]]);
    SumsAppend(pre + [r], post);
    SumsAppend(pre, [r]);
    FilterSingle(rows[i], OfCart(u));
    FilterSingle(r, OfCart(u));
    SumsSingle(rows[i]);
    SumsSingle(r);
    forall v | v != u
      ensures CartRows(rows[i := r], v) == CartRows(rows, v)
    {
      FilterAround(rows, i, r, OfCart(v));
    }
  }

  /** Deleting one row lowers its cart's sums by that row and leaves other carts alone. */
  lemma DeleteRowSums(rows: seq<Row>, i: nat)
    requires i < |rows|
    ensures SumQuantity(CartRows(rows[..i] + rows[i + 1..], rows[i].user))
            == SumQuantity(CartRows(rows, rows[i].user)) - rows[i].quantity
    ensures SumPrice(CartRows(rows[..i] + rows[i + 1..], rows[i].user))
            == SumPrice(CartRows(rows, rows[i].user)) - rows[i].price
    ensures forall v :: v != rows[i].user ==> CartRows(rows[..i] + rows[i + 1..], v) == CartRows(rows, v)
  {
    var u := rows[i].user;
    FilterAround(rows, i, rows[i], OfCart(u));
    var pre, post := CartRows(rows[..i], u), CartRows(rows[i + 1..], u);
    SumsAppend(pre + [rows[i]], post);
    SumsAppend(pre, [rows[i]]);
    SumsAppend(pre, post);
    FilterSingle(rows[i], OfCart(u));
    SumsSingle(rows[i]);
    forall v | v != u
      ensures CartRows(rows[..i] + rows[i + 1..], v) == CartRows(rows, v)
    {
      FilterAround(rows, i, rows[i], OfCart(v));
    }
  }

  /** Appending a row raises its cart's sums by that row and leaves other carts alone. */
  lemma AppendRowSums(rows: seq<Row>, r: Row)
    ensures SumQuantity(CartRows(rows + [r], r.user)) == SumQuantity(CartRows(rows, r.user)) + r.quantity
    ensures SumPrice(CartRows(rows + [r], r.user)) == SumPrice(CartRows(rows, r.user)) + r.price
    ensures forall v :: v != r.user ==> CartRows(rows + [r], v) == CartRows(rows, v)
  {
    FilterAppend(rows, [r], OfCart(r.user));
    SumsAppend(CartRows(rows, r.user), [r]);
    FilterSingle(r, OfCart(r.user));
    SumsSingle(r);
    forall v | v != r.user
      ensures CartRows(rows + [r], v) == CartRows(rows, v)
    {
      FilterAppend(rows, [r], OfCart(v));
    }
  }

  /** Filtering a filtered table by a condition that implies the first filter, or that
      excludes everything the first filter kept. */
  lemma {:induction false} FilterTwice(rows: seq<Row>, f: RowFilter, g: RowFilter)
    ensures (forall r :: Matches(g, r) ==> Matches(f, r)) ==> Filter(Filter(rows, f), g) == Filter(rows, g)
    ensures (forall r :: Matches(g, r) ==> !Matches(f, r)) ==> Filter(Filter(rows, f), g) == []
    decreases |rows|
  {
    if |rows| > 0 {
      FilterTwice(rows[1..], f, g);
      var head := if Matches(f, rows[0]) then [rows[0]] else [];
      FilterAppend(head, Filter(rows[1..], f), g);
    }
  }

  lemma {:induction false} FilterKeepsUnique(rows: seq<Row>, f: RowFilter)
    requires UniqueLines(rows)
    ensures UniqueLines(Filter(rows, f))
    decreases |rows|
  {
    if |rows| > 0 {
      FilterKeepsUnique(rows[1..], f);
      var tail := Filter(rows[1..], f);
      if Matches(f, rows[0]) {
        var kept := [rows[0]] + tail;
        forall i, j | 0 <= i < j < |kept|
          ensures Key(kept[i]) != Key(kept[j])
        {
          if i == 0 {
            assert kept[j] in rows[1..];
            var k :| 0 <= k < |rows[1..]| && rows[1..][k] == kept[j];
            assert rows[k + 1] == kept[j];
          } else {
            assert kept[i] == tail[i - 1] && kept[j] == tail[j - 1];
          }
        }
      } else {
        assert Filter(rows, f) == tail;
      }
    }
  }
}
