/** Rows as values, and the ordered product that denormalization is meant to compute
    (utils/row.go, utils/orm.go). */
module RowProduct {

  datatype Table = Table(name: string)

  /** A Go value seen through reflection: pointers and interfaces are followed. `Scalar` stands for
      everything that is neither a struct nor a slice. */
  datatype Value = Nil | Scalar(text: string) | Struct(fields: seq<Field>) | Slice(elems: seq<Value>)

  /** A struct field: its column names by table tag ("" is no tag), and its value. */
  datatype Field = Field(tags: map<Table, string>, value: Value)

  /** The columns of one row. */
  datatype Cells = Cells(names: seq<string>, values: seq<Value>)

  const NO_CELLS := Cells([], [])

  function Plus(a: Cells, b: Cells): Cells {
    Cells(a.names + b.names, a.values + b.values)
  }

  function Each(x: Cells, b: seq<Cells>): seq<Cells> {
    if b == [] then [] else [Plus(x, b[0])] + Each(x, b[1..])
  }

  /** Every row of a with every row of b, in this order. */
  function Product(a: seq<Cells>, b: seq<Cells>): seq<Cells> {
    if a == [] then [] else Each(a[0], b) + Product(a[1..], b)
  }

  /** The product of a list of factors, first factor slowest. */
  function Cart(fs: seq<seq<Cells>>): seq<Cells> {
    if fs == [] then [NO_CELLS] else Product(fs[0], Cart(fs[1..]))
  }

  // ---------------------------------------------------------------- laws of the product

  lemma {:induction false} ProductConcat(a: seq<Cells>, b: seq<Cells>, c: seq<Cells>)
    ensures Product(a + b, c) == Product(a, c) + Product(b, c)
  {
    if a == [] {
      assert a + b == b;
    } else {
      assert (a + b)[1..] == a[1..] + b;
      ProductConcat(a[1..], b, c);
    }
  }

  lemma PlusAssoc(x: Cells, y: Cells, z: Cells)
    ensures Plus(Plus(x, y), z) == Plus(x, Plus(y, z))
  {
    assert x.names + y.names + z.names == x.names + (y.names + z.names);
    assert x.values + y.values + z.values == x.values + (y.values + z.values);
  }

  lemma {:induction false} EachConcat(x: Cells, a: seq<Cells>, b: seq<Cells>)
    ensures Each(x, a + b) == Each(x, a) + Each(x, b)
  {
    if a == [] {
      assert a + b == b;
    } else {
      assert (a + b)[1..] == a[1..] + b;
      EachConcat(x, a[1..], b);
    }
  }

  lemma {:induction false} EachEach(x: Cells, y: Cells, c: seq<Cells>)
    ensures Each(Plus(x, y), c) == Each(x, Each(y, c))
  {
    if c != [] {
      PlusAssoc(x, y, c[0]);
      EachEach(x, y, c[1..]);
      assert Each(y, c)[1..] == Each(y, c[1..]);
    }
  }

  lemma {:induction false} EachSize(x: Cells, b: seq<Cells>)
    ensures |Each(x, b)| == |b|
  {
    if b != [] {
      EachSize(x, b[1..]);
    }
  }

  lemma {:induction false} EachAt(x: Cells, b: seq<Cells>, j: nat)
    requires j < |b|
    ensures |Each(x, b)| == |b| && Each(x, b)[j] == Plus(x, b[j])
  {
    if |b| > 1 {
      EachAt(x, b[1..], if j > 0 then j - 1 else 0);
    }
  }

  lemma {:induction false} EachNothing(b: seq<Cells>)
    ensures Each(NO_CELLS, b) == b
  {
    if b != [] {
      PlusNothing(b[0]);
      EachNothing(b[1..]);
    }
  }

  lemma {:induction false} EachProduct(x: Cells, b: seq<Cells>, c: seq<Cells>)
    ensures Product(Each(x, b), c) == Each(x, Product(b, c))
  {
    if b != [] {
      assert Each(x, b)[1..] == Each(x, b[1..]);
      EachProduct(x, b[1..], c);
      EachEach(x, b[0], c);
      EachConcat(x, Each(b[0], c), Product(b[1..], c));
    }
  }

  lemma {:induction false} ProductAssoc(a: seq<Cells>, b: seq<Cells>, c: seq<Cells>)
    ensures Product(Product(a, b), c) == Product(a, Product(b, c))
  {
    if a != [] {
      ProductConcat(Each(a[0], b), Product(a[1..], b), c);
      EachProduct(a[0], b, c);
      ProductAssoc(a[1..], b, c);
    }
  }

  lemma PlusNothing(x: Cells)
    ensures Plus(NO_CELLS, x) == x && Plus(x, NO_CELLS) == x
  {
  }

  lemma {:induction false} ProductUnit(a: seq<Cells>)
    ensures Product([NO_CELLS], a) == a
    ensures Product(a, [NO_CELLS]) == a
  {
    EachNothing(a);
    assert Product([NO_CELLS][1..], a) == [];
    if a != [] {
      ProductUnit(a[1..]);
      PlusNothing(a[0]);
      assert Each(a[0], [NO_CELLS]) == [a[0]];
    }
  }

  lemma {:induction false} ProductSize(a: seq<Cells>, b: seq<Cells>)
    ensures |Product(a, b)| == |a| * |b|
  {
    if a != [] {
      ProductSize(a[1..], b);
      EachSize(a[0], b);
      assert |a| * |b| == |b| + (|a| - 1) * |b|;
    }
  }

  /** Row i of a with row j of b stands at i * |b| + j. */
  lemma {:induction false} ProductAt(a: seq<Cells>, b: seq<Cells>, i: nat, j: nat)
    requires i < |a| && j < |b|
    ensures i * |b| + j < |Product(a, b)| && Product(a, b)[i * |b| + j] == Plus(a[i], b[j])
  {
    ProductSize(a[1..], b);
    EachSize(a[0], b);
    if i == 0 {
      EachAt(a[0], b, j);
    } else {
      ProductAt(a[1..], b, i - 1, j);
      var n := (i - 1) * |b| + j;
      assert i * |b| + j == |b| + n;
      assert Product(a, b)[|b| + n] == Product(a[1..], b)[n];
    }
  }

  /** Appending a factor multiplies on the right: the fold over the fields computes the product. */
  lemma {:induction false} CartAppend(fs: seq<seq<Cells>>, f: seq<Cells>)
    ensures Cart(fs + [f]) == Product(Cart(fs), f)
  {
    if fs == [] {
      assert ([f])[1..] == [];
      ProductUnit(f);
      assert fs + [f] == [f];
    } else {
      assert (fs + [f])[1..] == fs[1..] + [f];
      CartAppend(fs[1..], f);
      ProductAssoc(fs[0], Cart(fs[1..]), f);
    }
  }

  // ---------------------------------------------------------------- the order of the product

  /** One row chosen from each factor. */
  predicate Choice(fs: seq<seq<Cells>>, ix: seq<nat>) {
    |ix| == |fs| && forall k :: 0 <= k < |fs| ==> ix[k] < |fs[k]|
  }

  function Chosen(fs: seq<seq<Cells>>, ix: seq<nat>): Cells
    requires Choice(fs, ix)
  {
    if fs == [] then NO_CELLS else Plus(fs[0][ix[0]], Chosen(fs[1..], ix[1..]))
  }

  function Size(fs: seq<seq<Cells>>): nat {
    if fs == [] then 1 else |fs[0]| * Size(fs[1..])
  }

  function Position(fs: seq<seq<Cells>>, ix: seq<nat>): nat
    requires Choice(fs, ix)
  {
    if fs == [] then 0 else ix[0] * Size(fs[1..]) + Position(fs[1..], ix[1..])
  }

  /** ix comes before iy in lexicographic order. */
  predicate Before(ix: seq<nat>, iy: seq<nat>)
    requires |ix| == |iy|
  {
    |ix| > 0 && (ix[0] < iy[0] || (ix[0] == iy[0] && Before(ix[1..], iy[1..])))
  }

  lemma {:induction false} CartSize(fs: seq<seq<Cells>>)
    ensures |Cart(fs)| == Size(fs)
  {
    if fs != [] {
      CartSize(fs[1..]);
      ProductSize(fs[0], Cart(fs[1..]));
    }
  }

  /** Each choice of one row per factor is one row of the product, ... */
  lemma {:induction false} CartAt(fs: seq<seq<Cells>>, ix: seq<nat>)
    requires Choice(fs, ix)
    ensures Position(fs, ix) < |Cart(fs)| && Cart(fs)[Position(fs, ix)] == Chosen(fs, ix)
  {
    if fs != [] {
      CartAt(fs[1..], ix[1..]);
      CartSize(fs[1..]);
      ProductAt(fs[0], Cart(fs[1..]), ix[0], Position(fs[1..], ix[1..]));
    }
  }

  /** ... and the rows stand in the lexicographic order of the choices. */
  lemma {:induction false} CartOrdered(fs: seq<seq<Cells>>, ix: seq<nat>, iy: seq<nat>)
    requires Choice(fs, ix) && Choice(fs, iy) && Before(ix, iy)
    ensures Position(fs, ix) < Position(fs, iy)
  {
    var rest := fs[1..];
    CartAt(rest, ix[1..]);
    CartAt(rest, iy[1..]);
    CartSize(rest);
    if ix[0] < iy[0] {
      assert (ix[0] + 1) * Size(rest) <= iy[0] * Size(rest) by {
        Monotone(ix[0] + 1, iy[0], Size(rest));
      }
      assert (ix[0] + 1) * Size(rest) == ix[0] * Size(rest) + Size(rest);
    } else {
      CartOrdered(rest, ix[1..], iy[1..]);
    }
  }

  lemma Monotone(a: nat, b: nat, c: nat)
    requires a <= b
    ensures a * c <= b * c
  {
    assert b * c == a * c + (b - a) * c;
  }
}
