/** What the check of only a slice's first element (utils/orm.go) costs: rows of a slice that starts
    with a nil or a plain value. */
module DroppedRows {
  import opened RowProduct
  import opened Denormalize

  // ---------------------------------------------------------------- the rows without that check

  function FullRows(v: Value, tables: seq<Table>, t: Table): seq<Cells>
    decreases v, Width(v) + 1
  {
    if v.Struct? then Rows(FullFactors(v, |v.fields|, tables, t)) else []
  }

  function FullFactors(v: Value, k: nat, tables: seq<Table>, t: Table): seq<seq<Cells>>
    requires v.Struct? && k <= |v.fields|
    decreases v, k, 0
  {
    if k == 0 then []
    else FullFactors(v, k - 1, tables, t) + FullFieldFactors(v, k - 1, tables, t)
  }

  function FullFieldFactors(v: Value, k: nat, tables: seq<Table>, t: Table): seq<seq<Cells>>
    requires v.Struct? && k < |v.fields|
    decreases v, k, 1
  {
    var f := v.fields[k];
    if f.value.Nil? then []
    else TagFactors(f, tables, |tables|, t) + AsFactor(FullNested(f.value, tables, t))
  }

  /** Every slice is looked into; elements that are no structs have no rows. */
  function FullNested(v: Value, tables: seq<Table>, t: Table): seq<Cells>
    decreases v, Width(v) + 2
  {
    match v
    case Struct(_) => FullRows(v, tables, t)
    case Slice(elems) => FullElems(v, |elems|, tables, t)
    case _ => []
  }

  function FullElems(v: Value, n: nat, tables: seq<Table>, t: Table): seq<Cells>
    requires v.Slice? && n <= |v.elems|
    decreases v, n
  {
    if n == 0 then [] else FullElems(v, n - 1, tables, t) + FullRows(v.elems[n - 1], tables, t)
  }

  // ---------------------------------------------------------------- when rows are dropped

  predicate IsTagged(f: Field, tables: seq<Table>, t: Table) {
    t in tables && Column(f, t) != ""
  }

  /** Some field that is not nil is tagged for t, here or further inside. */
  predicate Contributes(v: Value, tables: seq<Table>, t: Table)
    decreases v, 0
  {
    v.Struct? && exists k :: 0 <= k < |v.fields| && FieldContributes(v.fields[k], tables, t)
  }

  predicate FieldContributes(f: Field, tables: seq<Table>, t: Table)
    decreases f, 0
  {
    !f.value.Nil? && (IsTagged(f, tables, t) || ContributesInside(f.value, tables, t))
  }

  predicate ContributesInside(v: Value, tables: seq<Table>, t: Table)
    decreases v, 1
  {
    match v
    case Struct(_) => Contributes(v, tables, t)
    case Slice(elems) => exists j :: 0 <= j < |elems| && Contributes(elems[j], tables, t)
    case _ => false
  }

  /** Somewhere inside v is a slice that does not start with a struct, yet holds a struct with a
      column for t. */
  predicate Drops(v: Value, tables: seq<Table>, t: Table)
    decreases v, 0
  {
    v.Struct? && exists k :: 0 <= k < |v.fields| && DropsInside(v.fields[k].value, tables, t)
  }

  predicate DropsInside(v: Value, tables: seq<Table>, t: Table)
    decreases v, 1
  {
    match v
    case Struct(_) => Drops(v, tables, t)
    case Slice(elems) =>
      if LooksInto(v) then exists j :: 0 <= j < |elems| && Drops(elems[j], tables, t)
      else ContributesInside(v, tables, t)
    case _ => false
  }

  // ---------------------------------------------------------------- counting cells

  function Total(rows: seq<Cells>): nat {
    if rows == [] then 0 else |rows[0].names| + Total(rows[1..])
  }

  lemma {:induction false} TotalConcat(a: seq<Cells>, b: seq<Cells>)
    ensures Total(a + b) == Total(a) + Total(b)
  {
    if a == [] {
      assert a + b == b;
    } else {
      assert (a + b)[1..] == a[1..] + b;
      TotalConcat(a[1..], b);
    }
  }

  lemma {:induction false} TotalEach(x: Cells, b: seq<Cells>)
    ensures Total(Each(x, b)) == |x.names| * |b| + Total(b)
  {
    if b != [] {
      TotalEach(x, b[1..]);
      assert |x.names| * |b| == |x.names| + |x.names| * (|b| - 1);
    }
  }

  lemma {:induction false} TotalProduct(a: seq<Cells>, b: seq<Cells>)
    ensures Total(Product(a, b)) == Total(a) * |b| + |a| * Total(b)
  {
    if a != [] {
      TotalProduct(a[1..], b);
      TotalEach(a[0], b);
      TotalConcat(Each(a[0], b), Product(a[1..], b));
      Distribute(|a[0].names|, Total(a[1..]), |b|);
      Distribute(1, |a| - 1, Total(b));
    }
  }

  lemma Distribute(x: nat, y: nat, z: nat)
    ensures (x + y) * z == x * z + y * z
  {
  }

  lemma {:induction false} CartConcat(fs: seq<seq<Cells>>, gs: seq<seq<Cells>>)
    ensures Cart(fs + gs) == Product(Cart(fs), Cart(gs))
  {
    if fs == [] {
      assert fs + gs == gs;
      ProductUnit(Cart(gs));
    } else {
      assert (fs + gs)[1..] == fs[1..] + gs;
      CartConcat(fs[1..], gs);
      ProductAssoc(fs[0], Cart(fs[1..]), Cart(gs));
    }
  }

  lemma CartFactor(rows: seq<Cells>)
    ensures Cart(AsFactor(rows)) == OrSeed(rows)
  {
    if rows != [] {
      assert [rows][1..] == [];
      ProductUnit(rows);
    }
  }

  /** Rows and cells of a product, from those of the parts. */
  lemma CartWeight(fs: seq<seq<Cells>>, gs: seq<seq<Cells>>)
    ensures |Cart(fs + gs)| == |Cart(fs)| * |Cart(gs)|
    ensures Total(Cart(fs + gs)) == Total(Cart(fs)) * |Cart(gs)| + |Cart(fs)| * Total(Cart(gs))
  {
    CartConcat(fs, gs);
    ProductSize(Cart(fs), Cart(gs));
    TotalProduct(Cart(fs), Cart(gs));
  }

  // ---------------------------------------------------------------- contributing means having cells

  /** These factors stand for at least one cell if it is so said, and are none otherwise. */
  ghost predicate CellsIf(fs: seq<seq<Cells>>, some: bool) {
    Solid(fs) && if some then fs != [] && Total(Cart(fs)) > 0 else fs == []
  }

  lemma CellsIfConcat(fs: seq<seq<Cells>>, a: bool, gs: seq<seq<Cells>>, b: bool)
    requires CellsIf(fs, a) && CellsIf(gs, b)
    ensures CellsIf(fs + gs, a || b)
  {
    CartSolid(fs);
    CartSolid(gs);
    CartWeight(fs, gs);
    SumPositive(Total(Cart(fs)), |Cart(gs)|, |Cart(fs)|, Total(Cart(gs)));
  }

  lemma SumPositive(t: nat, m: nat, n: nat, u: nat)
    requires m > 0 && n > 0
    ensures t > 0 || u > 0 ==> t * m + n * u > 0
  {
    Positive(t, m);
    Positive(n, u);
  }

  lemma Positive(x: nat, y: nat)
    ensures x > 0 && y > 0 ==> x * y > 0
  {
  }

  lemma {:induction false} TagCells(f: Field, tables: seq<Table>, j: nat, t: Table)
    requires j <= |tables|
    ensures CellsIf(TagFactors(f, tables, j, t), t in tables[..j] && Column(f, t) != "")
  {
    if j > 0 {
      TagCells(f, tables, j - 1, t);
      assert tables[..j] == tables[..j - 1] + [tables[j - 1]];
      var last := tables[j - 1] == t && Column(f, t) != "";
      if last {
        var cells := [TagCell(Column(f, t), f.value)];
        assert cells[1..] == [] && Total(cells) == 1 && AsFactor(cells) == [cells];
        CartFactor(cells);
        CellsIfConcat(TagFactors(f, tables, j - 1, t), t in tables[..j - 1] && Column(f, t) != "", [cells], true);
        assert TagFactors(f, tables, j, t) == TagFactors(f, tables, j - 1, t) + [cells];
      } else {
        assert TagFactors(f, tables, j, t) == TagFactors(f, tables, j - 1, t);
      }
    }
  }

  ghost predicate RowsIf(rows: seq<Cells>, some: bool) {
    if some then Total(rows) > 0 else rows == []
  }

  lemma {:induction false} FullRowsIf(v: Value, tables: seq<Table>, t: Table)
    ensures RowsIf(FullRows(v, tables, t), Contributes(v, tables, t))
    decreases v, Width(v) + 1
  {
    if v.Struct? {
      FullFactorsIf(v, |v.fields|, tables, t);
    }
  }

  /** One of the first k fields contributes. */
  predicate ContributesBefore(v: Value, k: nat, tables: seq<Table>, t: Table)
    requires v.Struct? && k <= |v.fields|
  {
    exists i :: 0 <= i < k && FieldContributes(v.fields[i], tables, t)
  }

  lemma ContributesNext(v: Value, k: nat, tables: seq<Table>, t: Table)
    requires v.Struct? && k < |v.fields|
    ensures ContributesBefore(v, k + 1, tables, t)
            == (ContributesBefore(v, k, tables, t) || FieldContributes(v.fields[k], tables, t))
  {
  }

  lemma {:induction false} FullFactorsIf(v: Value, k: nat, tables: seq<Table>, t: Table)
    requires v.Struct? && k <= |v.fields|
    ensures CellsIf(FullFactors(v, k, tables, t), ContributesBefore(v, k, tables, t))
    decreases v, k, 0
  {
    if k > 0 {
      ContributesNext(v, k - 1, tables, t);
      FullFactorsIf(v, k - 1, tables, t);
      FullFieldIf(v, k - 1, tables, t);
      CellsIfConcat(FullFactors(v, k - 1, tables, t), ContributesBefore(v, k - 1, tables, t),
                    FullFieldFactors(v, k - 1, tables, t), FieldContributes(v.fields[k - 1], tables, t));
    }
  }

  lemma {:induction false} FullFieldIf(v: Value, k: nat, tables: seq<Table>, t: Table)
    requires v.Struct? && k < |v.fields|
    ensures CellsIf(FullFieldFactors(v, k, tables, t), FieldContributes(v.fields[k], tables, t))
    decreases v, k, 1
  {
    var f := v.fields[k];
    if !f.value.Nil? {
      TagCells(f, tables, |tables|, t);
      assert tables[..|tables|] == tables;
      FullNestedIf(f.value, tables, t);
      var rows := FullNested(f.value, tables, t);
      CartFactor(rows);
      CellsIfConcat(TagFactors(f, tables, |tables|, t), IsTagged(f, tables, t),
                    AsFactor(rows), ContributesInside(f.value, tables, t));
    }
  }

  lemma {:induction false} FullNestedIf(v: Value, tables: seq<Table>, t: Table)
    ensures RowsIf(FullNested(v, tables, t), ContributesInside(v, tables, t))
    decreases v, Width(v) + 2
  {
    if v.Struct? {
      FullRowsIf(v, tables, t);
    } else if v.Slice? {
      FullElemsIf(v, |v.elems|, tables, t);
    }
  }

  lemma {:induction false} FullElemsIf(v: Value, n: nat, tables: seq<Table>, t: Table)
    requires v.Slice? && n <= |v.elems|
    ensures RowsIf(FullElems(v, n, tables, t), exists j :: 0 <= j < n && Contributes(v.elems[j], tables, t))
    decreases v, n
  {
    if n > 0 {
      FullElemsIf(v, n - 1, tables, t);
      FullRowsIf(v.elems[n - 1], tables, t);
      TotalConcat(FullElems(v, n - 1, tables, t), FullRows(v.elems[n - 1], tables, t));
    }
  }

  // ---------------------------------------------------------------- fewer rows than the full ones

  /** a has no more rows and cells than b; strictly fewer cells if less, and is b otherwise. */
  ghost predicate Compared(a: seq<Cells>, b: seq<Cells>, less: bool) {
    && |a| <= |b|
    && if less then Total(a) < Total(b) else a == b
  }

  ghost predicate ComparedFactors(fs: seq<seq<Cells>>, gs: seq<seq<Cells>>, less: bool) {
    && Solid(fs) && Solid(gs) && (fs != [] ==> gs != [])
    && |Cart(fs)| <= |Cart(gs)|
    && if less then Total(Cart(fs)) < Total(Cart(gs)) else fs == gs
  }

  lemma Products(n1: nat, n2: nat, m1: nat, m2: nat, t1: nat, t2: nat, u1: nat, u2: nat)
    requires 1 <= n1 <= n2 && 1 <= m1 <= m2 && t1 <= t2 && u1 <= u2
    ensures n1 * m1 <= n2 * m2
    ensures t1 * m1 + n1 * u1 <= t2 * m2 + n2 * u2
    ensures t1 < t2 || u1 < u2 ==> t1 * m1 + n1 * u1 < t2 * m2 + n2 * u2
  {
    Order(n1, n2, m1, m2);
    Order(t1, t2, m1, m2);
    Order(u1, u2, n1, n2);
  }

  lemma Order(a: nat, b: nat, c: nat, d: nat)
    requires a <= b && 1 <= c <= d
    ensures a * c <= b * d && (a < b ==> a * c < b * d)
  {
    Monotone(a, b, c);
    Monotone(c, d, b);
    if a < b {
      Monotone(a + 1, b, c);
      Distribute(a, 1, c);
    }
  }

  lemma ComparedConcat(fs: seq<seq<Cells>>, gs: seq<seq<Cells>>, a: bool,
                       fr: seq<seq<Cells>>, gr: seq<seq<Cells>>, b: bool)
    requires ComparedFactors(fs, gs, a) && ComparedFactors(fr, gr, b)
    ensures ComparedFactors(fs + fr, gs + gr, a || b)
  {
    CartSolid(fs);
    CartSolid(fr);
    CartWeight(fs, fr);
    CartWeight(gs, gr);
    Products(|Cart(fs)|, |Cart(gs)|, |Cart(fr)|, |Cart(gr)|,
             Total(Cart(fs)), Total(Cart(gs)), Total(Cart(fr)), Total(Cart(gr)));
  }

  lemma ComparedFactor(a: seq<Cells>, b: seq<Cells>, less: bool)
    requires Compared(a, b, less)
    ensures ComparedFactors(AsFactor(a), AsFactor(b), less)
  {
    CartFactor(a);
    CartFactor(b);
  }

  lemma ComparedRows(fs: seq<seq<Cells>>, gs: seq<seq<Cells>>, less: bool)
    requires ComparedFactors(fs, gs, less)
    ensures Compared(Rows(fs), Rows(gs), less)
  {
  }

  lemma {:induction false} CompareRows(v: Value, tables: seq<Table>, t: Table)
    ensures Compared(RowsOf(v, tables, t), FullRows(v, tables, t), Drops(v, tables, t))
    decreases v, Width(v) + 1
  {
    if v.Struct? {
      var less := Drops(v, tables, t);
      CompareFactors(v, |v.fields|, tables, t);
      ComparedRows(Factors(v, |v.fields|, tables, t), FullFactors(v, |v.fields|, tables, t), less);
    }
  }

  /** One of the first k fields drops rows. */
  predicate DropsBefore(v: Value, k: nat, tables: seq<Table>, t: Table)
    requires v.Struct? && k <= |v.fields|
  {
    exists i :: 0 <= i < k && DropsInside(v.fields[i].value, tables, t)
  }

  lemma DropsNext(v: Value, k: nat, tables: seq<Table>, t: Table)
    requires v.Struct? && k < |v.fields|
    ensures DropsBefore(v, k + 1, tables, t)
            == (DropsBefore(v, k, tables, t) || DropsInside(v.fields[k].value, tables, t))
    ensures Factors(v, k + 1, tables, t) == Factors(v, k, tables, t) + FieldFactors(v, k, tables, t)
    ensures FullFactors(v, k + 1, tables, t) == FullFactors(v, k, tables, t) + FullFieldFactors(v, k, tables, t)
  {
  }

  lemma {:induction false} CompareFactors(v: Value, k: nat, tables: seq<Table>, t: Table)
    requires v.Struct? && k <= |v.fields|
    ensures ComparedFactors(Factors(v, k, tables, t), FullFactors(v, k, tables, t), DropsBefore(v, k, tables, t))
    decreases v, k, 0
  {
    if k > 0 {
      DropsNext(v, k - 1, tables, t);
      CompareFactors(v, k - 1, tables, t);
      CompareField(v, k - 1, tables, t);
      ComparedConcat(Factors(v, k - 1, tables, t), FullFactors(v, k - 1, tables, t), DropsBefore(v, k - 1, tables, t),
                     FieldFactors(v, k - 1, tables, t), FullFieldFactors(v, k - 1, tables, t),
                     DropsInside(v.fields[k - 1].value, tables, t));
    }
  }

  lemma {:induction false} CompareField(v: Value, k: nat, tables: seq<Table>, t: Table)
    requires v.Struct? && k < |v.fields|
    ensures ComparedFactors(FieldFactors(v, k, tables, t), FullFieldFactors(v, k, tables, t),
                            DropsInside(v.fields[k].value, tables, t))
    decreases v, k, 1
  {
    var f := v.fields[k];
    if !f.value.Nil? {
      var tags := TagFactors(f, tables, |tables|, t);
      TagFactorsSolid(f, tables, |tables|, t);
      CompareNested(f.value, tables, t);
      var less := DropsInside(f.value, tables, t);
      var a, b := Nested(f.value, tables, t), FullNested(f.value, tables, t);
      ComparedFactor(a, b, less);
      ComparedConcat(tags, tags, false, AsFactor(a), AsFactor(b), less);
    }
  }

  lemma {:induction false} CompareNested(v: Value, tables: seq<Table>, t: Table)
    ensures Compared(Nested(v, tables, t), FullNested(v, tables, t), DropsInside(v, tables, t))
    decreases v, Width(v) + 2
  {
    if v.Struct? {
      CompareRows(v, tables, t);
    } else if v.Slice? {
      if LooksInto(v) {
        CompareElems(v, |v.elems|, tables, t);
      } else {
        FullNestedIf(v, tables, t);
      }
    }
  }

  lemma {:induction false} CompareElems(v: Value, n: nat, tables: seq<Table>, t: Table)
    requires v.Slice? && n <= |v.elems|
    ensures Compared(ElemRows(v, n, tables, t), FullElems(v, n, tables, t),
                     exists j :: 0 <= j < n && Drops(v.elems[j], tables, t))
    decreases v, n
  {
    if n > 0 {
      CompareElems(v, n - 1, tables, t);
      CompareRows(v.elems[n - 1], tables, t);
      TotalConcat(ElemRows(v, n - 1, tables, t), RowsOf(v.elems[n - 1], tables, t));
      TotalConcat(FullElems(v, n - 1, tables, t), FullRows(v.elems[n - 1], tables, t));
    }
  }

  /** The collected rows are the full product, exactly when no slice with a column for the table
      starts with something else than a struct. */
  lemma CollectsAllExactly(v: Value, tables: seq<Table>, t: Table)
    ensures RowsOf(v, tables, t) == FullRows(v, tables, t) <==> !Drops(v, tables, t)
  {
    CompareRows(v, tables, t);
  }

  /** A slice of pointers [nil, &x] loses the row of x. */
  lemma NilFirstExample(t: Table, column: string, text: string)
    requires column != ""
    ensures var x := Struct([Field(map[t := column], Scalar(text))]);
            var v := Struct([Field(map[], Slice([Nil, x]))]);
            RowsOf(v, [t], t) == [] && FullRows(v, [t], t) != []
  {
    var x := Struct([Field(map[t := column], Scalar(text))]);
    var slice := Slice([Nil, x]);
    var v := Struct([Field(map[], slice)]);
    assert FieldContributes(x.fields[0], [t], t);
    assert Contributes(slice.elems[1], [t], t);
    assert !LooksInto(slice);
    assert DropsInside(v.fields[0].value, [t], t);
    assert Drops(v, [t], t);
    CompareRows(v, [t], t);
    assert Nested(slice, [t], t) == [];
    assert TagFactors(v.fields[0], [t], 1, t) == TagFactors(v.fields[0], [t], 0, t);
    assert FieldFactors(v, 0, [t], t) == [];
    assert Factors(v, 1, [t], t) == Factors(v, 0, [t], t) + FieldFactors(v, 0, [t], t);
  }
}
