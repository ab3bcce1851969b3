/** What collected rows look like, field by field and element by element (utils/orm.go). */
module RowShape {
  import opened RowProduct
  import opened Denormalize

  predicate NamedOnce(tables: seq<Table>, t: Table) {
    exists i :: 0 <= i < |tables| && tables[i] == t && forall j :: 0 <= j < |tables| && j != i ==> tables[j] != t
  }

  /** The field has a value and a column name for table t. */
  predicate ShowsIn(f: Field, t: Table) {
    !f.value.Nil? && t in f.tags && f.tags[t] != ""
  }

  /** The named values of the first k fields, in field order. */
  function FieldCells(fields: seq<Field>, k: nat, t: Table): Cells
    requires k <= |fields|
  {
    if k == 0 then Cells([], [])
    else
      var before, f := FieldCells(fields, k - 1, t), fields[k - 1];
      if ShowsIn(f, t) then Cells(before.names + [f.tags[t]], before.values + [f.value]) else before
  }

  /** How many of the first k fields show in table t. */
  function Shown(fields: seq<Field>, k: nat, t: Table): nat
    requires k <= |fields|
  {
    if k == 0 then 0 else Shown(fields, k - 1, t) + if ShowsIn(fields[k - 1], t) then 1 else 0
  }

  /** Each field that shows has its name and value at its place. */
  lemma {:induction false} FieldAt(fields: seq<Field>, k: nat, t: Table, i: nat)
    requires i < k <= |fields| && ShowsIn(fields[i], t)
    ensures var c := FieldCells(fields, k, t);
            && |c.names| == |c.values| == Shown(fields, k, t) > Shown(fields, i, t)
            && c.names[Shown(fields, i, t)] == fields[i].tags[t] && c.values[Shown(fields, i, t)] == fields[i].value
  {
    FieldCount(fields, k - 1, t);
    if i < k - 1 {
      FieldAt(fields, k - 1, t, i);
    }
  }

  lemma {:induction false} FieldCount(fields: seq<Field>, k: nat, t: Table)
    requires k <= |fields|
    ensures var c := FieldCells(fields, k, t); |c.names| == |c.values| == Shown(fields, k, t)
  {
    if k > 0 {
      FieldCount(fields, k - 1, t);
    }
  }

  lemma {:induction false} NoTag(f: Field, tables: seq<Table>, j: nat, t: Table)
    requires j <= |tables| && forall i :: 0 <= i < j ==> tables[i] != t
    ensures TagFactors(f, tables, j, t) == []
  {
    if j > 0 {
      NoTag(f, tables, j - 1, t);
    }
  }

  lemma {:induction false} OneTag(f: Field, tables: seq<Table>, j: nat, t: Table, at: nat)
    requires at < j <= |tables| && tables[at] == t && !f.value.Nil?
    requires forall i :: 0 <= i < |tables| && i != at ==> tables[i] != t
    ensures TagFactors(f, tables, j, t) == if ShowsIn(f, t) then [[Cells([f.tags[t]], [f.value])]] else []
  {
    if at < j - 1 {
      OneTag(f, tables, j - 1, t, at);
    } else {
      NoTag(f, tables, j - 1, t);
    }
  }

  /** What the tags of a field contribute. */
  lemma TagsOf(f: Field, tables: seq<Table>, t: Table)
    requires NamedOnce(tables, t) && !f.value.Nil?
    ensures TagFactors(f, tables, |tables|, t) == if ShowsIn(f, t) then [[Cells([f.tags[t]], [f.value])]] else []
  {
    var at :| 0 <= at < |tables| && tables[at] == t && forall j :: 0 <= j < |tables| && j != at ==> tables[j] != t;
    OneTag(f, tables, |tables|, t, at);
  }

  lemma PlainField(v: Value, k: nat, tables: seq<Table>, t: Table)
    requires v.Struct? && k < |v.fields| && NamedOnce(tables, t) && !LooksInto(v.fields[k].value)
    ensures var f := v.fields[k];
            Factors(v, k + 1, tables, t)
            == Factors(v, k, tables, t) + if ShowsIn(f, t) then [[Cells([f.tags[t]], [f.value])]] else []
  {
    var f := v.fields[k];
    if !f.value.Nil? {
      TagsOf(f, tables, t);
      NothingNestedAt(v, k, tables, t);
    }
  }

  /** One more column for the one row, or the first one. */
  lemma OneMoreColumn(fs: seq<seq<Cells>>, c: Cells, x: Cells)
    requires Solid(fs) && (Rows(fs) == [c] || (Rows(fs) == [] && c == NO_CELLS))
    ensures Rows(fs + [[x]]) == [Plus(c, x)]
  {
    RowsAppend(fs, [x]);
    OneByOne(c, x);
  }

  /** The rows so far are the one row of the columns so far, or none without a column. */
  predicate OneRow(rows: seq<Cells>, fields: seq<Field>, k: nat, t: Table)
    requires k <= |fields|
  {
    rows == if Shown(fields, k, t) == 0 then [] else [FieldCells(fields, k, t)]
  }

  lemma {:induction false} PlainFactors(v: Value, k: nat, tables: seq<Table>, t: Table)
    requires v.Struct? && k <= |v.fields| && NamedOnce(tables, t)
    requires forall i :: 0 <= i < k ==> !LooksInto(v.fields[i].value)
    ensures OneRow(Rows(Factors(v, k, tables, t)), v.fields, k, t)
  {
    if k > 0 {
      PlainFactors(v, k - 1, tables, t);
      PlainStep(v, k - 1, tables, t);
    }
  }

  lemma PlainStep(v: Value, k: nat, tables: seq<Table>, t: Table)
    requires v.Struct? && k < |v.fields| && NamedOnce(tables, t) && !LooksInto(v.fields[k].value)
    requires OneRow(Rows(Factors(v, k, tables, t)), v.fields, k, t)
    ensures OneRow(Rows(Factors(v, k + 1, tables, t)), v.fields, k + 1, t)
  {
    var f, before := v.fields[k], Factors(v, k, tables, t);
    PlainField(v, k, tables, t);
    if ShowsIn(f, t) {
      FactorsSolid(v, k, tables, t);
      NoCells(v.fields, k, t);
      OneMoreColumn(before, FieldCells(v.fields, k, t), Cells([f.tags[t]], [f.value]));
    } else {
      assert before + [] == before;
    }
  }

  lemma NoCells(fields: seq<Field>, k: nat, t: Table)
    requires k <= |fields|
    ensures Shown(fields, k, t) == 0 ==> FieldCells(fields, k, t) == NO_CELLS
  {
    FieldCount(fields, k, t);
  }

  lemma OneByOne(a: Cells, x: Cells)
    ensures Product([a], [x]) == [Plus(a, x)]
  {
    ProductSize([a], [x]);
    ProductAt([a], [x], 0, 0);
  }

  /** A struct of plain fields is one row: the fields that show in the table, in field order. */
  lemma PlainStruct(v: Value, tables: seq<Table>, t: Table)
    requires v.Struct? && NamedOnce(tables, t)
    requires forall i :: 0 <= i < |v.fields| ==> !LooksInto(v.fields[i].value)
    ensures RowsOf(v, tables, t)
            == if Shown(v.fields, |v.fields|, t) == 0 then [] else [FieldCells(v.fields, |v.fields|, t)]
  {
    PlainFactors(v, |v.fields|, tables, t);
  }

  /** Where the rows of element j start. */
  function ElemStart(v: Value, j: nat, tables: seq<Table>, t: Table): nat
    requires v.Slice? && j <= |v.elems|
  {
    if j == 0 then 0 else ElemStart(v, j - 1, tables, t) + |RowsOf(v.elems[j - 1], tables, t)|
  }

  /** The rows of a slice: those of its elements, in their order. */
  lemma {:induction false} ElemRowAt(v: Value, n: nat, tables: seq<Table>, t: Table, j: nat, i: nat)
    requires v.Slice? && j < n <= |v.elems| && i < |RowsOf(v.elems[j], tables, t)|
    ensures |ElemRows(v, n, tables, t)| == ElemStart(v, n, tables, t)
    ensures ElemStart(v, j, tables, t) + i < |ElemRows(v, n, tables, t)|
    ensures ElemRows(v, n, tables, t)[ElemStart(v, j, tables, t) + i] == RowsOf(v.elems[j], tables, t)[i]
  {
    ElemCount(v, n - 1, tables, t);
    if j < n - 1 {
      ElemRowAt(v, n - 1, tables, t, j, i);
    }
  }

  lemma {:induction false} ElemCount(v: Value, n: nat, tables: seq<Table>, t: Table)
    requires v.Slice? && n <= |v.elems|
    ensures |ElemRows(v, n, tables, t)| == ElemStart(v, n, tables, t)
  {
    if n > 0 {
      ElemCount(v, n - 1, tables, t);
    }
  }

  lemma NestedField(v: Value, k: nat, tables: seq<Table>, t: Table)
    requires v.Struct? && k < |v.fields| && NamedOnce(tables, t) && !ShowsIn(v.fields[k], t)
    requires LooksInto(v.fields[k].value) && Nested(v.fields[k].value, tables, t) != []
    ensures Factors(v, k + 1, tables, t) == Factors(v, k, tables, t) + [Nested(v.fields[k].value, tables, t)]
  {
    TagsOf(v.fields[k], tables, t);
    assert FieldFactors(v, k, tables, t) == [] + [Nested(v.fields[k].value, tables, t)];
  }

  lemma EachRow(plain: Cells, rows: seq<Cells>, i: nat)
    requires i < |rows|
    ensures |Product([plain], rows)| == |rows| && Product([plain], rows)[i] == Plus(plain, rows[i])
  {
    ProductSize([plain], rows);
    ProductAt([plain], rows, 0, i);
  }

  /** A struct of plain fields that ends with a looked-into one: each row is the plain columns followed by
      one row of that value. */
  lemma PlainThenNested(v: Value, tables: seq<Table>, t: Table, k: nat, i: nat)
    requires v.Struct? && k + 1 == |v.fields| && NamedOnce(tables, t)
    requires LooksInto(v.fields[k].value) && !ShowsIn(v.fields[k], t)
    requires forall j :: 0 <= j < k ==> !LooksInto(v.fields[j].value)
    requires i < |Nested(v.fields[k].value, tables, t)|
    ensures var plain, rows := FieldCells(v.fields, k, t), Nested(v.fields[k].value, tables, t);
            && |RowsOf(v, tables, t)| == |rows|
            && RowsOf(v, tables, t)[i] == Cells(plain.names + rows[i].names, plain.values + rows[i].values)
  {
    PlainFactors(v, k, tables, t);
    NestedField(v, k, tables, t);
    FactorsSolid(v, k, tables, t);
    RowsAppend(Factors(v, k, tables, t), Nested(v.fields[k].value, tables, t));
    NoCells(v.fields, k, t);
    EachRow(FieldCells(v.fields, k, t), Nested(v.fields[k].value, tables, t), i);
  }
}
