/** Collecting the rows of each table from a nested value (utils/orm.go, utils/row.go). Rows are
    objects that gain columns in place. */
module Denormalize {
  import opened RowProduct

  const MAX_CARTESIAN_PRODUCT_SIZE: nat := 100_000

  // ---------------------------------------------------------------- the factors of a struct

  function Column(f: Field, t: Table): string {
    if t in f.tags then f.tags[t] else ""
  }

  /** One single-row factor for each mention of table t among the first j tables, if the field is
      tagged for it. */
  function TagFactors(f: Field, tables: seq<Table>, j: nat, t: Table): seq<seq<Cells>>
    requires j <= |tables|
  {
    if j == 0 then []
    else TagFactors(f, tables, j - 1, t)
         + if tables[j - 1] == t && Column(f, t) != "" then [[Cells([Column(f, t)], [f.value])]] else []
  }

  /** The rows that a list of factors stands for: without a factor there are none. */
  function Rows(fs: seq<seq<Cells>>): seq<Cells> {
    if fs == [] then [] else Cart(fs)
  }

  /** The factors for table t of the first k fields of a struct, in field order. */
  function Factors(v: Value, k: nat, tables: seq<Table>, t: Table): seq<seq<Cells>>
    requires v.Struct? && k <= |v.fields|
    decreases v, k, 0
  {
    if k == 0 then []
    else Factors(v, k - 1, tables, t) + FieldFactors(v, k - 1, tables, t)
  }

  function FieldFactors(v: Value, k: nat, tables: seq<Table>, t: Table): seq<seq<Cells>>
    requires v.Struct? && k < |v.fields|
    decreases v, k, 1
  {
    var f := v.fields[k];
    if f.value.Nil? then []
    else TagFactors(f, tables, |tables|, t) + AsFactor(Nested(f.value, tables, t))
  }

  /** Only a factor with rows counts. */
  function AsFactor(rows: seq<Cells>): seq<seq<Cells>> {
    if rows == [] then [] else [rows]
  }

  /** Structs are looked into; a slice only if its first element is a struct. */
  predicate LooksInto(v: Value) {
    v.Struct? || (v.Slice? && v.elems != [] && v.elems[0].Struct?)
  }

  function Width(v: Value): nat {
    match v
    case Struct(fields) => |fields|
    case Slice(elems) => |elems|
    case _ => 0
  }

  /** What a field's value contributes beyond its own column. */
  function Nested(v: Value, tables: seq<Table>, t: Table): seq<Cells>
    decreases v, Width(v) + 2
  {
    if !LooksInto(v) then []
    else if v.Struct? then RowsOf(v, tables, t)
    else ElemRows(v, |v.elems|, tables, t)
  }

  /** The rows of the first n elements, one after the other. */
  function ElemRows(v: Value, n: nat, tables: seq<Table>, t: Table): seq<Cells>
    requires v.Slice? && n <= |v.elems|
    decreases v, n
  {
    if n == 0 then [] else ElemRows(v, n - 1, tables, t) + RowsOf(v.elems[n - 1], tables, t)
  }

  /** The rows collected for table t: the ordered product of the struct's factors. */
  function RowsOf(v: Value, tables: seq<Table>, t: Table): seq<Cells>
    decreases v, Width(v) + 1
  {
    if v.Struct? then Rows(Factors(v, |v.fields|, tables, t)) else []
  }

  /** Every struct that is looked at has at most the allowed number of rows for each table. */
  ghost predicate Fits(v: Value, tables: seq<Table>)
    decreases v, 1
  {
    v.Struct? ==>
      && FieldsFit(v, |v.fields|, tables)
      && forall t :: t in tables ==> |RowsOf(v, tables, t)| <= MAX_CARTESIAN_PRODUCT_SIZE
  }

  ghost predicate FieldsFit(v: Value, k: nat, tables: seq<Table>)
    requires v.Struct? && k <= |v.fields|
    decreases v, 0
  {
    forall i :: 0 <= i < k ==> FitsInside(v.fields[i].value, tables)
  }

  ghost predicate ElemsFit(v: Value, n: nat, tables: seq<Table>)
    requires v.Slice? && n <= |v.elems|
    decreases v, 0
  {
    forall j :: 0 <= j < n ==> Fits(v.elems[j], tables)
  }

  ghost predicate FitsInside(v: Value, tables: seq<Table>)
    decreases v, 2
  {
    LooksInto(v) ==> if v.Struct? then Fits(v, tables) else ElemsFit(v, |v.elems|, tables)
  }

  // ---------------------------------------------------------------- factors have rows

  predicate Solid(fs: seq<seq<Cells>>) {
    forall i :: 0 <= i < |fs| ==> fs[i] != []
  }

  lemma {:induction false} CartSolid(fs: seq<seq<Cells>>)
    requires Solid(fs)
    ensures Cart(fs) != []
  {
    if fs != [] {
      CartSolid(fs[1..]);
      ProductSize(fs[0], Cart(fs[1..]));
    }
  }

  lemma {:induction false} TagFactorsSolid(f: Field, tables: seq<Table>, j: nat, t: Table)
    requires j <= |tables|
    ensures Solid(TagFactors(f, tables, j, t))
  {
    if j > 0 {
      TagFactorsSolid(f, tables, j - 1, t);
    }
  }

  lemma {:induction false} FactorsSolid(v: Value, k: nat, tables: seq<Table>, t: Table)
    requires v.Struct? && k <= |v.fields|
    ensures Solid(Factors(v, k, tables, t))
  {
    if k > 0 {
      FactorsSolid(v, k - 1, tables, t);
      TagFactorsSolid(v.fields[k - 1], tables, |tables|, t);
    }
  }

  function OrSeed(rows: seq<Cells>): seq<Cells> {
    if rows == [] then [NO_CELLS] else rows
  }

  /** One more factor multiplies the rows, starting from one empty row. */
  lemma RowsAppend(fs: seq<seq<Cells>>, f: seq<Cells>)
    requires Solid(fs)
    ensures Rows(fs + [f]) == Product(OrSeed(Rows(fs)), f)
  {
    CartSolid(fs);
    CartAppend(fs, f);
  }

  /** More factors never make fewer rows. */
  lemma {:induction false} RowsGrow(fs: seq<seq<Cells>>, gs: seq<seq<Cells>>)
    requires Solid(fs) && Solid(gs)
    ensures Solid(fs + gs) && |Rows(fs)| <= |Rows(fs + gs)|
  {
    if gs == [] {
      assert fs + gs == fs;
    } else {
      var init, last := gs[..|gs| - 1], gs[|gs| - 1];
      assert fs + gs == fs + init + [last];
      RowsGrow(fs, init);
      RowsAppend(fs + init, last);
      ProductSize(OrSeed(Rows(fs + init)), last);
      Monotone(1, |last|, |OrSeed(Rows(fs + init))|);
    }
  }

  /** The factors of the later fields follow those of the earlier ones. */
  lemma {:induction false} LaterFactors(v: Value, k: nat, n: nat, tables: seq<Table>, t: Table)
    returns (rest: seq<seq<Cells>>)
    requires v.Struct? && k <= n <= |v.fields|
    ensures Factors(v, n, tables, t) == Factors(v, k, tables, t) + rest
  {
    if k == n {
      rest := [];
    } else {
      rest := LaterFactors(v, k, n - 1, tables, t);
      rest := rest + FieldFactors(v, n - 1, tables, t);
    }
  }

  // ---------------------------------------------------------------- rows as objects

  class Row {
    var columnNames: seq<string>
    var values: seq<Value>
    ghost const home: Table // the table the row is collected for

    constructor (ghost t: Table)
      ensures Columns() == NO_CELLS && home == t
    {
      columnNames, values, home := [], [], t;
    }

    ghost function Columns(): Cells
      reads this
    {
      Cells(columnNames, values)
    }

    method AddColumn(name: string, value: Value)
      modifies this
      ensures Columns() == Plus(old(Columns()), Cells([name], [value]))
    {
      columnNames := columnNames + [name];
      values := values + [value];
    }
  }

  /** These objects now hold these cells, in this order. */
  ghost predicate Shows(rows: seq<Row>, cells: seq<Cells>)
    reads rows
  {
    |rows| == |cells| && forall i :: 0 <= i < |rows| ==> rows[i].Columns() == cells[i]
  }

  /** Different objects, all collected for table t. */
  ghost predicate OwnedBy(rows: seq<Row>, t: Table) {
    && (forall i, j :: 0 <= i < |rows| && 0 <= j < |rows| && rows[i] == rows[j] ==> i == j)
    && (forall i :: 0 <= i < |rows| ==> rows[i].home == t)
  }

  method MergeColumns(a: Row, b: Row, ghost t: Table) returns (r: Row)
    ensures fresh(r) && r.home == t && r.Columns() == Plus(a.Columns(), b.Columns())
  {
    r := new Row(t);
    r.columnNames := a.columnNames + b.columnNames;
    r.values := a.values + b.values;
  }

  lemma EachNext(x: Cells, b: seq<Cells>, j: nat)
    requires j < |b|
    ensures Each(x, b[..j + 1]) == Each(x, b[..j]) + [Plus(x, b[j])]
  {
    assert b[..j + 1] == b[..j] + [b[j]] && [b[j]][1..] == [];
    EachConcat(x, b[..j], [b[j]]);
  }

  lemma ProductOne(x: Cells, b: seq<Cells>)
    ensures Product([x], b) == Each(x, b)
  {
    assert [x][1..] == [];
  }

  lemma ProductNext(a: seq<Cells>, x: Cells, b: seq<Cells>)
    ensures Product(a + [x], b) == Product(a, b) + Each(x, b)
  {
    ProductOne(x, b);
    ProductConcat(a, [x], b);
  }

  method MultiplyRows(a: seq<Row>, b: seq<Row>, ghost t: Table, ghost ca: seq<Cells>, ghost cb: seq<Cells>)
    returns (rows: seq<Row>)
    requires Shows(a, ca) && Shows(b, cb)
    ensures fresh(rows) && OwnedBy(rows, t)
    ensures Shows(rows, Product(ca, cb))
  {
    rows := [];
    ghost var done: seq<Cells> := [];
    var i := 0;
    while i < |a|
      invariant i <= |a|
      invariant fresh(rows) && OwnedBy(rows, t)
      invariant Shows(rows, done) && done == Product(ca[..i], cb)
    {
      var j := 0;
      while j < |b|
        invariant j <= |b|
        invariant fresh(rows) && OwnedBy(rows, t)
        invariant Shows(rows, done) && done == Product(ca[..i], cb) + Each(ca[i], cb[..j])
      {
        var r := MergeColumns(a[i], b[j], t);
        rows := rows + [r];
        EachNext(ca[i], cb, j);
        done := done + [Plus(ca[i], cb[j])];
        j := j + 1;
      }
      assert cb[..|b|] == cb && ca[..i + 1] == ca[..i] + [ca[i]];
      ProductNext(ca[..i], ca[i], cb);
      i := i + 1;
    }
    assert ca[..|a|] == ca;
  }

  // ---------------------------------------------------------------- rows by table

  type RowsMap = map<Table, seq<Row>>
  type CellsMap = map<Table, seq<Cells>>

  function At(c: CellsMap, t: Table): seq<Cells> {
    if t in c then c[t] else []
  }

  ghost function Objects(m: RowsMap): set<Row> {
    set t, i | t in m && 0 <= i < |m[t]| :: m[t][i]
  }

  /** The row objects of m now hold the cells of c. No table is present without rows, and no row
      object stands in two places. */
  ghost predicate Holds(m: RowsMap, c: CellsMap)
    reads Objects(m)
  {
    && (forall t :: t in m <==> t in c)
    && (forall t :: t in m ==> m[t] != [] && OwnedBy(m[t], t) && Shows(m[t], c[t]))
  }

  /** The rows after merging b into a. */
  function Merged(a: seq<Cells>, b: seq<Cells>): seq<Cells> {
    Product(OrSeed(a), b)
  }

  predicate Allowed(a: seq<Cells>, b: seq<Cells>) {
    |Merged(a, b)| <= MAX_CARTESIAN_PRODUCT_SIZE
  }

  lemma MergedSize(a: seq<Cells>, b: seq<Cells>)
    ensures |Merged(a, b)| == |OrSeed(a)| * |b|
    ensures b != [] ==> Merged(a, b) != []
  {
    ProductSize(OrSeed(a), b);
    Monotone(1, |OrSeed(a)|, |b|);
  }

  /** One table's part of MergeRowsMap: without rows yet, start from one empty row. */
  method MergeTable(a: RowsMap, t: Table, b: seq<Row>, ghost ca: CellsMap, ghost cb: seq<Cells>)
    returns (ok: bool, c: RowsMap)
    requires Holds(a, ca) && b != [] && Shows(b, cb)
    ensures ok <==> Allowed(At(ca, t), cb)
    ensures ok ==> fresh(Objects(c) - Objects(a))
    ensures ok ==> Holds(c, ca[t := Merged(At(ca, t), cb)])
  {
    var rows1 := if t in a then a[t] else [];
    if |rows1| == 0 {
      var row := new Row(t);
      rows1 := [row];
    }
    MergedSize(At(ca, t), cb);
    ok, c := |rows1| * |b| <= MAX_CARTESIAN_PRODUCT_SIZE, map[];
    if ok {
      var rows := MultiplyRows(rows1, b, t, OrSeed(At(ca, t)), cb);
      c := a[t := rows];
    }
  }

  function MergedMap(a: CellsMap, b: CellsMap, todo: set<Table>): CellsMap {
    map t | t in a.Keys + (b.Keys - todo) :: if t in b && t !in todo then Merged(At(a, t), b[t]) else a[t]
  }

  predicate AllAllowed(a: CellsMap, b: CellsMap, todo: set<Table>) {
    forall t :: t in b && t !in todo ==> Allowed(At(a, t), b[t])
  }

  lemma AllAllowedNext(a: CellsMap, b: CellsMap, todo: set<Table>, t: Table)
    requires t in todo && t in b && AllAllowed(a, b, todo)
    ensures Allowed(At(a, t), b[t]) <==> AllAllowed(a, b, todo - {t})
    ensures AllAllowed(a, b, {}) ==> Allowed(At(a, t), b[t])
  {
  }

  lemma MergedMapNext(a: CellsMap, b: CellsMap, todo: set<Table>, t: Table)
    requires t in todo && t in b
    ensures At(MergedMap(a, b, todo), t) == At(a, t)
    ensures MergedMap(a, b, todo)[t := Merged(At(a, t), b[t])] == MergedMap(a, b, todo - {t})
  {
  }

  /** The body of the loop of MergeRowsMap. */
  method MergeOneTable(c: RowsMap, b: RowsMap, t: Table, ghost todo: set<Table>, ghost ca: CellsMap, ghost cb: CellsMap)
    returns (ok: bool, next: RowsMap)
    requires Holds(c, MergedMap(ca, cb, todo)) && Holds(b, cb) && AllAllowed(ca, cb, todo)
    requires t in todo && todo <= b.Keys
    ensures ok <==> AllAllowed(ca, cb, todo - {t})
    ensures !ok ==> !AllAllowed(ca, cb, {})
    ensures ok ==> fresh(Objects(next) - Objects(c))
    ensures ok ==> Holds(next, MergedMap(ca, cb, todo - {t}))
  {
    MergedMapNext(ca, cb, todo, t);
    AllAllowedNext(ca, cb, todo, t);
    ok, next := MergeTable(c, t, b[t], MergedMap(ca, cb, todo), cb[t]);
  }

  method MergeRowsMap(a: RowsMap, b: RowsMap, ghost ca: CellsMap, ghost cb: CellsMap)
    returns (ok: bool, c: RowsMap)
    requires Holds(a, ca) && Holds(b, cb)
    ensures ok <==> AllAllowed(ca, cb, {})
    ensures ok ==> fresh(Objects(c) - Objects(a))
    ensures ok ==> Holds(c, MergedMap(ca, cb, {}))
  {
    c := a;
    var todo := b.Keys;
    assert MergedMap(ca, cb, todo) == ca;
    while todo != {}
      invariant todo <= b.Keys
      invariant fresh(Objects(c) - Objects(a))
      invariant Holds(c, MergedMap(ca, cb, todo)) && AllAllowed(ca, cb, todo)
    {
      var t :| t in todo;
      var fits, next := MergeOneTable(c, b, t, todo, ca, cb);
      if !fits {
        return false, map[];
      }
      c, todo := next, todo - {t};
    }
    ok := true;
  }

  // ---------------------------------------------------------------- tagged fields

  function TagCell(column: string, value: Value): Cells {
    Cells([column], [value])
  }

  lemma ProductSingle(a: seq<Cells>, x: Cells)
    ensures |Product(a, [x])| == |a|
    ensures forall i :: 0 <= i < |a| ==> Product(a, [x])[i] == Plus(a[i], x)
  {
    ProductSize(a, [x]);
    forall i | 0 <= i < |a|
      ensures Product(a, [x])[i] == Plus(a[i], x)
    {
      ProductAt(a, [x], i, 0);
    }
  }

  /** Adds the column in place to each row object of one table. */
  method AddToAll(rows: seq<Row>, column: string, value: Value, ghost t: Table, ghost cells: seq<Cells>)
    requires OwnedBy(rows, t) && Shows(rows, cells)
    modifies rows
    ensures Shows(rows, Product(cells, [TagCell(column, value)]))
  {
    ProductSingle(cells, TagCell(column, value));
    var i := 0;
    while i < |rows|
      invariant i <= |rows|
      invariant forall j :: 0 <= j < i ==> rows[j].Columns() == Plus(cells[j], TagCell(column, value))
      invariant forall j :: i <= j < |rows| ==> rows[j].Columns() == cells[j]
    {
      rows[i].AddColumn(column, value);
      i := i + 1;
    }
  }

  /** A table without rows gets one empty row. */
  method SeedTable(a: RowsMap, t: Table, ghost ca: CellsMap) returns (c: RowsMap)
    requires Holds(a, ca)
    ensures fresh(Objects(c) - Objects(a)) && t in c
    ensures Holds(c, ca[t := OrSeed(At(ca, t))])
  {
    c := a;
    if t !in a || |a[t]| == 0 {
      var row := new Row(t);
      c := a[t := [row]];
    }
  }

  /** c with one more column for table t. */
  function WithColumn(c: CellsMap, t: Table, column: string, value: Value): CellsMap {
    c[t := Merged(At(c, t), [TagCell(column, value)])]
  }

  method AddTag(a: RowsMap, t: Table, column: string, value: Value, ghost ca: CellsMap) returns (c: RowsMap)
    requires Holds(a, ca)
    modifies Objects(a)
    ensures fresh(Objects(c) - Objects(a))
    ensures Holds(c, WithColumn(ca, t, column, value))
  {
    MergedSize(At(ca, t), [TagCell(column, value)]);
    c := SeedTable(a, t, ca);
    AddToAll(c[t], column, value, t, OrSeed(At(ca, t)));
  }

  // ---------------------------------------------------------------- how far a struct is collected

  /** The factors after k whole fields and the first j tables of the next field's tags. */
  function Partial(v: Value, k: nat, j: nat, tables: seq<Table>, t: Table): seq<seq<Cells>>
    requires v.Struct? && k < |v.fields| && j <= |tables|
  {
    Factors(v, k, tables, t) + TagFactors(v.fields[k], tables, j, t)
  }

  ghost predicate Tagged(c: CellsMap, v: Value, k: nat, j: nat, tables: seq<Table>)
    requires v.Struct? && k < |v.fields| && j <= |tables|
  {
    forall t :: At(c, t) == Rows(Partial(v, k, j, tables, t))
  }

  ghost predicate Done(c: CellsMap, v: Value, k: nat, tables: seq<Table>)
    requires v.Struct? && k <= |v.fields|
  {
    forall t :: At(c, t) == Rows(Factors(v, k, tables, t))
  }

  ghost predicate Sized(c: CellsMap) {
    forall t :: |At(c, t)| <= MAX_CARTESIAN_PRODUCT_SIZE
  }

  lemma PartialSolid(v: Value, k: nat, j: nat, tables: seq<Table>, t: Table)
    requires v.Struct? && k < |v.fields| && j <= |tables|
    ensures Solid(Partial(v, k, j, tables, t))
  {
    FactorsSolid(v, k, tables, t);
    TagFactorsSolid(v.fields[k], tables, j, t);
  }

  lemma NoTagsYet(c: CellsMap, v: Value, k: nat, tables: seq<Table>)
    requires v.Struct? && k < |v.fields| && Done(c, v, k, tables)
    ensures Tagged(c, v, k, 0, tables)
  {
    forall t
      ensures Partial(v, k, 0, tables, t) == Factors(v, k, tables, t)
    {
    }
  }

  lemma NilField(c: CellsMap, v: Value, k: nat, tables: seq<Table>)
    requires v.Struct? && k < |v.fields| && v.fields[k].value.Nil? && Done(c, v, k, tables)
    ensures Done(c, v, k + 1, tables)
  {
    forall t
      ensures Factors(v, k + 1, tables, t) == Factors(v, k, tables, t)
    {
    }
  }

  lemma TagNone(c: CellsMap, v: Value, k: nat, j: nat, tables: seq<Table>)
    requires v.Struct? && k < |v.fields| && j < |tables| && Column(v.fields[k], tables[j]) == ""
    requires Tagged(c, v, k, j, tables)
    ensures Tagged(c, v, k, j + 1, tables)
  {
    forall t
      ensures Partial(v, k, j + 1, tables, t) == Partial(v, k, j, tables, t)
    {
    }
  }

  lemma TagOne(c: CellsMap, v: Value, k: nat, j: nat, tables: seq<Table>, t: Table)
    requires v.Struct? && k < |v.fields| && j < |tables| && Column(v.fields[k], tables[j]) != ""
    requires Tagged(c, v, k, j, tables)
    ensures Rows(Partial(v, k, j + 1, tables, t))
            == if t == tables[j]
               then Merged(At(c, t), [TagCell(Column(v.fields[k], t), v.fields[k].value)])
               else At(c, t)
  {
    var f := v.fields[k];
    var before, after := TagFactors(f, tables, j, t), TagFactors(f, tables, j + 1, t);
    if t == tables[j] {
      var factor := [TagCell(Column(f, t), f.value)];
      assert after == before + [factor];
      assert Factors(v, k, tables, t) + after == Partial(v, k, j, tables, t) + [factor];
      PartialSolid(v, k, j, tables, t);
      RowsAppend(Partial(v, k, j, tables, t), factor);
    } else {
      assert after == before;
    }
  }

  lemma TagSome(c: CellsMap, v: Value, k: nat, j: nat, tables: seq<Table>)
    requires v.Struct? && k < |v.fields| && j < |tables| && Column(v.fields[k], tables[j]) != ""
    requires Tagged(c, v, k, j, tables)
    ensures Tagged(WithColumn(c, tables[j], Column(v.fields[k], tables[j]), v.fields[k].value), v, k, j + 1, tables)
  {
    forall t
      ensures At(WithColumn(c, tables[j], Column(v.fields[k], tables[j]), v.fields[k].value), t)
              == Rows(Partial(v, k, j + 1, tables, t))
    {
      TagOne(c, v, k, j, tables, t);
    }
  }

  lemma TagSized(c: CellsMap, t: Table, column: string, value: Value)
    requires Sized(c)
    ensures Sized(WithColumn(c, t, column, value))
  {
    MergedSize(At(c, t), [TagCell(column, value)]);
    forall u
      ensures |At(WithColumn(c, t, column, value), u)| <= MAX_CARTESIAN_PRODUCT_SIZE
    {
      assert |At(c, u)| <= MAX_CARTESIAN_PRODUCT_SIZE;
    }
  }

  /** The tags of one field: each table that it is tagged for gains the column. */
  method AddTags(a: RowsMap, v: Value, k: nat, tables: seq<Table>, ghost ca: CellsMap)
    returns (c: RowsMap, ghost cc: CellsMap)
    requires v.Struct? && k < |v.fields| && Holds(a, ca) && Tagged(ca, v, k, 0, tables) && Sized(ca)
    modifies Objects(a)
    ensures fresh(Objects(c) - Objects(a)) && Holds(c, cc)
    ensures Tagged(cc, v, k, |tables|, tables) && Sized(cc)
  {
    c, cc := a, ca;
    var f := v.fields[k];
    for j := 0 to |tables|
      invariant fresh(Objects(c) - Objects(a)) && Holds(c, cc)
      invariant Tagged(cc, v, k, j, tables) && Sized(cc)
    {
      var t := tables[j];
      var column := Column(f, t);
      if column == "" {
        TagNone(cc, v, k, j, tables);
        continue;
      }
      TagSome(cc, v, k, j, tables);
      TagSized(cc, t, column, f.value);
      c := AddTag(c, t, column, f.value, cc);
      cc := WithColumn(cc, t, column, f.value);
    }
  }

  // ---------------------------------------------------------------- nested values

  /** Only the named tables get rows. */
  lemma {:induction false} OnlyTables(v: Value, tables: seq<Table>, t: Table)
    requires t !in tables
    ensures RowsOf(v, tables, t) == []
    decreases v, Width(v) + 1
  {
    if v.Struct? {
      OnlyTablesFactors(v, |v.fields|, tables, t);
    }
  }

  lemma {:induction false} OnlyTablesFactors(v: Value, k: nat, tables: seq<Table>, t: Table)
    requires t !in tables && v.Struct? && k <= |v.fields|
    ensures Factors(v, k, tables, t) == []
    decreases v, k, 0
  {
    if k > 0 {
      OnlyTablesFactors(v, k - 1, tables, t);
      OnlyTablesTags(v.fields[k - 1], tables, |tables|, t);
      OnlyTablesNested(v.fields[k - 1].value, tables, t);
    }
  }

  lemma {:induction false} OnlyTablesTags(f: Field, tables: seq<Table>, j: nat, t: Table)
    requires t !in tables && j <= |tables|
    ensures TagFactors(f, tables, j, t) == []
  {
    if j > 0 {
      OnlyTablesTags(f, tables, j - 1, t);
    }
  }

  lemma {:induction false} OnlyTablesNested(v: Value, tables: seq<Table>, t: Table)
    requires t !in tables
    ensures Nested(v, tables, t) == []
    decreases v, Width(v) + 2
  {
    if v.Struct? {
      OnlyTables(v, tables, t);
    } else if v.Slice? {
      OnlyTablesElems(v, |v.elems|, tables, t);
    }
  }

  lemma {:induction false} OnlyTablesElems(v: Value, n: nat, tables: seq<Table>, t: Table)
    requires t !in tables && v.Slice? && n <= |v.elems|
    ensures ElemRows(v, n, tables, t) == []
    decreases v, n
  {
    if n > 0 {
      OnlyTablesElems(v, n - 1, tables, t);
      OnlyTables(v.elems[n - 1], tables, t);
    }
  }

  /** c gives each table the rows of spec, and no table is present without rows. */
  ghost predicate Exactly(c: CellsMap, spec: Table -> seq<Cells>) {
    && (forall t :: t in c ==> c[t] != [])
    && (forall t :: At(c, t) == spec(t))
  }

  /** Merging what the value of field k contributes completes that field. */
  lemma MergeNext(c: CellsMap, b: CellsMap, v: Value, k: nat, tables: seq<Table>, t: Table)
    requires v.Struct? && k < |v.fields| && !v.fields[k].value.Nil?
    requires Tagged(c, v, k, |tables|, tables)
    requires Exactly(b, u => Nested(v.fields[k].value, tables, u))
    ensures At(MergedMap(c, b, {}), t) == Rows(Factors(v, k + 1, tables, t))
  {
    var before := Partial(v, k, |tables|, tables, t);
    var rows := Nested(v.fields[k].value, tables, t);
    assert Factors(v, k + 1, tables, t) == before + AsFactor(rows);
    assert rows == At(b, t);
    if rows == [] {
      assert before + AsFactor(rows) == before;
    } else {
      PartialSolid(v, k, |tables|, tables, t);
      RowsAppend(before, rows);
    }
  }

  lemma MergeSized(c: CellsMap, b: CellsMap)
    requires Sized(c) && AllAllowed(c, b, {})
    ensures Sized(MergedMap(c, b, {}))
  {
    forall t
      ensures |At(MergedMap(c, b, {}), t)| <= MAX_CARTESIAN_PRODUCT_SIZE
    {
      assert |At(c, t)| <= MAX_CARTESIAN_PRODUCT_SIZE;
    }
  }

  lemma MergeKeeps(c: CellsMap, b: CellsMap, v: Value, k: nat, tables: seq<Table>)
    requires v.Struct? && k < |v.fields| && !v.fields[k].value.Nil?
    requires Tagged(c, v, k, |tables|, tables) && Sized(c)
    requires Exactly(b, u => Nested(v.fields[k].value, tables, u))
    requires AllAllowed(c, b, {})
    ensures Done(MergedMap(c, b, {}), v, k + 1, tables) && Sized(MergedMap(c, b, {}))
  {
    forall t
      ensures At(MergedMap(c, b, {}), t) == Rows(Factors(v, k + 1, tables, t))
    {
      MergeNext(c, b, v, k, tables, t);
    }
    MergeSized(c, b);
  }

  /** A product over the limit stays over the limit in the struct's final rows. */
  lemma TooBig(v: Value, k: nat, tables: seq<Table>, t: Table)
    requires v.Struct? && k < |v.fields| && Nested(v.fields[k].value, tables, t) != []
    requires |Rows(Factors(v, k + 1, tables, t))| > MAX_CARTESIAN_PRODUCT_SIZE
    ensures !Fits(v, tables)
  {
    var fs := Factors(v, k + 1, tables, t);
    var rest := LaterFactors(v, k + 1, |v.fields|, tables, t);
    FactorsSolid(v, |v.fields|, tables, t);
    assert forall i :: 0 <= i < |fs| ==> fs[i] == (fs + rest)[i];
    assert forall i :: 0 <= i < |rest| ==> rest[i] == (fs + rest)[|fs| + i];
    RowsGrow(fs, rest);
    if t !in tables {
      OnlyTablesNested(v.fields[k].value, tables, t);
    }
    assert t in tables && |RowsOf(v, tables, t)| > MAX_CARTESIAN_PRODUCT_SIZE;
  }

  lemma MergeTooBig(c: CellsMap, b: CellsMap, v: Value, k: nat, tables: seq<Table>, t: Table)
    requires v.Struct? && k < |v.fields| && !v.fields[k].value.Nil?
    requires Tagged(c, v, k, |tables|, tables)
    requires Exactly(b, u => Nested(v.fields[k].value, tables, u))
    requires t in b && !Allowed(At(c, t), b[t])
    ensures !Fits(v, tables)
  {
    MergeNext(c, b, v, k, tables, t);
    assert At(b, t) == Nested(v.fields[k].value, tables, t);
    TooBig(v, k, tables, t);
  }

  /** A field whose value is not looked into is complete with its tags. */
  lemma NothingNested(c: CellsMap, v: Value, k: nat, tables: seq<Table>)
    requires v.Struct? && k < |v.fields| && !v.fields[k].value.Nil? && !LooksInto(v.fields[k].value)
    requires Tagged(c, v, k, |tables|, tables)
    ensures Done(c, v, k + 1, tables)
  {
    forall t
      ensures At(c, t) == Rows(Factors(v, k + 1, tables, t))
    {
      NothingNestedAt(v, k, tables, t);
    }
  }

  lemma NothingNestedAt(v: Value, k: nat, tables: seq<Table>, t: Table)
    requires v.Struct? && k < |v.fields| && !v.fields[k].value.Nil? && !LooksInto(v.fields[k].value)
    ensures Factors(v, k + 1, tables, t) == Partial(v, k, |tables|, tables, t)
  {
    assert FieldFactors(v, k, tables, t) == TagFactors(v.fields[k], tables, |tables|, t) + [];
  }

  // ---------------------------------------------------------------- the collector

  /** The rows of v for each table that has any. */
  function AllRows(v: Value, tables: seq<Table>): CellsMap {
    map t | t in tables && RowsOf(v, tables, t) != [] :: RowsOf(v, tables, t)
  }

  /** The same for what v contributes as the value of a field. */
  function AllNested(v: Value, tables: seq<Table>): CellsMap {
    map t | t in tables && Nested(v, tables, t) != [] :: Nested(v, tables, t)
  }

  lemma AllNestedExactly(v: Value, tables: seq<Table>)
    ensures Exactly(AllNested(v, tables), t => Nested(v, tables, t))
    ensures v.Struct? ==> AllNested(v, tables) == AllRows(v, tables)
  {
    forall t
      ensures At(AllNested(v, tables), t) == Nested(v, tables, t)
    {
      if t !in tables {
        OnlyTablesNested(v, tables, t);
      }
    }
  }

  lemma AllRowsAt(v: Value, tables: seq<Table>, t: Table)
    ensures At(AllRows(v, tables), t) == RowsOf(v, tables, t)
  {
    if t !in tables {
      OnlyTables(v, tables, t);
    }
  }

  function AppendedMap(a: CellsMap, b: CellsMap, todo: set<Table>): CellsMap {
    map t | t in a.Keys + (b.Keys - todo) :: if t in b && t !in todo then At(a, t) + b[t] else a[t]
  }

  lemma AppendedMapNext(a: CellsMap, b: CellsMap, todo: set<Table>, t: Table)
    requires t in todo && t in b
    ensures At(AppendedMap(a, b, todo), t) == At(a, t)
    ensures AppendedMap(a, b, todo)[t := At(a, t) + b[t]] == AppendedMap(a, b, todo - {t})
  {
  }

  /** Appends one table's rows. */
  method AppendTable(a: RowsMap, t: Table, b: seq<Row>, ghost ca: CellsMap, ghost cb: seq<Cells>)
    returns (c: RowsMap)
    requires Holds(a, ca) && b != [] && OwnedBy(b, t) && Shows(b, cb)
    requires forall i :: 0 <= i < |b| ==> b[i] !in Objects(a)
    ensures forall r :: r in Objects(c) ==> r in Objects(a) || r in b
    ensures Holds(c, ca[t := At(ca, t) + cb])
  {
    var rows := if t in a then a[t] else [];
    assert forall i :: 0 <= i < |rows| ==> rows[i] in Objects(a);
    c := a[t := rows + b];
  }

  method AppendRowsMap(a: RowsMap, b: RowsMap, ghost ca: CellsMap, ghost cb: CellsMap) returns (c: RowsMap)
    requires Holds(a, ca) && Holds(b, cb) && Objects(a) !! Objects(b)
    ensures Objects(c) <= Objects(a) + Objects(b)
    ensures Holds(c, AppendedMap(ca, cb, {}))
  {
    c := a;
    ghost var cc := ca;
    var todo := b.Keys;
    while todo != {}
      invariant todo <= b.Keys
      invariant Objects(c) <= Objects(a) + Objects(b)
      invariant forall t, i :: t in todo && 0 <= i < |b[t]| ==> b[t][i] !in Objects(c)
      invariant Holds(c, cc) && cc == AppendedMap(ca, cb, todo)
    {
      var t :| t in todo;
      AppendedMapNext(ca, cb, todo, t);
      c := AppendTable(c, t, b[t], cc, cb[t]);
      cc := cc[t := At(ca, t) + cb[t]];
      todo := todo - {t};
    }
  }

  /** The rows of the first n elements, for each table that has any. */
  function AllElemRows(v: Value, n: nat, tables: seq<Table>): CellsMap
    requires v.Slice? && n <= |v.elems|
  {
    map t | t in tables && ElemRows(v, n, tables, t) != [] :: ElemRows(v, n, tables, t)
  }

  lemma ElemRowsNext(v: Value, n: nat, tables: seq<Table>)
    requires v.Slice? && n < |v.elems|
    ensures AppendedMap(AllElemRows(v, n, tables), AllRows(v.elems[n], tables), {}) == AllElemRows(v, n + 1, tables)
  {
    var a, b := AllElemRows(v, n, tables), AllRows(v.elems[n], tables);
    var c, d := AppendedMap(a, b, {}), AllElemRows(v, n + 1, tables);
    forall t
      ensures t in c <==> t in d
      ensures t in c ==> c[t] == d[t]
    {
      assert ElemRows(v, n + 1, tables, t) == ElemRows(v, n, tables, t) + RowsOf(v.elems[n], tables, t);
    }
  }

  lemma ElemRowsEnds(v: Value, tables: seq<Table>)
    requires v.Slice?
    ensures AllElemRows(v, 0, tables) == map[]
    ensures LooksInto(v) ==> AllElemRows(v, |v.elems|, tables) == AllNested(v, tables)
  {
  }

  lemma ElemsFitNext(v: Value, n: nat, tables: seq<Table>)
    requires v.Slice? && n < |v.elems|
    ensures ElemsFit(v, n, tables) && Fits(v.elems[n], tables) ==> ElemsFit(v, n + 1, tables)
    ensures ElemsFit(v, |v.elems|, tables) ==> Fits(v.elems[n], tables)
  {
  }

  lemma FieldsFitNext(v: Value, k: nat, tables: seq<Table>)
    requires v.Struct? && k < |v.fields|
    ensures FieldsFit(v, k, tables) && FitsInside(v.fields[k].value, tables) ==> FieldsFit(v, k + 1, tables)
    ensures FieldsFit(v, |v.fields|, tables) ==> FitsInside(v.fields[k].value, tables)
  {
  }

  lemma NothingYet(v: Value, tables: seq<Table>)
    requires v.Struct?
    ensures Done(map[], v, 0, tables) && Sized(map[]) && FieldsFit(v, 0, tables)
  {
  }

  /** The rows of a slice of structs, element after element. */
  method CollectElements(v: Value, tables: seq<Table>) returns (ok: bool, m: RowsMap)
    requires v.Slice? && v.elems != [] && v.elems[0].Struct?
    ensures ok <==> FitsInside(v, tables)
    ensures ok ==> fresh(Objects(m)) && Holds(m, AllNested(v, tables))
    decreases v, 0
  {
    m := map[];
    ElemRowsEnds(v, tables);
    for n := 0 to |v.elems|
      invariant ElemsFit(v, n, tables)
      invariant fresh(Objects(m)) && Holds(m, AllElemRows(v, n, tables))
    {
      ElemsFitNext(v, n, tables);
      var fits, rows := CollectRowsForEachTable(v.elems[n], tables);
      if !fits {
        return false, map[];
      }
      ElemRowsNext(v, n, tables);
      m := AppendRowsMap(m, rows, AllElemRows(v, n, tables), AllRows(v.elems[n], tables));
    }
    ok := true;
  }

  lemma SameRows(c: CellsMap, v: Value, tables: seq<Table>)
    requires v.Struct? && Done(c, v, |v.fields|, tables) && Sized(c)
    requires forall t :: t in c ==> c[t] != []
    requires FieldsFit(v, |v.fields|, tables)
    ensures c == AllRows(v, tables) && Fits(v, tables)
  {
    forall t
      ensures At(c, t) == RowsOf(v, tables, t) && |RowsOf(v, tables, t)| <= MAX_CARTESIAN_PRODUCT_SIZE
    {
      assert |At(c, t)| <= MAX_CARTESIAN_PRODUCT_SIZE;
    }
    forall t
      ensures t in c <==> t in AllRows(v, tables)
    {
      AllRowsAt(v, tables, t);
    }
  }

  /** Merges what the value of field k contributes. */
  method MergeField(m: RowsMap, rows: RowsMap, v: Value, k: nat, tables: seq<Table>, ghost cm: CellsMap)
    returns (ok: bool, c: RowsMap, ghost cc: CellsMap)
    requires v.Struct? && k < |v.fields| && !v.fields[k].value.Nil?
    requires Holds(m, cm) && Tagged(cm, v, k, |tables|, tables) && Sized(cm)
    requires Holds(rows, AllNested(v.fields[k].value, tables))
    ensures ok ==> fresh(Objects(c) - Objects(m)) && Holds(c, cc) && Done(cc, v, k + 1, tables) && Sized(cc)
    ensures !ok ==> !Fits(v, tables)
  {
    ghost var cells := AllNested(v.fields[k].value, tables);
    AllNestedExactly(v.fields[k].value, tables);
    ok, c := MergeRowsMap(m, rows, cm, cells);
    if !ok {
      ghost var t :| t in cells && !Allowed(At(cm, t), cells[t]);
      MergeTooBig(cm, cells, v, k, tables, t);
      return false, map[], map[];
    }
    MergeKeeps(cm, cells, v, k, tables);
    cc := MergedMap(cm, cells, {});
  }

  /** What the value of a field contributes. */
  method CollectNested(v: Value, tables: seq<Table>) returns (ok: bool, m: RowsMap)
    requires LooksInto(v)
    ensures ok <==> FitsInside(v, tables)
    ensures ok ==> fresh(Objects(m)) && Holds(m, AllNested(v, tables))
    decreases v, 2
  {
    if v.Struct? {
      AllNestedExactly(v, tables);
      ok, m := CollectRowsForEachTable(v, tables);
    } else {
      ok, m := CollectElements(v, tables);
    }
  }

  /** Adds one field: its tags, then what its value contributes. */
  method CollectField(m: RowsMap, v: Value, k: nat, tables: seq<Table>, ghost cm: CellsMap)
    returns (ok: bool, c: RowsMap, ghost cc: CellsMap)
    requires v.Struct? && k < |v.fields|
    requires Holds(m, cm) && Done(cm, v, k, tables) && Sized(cm)
    modifies Objects(m)
    ensures ok ==> fresh(Objects(c) - Objects(m)) && Holds(c, cc) && Done(cc, v, k + 1, tables) && Sized(cc)
    ensures ok ==> FitsInside(v.fields[k].value, tables)
    ensures !ok ==> !Fits(v, tables)
    decreases v, 0
  {
    ok, c, cc := true, m, cm;
    var value := v.fields[k].value;
    FieldsFitNext(v, k, tables);
    if value.Nil? {
      NilField(cm, v, k, tables);
      return;
    }
    NoTagsYet(cm, v, k, tables);
    c, cc := AddTags(m, v, k, tables, cm);
    if LooksInto(value) {
      var rows;
      ok, rows := CollectNested(value, tables);
      if ok {
        ok, c, cc := MergeField(c, rows, v, k, tables, cc);
      }
    } else {
      NothingNested(cc, v, k, tables);
    }
  }

  /** The rows of every table, or an error exactly when some product is over the limit. */
  method CollectRowsForEachTable(v: Value, tables: seq<Table>) returns (ok: bool, m: RowsMap)
    ensures ok <==> Fits(v, tables)
    ensures ok ==> fresh(Objects(m)) && Holds(m, AllRows(v, tables))
    decreases v, 1
  {
    m := map[];
    if !v.Struct? {
      return true, m;
    }
    ghost var cm: CellsMap := map[];
    NothingYet(v, tables);
    for k := 0 to |v.fields|
      invariant fresh(Objects(m)) && Holds(m, cm)
      invariant Done(cm, v, k, tables) && Sized(cm)
      invariant FieldsFit(v, k, tables)
    {
      FieldsFitNext(v, k, tables);
      var fits;
      fits, m, cm := CollectField(m, v, k, tables, cm);
      if !fits {
        return false, map[];
      }
    }
    ok := true;
    SameRows(cm, v, tables);
  }
}
