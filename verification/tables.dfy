/** A data frame as the cleaners see it: an ordered list of named columns of equal length,
    each column either of pandas' `object` dtype (text) or of some other dtype. */
module Tables {
  import opened Wrappers
  import opened Strings

  /** One cell: a missing value (NaN/None), a string, or any other value (a number). */
  datatype Cell = Null | Str(s: string) | Other(v: real)

  /** Whether `select_dtypes(include=["object"])` picks the column. */
  datatype Kind = Textual | NonTextual

  datatype Column = Column(name: string, kind: Kind, cells: seq<Cell>)

  /** `rows` is kept apart from the columns so that a frame whose columns were all dropped
      still has its row count (its index). */
  datatype Table = Table(columns: seq<Column>, rows: nat)

  predicate DistinctNames(cols: seq<Column>) {
    forall k, l | 0 <= k < l < |cols| :: cols[k].name != cols[l].name
  }

  /** Every column holds one cell per row, and no two columns share a name. */
  predicate Valid(t: Table) {
    && (forall k | 0 <= k < |t.columns| :: |t.columns[k].cells| == t.rows)
    && DistinctNames(t.columns)
  }

  /** `df.columns`. */
  function Names(cols: seq<Column>): (r: seq<string>)
    ensures |r| == |cols|
    ensures forall k | 0 <= k < |cols| :: r[k] == cols[k].name
  {
    seq(|cols|, k requires 0 <= k < |cols| => cols[k].name)
  }

  /** `series.apply(f)`. */
  function MapCells(f: Cell -> Cell, cells: seq<Cell>): (r: seq<Cell>)
    ensures |r| == |cells|
    ensures forall i | 0 <= i < |cells| :: r[i] == f(cells[i])
  {
    seq(|cells|, i requires 0 <= i < |cells| => f(cells[i]))
  }

  /** The dtype `series.apply(f)` leaves: the column's own. */
  function KeepKind(k: Kind): Kind { k }

  /** The dtype `series.astype(str)` leaves: `object`. */
  function TextKind(k: Kind): Kind { Textual }

  /** `df[name] = <df[name] rewritten by f>`: only the column called `name` changes, cell by
      cell, and its kind becomes `to` of the old one. */
  function ApplyToColumn(t: Table, name: string, f: Cell -> Cell, to: Kind -> Kind): (r: Table)
    ensures r.rows == t.rows && |r.columns| == |t.columns|
    ensures forall k | 0 <= k < |t.columns| ::
      r.columns[k] == if t.columns[k].name == name
                      then t.columns[k].(kind := to(t.columns[k].kind), cells := MapCells(f, t.columns[k].cells))
                      else t.columns[k]
    ensures Valid(t) ==> Valid(r)
  {
    var cols := seq(|t.columns|, k requires 0 <= k < |t.columns| =>
      if t.columns[k].name == name
      then t.columns[k].(kind := to(t.columns[k].kind), cells := MapCells(f, t.columns[k].cells))
      else t.columns[k]);
    Table(cols, t.rows)
  }

  /** `df.replace(...)` with a per-cell rule: every cell of every column is rewritten. The model
      keeps each column's kind (pandas may downcast an object column the replace leaves all-NaN
      or all-numeric). */
  function ApplyToAll(t: Table, f: Cell -> Cell): (r: Table)
    ensures r.rows == t.rows && |r.columns| == |t.columns|
    ensures forall k | 0 <= k < |t.columns| ::
      r.columns[k] == t.columns[k].(cells := MapCells(f, t.columns[k].cells))
    ensures Valid(t) ==> Valid(r)
  {
    var cols := seq(|t.columns|, k requires 0 <= k < |t.columns| =>
      t.columns[k].(cells := MapCells(f, t.columns[k].cells)));
    Table(cols, t.rows)
  }

  /** The columns, in order, whose names are not listed in `dropped`. */
  function KeepColumns(cols: seq<Column>, dropped: seq<string>): (r: seq<Column>)
    ensures |r| <= |cols|
  {
    if cols == [] then []
    else (if cols[0].name in dropped then [] else [cols[0]]) + KeepColumns(cols[1..], dropped)
  }

  lemma {:induction false} KeepColumnsMembers(cols: seq<Column>, dropped: seq<string>)
    ensures forall col :: col in KeepColumns(cols, dropped) <==> col in cols && col.name !in dropped
  {
    if cols != [] {
      KeepColumnsMembers(cols[1..], dropped);
      assert forall col :: col in cols <==> col == cols[0] || col in cols[1..];
    }
  }

  lemma {:induction false} KeepColumnsDistinct(cols: seq<Column>, dropped: seq<string>)
    ensures DistinctNames(cols) ==> DistinctNames(KeepColumns(cols, dropped))
  {
    if cols != [] && DistinctNames(cols) {
      KeepColumnsDistinct(cols[1..], dropped);
      KeepColumnsMembers(cols[1..], dropped);
      var rest := KeepColumns(cols[1..], dropped);
      forall col | col in rest
        ensures col.name != cols[0].name
      {
        var k :| 1 <= k < |cols| && cols[k] == col;
      }
    }
  }

  /** `df.drop(columns=dropped, errors="ignore")`: listed columns go, unknown names are ignored. */
  function DropColumns(t: Table, dropped: seq<string>): (r: Table)
    ensures r.rows == t.rows
    ensures forall col :: col in r.columns <==> col in t.columns && col.name !in dropped
    ensures Valid(t) ==> Valid(r)
  {
    KeepColumnsDistinct(t.columns, dropped);
    KeepColumnsMembers(t.columns, dropped);
    Table(KeepColumns(t.columns, dropped), t.rows)
  }

  /** The names not listed in `dropped`, in their original order. */
  function KeptNames(names: seq<string>, dropped: seq<string>): (r: seq<string>)
    ensures forall n :: n in r <==> n in names && n !in dropped
  {
    if names == [] then []
    else
      assert forall n :: n in names <==> n == names[0] || n in names[1..];
      (if names[0] in dropped then [] else [names[0]]) + KeptNames(names[1..], dropped)
  }

  /** `df.drop` keeps the surviving columns in the order they had. */
  lemma {:induction false} DropKeepsOrder(t: Table, dropped: seq<string>)
    ensures Names(DropColumns(t, dropped).columns) == KeptNames(Names(t.columns), dropped)
  {
    KeepColumnsOrder(t.columns, dropped);
  }

  lemma {:induction false} KeepColumnsOrder(cols: seq<Column>, dropped: seq<string>)
    ensures Names(KeepColumns(cols, dropped)) == KeptNames(Names(cols), dropped)
  {
    if cols != [] {
      KeepColumnsOrder(cols[1..], dropped);
      var names := Names(cols);
      assert names[0] == cols[0].name && names[1..] == Names(cols[1..]);
      var rest := KeepColumns(cols[1..], dropped);
      if cols[0].name !in dropped {
        assert KeepColumns(cols, dropped) == [cols[0]] + rest;
        NamesCons(cols[0], rest);
      }
    }
  }

  lemma NamesCons(c: Column, cols: seq<Column>)
    ensures Names([c] + cols) == [c.name] + Names(cols)
  {
    var l, r := Names([c] + cols), [c.name] + Names(cols);
    forall k | 0 <= k < |l| ensures l[k] == r[k] {
      if k > 0 { assert ([c] + cols)[k] == cols[k - 1]; }
    }
  }

  /** The column called `name`, when there is one (`df[name]`). */
  function ColumnNamed(cols: seq<Column>, name: string): (r: Option<Column>)
    ensures r.Some? ==> r.value in cols && r.value.name == name
    ensures r.None? <==> name !in Names(cols)
    ensures DistinctNames(cols) ==> forall col | col in cols && col.name == name :: r == Some(col)
  {
    if cols == [] then None
    else if cols[0].name == name then Some(cols[0])
    else
      var r := ColumnNamed(cols[1..], name);
      assert forall k | 1 <= k < |cols| :: cols[k] == cols[1..][k - 1];
      assert Names(cols) == [cols[0].name] + Names(cols[1..]);
      r
  }

  /** `series.isna().all()`; true of a column without rows. */
  predicate AllNull(cells: seq<Cell>) {
    forall i | 0 <= i < |cells| :: cells[i].Null?
  }

  /** `select_dtypes(include=["object"]).columns.tolist()`. */
  function TextColumnNames(cols: seq<Column>): (r: seq<string>)
    ensures forall n :: n in r <==> exists k | 0 <= k < |cols| :: cols[k].name == n && cols[k].kind == Textual
  {
    if cols == [] then []
    else
      var rest := TextColumnNames(cols[1..]);
      assert forall k | 1 <= k < |cols| :: cols[k] == cols[1..][k - 1];
      (if cols[0].kind == Textual then [cols[0].name] else []) + rest
  }

  /** `[c for c in df.columns if df[c].isna().all()]`. */
  function AllNullColumnNames(cols: seq<Column>): (r: seq<string>)
    ensures forall n :: n in r <==> exists k | 0 <= k < |cols| :: cols[k].name == n && AllNull(cols[k].cells)
  {
    if cols == [] then []
    else
      var rest := AllNullColumnNames(cols[1..]);
      assert forall k | 1 <= k < |cols| :: cols[k] == cols[1..][k - 1];
      (if AllNull(cols[0].cells) then [cols[0].name] else []) + rest
  }

  /** `replace(r"^\s*$", nan, regex=True)` on one cell. */
  function BlankToNull(c: Cell): (r: Cell)
    ensures c.Str? && IsBlank(c.s) ==> r.Null?
    ensures !(c.Str? && IsBlank(c.s)) ==> r == c
  {
    if c.Str? && IsBlank(c.s) then Null else c
  }

  /** `replace({"NA": nan, "N/A": nan, "na": nan, "NaN": nan})` on one cell. */
  function TokenToNull(c: Cell): (r: Cell)
    ensures c.Str? && c.s in NullTokens ==> r.Null?
    ensures !(c.Str? && c.s in NullTokens) ==> r == c
  {
    if c.Str? && c.s in NullTokens then Null else c
  }

  /** The normalisation both `fit`s run before looking for all-null columns. */
  function FitNormalizeCell(c: Cell): Cell {
    TokenToNull(BlankToNull(c))
  }

  /** A cell counts as null at fit time: already null, blank, or one of the exact tokens. */
  predicate IsFitNull(c: Cell) {
    c.Null? || (c.Str? && (IsBlank(c.s) || c.s in NullTokens))
  }

  /** The columns `fit` records as all-null are exactly those whose every cell is null once
      blank strings and the exact tokens count as null. In the model normalising keeps names and
      kinds. */
  lemma {:induction false} FitNullColumns(t: Table)
    ensures var u := ApplyToAll(t, FitNormalizeCell);
      && Names(u.columns) == Names(t.columns)
      && TextColumnNames(u.columns) == TextColumnNames(t.columns)
      && forall n :: n in AllNullColumnNames(u.columns) <==>
           exists k | 0 <= k < |t.columns| :: t.columns[k].name == n &&
             forall i | 0 <= i < |t.columns[k].cells| :: IsFitNull(t.columns[k].cells[i])
  {
    var u := ApplyToAll(t, FitNormalizeCell);
    SameKindsSameTextNames(u.columns, t.columns);
    forall k | 0 <= k < |t.columns|
      ensures AllNull(u.columns[k].cells) <==>
        forall i | 0 <= i < |t.columns[k].cells| :: IsFitNull(t.columns[k].cells[i])
    {
      var cells := t.columns[k].cells;
      assert forall i | 0 <= i < |cells| :: u.columns[k].cells[i] == FitNormalizeCell(cells[i]);
    }
  }

  lemma {:induction false} SameKindsSameTextNames(a: seq<Column>, b: seq<Column>)
    requires |a| == |b|
    requires forall k | 0 <= k < |a| :: a[k].name == b[k].name && a[k].kind == b[k].kind
    ensures TextColumnNames(a) == TextColumnNames(b)
  {
    if a != [] {
      SameKindsSameTextNames(a[1..], b[1..]);
    }
  }

  /** `base` with `f` applied to every column whose name is listed in `names`, and its kind
      set by `to`. */
  ghost function AppliedTo(base: Table, names: seq<string>, f: Cell -> Cell, to: Kind -> Kind): (r: Table)
    ensures r.rows == base.rows && |r.columns| == |base.columns|
    ensures forall k | 0 <= k < |base.columns| ::
      r.columns[k] == if base.columns[k].name in names
                      then base.columns[k].(kind := to(base.columns[k].kind), cells := MapCells(f, base.columns[k].cells))
                      else base.columns[k]
  {
    Table(seq(|base.columns|, k requires 0 <= k < |base.columns| =>
      if base.columns[k].name in names
      then base.columns[k].(kind := to(base.columns[k].kind), cells := MapCells(f, base.columns[k].cells))
      else base.columns[k]), base.rows)
  }

  ghost predicate Idempotent(f: Cell -> Cell) {
    forall c :: f(f(c)) == f(c)
  }

  ghost predicate KindIdempotent(to: Kind -> Kind) {
    forall k :: to(to(k)) == to(k)
  }

  lemma AppliedToNothing(base: Table, f: Cell -> Cell, to: Kind -> Kind)
    ensures AppliedTo(base, [], f, to) == base
  {
  }

  /** One iteration of a `for c in obj_cols` loop of `transform`. */
  lemma ApplyStep(base: Table, names: seq<string>, c: string, f: Cell -> Cell, to: Kind -> Kind)
    requires Idempotent(f) && KindIdempotent(to)
    ensures var df := AppliedTo(base, names, f, to);
      (if c in Names(df.columns) then ApplyToColumn(df, c, f, to) else df) == AppliedTo(base, names + [c], f, to)
  {
    var df := AppliedTo(base, names, f, to);
    var next := if c in Names(df.columns) then ApplyToColumn(df, c, f, to) else df;
    var want := AppliedTo(base, names + [c], f, to);
    forall k | 0 <= k < |base.columns|
      ensures next.columns[k] == want.columns[k]
    {
      var col := base.columns[k];
      assert col.name in names + [c] <==> col.name in names || col.name == c;
      if col.name == c && col.name in names {
        assert MapCells(f, MapCells(f, col.cells)) == MapCells(f, col.cells);
        assert to(to(col.kind)) == to(col.kind);
      }
      if c !in Names(df.columns) {
        assert Names(df.columns)[k] == col.name;
      }
    }
  }

  lemma {:induction false} KeepTwice(cols: seq<Column>, dropped: seq<string>)
    ensures KeepColumns(KeepColumns(cols, dropped), dropped) == KeepColumns(cols, dropped)
  {
    if cols != [] {
      KeepTwice(cols[1..], dropped);
      var rest := KeepColumns(cols[1..], dropped);
      if cols[0].name !in dropped {
        assert KeepColumns(cols, dropped) == [cols[0]] + rest;
        assert ([cols[0]] + rest)[1..] == rest;
      } else {
        assert KeepColumns(cols, dropped) == rest;
      }
    }
  }

  lemma {:induction false} KeepNothing(cols: seq<Column>)
    ensures KeepColumns(cols, []) == cols
  {
    if cols != [] {
      KeepNothing(cols[1..]);
    }
  }
}
