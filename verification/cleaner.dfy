/** The data cleaner the inference pipeline uses (mlops_obesidad/preprocessing/transformers.py):
    `fit` learns the text columns and the all-null columns; `transform` trims the text columns,
    turns blank strings and null aliases into nulls, and drops the learned all-null columns. */
module Cleaner {
  import opened Wrappers
  import opened Strings
  import opened Tables

  /** `v.strip() if isinstance(v, str) else v`: a string loses the whitespace at both ends,
      without changing whether it is blank or a null alias; any other cell is left as it is. */
  function TrimCell(c: Cell): (r: Cell)
    ensures !c.Str? ==> r == c
    ensures c.Str? ==> r.Str? && (r.s == [] || (!IsSpace(r.s[0]) && !IsSpace(r.s[|r.s| - 1])))
    ensures c.Str? ==> (IsBlank(r.s) <==> IsBlank(c.s)) && (IsNullAlias(r.s) <==> IsNullAlias(c.s))
  {
    if c.Str? then TrimmedStringFacts(c.s); Str(Strip(c.s)) else c
  }

  /** `nan if isinstance(v, str) and v.strip().lower() in null_aliases else v`: exactly the null
      aliases become null, and every other cell is left as it is. */
  function AliasToNull(c: Cell): (r: Cell)
    ensures r.Null? <==> c.Null? || (c.Str? && IsNullAlias(c.s))
    ensures !r.Null? ==> r == c
  {
    if c.Str? && IsNullAlias(c.s) then Null else c
  }

  lemma TrimmedStringFacts(s: string)
    ensures IsBlank(Strip(s)) <==> IsBlank(s)
    ensures IsNullAlias(Strip(s)) <==> IsNullAlias(s)
  {
    StripKeepsBlank(s);
    StripKeepsAlias(s);
  }

  /** The three steps of `transform` applied to one cell of a learned text column. */
  function CleanTextCell(c: Cell): (r: Cell)
    ensures c.Null? ==> r.Null?
    ensures c.Other? ==> r == c
    ensures c.Str? ==> (r.Null? <==> IsBlank(c.s) || IsNullAlias(c.s))
    ensures c.Str? && !r.Null? ==> r == Str(Strip(c.s)) && !IsBlank(r.s)
  {
    if c.Str? then TrimmedStringFacts(c.s); AliasToNull(BlankToNull(TrimCell(c)))
    else AliasToNull(BlankToNull(TrimCell(c)))
  }

  /** What `transform` does to one column that it keeps. */
  function CleanColumn(objCols: seq<string>, col: Column): Column {
    if col.name in objCols then col.(cells := MapCells(CleanTextCell, col.cells))
    else col.(cells := MapCells(BlankToNull, col.cells))
  }

  function CleanColumns(objCols: seq<string>, cols: seq<Column>): (r: seq<Column>)
    ensures |r| == |cols|
    ensures forall k | 0 <= k < |cols| :: r[k] == CleanColumn(objCols, cols[k])
  {
    seq(|cols|, k requires 0 <= k < |cols| => CleanColumn(objCols, cols[k]))
  }

  /** The frame `transform` returns for fitted state (objCols, allNullCols): no row is added or
      lost, and the columns kept are the input's columns not learned as all-null, each cleaned. */
  function Clean(objCols: seq<string>, allNullCols: seq<string>, t: Table): (r: Table)
    ensures r.rows == t.rows
    ensures Valid(t) ==> Valid(r)
    ensures |r.columns| <= |t.columns|
    ensures forall col :: col in r.columns <==>
      exists k | 0 <= k < |t.columns| :: t.columns[k].name !in allNullCols && col == CleanColumn(objCols, t.columns[k])
  {
    var cleaned := Table(CleanColumns(objCols, t.columns), t.rows);
    CleanColumnsShape(objCols, t);
    DropColumns(cleaned, allNullCols)
  }

  lemma CleanColumnsShape(objCols: seq<string>, t: Table)
    ensures var cleaned := Table(CleanColumns(objCols, t.columns), t.rows);
      && (Valid(t) ==> Valid(cleaned))
      && forall col :: col in cleaned.columns <==> exists k | 0 <= k < |t.columns| :: col == CleanColumn(objCols, t.columns[k])
  {
    var cc := CleanColumns(objCols, t.columns);
    forall col | col in cc
      ensures exists k | 0 <= k < |t.columns| :: col == CleanColumn(objCols, t.columns[k])
    {
      var k :| 0 <= k < |cc| && cc[k] == col;
    }
  }

  /** A column of the input is absent from the output exactly when it was learned as all-null;
      otherwise the output column of that name is its cleaned version. */
  lemma CleanedColumn(objCols: seq<string>, allNullCols: seq<string>, t: Table, k: nat)
    requires Valid(t) && k < |t.columns|
    ensures var src := t.columns[k];
      var out := ColumnNamed(Clean(objCols, allNullCols, t).columns, src.name);
      && (out.None? <==> src.name in allNullCols)
      && (out.Some? ==> out.value == CleanColumn(objCols, src))
  {
    var r := Clean(objCols, allNullCols, t);
    LookupInCleaned(objCols, allNullCols, t.columns, r.columns, k);
  }

  /** `CleanedColumn` for any columns `out` made of the cleaned input columns not learned as
      all-null, with no repeated name. */
  lemma LookupInCleaned(objCols: seq<string>, allNullCols: seq<string>, cols: seq<Column>, out: seq<Column>, k: nat)
    requires k < |cols| && DistinctNames(cols) && DistinctNames(out)
    requires forall col :: col in out <==>
      exists l | 0 <= l < |cols| :: cols[l].name !in allNullCols && col == CleanColumn(objCols, cols[l])
    ensures var o := ColumnNamed(out, cols[k].name);
      && (o.None? <==> cols[k].name in allNullCols)
      && (o.Some? ==> o.value == CleanColumn(objCols, cols[k]))
  {
    var src := cols[k];
    if src.name !in allNullCols {
      assert CleanColumn(objCols, src) in out;
    }
    var o := ColumnNamed(out, src.name);
    if o.Some? {
      var l :| 0 <= l < |cols| && cols[l].name !in allNullCols && o.value == CleanColumn(objCols, cols[l]);
      assert cols[l].name == src.name;
    }
  }

  /** No column appears in the output that was not in the input, and the only columns that
      disappear are the learned all-null ones; learned names absent from the input are ignored. */
  lemma CleanColumnNames(objCols: seq<string>, allNullCols: seq<string>, t: Table)
    ensures forall n :: n in Names(Clean(objCols, allNullCols, t).columns) <==>
      n in Names(t.columns) && n !in allNullCols
  {
    var r := Clean(objCols, allNullCols, t);
    NamesInCleaned(objCols, allNullCols, t.columns, r.columns);
  }

  /** `CleanColumnNames` for any columns `out` made of the cleaned input columns not learned as
      all-null. */
  lemma NamesInCleaned(objCols: seq<string>, allNullCols: seq<string>, cols: seq<Column>, out: seq<Column>)
    requires forall col :: col in out <==>
      exists l | 0 <= l < |cols| :: cols[l].name !in allNullCols && col == CleanColumn(objCols, cols[l])
    ensures forall n :: n in Names(out) <==> n in Names(cols) && n !in allNullCols
  {
    forall n
      ensures n in Names(out) <==> n in Names(cols) && n !in allNullCols
    {
      if n in Names(out) {
        var j :| 0 <= j < |out| && out[j].name == n;
        assert out[j] in out;
      }
      if n in Names(cols) && n !in allNullCols {
        var k :| 0 <= k < |cols| && cols[k].name == n;
        var col := CleanColumn(objCols, cols[k]);
        assert col in out;
        var j :| 0 <= j < |out| && out[j] == col;
        assert Names(out)[j] == n;
      }
    }
  }

  /** The columns `transform` keeps come out in the order they had in the input. */
  lemma CleanKeepsOrder(objCols: seq<string>, allNullCols: seq<string>, t: Table)
    ensures Names(Clean(objCols, allNullCols, t).columns) == KeptNames(Names(t.columns), allNullCols)
  {
    var cleaned := Table(CleanColumns(objCols, t.columns), t.rows);
    assert Names(cleaned.columns) == Names(t.columns);
    DropKeepsOrder(cleaned, allNullCols);
  }

  /** Cell by cell, for a column that `transform` keeps: a blank string becomes null in every
      column; a null stays null and is never turned into the text "nan"; a non-string value is
      untouched; in a learned text column a string becomes null exactly when it is blank or its
      trimmed, lower-cased form is "na", "n/a" or "nan", and otherwise loses its surrounding
      whitespace; in any other column only blank strings change. */
  lemma TransformCell(objCols: seq<string>, allNullCols: seq<string>, t: Table, k: nat, i: nat)
    requires Valid(t) && k < |t.columns| && i < t.rows
    requires t.columns[k].name !in allNullCols
    ensures var src := t.columns[k];
      var out := ColumnNamed(Clean(objCols, allNullCols, t).columns, src.name);
      && out.Some? && out.value.kind == src.kind && |out.value.cells| == t.rows
      && var c, d := src.cells[i], out.value.cells[i];
      && (c.Str? && IsBlank(c.s) ==> d.Null?)
      && (c.Null? ==> d.Null?)
      && (c.Other? ==> d == c)
      && (src.name in objCols && c.Str? ==> (d.Null? <==> IsBlank(c.s) || IsNullAlias(c.s)))
      && (src.name in objCols && d.Str? ==> c.Str? && d.s == Strip(c.s))
      && (src.name !in objCols ==> d == if c.Str? && IsBlank(c.s) then Null else c)
  {
    CleanedColumn(objCols, allNullCols, t, k);
  }

  lemma CleanTextCellTwice(c: Cell)
    ensures CleanTextCell(CleanTextCell(c)) == CleanTextCell(c)
  {
    if c.Str? && !CleanTextCell(c).Null? {
      StripIdempotent(c.s);
    }
  }

  lemma CleanColumnTwice(objCols: seq<string>, col: Column)
    ensures CleanColumn(objCols, CleanColumn(objCols, col)) == CleanColumn(objCols, col)
  {
    var once := CleanColumn(objCols, col);
    var twice := CleanColumn(objCols, once);
    forall i | 0 <= i < |col.cells|
      ensures twice.cells[i] == once.cells[i]
    {
      CleanTextCellTwice(col.cells[i]);
    }
  }

  lemma CleanColumnsCons(objCols: seq<string>, cols: seq<Column>)
    requires cols != []
    ensures CleanColumns(objCols, cols) == [CleanColumn(objCols, cols[0])] + CleanColumns(objCols, cols[1..])
  {
    var l, r := CleanColumns(objCols, cols), [CleanColumn(objCols, cols[0])] + CleanColumns(objCols, cols[1..]);
    assert |l| == |r|;
    forall k | 0 <= k < |l| ensures l[k] == r[k] {
      if k > 0 { assert cols[1..][k - 1] == cols[k]; }
    }
  }

  lemma {:induction false} KeepAfterClean(objCols: seq<string>, allNullCols: seq<string>, cols: seq<Column>)
    ensures CleanColumns(objCols, KeepColumns(cols, allNullCols)) == KeepColumns(CleanColumns(objCols, cols), allNullCols)
  {
    if cols != [] {
      var c, rest := cols[0], cols[1..];
      KeepAfterClean(objCols, allNullCols, rest);
      CleanColumnsCons(objCols, cols);
      var cc := CleanColumns(objCols, cols);
      assert cc[0].name == c.name && cc[1..] == CleanColumns(objCols, rest);
      if c.name !in allNullCols {
        var kept := [c] + KeepColumns(rest, allNullCols);
        CleanColumnsCons(objCols, kept);
        assert kept[1..] == KeepColumns(rest, allNullCols);
      }
    }
  }

  /** With the same fitted state, transforming the output of `transform` changes nothing. */
  lemma CleanIdempotent(objCols: seq<string>, allNullCols: seq<string>, t: Table)
    ensures Clean(objCols, allNullCols, Clean(objCols, allNullCols, t)) == Clean(objCols, allNullCols, t)
  {
    var cc := CleanColumns(objCols, t.columns);
    var once := KeepColumns(cc, allNullCols);
    KeepAfterClean(objCols, allNullCols, cc);
    KeepTwice(CleanColumns(objCols, cc), allNullCols);
    forall k | 0 <= k < |cc|
      ensures CleanColumns(objCols, cc)[k] == cc[k]
    {
      CleanColumnTwice(objCols, t.columns[k]);
    }
    assert CleanColumns(objCols, cc) == cc;
    assert Clean(objCols, allNullCols, t).columns == once;
    KeepTwice(cc, allNullCols);
  }

  lemma TrimIdempotent()
    ensures Idempotent(TrimCell)
  {
    forall c: Cell | c.Str? ensures TrimCell(TrimCell(c)) == TrimCell(c) {
      StripIdempotent(c.s);
    }
  }

  lemma AliasIdempotent()
    ensures Idempotent(AliasToNull)
  {
  }

  /** The two loops and the replace in between yield the cleaned columns. */
  lemma StepsMakeCleanColumns(objCols: seq<string>, x: Table)
    ensures var trimmed := AppliedTo(x, objCols, TrimCell, KeepKind);
      AppliedTo(ApplyToAll(trimmed, BlankToNull), objCols, AliasToNull, KeepKind).columns == CleanColumns(objCols, x.columns)
  {
    var trimmed := AppliedTo(x, objCols, TrimCell, KeepKind);
    var done := AppliedTo(ApplyToAll(trimmed, BlankToNull), objCols, AliasToNull, KeepKind);
    forall k | 0 <= k < |x.columns|
      ensures done.columns[k] == CleanColumn(objCols, x.columns[k])
    {
      var cells := x.columns[k].cells;
      if x.columns[k].name in objCols {
        assert done.columns[k].cells == MapCells(CleanTextCell, cells);
      } else {
        assert done.columns[k].cells == MapCells(BlankToNull, cells);
      }
    }
  }

  /** `DataCleanerTransformer`: the state `fit` learns and `transform` reads. */
  class DataCleaner {
    var objCols: seq<string>
    var allNullCols: seq<string>

    constructor()
      ensures objCols == [] && allNullCols == []
    {
      objCols := [];
      allNullCols := [];
    }

    /** Learns the text columns of `x` as given, and the columns that are entirely null once blank
        strings and the exact tokens "NA", "N/A", "na", "NaN" count as null. `x` is a value and
        is never changed. */
    method Fit(x: Table)
      modifies this
      ensures objCols == TextColumnNames(x.columns)
      ensures allNullCols == AllNullColumnNames(ApplyToAll(x, FitNormalizeCell).columns)
    {
      objCols := TextColumnNames(x.columns);
      var temp := ApplyToAll(x, FitNormalizeCell);
      allNullCols := AllNullColumnNames(temp.columns);
    }

    /** Cleans a copy of `x` with the learned state, in the source's three steps. */
    method Transform(x: Table) returns (df: Table)
      ensures df == Clean(objCols, allNullCols, x)
    {
      df := x;
      // 1) trim the strings of every learned text column present
      TrimIdempotent();
      AppliedToNothing(x, TrimCell, KeepKind);
      var i := 0;
      while i < |objCols|
        invariant i <= |objCols|
        invariant df == AppliedTo(x, objCols[..i], TrimCell, KeepKind)
      {
        var c := objCols[i];
        ApplyStep(x, objCols[..i], c, TrimCell, KeepKind);
        assert objCols[..i + 1] == objCols[..i] + [c];
        if c in Names(df.columns) {
          df := ApplyToColumn(df, c, TrimCell, KeepKind);
        }
        i := i + 1;
      }
      assert objCols[..i] == objCols;
      // 2) blank strings anywhere become null, then null aliases in the learned text columns
      df := ApplyToAll(df, BlankToNull);
      ghost var blanked := df;
      AliasIdempotent();
      AppliedToNothing(blanked, AliasToNull, KeepKind);
      i := 0;
      while i < |objCols|
        invariant i <= |objCols|
        invariant df == AppliedTo(blanked, objCols[..i], AliasToNull, KeepKind)
      {
        var c := objCols[i];
        ApplyStep(blanked, objCols[..i], c, AliasToNull, KeepKind);
        assert objCols[..i + 1] == objCols[..i] + [c];
        if c in Names(df.columns) {
          df := ApplyToColumn(df, c, AliasToNull, KeepKind);
        }
        i := i + 1;
      }
      assert objCols[..i] == objCols;
      StepsMakeCleanColumns(objCols, x);
      // 3) drop the learned all-null columns
      if |allNullCols| > 0 {
        df := DropColumns(df, allNullCols);
      } else {
        KeepNothing(df.columns);
      }
    }
  }
}
