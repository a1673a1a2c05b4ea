/** The older copy of the cleaner (mlops_obesidad/transformers.py). Its `fit` learns the same two
    lists, both from the normalised table; its `transform` first nulls blank strings and the exact
    tokens "NA", "N/A", "na", "NaN" everywhere, then turns every cell of a learned text column into
    its string form (`astype(str)`, which also makes the column text-typed) and strips it, and
    finally drops the learned all-null columns. */
module LegacyCleaner {
  import opened Wrappers
  import opened Strings
  import opened Tables
  import Cleaner

  /** `str(v)` for one cell, as `astype(str)` computes it: a missing value prints as "nan", a string
      is itself, and any other value is printed by `render` (Python's number formatting). */
  function AsText(render: real -> string, c: Cell): (r: string)
    ensures c.Str? ==> r == c.s
    ensures c.Null? ==> r == "nan"
  {
    match c
    case Null => "nan"
    case Str(s) => s
    case Other(v) => render(v)
  }

  /** After `astype(str)` a missing value cannot be told from a cell holding the text "nan". */
  lemma NullPrintsAsNanText(render: real -> string)
    ensures Null != Str("nan") && AsText(render, Null) == AsText(render, Str("nan"))
  {
  }

  /** `astype(str).str.strip()` on one cell. */
  function ToStrippedText(render: real -> string, c: Cell): Cell {
    Str(Strip(AsText(render, c)))
  }

  /** The per-cell rewrite of `transform`'s loop, as a value the loop and its specification share. */
  function Stringify(render: real -> string): Cell -> Cell {
    c => ToStrippedText(render, c)
  }

  /** The two `replace` calls of `transform` followed by the loop, on one cell of a learned text
      column: the result is always a string; a cell that counts as null (a missing value, a blank
      string or one of the exact tokens) becomes the text "nan"; another string loses its
      surrounding whitespace; a number becomes its stripped printed form. */
  function LegacyTextCell(render: real -> string, c: Cell): (r: Cell)
    ensures r.Str?
    ensures IsFitNull(c) ==> r == Str("nan")
    ensures c.Str? && !IsFitNull(c) ==> r == Str(Strip(c.s))
    ensures c.Other? ==> r == Str(Strip(render(c.v)))
  {
    LegacyCellFacts(render, c);
    Stringify(render)(FitNormalizeCell(c))
  }

  lemma LegacyCellFacts(render: real -> string, c: Cell)
    ensures var r := Stringify(render)(FitNormalizeCell(c));
      && (IsFitNull(c) ==> r == Str("nan"))
      && (c.Str? && !IsFitNull(c) ==> r == Str(Strip(c.s)))
      && (c.Other? ==> r == Str(Strip(render(c.v))))
  {
    if IsFitNull(c) {
      NullCellFacts(render, c);
    } else {
      assert FitNormalizeCell(c) == c;
    }
  }

  lemma NullCellFacts(render: real -> string, c: Cell)
    requires IsFitNull(c)
    ensures Stringify(render)(FitNormalizeCell(c)) == Str("nan")
  {
    assert FitNormalizeCell(c) == Null;
    StripNanText();
  }

  lemma StripNanText()
    ensures Strip("nan") == "nan"
  {
    StripUnpadded("nan");
  }

  /** What `transform` does to one column that it keeps. */
  function LegacyColumn(render: real -> string, objCols: seq<string>, col: Column): Column {
    if col.name in objCols then col.(kind := Textual, cells := MapCells(c => LegacyTextCell(render, c), col.cells))
    else col.(cells := MapCells(FitNormalizeCell, col.cells))
  }

  function LegacyColumns(render: real -> string, objCols: seq<string>, cols: seq<Column>): (r: seq<Column>)
    ensures |r| == |cols|
    ensures forall k | 0 <= k < |cols| :: r[k] == LegacyColumn(render, objCols, cols[k])
  {
    seq(|cols|, k requires 0 <= k < |cols| => LegacyColumn(render, objCols, cols[k]))
  }

  /** The frame `transform` returns for fitted state (objCols, allNullCols): no row is added or
      lost, and the columns kept are the input's columns not learned as all-null, each rewritten. */
  function LegacyClean(render: real -> string, objCols: seq<string>, allNullCols: seq<string>, t: Table): (r: Table)
    ensures r.rows == t.rows
    ensures Valid(t) ==> Valid(r)
    ensures |r.columns| <= |t.columns|
    ensures forall col :: col in r.columns <==>
      exists k | 0 <= k < |t.columns| :: t.columns[k].name !in allNullCols && col == LegacyColumn(render, objCols, t.columns[k])
  {
    var cleaned := Table(LegacyColumns(render, objCols, t.columns), t.rows);
    LegacyColumnsShape(render, objCols, t);
    DropColumns(cleaned, allNullCols)
  }

  lemma LegacyColumnsShape(render: real -> string, objCols: seq<string>, t: Table)
    ensures var cleaned := Table(LegacyColumns(render, objCols, t.columns), t.rows);
      && (Valid(t) ==> Valid(cleaned))
      && forall col :: col in cleaned.columns <==>
           exists k | 0 <= k < |t.columns| :: col == LegacyColumn(render, objCols, t.columns[k])
  {
    var cc := LegacyColumns(render, objCols, t.columns);
    forall col | col in cc
      ensures exists k | 0 <= k < |t.columns| :: col == LegacyColumn(render, objCols, t.columns[k])
    {
      var k :| 0 <= k < |cc| && cc[k] == col;
    }
  }

  /** Cell by cell, for a column that `transform` keeps. In a learned text column the output holds
      no missing value at all: what counted as null is the text "nan", another string is stripped,
      a number is its stripped printed form. In any other column exactly the blank strings and the
      exact tokens become null and everything else is untouched. */
  lemma LegacyTransformCell(render: real -> string, objCols: seq<string>, allNullCols: seq<string>, t: Table, k: nat, i: nat)
    requires Valid(t) && k < |t.columns| && i < t.rows
    requires t.columns[k].name !in allNullCols
    ensures var src := t.columns[k];
      var out := ColumnNamed(LegacyClean(render, objCols, allNullCols, t).columns, src.name);
      && out.Some? && |out.value.cells| == t.rows
      && out.value.kind == (if src.name in objCols then Textual else src.kind)
      && var c, d := src.cells[i], out.value.cells[i];
      && (src.name in objCols ==> d.Str?)
      && (src.name in objCols && IsFitNull(c) ==> d == Str("nan"))
      && (src.name in objCols && c.Str? && !IsFitNull(c) ==> d == Str(Strip(c.s)))
      && (src.name in objCols && c.Other? ==> d == Str(Strip(render(c.v))))
      && (src.name !in objCols ==> (d.Null? <==> IsFitNull(c)) && (!IsFitNull(c) ==> d == c))
  {
    var r := LegacyClean(render, objCols, allNullCols, t);
    LookupInLegacy(render, objCols, allNullCols, t.columns, r.columns, k);
  }

  /** A kept input column is found, rewritten, in any columns `out` made of the rewritten input
      columns not learned as all-null, with no repeated name. */
  lemma LookupInLegacy(render: real -> string, objCols: seq<string>, allNullCols: seq<string>, cols: seq<Column>, out: seq<Column>, k: nat)
    requires k < |cols| && cols[k].name !in allNullCols && DistinctNames(cols) && DistinctNames(out)
    requires forall col :: col in out <==>
      exists l | 0 <= l < |cols| :: cols[l].name !in allNullCols && col == LegacyColumn(render, objCols, cols[l])
    ensures ColumnNamed(out, cols[k].name) == Some(LegacyColumn(render, objCols, cols[k]))
  {
    var want := LegacyColumn(render, objCols, cols[k]);
    assert want in out;
  }

  /** The columns `transform` keeps come out in the order they had in the input. */
  lemma LegacyKeepsOrder(render: real -> string, objCols: seq<string>, allNullCols: seq<string>, t: Table)
    ensures Names(LegacyClean(render, objCols, allNullCols, t).columns) == KeptNames(Names(t.columns), allNullCols)
  {
    var cleaned := Table(LegacyColumns(render, objCols, t.columns), t.rows);
    assert Names(cleaned.columns) == Names(t.columns);
    DropKeepsOrder(cleaned, allNullCols);
  }

  /** Both copies keep and drop the same columns, in the same order, and keep every row. */
  lemma SameShapeAsCurrent(render: real -> string, objCols: seq<string>, allNullCols: seq<string>, t: Table)
    ensures var legacy := LegacyClean(render, objCols, allNullCols, t);
      var current := Cleaner.Clean(objCols, allNullCols, t);
      legacy.rows == current.rows && Names(legacy.columns) == Names(current.columns)
  {
    var a := LegacyColumns(render, objCols, t.columns);
    var b := Cleaner.CleanColumns(objCols, t.columns);
    KeepSameNames(a, b, allNullCols);
  }

  lemma {:induction false} KeepSameNames(a: seq<Column>, b: seq<Column>, dropped: seq<string>)
    requires Names(a) == Names(b)
    ensures Names(KeepColumns(a, dropped)) == Names(KeepColumns(b, dropped))
  {
    if a != [] {
      assert a[0].name == Names(a)[0] == Names(b)[0] == b[0].name;
      assert Names(a[1..]) == Names(a)[1..];
      assert Names(b[1..]) == Names(b)[1..];
      KeepSameNames(a[1..], b[1..], dropped);
      var ra, rb := KeepColumns(a[1..], dropped), KeepColumns(b[1..], dropped);
      if a[0].name in dropped {
        assert KeepColumns(a, dropped) == ra && KeepColumns(b, dropped) == rb;
      } else {
        assert KeepColumns(a, dropped) == [a[0]] + ra && KeepColumns(b, dropped) == [b[0]] + rb;
        assert Names([a[0]] + ra) == [a[0].name] + Names(ra);
        assert Names([b[0]] + rb) == [b[0].name] + Names(rb);
      }
    }
  }

  lemma ToStrippedIdempotent(render: real -> string)
    ensures Idempotent(Stringify(render))
  {
    forall c: Cell ensures Stringify(render)(Stringify(render)(c)) == Stringify(render)(c) {
      StripIdempotent(AsText(render, c));
    }
  }

  /** The two replaces and the loop yield the rewritten columns. */
  lemma StepsMakeLegacyColumns(render: real -> string, objCols: seq<string>, x: Table)
    ensures var normalized := ApplyToAll(ApplyToAll(x, BlankToNull), TokenToNull);
      AppliedTo(normalized, objCols, Stringify(render), TextKind).columns == LegacyColumns(render, objCols, x.columns)
  {
    var normalized := ApplyToAll(ApplyToAll(x, BlankToNull), TokenToNull);
    var done := AppliedTo(normalized, objCols, Stringify(render), TextKind);
    forall k | 0 <= k < |x.columns|
      ensures done.columns[k] == LegacyColumn(render, objCols, x.columns[k])
    {
      var cells := x.columns[k].cells;
      if x.columns[k].name in objCols {
        assert done.columns[k].cells == MapCells(c => LegacyTextCell(render, c), cells);
      } else {
        assert done.columns[k].cells == MapCells(FitNormalizeCell, cells);
      }
    }
  }

  // Where the two copies part ways, on a one-column, one-row frame whose column was learned as text.

  lemma StripPaddedNA()
    ensures Strip(" NA ") == "NA"
  {
    LeadingPaddedNA();
    TrailingPaddedNA();
    assert " NA "[1..] == "NA " && "NA "[..2] == "NA";
  }

  lemma LeadingPaddedNA()
    ensures LeadingSpaces(" NA ") == 1
  {
    assert " NA "[0] == ' ' && " NA "[1..] == "NA ";
    assert "NA "[0] == 'N' && !IsSpace('N');
  }

  lemma TrailingPaddedNA()
    ensures TrailingSpaces("NA ") == 1
  {
    assert "NA "[2] == ' ' && "NA "[..2] == "NA";
    assert "NA"[1] == 'A' && !IsSpace('A');
  }

  lemma PaddedNACells(render: real -> string)
    ensures LegacyTextCell(render, Str(" NA ")) == Str("NA")
    ensures LegacyTextCell(render, Str("NA")) == Str("nan")
    ensures Cleaner.CleanTextCell(Str(" NA ")) == Null
  {
    StripPaddedNA();
    assert " NA "[1] == 'N' && !IsSpace('N');
    assert !IsBlank(" NA ");
    assert |" NA "| == 4;
    assert " NA " !in NullTokens;
    assert Lower("NA") == "na";
    assert IsNullAlias(" NA ");
  }

  lemma MapOne(f: Cell -> Cell, c: Cell)
    ensures MapCells(f, [c]) == [f(c)]
  {
  }

  /** One column of one cell, named "c", learned as text and not as all-null. */
  function OneCell(c: Cell): Table {
    Table([Column("c", Textual, [c])], 1)
  }

  lemma OneCellLegacy(render: real -> string, c: Cell)
    ensures LegacyClean(render, ["c"], [], OneCell(c)) == OneCell(LegacyTextCell(render, c))
  {
    MapOne(d => LegacyTextCell(render, d), c);
    assert "c" in ["c"];
    KeepNothing(LegacyColumns(render, ["c"], OneCell(c).columns));
  }

  lemma OneCellCurrent(c: Cell)
    ensures Cleaner.Clean(["c"], [], OneCell(c)) == OneCell(Cleaner.CleanTextCell(c))
  {
    MapOne(Cleaner.CleanTextCell, c);
    assert "c" in ["c"];
    KeepNothing(Cleaner.CleanColumns(["c"], OneCell(c).columns));
  }

  /** A missing value in a learned text column comes out as the text "nan" from the legacy copy,
      and stays missing in the current one. */
  lemma NullBecomesNanText(render: real -> string)
    ensures LegacyClean(render, ["c"], [], OneCell(Null)) == OneCell(Str("nan"))
    ensures Cleaner.Clean(["c"], [], OneCell(Null)) == OneCell(Null)
  {
    OneCellLegacy(render, Null);
    OneCellCurrent(Null);
  }

  /** Because the exact tokens are matched before stripping, a padded " NA " survives the legacy
      copy as the text "NA", while the current copy nulls it. */
  lemma PaddedAliasSurvives(render: real -> string)
    ensures LegacyClean(render, ["c"], [], OneCell(Str(" NA "))) == OneCell(Str("NA"))
    ensures Cleaner.Clean(["c"], [], OneCell(Str(" NA "))) == OneCell(Null)
  {
    PaddedNACells(render);
    OneCellLegacy(render, Str(" NA "));
    OneCellCurrent(Str(" NA "));
  }

  /** Unlike the current copy, the legacy transform is not idempotent: a second pass turns the
      "NA" left by the first into "nan". */
  lemma LegacyNotIdempotent(render: real -> string)
    ensures var once := LegacyClean(render, ["c"], [], OneCell(Str(" NA ")));
      LegacyClean(render, ["c"], [], once) != once
  {
    PaddedNACells(render);
    OneCellLegacy(render, Str(" NA "));
    OneCellLegacy(render, Str("NA"));
    assert OneCell(Str("nan")) != OneCell(Str("NA"));
  }

  /** The legacy `DataCleanerTransformer`. */
  class LegacyDataCleaner {
    var objCols: seq<string>
    var allNullCols: seq<string>

    constructor()
      ensures objCols == [] && allNullCols == []
    {
      objCols := [];
      allNullCols := [];
    }

    /** Normalises a copy of `x` (blank strings and the exact tokens become null) and learns both
        lists from it. The model keeps every column's kind through the normalisation, so the text
        columns learned are those of `x` itself; pandas may instead downcast a column there. */
    method Fit(x: Table)
      modifies this
      ensures objCols == TextColumnNames(x.columns)
      ensures allNullCols == AllNullColumnNames(ApplyToAll(x, FitNormalizeCell).columns)
    {
      var temp := ApplyToAll(x, FitNormalizeCell);
      FitNullColumns(x);
      objCols := TextColumnNames(temp.columns);
      allNullCols := AllNullColumnNames(temp.columns);
    }

    /** Cleans a copy of `x` with the learned state, in the source's three steps. */
    method Transform(render: real -> string, x: Table) returns (df: Table)
      ensures df == LegacyClean(render, objCols, allNullCols, x)
    {
      // 1) blank strings, then the exact tokens, become null in every column
      df := ApplyToAll(x, BlankToNull);
      df := ApplyToAll(df, TokenToNull);
      ghost var normalized := df;
      // 2) every cell of a learned text column present becomes its stripped string form
      ToStrippedIdempotent(render);
      AppliedToNothing(normalized, Stringify(render), TextKind);
      var i := 0;
      while i < |objCols|
        invariant i <= |objCols|
        invariant df == AppliedTo(normalized, objCols[..i], Stringify(render), TextKind)
      {
        var c := objCols[i];
        ApplyStep(normalized, objCols[..i], c, Stringify(render), TextKind);
        assert objCols[..i + 1] == objCols[..i] + [c];
        if c in Names(df.columns) {
          df := ApplyToColumn(df, c, Stringify(render), TextKind);
        }
        i := i + 1;
      }
      assert objCols[..i] == objCols;
      StepsMakeLegacyColumns(render, objCols, x);
      // 3) drop the learned all-null columns
      if |allNullCols| > 0 {
        df := DropColumns(df, allNullCols);
      } else {
        KeepNothing(df.columns);
      }
    }
  }
}
