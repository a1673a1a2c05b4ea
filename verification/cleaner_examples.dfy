/** A worked instance of the current cleaner: the null-standardisation scenario of
    tests/test_preprocessing.py, fitted on one frame and applied to another. */
module CleanerExamples {
  import opened Strings
  import opened Tables
  import opened Cleaner

  const Train := Table([Column("col1", Textual, [Str("NA"), Str("N/A"), Str("na"), Str("value"), Null])], 5)
  const Test := Table([Column("col1", Textual, [Str("NA"), Str("N/A"), Str("na"), Str("NaN"), Str("value")])], 5)

  /** Fitting on `Train` learns `col1` as a text column and no all-null column ("value" survives). */
  lemma ExampleFit()
    ensures TextColumnNames(Train.columns) == ["col1"]
    ensures AllNullColumnNames(ApplyToAll(Train, FitNormalizeCell).columns) == []
  {
    var u := ApplyToAll(Train, FitNormalizeCell);
    assert "value"[0] == 'v' && !IsSpace('v');
    assert "value" !in NullTokens;
    assert FitNormalizeCell(Str("value")) == Str("value");
    assert u.columns[0].cells[3] == FitNormalizeCell(Train.columns[0].cells[3]);
    assert !AllNull(u.columns[0].cells);
    assert |u.columns| == 1 && u.columns[1..] == [];
    assert Train.columns[1..] == [];
  }

  // The spellings of the example, one fact at a time: the solver unfolds `Lower` and `Strip` on a
  // literal cheaply alone, but not several of them together with `CleanTextCell`.

  lemma LowerNA() ensures Lower("NA") == "na" { }
  lemma LowerNSlashA() ensures Lower("N/A") == "n/a" { }
  lemma LowerLowerNa() ensures Lower("na") == "na" { }
  lemma LowerNaN() ensures Lower("NaN") == "nan" { }
  lemma LowerValue() ensures Lower("value") == "value" { }
  lemma StripValue() ensures Strip("value") == "value" { StripUnpadded("value"); }
  lemma ValueNotAlias() ensures "value" !in NullAliases { assert |"value"| == 5; }

  lemma AliasNA() ensures IsNullAlias("NA") { StripUnpadded("NA"); LowerNA(); }
  lemma AliasNSlashA() ensures IsNullAlias("N/A") { StripUnpadded("N/A"); LowerNSlashA(); }
  lemma AliasLowerNa() ensures IsNullAlias("na") { StripUnpadded("na"); LowerLowerNa(); }
  lemma AliasNaN() ensures IsNullAlias("NaN") { StripUnpadded("NaN"); LowerNaN(); }
  lemma NotAliasValue() ensures !IsNullAlias("value") { StripValue(); LowerValue(); ValueNotAlias(); }
  lemma NotBlankValue() ensures !IsBlank("value") { assert "value"[0] == 'v'; }

  lemma AliasNull(s: string)
    requires IsNullAlias(s)
    ensures CleanTextCell(Str(s)) == Null
  {
  }

  lemma NullCells()
    ensures CleanTextCell(Str("NA")) == Null && CleanTextCell(Str("N/A")) == Null
    ensures CleanTextCell(Str("na")) == Null && CleanTextCell(Str("NaN")) == Null
  {
    AliasNA(); AliasNull("NA");
    AliasNSlashA(); AliasNull("N/A");
    AliasLowerNa(); AliasNull("na");
    AliasNaN(); AliasNull("NaN");
  }

  lemma ValueCell()
    ensures CleanTextCell(Str("value")) == Str("value")
  {
    NotAliasValue(); NotBlankValue(); StripValue();
  }

  lemma MapFive(f: Cell -> Cell, a: Cell, b: Cell, c: Cell, d: Cell, e: Cell)
    ensures MapCells(f, [a, b, c, d, e]) == [f(a), f(b), f(c), f(d), f(e)]
  {
  }

  lemma ExampleColumn()
    ensures CleanColumn(["col1"], Test.columns[0]) == Column("col1", Textual, [Null, Null, Null, Null, Str("value")])
  {
    NullCells(); ValueCell();
    MapFive(CleanTextCell, Str("NA"), Str("N/A"), Str("na"), Str("NaN"), Str("value"));
    assert "col1" in ["col1"];
  }

  /** After fitting on `Train`, transforming `Test` nulls the four null spellings and keeps "value". */
  lemma NullAliasExample()
    ensures var o := TextColumnNames(Train.columns);
      var a := AllNullColumnNames(ApplyToAll(Train, FitNormalizeCell).columns);
      Clean(o, a, Test) == Table([Column("col1", Textual, [Null, Null, Null, Null, Str("value")])], 5)
  {
    ExampleFit();
    ExampleColumn();
    var cc := CleanColumns(["col1"], Test.columns);
    assert cc == [Column("col1", Textual, [Null, Null, Null, Null, Str("value")])];
    KeepNothing(cc);
  }
}
