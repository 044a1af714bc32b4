/**
 * What `extract_table_to_csv` promises about the rows it writes: each is a row of the
 * table that had cells, in table order, with its cells normalised and kept as a
 * prefix; all rows have the width of the widest row; and running the extraction on
 * its own output gives that output back.
 */
module TableExtractProperties {
  import opened Text
  import opened TableExtract

  /** The kept rows are the rows that had cells, normalised, in table order. */
  lemma {:induction false} KeptAreNonEmptyRows(table: seq<TextRow>)
    ensures |Kept(table)| == |NonEmptyRows(table)|
    ensures forall i :: 0 <= i < |Kept(table)| ==> Kept(table)[i] == NormRow(table[NonEmptyRows(table)[i]])
  {
    if table != [] {
      var n := |table| - 1;
      var pre := table[..n];
      KeptAreNonEmptyRows(pre);
      var ks, ix := Kept(pre), NonEmptyRows(pre);
      forall i | 0 <= i < |ks|
        ensures ks[i] == NormRow(table[ix[i]])
      {
        assert pre[ix[i]] == table[ix[i]];
      }
      if table[n] != [] {
        assert Kept(table) == ks + [NormRow(table[n])];
        assert NonEmptyRows(table) == ix + [n];
      } else {
        assert Kept(table) == ks;
        assert NonEmptyRows(table) == ix;
      }
    }
  }

  /**
   * The CSV rows: one per table row that had cells, in order, each as wide as the
   * widest row, starting with that row's normalised cells and padded with "".
   */
  lemma RectangularRows(table: seq<TextRow>)
    ensures var out := Rectangular(table);
      var idx := NonEmptyRows(table);
      |out| == |idx|
      && (forall i :: 0 <= i < |out| ==> |out[i]| == Width(table))
      && (forall i :: 0 <= i < |out| ==> out[i][..|table[idx[i]]|] == NormRow(table[idx[i]]))
      && (forall i, j :: 0 <= i < |out| && |table[idx[i]]| <= j < Width(table) ==> out[i][j] == "")
  {
    KeptAreNonEmptyRows(table);
  }

  /** A table whose rows all have cells keeps every row. */
  lemma {:induction false} KeptAll(table: seq<TextRow>)
    requires forall i :: 0 <= i < |table| ==> table[i] != []
    ensures Kept(table) == seq(|table|, i requires 0 <= i < |table| => NormRow(table[i]))
  {
    if table != [] {
      var n := |table| - 1;
      KeptAll(table[..n]);
    }
  }

  /** Normalising a normalised cell changes nothing. */
  lemma CellTextIdempotent(s: string)
    ensures CellText(CellText(s)) == CellText(s)
  {
    var r := CellText(s);
    StripFixpoint(r);
    CollapseFixpoint(r);
  }

  /** Normalising a row of normalised cells changes nothing. */
  lemma NormRowIdempotent(cells: TextRow)
    ensures NormRow(NormRow(cells)) == NormRow(cells)
  {
    forall j | 0 <= j < |cells|
      ensures CellText(CellText(cells[j])) == CellText(cells[j])
    {
      CellTextIdempotent(cells[j]);
    }
  }

  /** The width of rows that all have the same length is that length. */
  lemma {:induction false} WidthOfEven(rows: seq<TextRow>, w: nat)
    requires forall i :: 0 <= i < |rows| ==> |rows[i]| == w
    ensures Width(rows) == if rows == [] then 0 else w
  {
    if rows != [] {
      WidthOfEven(rows[..|rows| - 1], w);
    }
  }

  /** Every extracted row has cells, and its cells are already normalised. */
  lemma RectangularRowsNormal(table: seq<TextRow>)
    ensures var out := Rectangular(table);
      forall i :: 0 <= i < |out| ==> out[i] != [] && NormRow(out[i]) == out[i]
  {
    var out := Rectangular(table);
    KeptAreNonEmptyRows(table);
    forall i | 0 <= i < |out|
      ensures out[i] != [] && NormRow(out[i]) == out[i]
    {
      var row := Kept(table)[i];
      var src := table[NonEmptyRows(table)[i]];
      assert out[i] == Pad(row, Width(table));
      forall j | 0 <= j < |out[i]|
        ensures CellText(out[i][j]) == out[i][j]
      {
        if j < |row| {
          assert out[i][j] == row[j] == CellText(src[j]);
          CellTextIdempotent(src[j]);
        } else {
          assert out[i][j] == "";
        }
      }
    }
  }

  /** Extracting the extracted rows again gives the same rows. */
  lemma RectangularIdempotent(table: seq<TextRow>)
    ensures Rectangular(Rectangular(table)) == Rectangular(table)
  {
    var out := Rectangular(table);
    RectangularRows(table);
    RectangularRowsNormal(table);
    KeptAll(out);
    assert Kept(out) == out;
    WidthOfEven(out, Width(table));
    assert Padded(out, Width(out)) == out;
  }
}
