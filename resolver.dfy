/**
  The resolver turns a layout into the column to click on one row: the first
  of the columns 1 to 5 that is not the row's hazard. A row whose text is not
  a key of the layout is an error (the source raises `ValueError`).
*/
module Resolver {
  import Decimal
  import Layout

  datatype Error = MissingRow(row: int)

  datatype Result<T> = Ok(value: T) | Err(error: Error)

  /** The candidate columns in the order they are tried. */
  const POSSIBLE_POSITIONS: seq<int> := [1, 2, 3, 4, 5]

  predicate Distinct(s: seq<int>) {
    forall i, j :: 0 <= i < j < |s| ==> s[i] != s[j]
  }

  /** The list comprehension `[pos for pos in s if pos != hazard]`. */
  function Without(s: seq<int>, hazard: int): (r: seq<int>)
    ensures forall x :: x in r <==> x in s && x != hazard
    ensures Distinct(s) ==> |r| == if hazard in s then |s| - 1 else |s|
  {
    if s == [] then []
    else
      assert s == [s[0]] + s[1..];
      if s[0] == hazard then Without(s[1..], hazard)
      else [s[0]] + Without(s[1..], hazard)
  }

  /** When the first two candidates differ, filtering keeps the first one that is not the hazard at the front. */
  lemma WithoutHead(s: seq<int>, hazard: int)
    requires |s| >= 2 && s[0] != s[1]
    ensures |Without(s, hazard)| >= 1
    ensures Without(s, hazard)[0] == if s[0] != hazard then s[0] else s[1]
  {
  }

  /** The safe columns of a row: four when the hazard is one of the five columns, else all five. */
  lemma SafePositionsShape(hazard: int)
    ensures |Without(POSSIBLE_POSITIONS, hazard)| == if 1 <= hazard <= Layout.COLUMN_COUNT then 4 else 5
    ensures forall x :: x in Without(POSSIBLE_POSITIONS, hazard) <==>
      1 <= x <= Layout.COLUMN_COUNT && x != hazard
  {
  }

  /** A column of the row that is not its hazard. */
  predicate IsSafe(p: int, hazard: int) {
    1 <= p <= Layout.COLUMN_COUNT && p != hazard
  }

  /** `resolve_safe_click`: look up the row's hazard and click the first column that avoids it. */
  function ResolveSafeClick(fullLayout: map<string, int>, currentRow: int): (r: Result<int>)
    ensures r.Err? <==> Decimal.FromInt(currentRow) !in fullLayout
    ensures r.Err? ==> r.error == MissingRow(currentRow)
    ensures r.Ok? ==>
      var hazard := fullLayout[Decimal.FromInt(currentRow)];
      && IsSafe(r.value, hazard)
      && forall p :: IsSafe(p, hazard) ==> r.value <= p
  {
    var rowKey := Decimal.FromInt(currentRow);
    if rowKey !in fullLayout then Err(MissingRow(currentRow))
    else
      var badApplePosition := fullLayout[rowKey];
      var safePositions := Without(POSSIBLE_POSITIONS, badApplePosition);
      WithoutHead(POSSIBLE_POSITIONS, badApplePosition);
      Ok(safePositions[0])
  }

  /** The clicked column in closed form: 2 when the hazard is column 1, otherwise 1. */
  lemma ResolveClosedForm(fullLayout: map<string, int>, currentRow: int)
    requires Decimal.FromInt(currentRow) in fullLayout
    ensures ResolveSafeClick(fullLayout, currentRow)
         == Ok(if fullLayout[Decimal.FromInt(currentRow)] == 1 then 2 else 1)
  {
  }

  /** On a generated layout the resolver succeeds exactly for the rows 1 to 10, and clicks the first column other than that row's draw. */
  lemma ResolveOnGeneratedLayout(draws: seq<int>, currentRow: int)
    requires Layout.Drawn(draws)
    ensures ResolveSafeClick(Layout.GenerateLayout(draws), currentRow).Ok?
        <==> 1 <= currentRow <= Layout.ROW_COUNT
    ensures 1 <= currentRow <= Layout.ROW_COUNT ==>
      ResolveSafeClick(Layout.GenerateLayout(draws), currentRow)
        == Ok(if draws[currentRow - 1] == 1 then 2 else 1)
  {
  }
}
