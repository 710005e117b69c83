/**
  The hidden layout of one round: for each of the ten rows, keyed by the
  row number's decimal text, the column (1 to 5) of the hazard. The random
  draw of each row's hazard is passed in as `draws`, one value per row.
*/
module Layout {
  import Decimal

  const ROW_COUNT := 10
  const COLUMN_COUNT := 5

  /** The keys of every generated layout: the texts of the row numbers 1 to 10. */
  const ROW_KEYS: set<string> := {"1", "2", "3", "4", "5", "6", "7", "8", "9", "10"}

  /** What the random source yields for one round: a hazard column in [1, 5] for each row. */
  predicate Drawn(draws: seq<int>) {
    |draws| == ROW_COUNT && forall i :: 0 <= i < |draws| ==> 1 <= draws[i] <= COLUMN_COUNT
  }

  /** The layout invariant: exactly the ten row keys, each with a hazard column in [1, 5]. */
  predicate ValidLayout(layout: map<string, int>) {
    && layout.Keys == ROW_KEYS
    && forall key :: key in layout ==> 1 <= layout[key] <= COLUMN_COUNT
  }

  lemma RowKeyTexts()
    ensures Decimal.FromInt(1) == "1" && Decimal.FromInt(2) == "2"
    ensures Decimal.FromInt(3) == "3" && Decimal.FromInt(4) == "4"
    ensures Decimal.FromInt(5) == "5" && Decimal.FromInt(6) == "6"
    ensures Decimal.FromInt(7) == "7" && Decimal.FromInt(8) == "8"
    ensures Decimal.FromInt(9) == "9" && Decimal.FromInt(10) == "10"
  {
  }

  /** The layout part of the simulated decryption: row `str(row)` holds the row's draw. */
  function GenerateLayout(draws: seq<int>): (layout: map<string, int>)
    requires Drawn(draws)
    ensures forall row :: 1 <= row <= ROW_COUNT ==>
      Decimal.FromInt(row) in layout && layout[Decimal.FromInt(row)] == draws[row - 1]
    ensures forall row :: Decimal.FromInt(row) in layout <==> 1 <= row <= ROW_COUNT
  {
    map row | 1 <= row <= ROW_COUNT :: Decimal.FromInt(row) := draws[row - 1]
  }

  /** A generated layout has exactly the ten row keys, each holding a column in [1, 5]. */
  lemma GeneratedLayoutIsValid(draws: seq<int>)
    requires Drawn(draws)
    ensures ValidLayout(GenerateLayout(draws))
    ensures |GenerateLayout(draws)| == ROW_COUNT
  {
    var layout := GenerateLayout(draws);
    forall key | key in layout ensures key in ROW_KEYS && 1 <= layout[key] <= COLUMN_COUNT {
      var row :| 1 <= row <= ROW_COUNT && key == Decimal.FromInt(row);
      RowTextIsKey(row);
    }
    forall key | key in ROW_KEYS ensures key in layout {
      KeyIsRowText(key);
    }
    assert layout.Keys == ROW_KEYS;
    RowKeyCount();
  }

  lemma RowTextIsKey(row: int)
    requires 1 <= row <= ROW_COUNT
    ensures Decimal.FromInt(row) in ROW_KEYS
  {
    RowKeyTexts();
    if row <= 5 {
      assert row == 1 || row == 2 || row == 3 || row == 4 || row == 5;
    } else {
      assert row == 6 || row == 7 || row == 8 || row == 9 || row == 10;
    }
  }

  lemma KeyIsRowText(key: string)
    requires key in ROW_KEYS
    ensures exists row :: 1 <= row <= ROW_COUNT && Decimal.FromInt(row) == key
  {
    RowKeyTexts();
  }

  lemma RowKeyCount()
    ensures |ROW_KEYS| == ROW_COUNT
  {
  }
}
