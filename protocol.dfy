/**
  The master control loop: for each round, generate a layout, play rows 1, 2,
  ... up to the target row (at most all ten), clicking the resolved safe
  column on each row, then cash out and add the round's payout less the base
  bet to the total profit. One agent serves the whole session; its cash-out
  is what keeps one round's winnings out of the next.
*/
module Protocol {
  import Decimal
  import Layout
  import Resolver
  import Ledger

  /** The number of rows one round plays: rows 1 to 10 in turn, stopping at the first row past the target. */
  function RowsPlayed(targetRow: int): nat {
    if targetRow <= 0 then 0
    else if targetRow >= Layout.ROW_COUNT then Layout.ROW_COUNT
    else targetRow
  }

  /** The number of rounds `range(1, rounds + 1)` runs. */
  function RoundsPlayed(rounds: int): nat {
    if rounds <= 0 then 0 else rounds
  }

  /** The cash-out of a round that starts from balance `start`, given the multipliers of its ten rows. */
  function RoundPayout(start: real, baseBet: real, targetRow: int, ms: seq<real>): real
    requires |ms| == Layout.ROW_COUNT
  {
    Ledger.Clicks(start, baseBet, ms[..RowsPlayed(targetRow)])
  }

  predicate WellShaped(mults: seq<seq<real>>) {
    forall r :: 0 <= r < |mults| ==> |mults[r]| == Layout.ROW_COUNT
  }

  /** The total profit of a session whose rounds draw the multipliers `mults`: each round starts from 0. */
  function SessionProfit(baseBet: real, targetRow: int, mults: seq<seq<real>>): real
    requires WellShaped(mults)
  {
    if mults == [] then 0.0
    else
      SessionProfit(baseBet, targetRow, mults[..|mults| - 1])
        + (RoundPayout(0.0, baseBet, targetRow, mults[|mults| - 1]) - baseBet)
  }

  /**
    One round of the master loop (the row loop and the cash-out). `clicks` lists the
    columns clicked, row 1 first. The rows it plays must be in the layout, as they are
    for every generated one.
  */
  method PlayRound(cea: Ledger.ClickExecutionAgent, fullLayout: map<string, int>, targetRow: int,
                   baseBet: real, rowMultipliers: seq<real>)
    returns (finalWinnings: real, clicks: seq<int>)
    requires |rowMultipliers| == Layout.ROW_COUNT
    requires forall row :: 1 <= row <= RowsPlayed(targetRow) ==> Decimal.FromInt(row) in fullLayout
    modifies cea
    ensures |clicks| == RowsPlayed(targetRow)
    ensures forall i :: 0 <= i < |clicks| ==> Resolver.ResolveSafeClick(fullLayout, i + 1) == Resolver.Ok(clicks[i])
    ensures finalWinnings == RoundPayout(old(cea.currentWinnings), baseBet, targetRow, rowMultipliers)
    ensures cea.currentWinnings == 0.0
  {
    ghost var start := cea.currentWinnings;
    clicks := [];
    for row := 1 to Layout.ROW_COUNT + 1
      invariant row - 1 <= RowsPlayed(targetRow)
      invariant |clicks| == row - 1
      invariant forall i :: 0 <= i < |clicks| ==> Resolver.ResolveSafeClick(fullLayout, i + 1) == Resolver.Ok(clicks[i])
      invariant cea.currentWinnings == Ledger.Clicks(start, baseBet, rowMultipliers[..row - 1])
    {
      if row > targetRow {
        break;
      }
      var safePos := Resolver.ResolveSafeClick(fullLayout, row);
      var _ := cea.ClickAndProgress(safePos.value, baseBet, rowMultipliers[row - 1]);
      assert rowMultipliers[..row][..row - 1] == rowMultipliers[..row - 1];
      clicks := clicks + [safePos.value];
    }
    finalWinnings := cea.CashOut();
  }

  /**
    `run_gtm_master_protocol`: round r (from 0) uses `draws[r]` as its hazard draws and
    `mults[r]` as its row multipliers. Returns the session's total profit.
  */
  method RunMasterProtocol(rounds: int, targetRow: int, baseBet: real,
                           draws: seq<seq<int>>, mults: seq<seq<real>>)
    returns (totalProfit: real)
    requires rounds <= |draws| && rounds <= |mults|
    requires forall r :: 0 <= r < rounds ==> Layout.Drawn(draws[r]) && |mults[r]| == Layout.ROW_COUNT
    ensures totalProfit == SessionProfit(baseBet, targetRow, mults[..RoundsPlayed(rounds)])
  {
    var cea := new Ledger.ClickExecutionAgent();
    totalProfit := 0.0;
    for round := 0 to RoundsPlayed(rounds)
      invariant cea.currentWinnings == 0.0
      invariant totalProfit == SessionProfit(baseBet, targetRow, mults[..round])
    {
      var fullLayout := Layout.GenerateLayout(draws[round]);
      var finalWinnings, _ := PlayRound(cea, fullLayout, targetRow, baseBet, mults[round]);
      var roundProfit := finalWinnings - baseBet;
      assert mults[..round + 1][..round] == mults[..round];
      totalProfit := totalProfit + roundProfit;
    }
  }

  /** A round's payout: 0 when no row is played, otherwise the bet times the product of the played rows' multipliers. */
  lemma RoundPayoutClosedForm(baseBet: real, targetRow: int, ms: seq<real>)
    requires |ms| == Layout.ROW_COUNT && Ledger.AllPositive(ms)
    ensures RoundPayout(0.0, baseBet, targetRow, ms)
         == if RowsPlayed(targetRow) == 0 then 0.0 else baseBet * Ledger.Product(ms[..RowsPlayed(targetRow)])
  {
    if RowsPlayed(targetRow) > 0 {
      Ledger.ClicksFromFresh(baseBet, ms[..RowsPlayed(targetRow)]);
    }
  }

  /** The profit of a session is the sum of the profits of its parts: rounds do not affect each other. */
  lemma {:induction false} SessionProfitAppend(baseBet: real, targetRow: int, a: seq<seq<real>>, b: seq<seq<real>>)
    requires WellShaped(a) && WellShaped(b)
    ensures WellShaped(a + b)
    ensures SessionProfit(baseBet, targetRow, a + b)
         == SessionProfit(baseBet, targetRow, a) + SessionProfit(baseBet, targetRow, b)
  {
    assert WellShaped(a + b) by {
      forall r | 0 <= r < |a + b| ensures |(a + b)[r]| == Layout.ROW_COUNT {
        if r < |a| { assert (a + b)[r] == a[r]; } else { assert (a + b)[r] == b[r - |a|]; }
      }
    }
    if b == [] {
      assert a + b == a;
    } else {
      var init := b[..|b| - 1];
      assert (a + b)[..|a + b| - 1] == a + init;
      assert (a + b)[|a + b| - 1] == b[|b| - 1];
      SessionProfitAppend(baseBet, targetRow, a, init);
    }
  }

  /** With one fixed multiplier m > 0 on every row, a round pays bet * m^k, k the rows played (0 when k = 0). */
  lemma ConstantRoundPayout(baseBet: real, targetRow: int, m: real)
    requires m > 0.0
    ensures RoundPayout(0.0, baseBet, targetRow, seq(Layout.ROW_COUNT, _ => m))
         == if RowsPlayed(targetRow) == 0 then 0.0 else baseBet * Ledger.Pow(m, RowsPlayed(targetRow))
  {
    var k := RowsPlayed(targetRow);
    var ms := seq(Layout.ROW_COUNT, _ => m);
    assert ms[..k] == seq(k, _ => m);
    if k > 0 {
      Ledger.RepeatedClicks(baseBet, m, k);
    }
  }

  /** With one fixed multiplier m > 0 on every row, each of the n rounds contributes bet * m^k - bet, k the rows played. */
  lemma {:induction false} ConstantSessionProfit(baseBet: real, targetRow: int, m: real, mults: seq<seq<real>>)
    requires m > 0.0
    requires forall r :: 0 <= r < |mults| ==> mults[r] == seq(Layout.ROW_COUNT, _ => m)
    ensures WellShaped(mults)
    ensures SessionProfit(baseBet, targetRow, mults)
         == (|mults| as real) * ((if RowsPlayed(targetRow) == 0 then 0.0
                                  else baseBet * Ledger.Pow(m, RowsPlayed(targetRow))) - baseBet)
  {
    if mults != [] {
      var n := |mults|;
      var init := mults[..n - 1];
      ConstantSessionProfit(baseBet, targetRow, m, init);
      ConstantRoundPayout(baseBet, targetRow, m);
      var profit := (if RowsPlayed(targetRow) == 0 then 0.0
                     else baseBet * Ledger.Pow(m, RowsPlayed(targetRow))) - baseBet;
      assert SessionProfit(baseBet, targetRow, mults)
          == SessionProfit(baseBet, targetRow, init) + profit;
      assert ((n - 1) as real) * profit + profit == (n as real) * profit;
    }
  }

  /** One round to row 3 at a stake of 100 with every multiplier 1.25 nets 100 * 1.25^3 - 100 = 95.3125. */
  lemma SingleRoundExample()
    ensures SessionProfit(100.0, 3, [seq(Layout.ROW_COUNT, _ => 1.25)]) == 95.3125
  {
    ConstantSessionProfit(100.0, 3, 1.25, [seq(Layout.ROW_COUNT, _ => 1.25)]);
    assert Ledger.Pow(1.25, 3) == 1.953125;
  }

  /** The session of the example above, run through the master loop with any hazard draws: it returns 95.3125. */
  method SingleRoundSession(draws: seq<int>) returns (totalProfit: real)
    requires Layout.Drawn(draws)
    ensures totalProfit == 95.3125
  {
    var mults := [seq(Layout.ROW_COUNT, _ => 1.25)];
    totalProfit := RunMasterProtocol(1, 3, 100.0, [draws], mults);
    assert mults[..1] == mults;
    SingleRoundExample();
  }

  /** Playing no row at all (target row 0 or below) loses the base bet in every round. */
  lemma {:induction false} NoRowPlayedLosesBet(baseBet: real, targetRow: int, mults: seq<seq<real>>)
    requires targetRow <= 0 && WellShaped(mults)
    ensures SessionProfit(baseBet, targetRow, mults) == -(|mults| as real) * baseBet
  {
    if mults != [] {
      NoRowPlayedLosesBet(baseBet, targetRow, mults[..|mults| - 1]);
      assert mults[|mults| - 1][..0] == [];
    }
  }
}
