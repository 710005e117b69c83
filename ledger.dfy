/**
  The winnings ledger of the click agent: one balance, where 0 means "no row
  played yet". The first click of a round stakes the bet and multiplies it by
  the row's multiplier; every later click multiplies the balance; cashing out
  hands the balance over and sets it back to 0. The multiplier is drawn at
  random by the source; here the caller passes it in.
*/
module Ledger {

  /** The new balance after one click with multiplier `m`. */
  function Click(winnings: real, bet: real, m: real): real {
    if winnings == 0.0 then bet * m else winnings * m
  }

  /** The balance after clicking with each multiplier of `ms` in turn, starting from `winnings`. */
  function Clicks(winnings: real, bet: real, ms: seq<real>): real {
    if ms == [] then winnings else Click(Clicks(winnings, bet, ms[..|ms| - 1]), bet, ms[|ms| - 1])
  }

  function Product(ms: seq<real>): real {
    if ms == [] then 1.0 else Product(ms[..|ms| - 1]) * ms[|ms| - 1]
  }

  function Pow(m: real, k: nat): real {
    if k == 0 then 1.0 else Pow(m, k - 1) * m
  }

  predicate AllPositive(ms: seq<real>) {
    forall i :: 0 <= i < |ms| ==> ms[i] > 0.0
  }

  /** A product of positive multipliers is positive. */
  lemma {:induction false} ProductPositive(ms: seq<real>)
    requires AllPositive(ms)
    ensures Product(ms) > 0.0
  {
    if ms != [] {
      ProductPositive(ms[..|ms| - 1]);
    }
  }

  /** From a balance that is not 0, positive multipliers keep it away from 0, so each click multiplies. */
  lemma {:induction false} ClicksFromBalance(winnings: real, bet: real, ms: seq<real>)
    requires winnings != 0.0 && AllPositive(ms)
    ensures Clicks(winnings, bet, ms) == winnings * Product(ms)
  {
    if ms != [] {
      var init := ms[..|ms| - 1];
      ClicksFromBalance(winnings, bet, init);
      ProductPositive(init);
      assert winnings * Product(init) != 0.0;
    }
  }

  /** From a fresh ledger, k >= 1 clicks with positive multipliers yield the bet times their product. */
  lemma {:induction false} ClicksFromFresh(bet: real, ms: seq<real>)
    requires |ms| >= 1 && AllPositive(ms)
    ensures Clicks(0.0, bet, ms) == bet * Product(ms)
  {
    if |ms| == 1 {
      assert ms[..0] == [];
    } else {
      var init := ms[..|ms| - 1];
      ClicksFromFresh(bet, init);
      ProductPositive(init);
      if bet == 0.0 {
        assert Clicks(0.0, bet, init) == 0.0;
      } else {
        assert Clicks(0.0, bet, init) != 0.0;
      }
    }
  }

  /** The product of k copies of one multiplier is its k-th power. */
  lemma {:induction false} ProductOfConstant(m: real, k: nat)
    ensures Product(seq(k, _ => m)) == Pow(m, k)
  {
    if k > 0 {
      assert seq(k, _ => m)[..k - 1] == seq(k - 1, _ => m);
      ProductOfConstant(m, k - 1);
    }
  }

  /** k clicks with one fixed positive multiplier from a fresh ledger yield bet * m^k. */
  lemma RepeatedClicks(bet: real, m: real, k: nat)
    requires m > 0.0 && k >= 1
    ensures Clicks(0.0, bet, seq(k, _ => m)) == bet * Pow(m, k)
  {
    ClicksFromFresh(bet, seq(k, _ => m));
    ProductOfConstant(m, k);
  }

  /** `ClickExecutionAgent`: the object whose `current_winnings` field the clicks and the cash-out update. */
  class ClickExecutionAgent {
    var currentWinnings: real

    constructor ()
      ensures currentWinnings == 0.0
    {
      currentWinnings := 0.0;
    }

    /** `click_and_progress`: the click always succeeds; the position is only reported, not used. */
    method ClickAndProgress(position: int, betAmount: real, rowMultiplier: real) returns (winnings: real)
      modifies this
      ensures old(currentWinnings) == 0.0 ==> currentWinnings == betAmount * rowMultiplier
      ensures old(currentWinnings) != 0.0 ==> currentWinnings == old(currentWinnings) * rowMultiplier
      ensures currentWinnings == Click(old(currentWinnings), betAmount, rowMultiplier)
      ensures winnings == currentWinnings
    {
      if currentWinnings == 0.0 {
        currentWinnings := betAmount * rowMultiplier;
      } else {
        currentWinnings := currentWinnings * rowMultiplier;
      }
      winnings := currentWinnings;
    }

    /** `cash_out`: hand over the balance and reset it for the next round. */
    method CashOut() returns (finalProfit: real)
      modifies this
      ensures finalProfit == old(currentWinnings)
      ensures currentWinnings == 0.0
    {
      finalProfit := currentWinnings;
      currentWinnings := 0.0;
    }
  }

  /** A second cash-out with no click in between pays 0. */
  method CashOutTwice(agent: ClickExecutionAgent) returns (first: real, second: real)
    modifies agent
    ensures first == old(agent.currentWinnings)
    ensures second == 0.0 && agent.currentWinnings == 0.0
  {
    first := agent.CashOut();
    second := agent.CashOut();
  }

  /** After a cash-out the next click starts afresh: it stakes the bet again, whatever was won before. */
  method ClickAfterCashOut(agent: ClickExecutionAgent, position: int, betAmount: real, rowMultiplier: real)
    returns (payout: real, winnings: real)
    modifies agent
    ensures payout == old(agent.currentWinnings)
    ensures winnings == betAmount * rowMultiplier && agent.currentWinnings == winnings
  {
    payout := agent.CashOut();
    winnings := agent.ClickAndProgress(position, betAmount, rowMultiplier);
  }
}
