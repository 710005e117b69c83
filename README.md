# Per-round "pick the safe item" game simulation in Dafny

This project models `main.py` of the repository, a simulated session of an
"Apple of Fortune"-style game. Each round has a hidden layout with one hazard
column (1 to 5) in each of ten rows. The layout is keyed by the row number's
decimal text, `"1"` to `"10"`. The simulated "decryption" only builds this
layout: no network or cryptographic code exists.

In each round the master loop plays rows 1, 2, … up to a target row. On each
row the resolver picks the first column that avoids the hazard. The click
agent then updates its winnings balance:
- The first click of a round stakes the bet and multiplies it by the row's multiplier.
- Every later click multiplies the balance.
- Cashing out pays the balance and resets it to 0.

The session adds up `payout - base_bet` over all rounds.

Modules:
- `Decimal`: Python's `str` of an `int` (`FromInt`), with its inverse `ToInt` and injectivity.
- `Layout`: the layout built from the ten hazard draws (`GenerateLayout`) and its shape invariant.
- `Resolver`: `resolve_safe_click` (`ResolveSafeClick`) and its list-comprehension filter (`Without`).
- `Ledger`: the class `ClickExecutionAgent` with its `currentWinnings` field, plus its specification functions (`Click`, `Clicks`, `Product`, `Pow`).
- `Protocol`: the row loop of one round (`PlayRound`), the round loop of the session (`RunMasterProtocol`), and the specification of a session's profit (`SessionProfit`).

Randomness is passed in as parameters:
- Each round's ten hazard draws (`random.randint(1, 5)`) are a sequence `draws` of ten values in [1, 5].
- Each click's multiplier (`1.2 + random.random() * 0.1`) comes from a sequence of ten reals per round. Row k of round r uses `mults[r][k - 1]`.

Balances are Dafny `real`s, so there is no floating-point rounding.

Where the system's design description and its code disagree, the model follows the code:
- A target row outside [1, 10] is not rejected. It plays `min(max(target_row, 0), 10)` rows, and a round with no row played cashes out 0.
- A round count of 0 or less plays no round.
- Multipliers are not validated. The properties that need positive multipliers require them as lemma hypotheses.
- `run_gtm_master_protocol` returns nothing and only prints the total. The model returns the total profit as the method's result.

## Model

| member | source | states |
|---|---|---|
| Decimal.FromNat | main.py:25 | the decimal text of a natural number is all digits, and reading it back gives the number (round trip) |
| Decimal.FromInt | main.py:46 | `str(current_row)` of any int, negative ones included, reads back to that int |
| Decimal.FromIntInjective | main.py:46-47 | two rows have the same key text only if they are the same row |
| Layout.GenerateLayout | main.py:24-27 | row `str(i)` holds draw i for i in 1..10, and `str(row)` is a key exactly when 1 <= row <= 10 |
| Layout.GeneratedLayoutIsValid | main.py:24-27 | a generated layout has exactly the keys "1".."10" (ten entries), and every value lies in [1, 5] |
| Resolver.Without | main.py:55 | the filter keeps exactly the candidates other than the hazard; on distinct candidates it drops one entry if the hazard is among them and none otherwise |
| Resolver.WithoutHead | main.py:55-58 | the first entry of the filtered list exists and is the first candidate unless that one is the hazard, in which case it is the second |
| Resolver.SafePositionsShape | main.py:54-58 | `safe_positions` is never empty: it holds the four columns other than a hazard in [1, 5], or all five otherwise, so `[0]` cannot fail |
| Resolver.ResolveSafeClick | main.py:42-61 | fails with the missing row exactly when `str(current_row)` is not a key; otherwise returns a column in [1, 5] other than the hazard, and no smaller such column exists; the layout is only read |
| Resolver.ResolveClosedForm | main.py:50-58 | for a present row the click is column 2 when the hazard is column 1, and column 1 otherwise |
| Resolver.ResolveOnGeneratedLayout | main.py:46-58 | on a generated layout the resolver succeeds exactly for rows 1..10, and clicks 2 if the row's draw is 1, else 1 |
| Ledger.ClicksFromBalance | main.py:83-87 | from a non-zero balance, positive multipliers multiply it: the result is balance times their product |
| Ledger.ClicksFromFresh | main.py:83-87 | from balance 0, one or more clicks with positive multipliers give bet times the product of the multipliers |
| Ledger.RepeatedClicks | main.py:81-90 | k >= 1 clicks from a fresh agent with a fixed multiplier m > 0 give bet * m^k |
| Ledger.ClickExecutionAgent.constructor | main.py:66-70 | a new agent's winnings are 0 |
| Ledger.ClickExecutionAgent.ClickAndProgress | main.py:72-90 | from 0 the balance becomes bet * m, otherwise old balance * m; the new balance is returned |
| Ledger.ClickExecutionAgent.CashOut | main.py:92-97 | returns the balance before the call and leaves it 0 |
| Ledger.CashOutTwice | main.py:92-97 | a second cash-out with no click in between returns 0 |
| Ledger.ClickAfterCashOut | main.py:83-97 | after a cash-out the next click behaves as on a fresh agent: bet * m |
| Protocol.PlayRound | main.py:125-141 | rows 1, 2, … are resolved and clicked in ascending order, exactly `min(max(target_row, 0), 10)` of them, each at its resolved safe column; the payout is the cash-out of those clicks from the agent's starting balance, and the agent is left at 0 |
| Protocol.RunMasterProtocol | main.py:102-144 | the total profit is the sum over the `max(rounds, 0)` rounds of (payout − base bet), each round starting from balance 0 with its own layout and multipliers |
| Protocol.RoundPayoutClosedForm | main.py:128-141 | with positive multipliers a round pays 0 if no row is played, else the bet times the product of the played rows' multipliers |
| Protocol.SessionProfitAppend | main.py:141-144 | the profit of consecutive rounds is the sum of their profits, so nothing carries from one round to the next |
| Protocol.ConstantRoundPayout | main.py:128-141 | with one fixed multiplier m > 0 a round pays bet * m^k for k >= 1 played rows, and 0 when none is played |
| Protocol.ConstantSessionProfit | main.py:113-144 | with one fixed multiplier m > 0, n rounds of k played rows net n * (bet * m^k − bet), or −n * bet when k = 0 |
| Protocol.SingleRoundExample | main.py:113-144 | one round to row 3 at stake 100 with multiplier 1.25 everywhere nets 95.3125 |
| Protocol.SingleRoundSession | main.py:102-144 | the master loop itself returns 95.3125 for that configuration, whatever the hazard draws |
| Protocol.NoRowPlayedLosesBet | main.py:128-144 | a target row of 0 or below loses the base bet in every round |

## Left out

- Printing, `time.strftime` and `time.sleep` (main.py:16, 36-37, 60, 77, 89, 96, 105-107, 114, 117, 146-150): output and delays with no effect on state.
- The `round_id` (a SHA-1 of the clock) and `timestamp` fields of the decrypted record (main.py:30-34): they are a clock read and a foreign hash with no logic. `GenerateLayout` models only the `full_layout` part. `CashOut` drops the `round_id` parameter, which the source never uses.
- The random draws (main.py:25, 81) become parameters, as described above. The draw's range [1, 5] is a precondition of `GenerateLayout`, because `randint(1, 5)` guarantees it.
- Floating-point arithmetic: balances are exact reals.
- `api_endpoint`, `session_token` and the `encrypted_data` string (main.py:66-68, 120): never read by any logic.
- The local `current_winnings = base_bet` and its reassignment (main.py:126, 137): the value is never read.
- The default arguments of `run_gtm_master_protocol` (5 rounds, target row 5, bet 50.0) and the commented-out entry call (main.py:153).
- Protocol.PlayRound: requires the rows it will play to be keys of the layout. The source would raise `ValueError` there instead, but this cannot happen in a session, because every generated layout holds rows 1 to 10 (`Resolver.ResolveOnGeneratedLayout`). The error path itself is modelled in `Resolver.ResolveSafeClick`.
