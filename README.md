# Transfer-and-watch core, modelled in Dafny

The repository moves a wallet's whole balance between two addresses on a
Bitcoin-style ledger and then watches the ledger until the transfer shows up.
This project models its three pieces of logic:

- **Pool** (`pool.dfy`, module `Pool`): the fee and amount arithmetic, the
  linear size estimate (148 bytes per input, 34 per output, 10 of overhead,
  always two outputs), the wallet balance, the match one poll computes
  (`findTx`), and the assembly of the PSBT (partially signed Bitcoin
  transaction) in `sendTx`. The PSBT is a class whose `inputs` and `outputs`
  sequences `addInput`/`addOutput` append to. Signing and validation are
  per-input marks. A ghost `history` records the order of the calls, so that
  "add every input, add the outputs, sign every input, validate every input,
  finalize" can be stated and proved.
- **Watcher** (`watcher.dfy`, module `Watching`): a class with `maxTime`,
  `startTime` and a nullable interval handle (`Option<nat>`; set means
  running). Each timer firing is an explicit `Tick(now, callbackResult)`.
  `RunSchedule` fires the timer at a given list of instants. `FirstStop` is
  the pure specification of where such a run stops. `FormatTime` follows
  JavaScript's number semantics: floor division, and a remainder that keeps
  the dividend's sign.
- **Entry point** (`app.dfy`, module `App`): which wallet funds the transfer,
  how the fee and the amount are derived, and the watcher callback. The
  callback is modelled both as written (its `finally` clause returns true)
  and as its branches intend.

`types.dfy` (module `Types`) holds the `UTXO`, `TxMatch` and
`RecommendedFees` shapes and the Option/Result wrappers.

Every indexer reply is a parameter: UTXO lists, raw transaction hex, tip
height, broadcast reply. So are clock readings (`now`, the time-zone offset),
the timer handle, and what the signature check reports per input. JavaScript
numbers are unbounded integers here.

Behaviour of the code worth knowing:
- `sendTx` discards the boolean `validateSignaturesOfInput` returns, so a
  failed self-check does not stop the broadcast.
  `Pool.SendTx` takes the per-input verdicts and its result does not depend
  on them.
- After the branches of the watcher callback have produced their value, its
  `finally { return true }` replaces that value with true, on every path. The
  watcher therefore stops on its first tick (see Findings).
- `findTx` shifts the clock by the local time-zone offset plus three hours.
  The shift cancels only at UTC+3; `Pool.AdjustedNowIsClockOnlyAtUtcPlus3`
  states this.
- `sendTx` does not check that the amount plus the fee is covered by the
  inputs. When it is not, only the change output is left out.

## Model

| member | source | states |
|---|---|---|
| `Pool.CalculateSum` | src/entities/Pool.ts:26-28 | sum + fee == balance, with no clamping: the sum is negative exactly when the fee exceeds the balance |
| `Pool.CalculateFee` | src/entities/Pool.ts:30-32 | for a positive size the fee is an exact multiple of it and dividing gives back the rate; the fee is non-negative for non-negative rate and size, and zero if either is zero |
| `Pool.CalculateTransactionSize` | src/entities/Pool.ts:51-73 | the size is the linear model with one input per UTXO and two outputs; the UTXO count can be read back as (size - 78) / 148 |
| `Pool.SizeGrowsPerInput` | src/entities/Pool.ts:60-71 | each extra UTXO adds 148 bytes; the estimate is 34 bytes above the linear size with a single output |
| `Pool.GetWalletBalance` | src/entities/Pool.ts:85-91 | balance plus everything spent (chain and mempool) equals everything funded (chain and mempool) |
| `Pool.FindFirst` | src/entities/Pool.ts:117-119 | the index returned holds a UTXO of exactly `sum` and no earlier UTXO does; none is returned exactly when no UTXO has that value |
| `Pool.ConfirmationsCountBlocks` | src/entities/Pool.ts:121-130 | for a confirmed UTXO the confirmation count is the number of block heights from its block to the tip inclusive (the set whose members are exactly those heights); 0 when unconfirmed |
| `Pool.AdjustedNowIsClockOnlyAtUtcPlus3` | src/entities/Pool.ts:136-138 | the adjusted time equals the clock exactly when the offset is -180 minutes, and is off by (offset + 180) minutes otherwise |
| `Pool.MatchesTime` | src/entities/Pool.ts:132-144 | the flag holds iff the block time is present (non-zero) and the adjusted time lies in [blockTime*1000 - window, blockTime*1000 + window] |
| `Pool.FindTx` | src/entities/Pool.ts:114-151 | "No UTXOs" error on an empty list; the tip-height request's error exactly when the first UTXO of value `sum` is confirmed and that request fails; null exactly when no UTXO has value `sum`; otherwise the record of the first such UTXO: matchesSum true, its txid, its time flag, and tip - height + 1 confirmations when confirmed, 0 otherwise |
| `Pool.SumValuesAppend` | src/entities/Pool.ts:173-176 | the value of two concatenated UTXO lists is the sum of their values |
| `Pool.InputsForAt` | src/entities/Pool.ts:175-185 | one input per UTXO, input k spending (txid, vout) of UTXO k with that transaction's raw hex |
| `Pool.ValueConservation` | src/entities/Pool.ts:187-199 | output 0 pays `sum` to the destination; a second output (fromAddress, change) exists iff change > 0, and then inputs == outputs + fee; with one output the miner gets at most the fee |
| `Pool.SendHistoryOrder` | src/entities/Pool.ts:175-219 | in the call order of sendTx the phases add-inputs, add-outputs, sign, validate, finalize never interleave; finalize is the single last step; input i is signed and validated once each, in index order |
| `Pool.Psbt.constructor` | src/entities/Pool.ts:171 | a new PSBT has no inputs, outputs, signatures or history |
| `Pool.Psbt.AddInput` | src/entities/Pool.ts:180-184 | appends the input and records the step; nothing else changes |
| `Pool.Psbt.AddOutput` | src/entities/Pool.ts:187-198 | appends the output and records the step; nothing else changes |
| `Pool.Psbt.SignInput` | src/entities/Pool.ts:201-207 | marks an existing input as signed and records the step |
| `Pool.Psbt.ValidateSignaturesOfInput` | src/entities/Pool.ts:209-217 | on a signed input, returns the signature check's verdict and marks the input validated |
| `Pool.Psbt.FinalizeAllInputs` | src/entities/Pool.ts:219 | requires every input signed; marks the PSBT finalized as the last recorded step |
| `Pool.AddInputs` | src/entities/Pool.ts:173-185 | the loop adds InputsFor(utxos) in order and returns the sum of all UTXO values |
| `Pool.SignAll` | src/entities/Pool.ts:201-207 | signs exactly the indices 0..n-1, in order |
| `Pool.ValidateAll` | src/entities/Pool.ts:209-217 | validates exactly the indices 0..n-1, in order, whatever each check reports |
| `Pool.SendTx` | src/entities/Pool.ts:154-226 | empty list: NoUtxosAvailable and no PSBT is built (so nothing is broadcast); otherwise the PSBT has InputsFor(utxos) and OutputsFor(.., total value), all inputs signed then validated, is finalized in SendHistory order, and the result is the broadcast id or null when that id is empty |
| `Pool.ThreeUtxoScenario` | src/entities/Pool.ts:173-199 | UTXOs 10,000/20,000/5,000, sum 25,000, fee 1,000: input total 35,000, outputs 25,000 to the destination and 9,000 change |
| `Watching.Decide` | src/entities/Watcher.ts:20-30 | a true callback result stops for the callback's reason whatever the remaining time; otherwise the watcher stops for time iff remaining <= 0 and continues iff remaining > 0 |
| `Watching.FirstStop` | src/entities/Watcher.ts:13-31 | the index returned is a stopping tick with no stopping tick before it; none exactly when no tick stops |
| `Watching.Watcher.constructor` | src/entities/Watcher.ts:6-9 | maxTime as given, startTime fixed to the clock reading at construction, timer not set |
| `Watching.Watcher.Start` | src/entities/Watcher.ts:11-13 | the timer handle is set (running) and the banner shows the formatted deadline |
| `Watching.Watcher.Stop` | src/entities/Watcher.ts:34-40 | afterwards the timer is cleared; the reason is logged once iff the timer was set, so a repeated stop changes nothing |
| `Watching.Watcher.Tick` | src/entities/Watcher.ts:16-30 | remaining == maxTime - (now - startTime) is computed before the callback result is used; on a running watcher the "Remaining time" line is shown and the new state follows Decide; a stopped watcher (its timer cleared) shows nothing and is left unchanged |
| `Watching.Watcher.RunSchedule` | src/entities/Watcher.ts:13-31 | firing the timer at each instant in turn stops exactly at FirstStop's tick, logging that tick's reason, having run k + 1 ticks; with no stopping tick the watcher is still running after all of them |
| `Watching.AlwaysFalseStopsAtDeadline` | src/entities/Watcher.ts:16-30 | with a callback that keeps returning false the watcher stops at tick k iff k is the first tick whose elapsed time is >= maxTime |
| `Watching.TrueCallbackStopsFirstTick` | src/entities/Watcher.ts:20-25 | a true result on the first tick stops there, for the callback's reason, even when the time is also up |
| `Watching.DeadlineStopsWhateverCallback` | src/entities/Watcher.ts:20-30 | whatever the callback resolves to, the watcher has stopped by the first tick at or past the deadline |
| `Watching.RegularScheduleStops` | src/entities/Watcher.ts:13-31 | with one firing per 1000 ms the watcher has stopped by firing (maxTime - 1) / 1000 + 1, less than one interval past the deadline, whatever the callback returns; with a false callback it times out exactly there |
| `Watching.FiveIntervalDeadline` | src/entities/Watcher.ts:13-31 | a 5-interval deadline with a false callback ends on the fifth firing |
| `Watching.ClockFieldsRecombine` | src/entities/Watcher.ts:43-50 | for ms >= 0: hours*3600 + minutes*60 + seconds == floor(ms/1000), minutes < 60, seconds < 60 |
| `Watching.DecimalDecodes` | src/entities/Watcher.ts:44-50 | the decimal text of n is all digits, non-empty, reads back as n, and has at most two digits below 100 |
| `Watching.FormatTime` | src/entities/Watcher.ts:42-53 | the text is at least "hh:mm:ss" long and starts with a minus sign exactly when the time is negative; read back by `Watching.FormatTimeDecodes`, negative fields shown by `Watching.FormatTimePastDeadline`, fields recombined by `Watching.ClockFieldsRecombine` |
| `Watching.FormatTimeDecodes` | src/entities/Watcher.ts:42-53 | for ms >= 0 the text is three ":"-joined digit fields, each at least two characters (last two exactly two), below 60 for minutes and seconds, that read back to floor(ms/1000) seconds |
| `Watching.FormatTimePastDeadline` | src/entities/Watcher.ts:42-53 | half a second past the deadline the remaining time shows as "-1:-1:-1" |
| `App.ChooseDirection` | src/index.ts:31-37 | the owner funds iff its balance is strictly larger (a tie goes to the receiver); the funding balance is the larger of the two; the destination is always the other address |
| `App.PlanTransfer` | src/index.ts:40-49 | fee == economyFee * (148 * UTXO count + 78) and sum + fee == funding balance |
| `App.SweepHasNoChange` | src/index.ts:40-53 | when the balance equals the UTXO total, the transaction has only the destination output, the miner receives exactly the fee, and the estimate counted one more output than is built |
| `App.Poll` | src/index.ts:67 | findTx for the destination with the 30-minute window: a failed UTXO request passes through, an empty list is the "No UTXOs" error, null exactly when no UTXO has value `sum`, and a found record is a UTXO of that value with its txid and the 30-minute time flag of the shifted clock |
| `App.TryBlock` | src/index.ts:65-97 | the branch table: true exactly on a failed poll or a non-zero confirmation count with matchesSum; false exactly on no match or a zero count with matchesSum outside the window; no branch applies exactly when matchesSum is false or a zero count comes with a time match |
| `App.Callback` | src/index.ts:64-101 | the callback as written always resolves to true |
| `App.IntendedCallback` | src/index.ts:69-100 | the if-chain's value, true where no branch applies (as the comment at index.ts:99 says): false exactly for no match and for a match with a zero confirmation count outside the time window |
| `App.IntendedCallbackOnPolls` | src/index.ts:67-100 | on findTx's records the intended callback stops iff the poll failed, or it found a match with a non-zero confirmation count or inside the time window |
| `App.FinallyMasksNoMatch` | src/index.ts:69-100 | when nothing is found the branches return false, yet the callback as written resolves to true |
| `App.AsWrittenStopsOnFirstTick` | src/index.ts:64-104 | combined with the callback-first tick, the watcher stops on its first tick for the callback's reason, whatever the polls report |
| `App.IntendedStopsOnCallbackOrDeadline` | src/index.ts:64-100 | with the intended callback the watcher stops at the first tick whose callback is true or whose elapsed time is >= 30 minutes; every earlier tick had neither |
| `App.WatchTransfer` | src/index.ts:61-104 | a watcher created with the 30-minute deadline (the same constant as the findTx window) and started stops after exactly one firing, with reason "Condition met via callback" |

## Findings

| source | as written | input that shows it | evidently intended | confidence | as-written member | corrected member |
|---|---|---|---|---|---|---|
| src/index.ts:98-100 | `finally { return true }` replaces the value of every branch and of the catch clause | a poll that finds no matching UTXO: the try block returns false, the callback resolves to true, and the watcher stops on its first tick | the if-chain's value decides, and only when no branch applies does the callback return true (the comment "Ensure the watcher stops if no conditions are met"): keep watching while nothing is found, or only a match with a zero confirmation count outside the window | not executed | `App.Callback` (with `App.FinallyMasksNoMatch`, `App.AsWrittenStopsOnFirstTick`) | `App.IntendedCallback` (with `App.IntendedCallbackOnPolls`, `App.IntendedStopsOnCallbackOrDeadline`) |

## Left out

- All HTTP requests (fee quote, UTXO lists, raw transaction hex, tip height, address stats, broadcast) are replaced by their replies as parameters. Failed requests are modelled only where the watcher callback catches them: the UTXO-list reply and the tip-height reply of `App.Poll`.
- The Pool constructor's choice of URL and network (src/entities/Pool.ts:14-24) is not modelled: the URL is used only by the requests, and the network parameters only by the signing library.
- Key handling and cryptography (WIF decoding, signing, signature verification, finalizing into scripts, serializing and hashing the transaction) are treated as opaque. Signing and validation are per-input marks; the verdict is a parameter.
- Wallet.ts, WalletStorage.ts and the tests are not modelled. They cover key generation, address derivation and file storage.
- Concurrency of the timer is not modelled: `setInterval` can fire again before an awaited callback resolves, but each `Tick` is one atomic firing here. A second `start` only overwrites the handle; that the old timer keeps firing is not modelled.
- Console output is recorded only as the stop reasons, the start banner and each tick's "Remaining time" line. `console.clear` and the callback's messages are left out.
- JavaScript numbers are unbounded integers; exponent notation in Number.prototype.toString (from 1e21) and non-integer times are not modelled.
- The sequencing of `main` (src/index.ts:11-105) is not modelled as one method: wallet loading, logging, and the try/catch that logs a failed `sendTx` (after which the watcher still starts). Its decisions are modelled separately: direction, plan, poll and watch.
- Pool.CalculateFee: the division round trip is stated for positive sizes only, which is the only case that occurs (the estimate is at least 78).
- Watching.RegularScheduleStops: stated for positive deadlines only (a non-positive deadline stops on the first firing, covered by Watching.DeadlineStopsWhateverCallback).
- Watching.DeadlineStopsWhateverCallback: the deadline bound holds only for callbacks that resolve. A firing awaits the callback (src/entities/Watcher.ts:20) before it checks the time, so a poll that never settles keeps the watcher running past its deadline; a Tick here always carries a resolved value.
- Pool.SendTx: the signing library's own checks on output values are not modelled; with a negative `sum` (a fee above the balance) the model builds a PSBT with a negative destination output and succeeds; what the library does with such an output is outside the model.
- Pool.SendTx: an exception from the raw-transaction fetch or the broadcast is not modelled, and the signed encoding that the source discards is not exposed.
- An absent `block_time` (unconfirmed UTXO) is modelled as 0, which is falsy in the same way.
