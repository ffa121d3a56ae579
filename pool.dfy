/** The pool: fee and amount arithmetic, the transaction-size estimate, the
    wallet balance, the ledger match computed by one poll, and the assembly of
    a partially signed transaction (PSBT) that spends every UTXO of the
    funding address. Every indexer reply is a parameter; the signing library
    is reduced to per-input marks. */
module Pool {
  import opened Types

  /** Bytes per legacy input, per output, and fixed overhead. */
  const InputSize: int := 148
  const OutputSize: int := 34
  const TxOverhead: int := 10
  /** The estimate always counts a destination and a change output. */
  const EstimatedOutputs: int := 2

  // ---------------------------------------------------------------------------
  // Fee and amount arithmetic

  /** calculateSum: what is left to send once the fee is taken from the
      balance. Nothing is clamped: a fee above the balance gives a negative sum. */
  function CalculateSum(balance: int, fee: int): (sum: int)
    ensures sum + fee == balance
    ensures sum < 0 <==> fee > balance
  {
    balance - fee
  }

  /** calculateFee: an absolute fee from a rate and a size. The rate is
      recovered from the fee by dividing by the size. */
  function CalculateFee(feeRate: int, txSize: int): (fee: int)
    ensures txSize > 0 ==> fee % txSize == 0 && fee / txSize == feeRate
    ensures feeRate >= 0 && txSize >= 0 ==> fee >= 0
    ensures txSize == 0 || feeRate == 0 ==> fee == 0
  {
    MulDivides(feeRate, txSize);
    feeRate * txSize
  }

  lemma MulDivides(a: int, b: int)
    ensures b > 0 ==> (a * b) % b == 0 && (a * b) / b == a
    ensures a >= 0 && b >= 0 ==> a * b >= 0
  {
    if b > 0 {
      var q, r := (a * b) / b, (a * b) % b;
      assert a * b == q * b + r && 0 <= r < b;
      var d := a - q;
      assert d * b == r;
      if d >= 1 {
        assert false;
      } else if d <= -1 {
        assert false;
      }
    }
  }

  // ---------------------------------------------------------------------------
  // Size estimate

  /** The linear size model for any number of inputs and outputs. */
  function LinearSize(numInputs: int, numOutputs: int): int
  {
    numInputs * InputSize + numOutputs * OutputSize + TxOverhead
  }

  /** calculateTransactionSize over the UTXO list it fetched: one input per
      UTXO, always two outputs. The number of inputs can be read back from the
      size. */
  function CalculateTransactionSize(utxos: seq<Utxo>): (size: int)
    ensures size == LinearSize(|utxos|, 2)
    ensures size >= 78 && (size - 78) % 148 == 0 && (size - 78) / 148 == |utxos|
  {
    |utxos| * InputSize + EstimatedOutputs * OutputSize + TxOverhead
  }

  /** Each further UTXO adds one input's worth of bytes; the output count
      never changes the estimate. */
  lemma SizeGrowsPerInput(utxos: seq<Utxo>, u: Utxo)
    ensures CalculateTransactionSize(utxos + [u]) == CalculateTransactionSize(utxos) + InputSize
    ensures CalculateTransactionSize(utxos) == LinearSize(|utxos|, 1) + OutputSize
  {
  }

  // ---------------------------------------------------------------------------
  // Wallet balance

  datatype TxoStats = TxoStats(fundedTxoSum: int, spentTxoSum: int)
  datatype AddressInfo = AddressInfo(chainStats: TxoStats, mempoolStats: TxoStats)

  /** getWalletBalance over the indexer's address record: confirmed balance
      plus mempool balance, i.e. everything funded minus everything spent. */
  function GetWalletBalance(info: AddressInfo): (balance: int)
    ensures balance + info.chainStats.spentTxoSum + info.mempoolStats.spentTxoSum
            == info.chainStats.fundedTxoSum + info.mempoolStats.fundedTxoSum
  {
    var confirmedBalance := info.chainStats.fundedTxoSum - info.chainStats.spentTxoSum;
    var mempoolBalance := info.mempoolStats.fundedTxoSum - info.mempoolStats.spentTxoSum;
    confirmedBalance + mempoolBalance
  }

  // ---------------------------------------------------------------------------
  // Ledger match (findTx)

  /** `utxos.find(u => u.value === sum)`, as an index. */
  function FindFirst(utxos: seq<Utxo>, sum: int): (r: Option<nat>)
    ensures r.Some? ==> r.value < |utxos| && utxos[r.value].value == sum
    ensures r.Some? ==> forall j :: 0 <= j < r.value ==> utxos[j].value != sum
    ensures r.None? <==> forall j :: 0 <= j < |utxos| ==> utxos[j].value != sum
  {
    if |utxos| == 0 then None
    else if utxos[0].value == sum then Some(0)
    else
      match FindFirst(utxos[1..], sum)
      case None => None
      case Some(k) => Some(k + 1)
  }

  /** Confirmation count: blocks from the UTXO's block up to the tip,
      inclusive; 0 while unconfirmed. */
  function Confirmations(status: UtxoStatus, tipHeight: int): int
  {
    if status.confirmed then tipHeight - status.blockHeight + 1 else 0
  }

  /** The block heights from `height` to `tip`, both included. */
  ghost function BlocksSince(height: int, tip: int): set<int>
    decreases tip - height
  {
    if height > tip then {} else {height} + BlocksSince(height + 1, tip)
  }

  lemma {:induction false} BlocksSinceMembers(height: int, tip: int, b: int)
    ensures b in BlocksSince(height, tip) <==> height <= b <= tip
    decreases tip - height
  {
    if height <= tip {
      BlocksSinceMembers(height + 1, tip, b);
    }
  }

  lemma {:induction false} BlocksSinceSize(height: int, tip: int)
    requires height <= tip + 1
    ensures |BlocksSince(height, tip)| == tip - height + 1
    decreases tip - height
  {
    if height <= tip {
      BlocksSinceSize(height + 1, tip);
      BlocksSinceMembers(height + 1, tip, height);
    }
  }

  /** A confirmed UTXO's confirmation count is the number of blocks from its
      own block up to the tip, both included; an unconfirmed one has none. */
  lemma ConfirmationsCountBlocks(status: UtxoStatus, tipHeight: int)
    requires status.confirmed ==> status.blockHeight <= tipHeight + 1
    ensures status.confirmed ==>
              && Confirmations(status, tipHeight) == |BlocksSince(status.blockHeight, tipHeight)|
              && forall b :: b in BlocksSince(status.blockHeight, tipHeight) <==> status.blockHeight <= b <= tipHeight
    ensures !status.confirmed ==> Confirmations(status, tipHeight) == 0
  {
    if status.confirmed {
      BlocksSinceSize(status.blockHeight, tipHeight);
      forall b ensures b in BlocksSince(status.blockHeight, tipHeight) <==> status.blockHeight <= b <= tipHeight {
        BlocksSinceMembers(status.blockHeight, tipHeight, b);
      }
    }
  }

  function Abs(x: int): int
  {
    if x < 0 then -x else x
  }

  /** The current time as findTx computes it: the clock shifted by the local
      time-zone offset (minutes, as getTimezoneOffset reports it) and by three
      hours. */
  function AdjustedNow(now: int, timezoneOffsetMinutes: int): int
  {
    now + timezoneOffsetMinutes * 60000 + 3 * 60 * 60 * 1000
  }

  /** The shift cancels only where the local offset is UTC+3 (getTimezoneOffset
      reports -180); anywhere else the time compared against the block time
      is off by the difference. */
  lemma AdjustedNowIsClockOnlyAtUtcPlus3(now: int, timezoneOffsetMinutes: int)
    ensures AdjustedNow(now, timezoneOffsetMinutes) == now <==> timezoneOffsetMinutes == -180
    ensures AdjustedNow(now, timezoneOffsetMinutes) - now == (timezoneOffsetMinutes + 180) * 60000
  {
  }

  /** The time flag: a block time is present and lies within `window`
      milliseconds of the adjusted current time, on either side. */
  function MatchesTime(blockTime: int, adjustedNow: int, window: int): (m: bool)
    ensures m <==> blockTime != 0 && blockTime * 1000 - window <= adjustedNow <= blockTime * 1000 + window
  {
    if blockTime != 0 then Abs(adjustedNow - blockTime * 1000) <= window else false
  }

  /** The match record findTx builds for the UTXO it picked, given the tip
      height (used only when the UTXO is confirmed). */
  function MatchOf(u: Utxo, window: int, tipHeight: int, adjustedNow: int): TxMatch
  {
    TxMatch(Confirmations(u.status, tipHeight), true,
            MatchesTime(u.status.blockTime, adjustedNow, window), u.txid)
  }

  /** findTx over the fetched UTXO list, the reply to the tip-height request
      and the adjusted current time: an error on an empty list, null when no
      UTXO carries exactly `sum`, otherwise the match record of the first one
      that does. The tip height is requested only for a confirmed UTXO, so
      only then can its failure surface. */
  function FindTx(utxos: seq<Utxo>, window: int, sum: int, tipReply: Result<int, PoolError>, adjustedNow: int)
    : (r: Result<Option<TxMatch>, PoolError>)
    ensures |utxos| == 0 ==> r == Failure(NoUtxosAvailable)
    ensures r.Failure? <==>
              |utxos| == 0
              || (FindFirst(utxos, sum).Some? && utxos[FindFirst(utxos, sum).value].status.confirmed
                  && tipReply.Failure?)
    ensures |utxos| > 0 && r.Failure? ==> r == Failure(tipReply.error)
    ensures r == Success(None) <==> |utxos| > 0 && forall j :: 0 <= j < |utxos| ==> utxos[j].value != sum
    ensures r.Success? && r.value.Some? ==>
              exists k :: 0 <= k < |utxos| && utxos[k].value == sum
                          && (forall j :: 0 <= j < k ==> utxos[j].value != sum)
                          && r.value.value.matchesSum
                          && r.value.value.txid == utxos[k].txid
                          && r.value.value.matchesTime
                             == MatchesTime(utxos[k].status.blockTime, adjustedNow, window)
                          && (utxos[k].status.confirmed ==>
                                tipReply.Success?
                                && r.value.value.confirmations
                                   == tipReply.value - utxos[k].status.blockHeight + 1)
                          && (!utxos[k].status.confirmed ==> r.value.value.confirmations == 0)
  {
    if |utxos| == 0 then Failure(NoUtxosAvailable)
    else
      match FindFirst(utxos, sum)
      case None => Success(None)
      case Some(k) =>
        if !utxos[k].status.confirmed then Success(Some(MatchOf(utxos[k], window, 0, adjustedNow)))
        else
          match tipReply
          case Failure(e) => Failure(e)
          case Success(tipHeight) => Success(Some(MatchOf(utxos[k], window, tipHeight, adjustedNow)))
  }

  // ---------------------------------------------------------------------------
  // Transaction assembly (sendTx)

  function SumValues(utxos: seq<Utxo>): int
  {
    if |utxos| == 0 then 0 else utxos[0].value + SumValues(utxos[1..])
  }

  lemma {:induction false} SumValuesAppend(a: seq<Utxo>, b: seq<Utxo>)
    ensures SumValues(a + b) == SumValues(a) + SumValues(b)
  {
    if |a| == 0 {
      assert a + b == b;
    } else {
      assert (a + b)[1..] == a[1..] + b;
      SumValuesAppend(a[1..], b);
    }
  }


  datatype PsbtInput = PsbtInput(hash: string, index: int, nonWitnessUtxo: string)
  datatype PsbtOutput = PsbtOutput(address: string, value: int)

  /** The input sendTx adds for one UTXO: it spends (txid, vout) and carries
      the raw hex of the transaction that created that output. */
  function InputOf(u: Utxo, rawTxHex: string -> string): PsbtInput
  {
    PsbtInput(u.txid, u.vout, rawTxHex(u.txid))
  }

  /** The inputs sendTx adds, in the order the UTXOs were listed. */
  function InputsFor(utxos: seq<Utxo>, rawTxHex: string -> string): seq<PsbtInput>
  {
    if |utxos| == 0 then []
    else InputsFor(utxos[..|utxos| - 1], rawTxHex) + [InputOf(utxos[|utxos| - 1], rawTxHex)]
  }

  /** One input per UTXO, and input k spends UTXO k. */
  lemma {:induction false} InputsForAt(utxos: seq<Utxo>, rawTxHex: string -> string)
    ensures |InputsFor(utxos, rawTxHex)| == |utxos|
    ensures forall k :: 0 <= k < |utxos| ==>
              InputsFor(utxos, rawTxHex)[k] == PsbtInput(utxos[k].txid, utxos[k].vout, rawTxHex(utxos[k].txid))
  {
    if |utxos| > 0 {
      var init := utxos[..|utxos| - 1];
      InputsForAt(init, rawTxHex);
      assert forall k :: 0 <= k < |init| ==> init[k] == utxos[k];
    }
  }

  /** The outputs sendTx adds: `sum` to the destination, then the change back
      to the funding address only when that change is positive. */
  function OutputsFor(fromAddress: string, toAddress: string, sum: int, fee: int, inputAmount: int)
    : seq<PsbtOutput>
  {
    var change := inputAmount - sum - fee;
    [PsbtOutput(toAddress, sum)] + if change > 0 then [PsbtOutput(fromAddress, change)] else []
  }

  function OutputTotal(outputs: seq<PsbtOutput>): int
  {
    if |outputs| == 0 then 0 else outputs[0].value + OutputTotal(outputs[1..])
  }

  /** Value conservation: output 0 pays `sum` to the destination; a change
      output exists exactly when the change is positive, and then the inputs
      equal the outputs plus the fee; without it the amount left over for the
      miner is at most the planned fee. */
  lemma ValueConservation(fromAddress: string, toAddress: string, sum: int, fee: int, inputAmount: int)
    ensures var outs := OutputsFor(fromAddress, toAddress, sum, fee, inputAmount);
      && 1 <= |outs| <= 2
      && outs[0] == PsbtOutput(toAddress, sum)
      && (|outs| == 2 <==> inputAmount - sum - fee > 0)
      && (|outs| == 2 ==> outs[1] == PsbtOutput(fromAddress, inputAmount - sum - fee)
                          && inputAmount == OutputTotal(outs) + fee)
      && (|outs| == 1 ==> inputAmount - OutputTotal(outs) <= fee)
  {
    var outs := OutputsFor(fromAddress, toAddress, sum, fee, inputAmount);
    assert OutputTotal(outs) == outs[0].value + OutputTotal(outs[1..]);
    if |outs| == 2 {
      assert outs[1..] == [outs[1]];
      assert OutputTotal([outs[1]]) == outs[1].value + OutputTotal([]);
    } else {
      assert outs[1..] == [];
    }
  }

  datatype StepKind = AddInput | AddOutput | Sign | Validate

  /** One call made on the PSBT: a numbered step of some kind, or the final
      finalizeAllInputs. */
  datatype PsbtStep = Step(kind: StepKind, index: int) | Finalized

  /** Steps 0 .. n-1 of one kind, in order. */
  function Steps(kind: StepKind, n: nat): seq<PsbtStep>
  {
    if n == 0 then [] else Steps(kind, n - 1) + [Step(kind, n - 1)]
  }

  lemma {:induction false} StepsAt(kind: StepKind, n: nat)
    ensures |Steps(kind, n)| == n
    ensures forall k :: 0 <= k < n ==> Steps(kind, n)[k] == Step(kind, k)
  {
    if n > 0 {
      StepsAt(kind, n - 1);
    }
  }

  /** The calls sendTx makes, in order: every input added, the outputs, every
      input signed, every input validated, then finalize. */
  function SendHistory(numInputs: nat, numOutputs: nat): seq<PsbtStep>
  {
    Steps(AddInput, numInputs) + Steps(AddOutput, numOutputs)
    + Steps(Sign, numInputs) + Steps(Validate, numInputs) + [Finalized]
  }

  /** The phase a step belongs to, in the order sendTx runs the phases. */
  function Phase(s: PsbtStep): nat
  {
    match s
    case Finalized => 4
    case Step(kind, _) =>
      match kind
      case AddInput => 0
      case AddOutput => 1
      case Sign => 2
      case Validate => 3
  }

  /** The phases never interleave: no input is added or signed after any
      validation, finalization is the single last step, and input i is signed
      and validated exactly at its place in its phase. */
  lemma SendHistoryOrder(numInputs: nat, numOutputs: nat)
    ensures var h := SendHistory(numInputs, numOutputs);
      && |h| == 3 * numInputs + numOutputs + 1
      && (forall p, q :: 0 <= p < q < |h| ==> Phase(h[p]) <= Phase(h[q]))
      && (forall p :: 0 <= p < |h| ==> (h[p] == Finalized <==> p == |h| - 1))
      && (forall i :: 0 <= i < numInputs ==>
            && h[i] == Step(AddInput, i)
            && h[numInputs + numOutputs + i] == Step(Sign, i)
            && h[2 * numInputs + numOutputs + i] == Step(Validate, i))
  {
    var n, o := numInputs, numOutputs;
    StepsAt(AddInput, n);
    StepsAt(AddOutput, o);
    StepsAt(Sign, n);
    StepsAt(Validate, n);
    var h := SendHistory(n, o);
    assert |h| == 3 * n + o + 1;
    forall p | 0 <= p < |h|
      ensures Phase(h[p]) == if p < n then 0 else if p < n + o then 1
                             else if p < 2 * n + o then 2 else if p < 3 * n + o then 3 else 4
      ensures h[p] == Finalized <==> p == |h| - 1
    {
      if p < n {
        assert h[p] == Steps(AddInput, n)[p];
      } else if p < n + o {
        assert h[p] == Steps(AddOutput, o)[p - n];
      } else if p < 2 * n + o {
        assert h[p] == Steps(Sign, n)[p - n - o];
      } else if p < 3 * n + o {
        assert h[p] == Steps(Validate, n)[p - 2 * n - o];
      }
    }
    forall i | 0 <= i < n
      ensures h[i] == Step(AddInput, i)
      ensures h[n + o + i] == Step(Sign, i)
      ensures h[2 * n + o + i] == Step(Validate, i)
    {
      assert h[i] == Steps(AddInput, n)[i];
      assert h[n + o + i] == Steps(Sign, n)[i];
      assert h[2 * n + o + i] == Steps(Validate, n)[i];
    }
  }

  /** The bitcoinjs-lib PSBT object, reduced to what sendTx does with it: the
      inputs and outputs it appends, the inputs it has signed and validated,
      and whether it was finalized. */
  class Psbt {
    var inputs: seq<PsbtInput>
    var outputs: seq<PsbtOutput>
    var signed: set<int>
    var validated: set<int>
    var finalized: bool
    /** Every call made on this object, in order. */
    ghost var history: seq<PsbtStep>

    constructor ()
      ensures inputs == [] && outputs == [] && signed == {} && validated == {}
      ensures !finalized && history == []
    {
      inputs, outputs, signed, validated, finalized := [], [], {}, {}, false;
      history := [];
    }

    method AddInput(input: PsbtInput)
      modifies this
      ensures inputs == old(inputs) + [input]
      ensures outputs == old(outputs) && signed == old(signed)
      ensures validated == old(validated) && finalized == old(finalized)
      ensures history == old(history) + [Step(StepKind.AddInput, |old(inputs)|)]
    {
      history := history + [Step(StepKind.AddInput, |inputs|)];
      inputs := inputs + [input];
    }

    method AddOutput(output: PsbtOutput)
      modifies this
      ensures outputs == old(outputs) + [output]
      ensures inputs == old(inputs) && signed == old(signed)
      ensures validated == old(validated) && finalized == old(finalized)
      ensures history == old(history) + [Step(StepKind.AddOutput, |old(outputs)|)]
    {
      history := history + [Step(StepKind.AddOutput, |outputs|)];
      outputs := outputs + [output];
    }

    /** signInput: the signature itself is not modelled, only that input `i`
        now carries one. The library rejects an index with no input. */
    method SignInput(i: int)
      requires 0 <= i < |inputs|
      modifies this
      ensures signed == old(signed) + {i}
      ensures inputs == old(inputs) && outputs == old(outputs)
      ensures validated == old(validated) && finalized == old(finalized)
      ensures history == old(history) + [Step(Sign, i)]
    {
      signed := signed + {i};
      history := history + [Step(Sign, i)];
    }

    /** validateSignaturesOfInput: `verdict` stands for what the signature
        check reports; the library rejects an input without a signature. */
    method ValidateSignaturesOfInput(i: int, verdict: bool) returns (valid: bool)
      requires i in signed
      modifies this
      ensures valid == verdict
      ensures validated == old(validated) + {i}
      ensures inputs == old(inputs) && outputs == old(outputs)
      ensures signed == old(signed) && finalized == old(finalized)
      ensures history == old(history) + [Step(Validate, i)]
    {
      valid := verdict;
      validated := validated + {i};
      history := history + [Step(Validate, i)];
    }

    /** finalizeAllInputs: the library rejects a PSBT with an unsigned input. */
    method FinalizeAllInputs()
      requires forall i :: 0 <= i < |inputs| ==> i in signed
      modifies this
      ensures finalized
      ensures inputs == old(inputs) && outputs == old(outputs)
      ensures signed == old(signed) && validated == old(validated)
      ensures history == old(history) + [Finalized]
    {
      finalized := true;
      history := history + [Finalized];
    }
  }

  /** The first loop of sendTx: one input per UTXO, in list order, while
      the value of all UTXOs is added up. */
  method AddInputs(p: Psbt, utxos: seq<Utxo>, rawTxHex: string -> string) returns (inputAmount: int)
    requires p.inputs == [] && p.history == []
    modifies p
    ensures inputAmount == SumValues(utxos)
    ensures p.inputs == InputsFor(utxos, rawTxHex)
    ensures p.outputs == old(p.outputs) && p.signed == old(p.signed)
    ensures p.validated == old(p.validated) && p.finalized == old(p.finalized)
    ensures p.history == Steps(AddInput, |utxos|)
  {
    inputAmount := 0;
    var i := 0;
    while i < |utxos|
      invariant 0 <= i <= |utxos|
      invariant inputAmount == SumValues(utxos[..i])
      invariant p.inputs == InputsFor(utxos[..i], rawTxHex)
      invariant p.outputs == old(p.outputs) && p.signed == old(p.signed)
      invariant p.validated == old(p.validated) && p.finalized == old(p.finalized)
      invariant p.history == Steps(AddInput, i)
    {
      SumValuesAppend(utxos[..i], [utxos[i]]);
      InputsForAt(utxos[..i], rawTxHex);
      assert utxos[..i + 1] == utxos[..i] + [utxos[i]];
      assert utxos[..i + 1][..i] == utxos[..i];
      inputAmount := inputAmount + utxos[i].value;
      var raw := rawTxHex(utxos[i].txid);
      p.AddInput(PsbtInput(utxos[i].txid, utxos[i].vout, raw));
      i := i + 1;
    }
    assert utxos[..i] == utxos;
  }

  /** The signing loop of sendTx: inputs 0 .. n-1, in order. */
  method SignAll(p: Psbt, n: nat)
    requires |p.inputs| == n && p.signed == {}
    modifies p
    ensures forall k :: k in p.signed <==> 0 <= k < n
    ensures p.inputs == old(p.inputs) && p.outputs == old(p.outputs)
    ensures p.validated == old(p.validated) && p.finalized == old(p.finalized)
    ensures p.history == old(p.history) + Steps(Sign, n)
  {
    var j := 0;
    while j < n
      invariant 0 <= j <= n
      invariant forall k :: k in p.signed <==> 0 <= k < j
      invariant p.inputs == old(p.inputs) && p.outputs == old(p.outputs)
      invariant p.validated == old(p.validated) && p.finalized == old(p.finalized)
      invariant p.history == old(p.history) + Steps(Sign, j)
    {
      p.SignInput(j);
      j := j + 1;
    }
  }

  /** The validation loop of sendTx: inputs 0 .. n-1, in order; what each
      validation reports is not inspected. */
  method ValidateAll(p: Psbt, n: nat, verdicts: int -> bool)
    requires forall k :: k in p.signed <==> 0 <= k < n
    requires p.validated == {}
    modifies p
    ensures forall k :: k in p.validated <==> 0 <= k < n
    ensures p.inputs == old(p.inputs) && p.outputs == old(p.outputs)
    ensures p.signed == old(p.signed) && p.finalized == old(p.finalized)
    ensures p.history == old(p.history) + Steps(Validate, n)
  {
    var j := 0;
    while j < n
      invariant 0 <= j <= n
      invariant forall k :: k in p.validated <==> 0 <= k < j
      invariant p.inputs == old(p.inputs) && p.outputs == old(p.outputs)
      invariant p.signed == old(p.signed) && p.finalized == old(p.finalized)
      invariant p.history == old(p.history) + Steps(Validate, j)
    {
      var _ := p.ValidateSignaturesOfInput(j, verdicts(j));
      j := j + 1;
    }
  }

  /** sendTx. `utxos` is the UTXO list fetched for the funding address,
      `rawTxHex` the indexer's raw-transaction lookup, `verdicts` what the
      signature check reports per input, and `broadcastReply` the body the
      indexer answers the broadcast with. The built PSBT is returned beside
      the result so that its contents can be stated. */
  method SendTx(fromAddress: string, toAddress: string, sum: int, fee: int,
                utxos: seq<Utxo>, rawTxHex: string -> string, verdicts: int -> bool,
                broadcastReply: string)
    returns (result: Result<Option<string>, PoolError>, psbt: Psbt?)
    ensures |utxos| == 0 ==> result == Failure(NoUtxosAvailable) && psbt == null
    ensures |utxos| > 0 ==>
              result == Success(if broadcastReply == "" then None else Some(broadcastReply))
    ensures |utxos| > 0 ==>
              && psbt != null && fresh(psbt)
              && psbt.inputs == InputsFor(utxos, rawTxHex)
              && psbt.outputs == OutputsFor(fromAddress, toAddress, sum, fee, SumValues(utxos))
              && (forall k :: k in psbt.signed <==> 0 <= k < |utxos|)
              && (forall k :: k in psbt.validated <==> 0 <= k < |utxos|)
              && psbt.finalized
              && psbt.history == SendHistory(|utxos|, |psbt.outputs|)
  {
    if |utxos| == 0 {
      return Failure(NoUtxosAvailable), null;
    }
    var p := new Psbt();
    var inputAmount := AddInputs(p, utxos, rawTxHex);

    p.AddOutput(PsbtOutput(toAddress, sum));
    var change := inputAmount - sum - fee;
    if change > 0 {
      p.AddOutput(PsbtOutput(fromAddress, change));
    }
    ghost var outs := OutputsFor(fromAddress, toAddress, sum, fee, inputAmount);
    assert p.outputs == outs;
    assert p.history == Steps(AddInput, |utxos|) + Steps(AddOutput, |outs|);

    InputsForAt(utxos, rawTxHex);
    SignAll(p, |utxos|);
    ValidateAll(p, |utxos|, verdicts);
    p.FinalizeAllInputs();
    psbt := p;
    result := Success(if broadcastReply == "" then None else Some(broadcastReply));
  }

  /** Scenario: UTXOs of 10,000, 20,000 and 5,000, spending 25,000 with a fee
      of 1,000, give inputs worth 35,000, the destination output and a change
      output of 9,000. */
  lemma ThreeUtxoScenario(fromAddress: string, toAddress: string, s: UtxoStatus)
    ensures var utxos := [Utxo(s, "a", 0, 10000), Utxo(s, "b", 1, 20000), Utxo(s, "c", 0, 5000)];
      && SumValues(utxos) == 35000
      && OutputsFor(fromAddress, toAddress, 25000, 1000, SumValues(utxos))
         == [PsbtOutput(toAddress, 25000), PsbtOutput(fromAddress, 9000)]
  {
    var utxos := [Utxo(s, "a", 0, 10000), Utxo(s, "b", 1, 20000), Utxo(s, "c", 0, 5000)];
    assert utxos[1..] == [utxos[1], utxos[2]];
    assert utxos[1..][1..] == [utxos[2]];
    assert utxos[1..][1..][1..] == [];
    assert SumValues(utxos[1..][1..]) == 5000;
    assert SumValues(utxos[1..]) == 25000;
  }
}
