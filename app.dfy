/** The entry point's decisions: which wallet funds the transfer, the fee and
    the amount, and the watcher's callback, both as written (its finally
    clause returns true) and as its branches intend. */
module App {
  import opened Types
  import Pool
  import Watching

  /** The watcher's deadline and the findTx time window: thirty minutes. */
  const ThirtyMins: int := 30 * 60 * 1000

  /** Funding side and destination of the transfer. */
  datatype Direction = Direction(
    fromIsOwner: bool,
    fromAddress: string,
    fromBalance: int,
    toAddress: string
  )

  /** The owner funds the transfer only when its balance is strictly larger;
      on a tie the receiver funds it. */
  function ChooseDirection(ownerAddress: string, receiverAddress: string,
                           ownerBalance: int, receiverBalance: int): (d: Direction)
    ensures d.fromIsOwner <==> ownerBalance > receiverBalance
    ensures d.fromBalance >= ownerBalance && d.fromBalance >= receiverBalance
    ensures d.fromIsOwner ==> d.fromAddress == ownerAddress && d.toAddress == receiverAddress
                              && d.fromBalance == ownerBalance
    ensures !d.fromIsOwner ==> d.fromAddress == receiverAddress && d.toAddress == ownerAddress
                               && d.fromBalance == receiverBalance
  {
    var ownerBalanceIsMore := ownerBalance > receiverBalance;
    Direction(
      ownerBalanceIsMore,
      if ownerBalanceIsMore then ownerAddress else receiverAddress,
      if ownerBalanceIsMore then ownerBalance else receiverBalance,
      if ownerBalanceIsMore then receiverAddress else ownerAddress)
  }

  /** Fee and amount of the transfer. */
  datatype Plan = Plan(fee: int, sum: int)

  /** The fee is the economy rate times the size estimated over the UTXO list
      fetched for the estimate; the amount is the whole funding balance less
      that fee. */
  function PlanTransfer(fees: RecommendedFees, sizeUtxos: seq<Utxo>, fromBalance: int): (p: Plan)
    ensures p.fee == fees.economyFee * (148 * |sizeUtxos| + 34 * 2 + 10)
    ensures p.sum + p.fee == fromBalance
  {
    var txSize := Pool.CalculateTransactionSize(sizeUtxos);
    var fee := Pool.CalculateFee(fees.economyFee, txSize);
    Plan(fee, Pool.CalculateSum(fromBalance, fee))
  }

  /** When the funding balance is exactly the value of the UTXOs spent, the
      planned amount leaves no change: the transaction has the destination
      output only, the miner receives exactly the planned fee, and the size
      estimate counted one output (34 bytes) more than is built. */
  lemma SweepHasNoChange(fees: RecommendedFees, utxos: seq<Utxo>, fromBalance: int,
                         fromAddress: string, toAddress: string)
    requires Pool.SumValues(utxos) == fromBalance
    ensures var p := PlanTransfer(fees, utxos, fromBalance);
            var outs := Pool.OutputsFor(fromAddress, toAddress, p.sum, p.fee, Pool.SumValues(utxos));
            && outs == [Pool.PsbtOutput(toAddress, p.sum)]
            && Pool.SumValues(utxos) - Pool.OutputTotal(outs) == p.fee
            && Pool.CalculateTransactionSize(utxos) == Pool.LinearSize(|utxos|, |outs|) + Pool.OutputSize
  {
    var p := PlanTransfer(fees, utxos, fromBalance);
    Pool.ValueConservation(fromAddress, toAddress, p.sum, p.fee, Pool.SumValues(utxos));
  }

  /** One poll of the callback: findTx for the destination, with the transfer
      amount and the thirty-minute window. `reply` is the indexer's UTXO list
      (or its failure), `tipReply` the tip height (or its failure), `now` and
      `timezoneOffsetMinutes` the clock readings. */
  function Poll(reply: Result<seq<Utxo>, PoolError>, sum: int, tipReply: Result<int, PoolError>,
                now: int, timezoneOffsetMinutes: int): (r: Result<Option<TxMatch>, PoolError>)
    ensures reply.Failure? ==> r == Failure(reply.error)
    ensures reply.Success? && |reply.value| == 0 ==> r == Failure(NoUtxosAvailable)
    ensures r == Success(None) <==>
              reply.Success? && |reply.value| > 0
              && forall j :: 0 <= j < |reply.value| ==> reply.value[j].value != sum
    ensures r.Success? && r.value.Some? ==>
              && reply.Success?
              && exists k :: 0 <= k < |reply.value| && reply.value[k].value == sum
                             && r.value.value.matchesSum
                             && r.value.value.txid == reply.value[k].txid
                             && r.value.value.matchesTime
                                == Pool.MatchesTime(reply.value[k].status.blockTime,
                                                    Pool.AdjustedNow(now, timezoneOffsetMinutes), ThirtyMins)
  {
    match reply
    case Failure(e) => Failure(e)
    case Success(utxos) =>
      Pool.FindTx(utxos, ThirtyMins, sum, tipReply, Pool.AdjustedNow(now, timezoneOffsetMinutes))
  }

  /** How the callback's try/catch block completes, before its finally
      clause runs: with a value, or by falling off the end of the if-chain. */
  datatype Completion = Returned(value: bool) | FellThrough

  /** The try/catch block of the callback: its if-chain over the poll's
      outcome, and the catch clause for a failed poll. A confirmation count
      counts as present when it is non-zero, as JavaScript truthiness has it. */
  function TryBlock(poll: Result<Option<TxMatch>, PoolError>): (c: Completion)
    ensures c == Returned(true) <==>
              poll.Failure?
              || (poll.value.Some? && poll.value.value.confirmations != 0 && poll.value.value.matchesSum)
    ensures c == Returned(false) <==>
              poll == Success(None)
              || (poll.Success? && poll.value.Some? && poll.value.value.confirmations == 0
                  && poll.value.value.matchesSum && !poll.value.value.matchesTime)
    ensures c == FellThrough <==>
              poll.Success? && poll.value.Some?
              && (!poll.value.value.matchesSum
                  || (poll.value.value.confirmations == 0 && poll.value.value.matchesTime))
  {
    match poll
    case Failure(_) => Returned(true)
    case Success(None) => Returned(false)
    case Success(Some(tx)) =>
      if tx.confirmations == 0 && tx.matchesSum && !tx.matchesTime then Returned(false)
      else if tx.confirmations != 0 && tx.matchesSum && !tx.matchesTime then Returned(true)
      else if tx.confirmations != 0 && tx.matchesSum && tx.matchesTime then Returned(true)
      else FellThrough
  }

  /** The callback as written: whatever the try block completed with, the
      finally clause returns true, so the callback always resolves to true. */
  function Callback(poll: Result<Option<TxMatch>, PoolError>): (r: bool)
    ensures r
  {
    match TryBlock(poll)
    case Returned(_) => true
    case FellThrough => true
  }

  /** The callback as its branches and the finally clause's comment intend:
      the try block's value, and true when no branch applies ("stops if no
      conditions are met"). It keeps watching exactly while no transfer is
      found or the one found has a zero confirmation count and lies outside
      the time window. */
  function IntendedCallback(poll: Result<Option<TxMatch>, PoolError>): (r: bool)
    ensures !r <==> poll == Success(None)
                    || (poll.Success? && poll.value.Some? && poll.value.value.confirmations == 0
                        && poll.value.value.matchesSum && !poll.value.value.matchesTime)
  {
    match TryBlock(poll)
    case Returned(b) => b
    case FellThrough => true
  }

  /** On the records findTx produces (matchesSum always holds), the intended
      callback stops on a failed poll, on a match with a non-zero
      confirmation count, and on a match inside the time window. */
  lemma IntendedCallbackOnPolls(reply: Result<seq<Utxo>, PoolError>, sum: int,
                                tipReply: Result<int, PoolError>, now: int, timezoneOffsetMinutes: int)
    ensures var poll := Poll(reply, sum, tipReply, now, timezoneOffsetMinutes);
            IntendedCallback(poll) <==>
              poll.Failure?
              || (poll.value.Some? && (poll.value.value.confirmations != 0 || poll.value.value.matchesTime))
  {
  }

  /** The finally clause masks the branches: when no transfer is found the
      try block returns false (keep watching), yet the callback resolves to
      true. */
  lemma FinallyMasksNoMatch()
    ensures TryBlock(Success(None)) == Returned(false)
    ensures !IntendedCallback(Success(None))
    ensures Callback(Success(None))
  {
  }

  /** The ticks of a watcher whose callback is `callback`, polled at `nows`. */
  function CallbackTicks(nows: seq<int>, polls: seq<Result<Option<TxMatch>, PoolError>>,
                         callback: Result<Option<TxMatch>, PoolError> -> bool): seq<Watching.TickEvent>
    requires |nows| == |polls|
  {
    seq(|nows|, i requires 0 <= i < |nows| => Watching.TickEvent(nows[i], callback(polls[i])))
  }

  /** As written, the watcher stops on its first tick, for the callback's
      reason, whatever the polls report and however much time is left. */
  lemma AsWrittenStopsOnFirstTick(startTime: int, nows: seq<int>,
                                  polls: seq<Result<Option<TxMatch>, PoolError>>)
    requires |nows| == |polls| > 0
    ensures var ticks := CallbackTicks(nows, polls, Callback);
            && Watching.FirstStop(ThirtyMins, startTime, ticks) == Some(0)
            && Watching.Decide(Watching.Remaining(ThirtyMins, startTime, nows[0]), ticks[0].callbackResult)
               == Watching.StopByCallback
  {
    var ticks := CallbackTicks(nows, polls, Callback);
    Watching.TrueCallbackStopsFirstTick(ThirtyMins, startTime, ticks);
  }

  /** With the intended callback, the watcher stops at the first tick whose
      callback resolves to true or that comes at or after the deadline; every
      earlier tick came before the deadline with a callback of false. */
  lemma IntendedStopsOnCallbackOrDeadline(startTime: int, nows: seq<int>,
                                              polls: seq<Result<Option<TxMatch>, PoolError>>, k: nat)
    requires |nows| == |polls|
    requires Watching.FirstStop(ThirtyMins, startTime, CallbackTicks(nows, polls, IntendedCallback)) == Some(k)
    ensures k < |polls|
    ensures IntendedCallback(polls[k]) || nows[k] - startTime >= ThirtyMins
    ensures forall j :: 0 <= j < k ==> !IntendedCallback(polls[j]) && nows[j] - startTime < ThirtyMins
  {
    var ticks := CallbackTicks(nows, polls, IntendedCallback);
    assert Watching.Halts(ThirtyMins, startTime, ticks[k]);
    forall j | 0 <= j < k ensures !IntendedCallback(polls[j]) && nows[j] - startTime < ThirtyMins {
      assert !Watching.Halts(ThirtyMins, startTime, ticks[j]);
    }
  }

  /** What one firing of the watcher's timer sees: when it fires, the
      indexer's reply for the destination, the tip height and the time-zone
      offset. */
  datatype PollInput = PollInput(
    now: int,
    reply: Result<seq<Utxo>, PoolError>,
    tipReply: Result<int, PoolError>,
    timezoneOffsetMinutes: int
  )

  /** The watching tail of the entry point: a watcher with the thirty-minute
      deadline, started, then fired at each poll with the callback as
      written. It stops on the first firing. */
  method WatchTransfer(startNow: int, handle: nat, sum: int, polls: seq<PollInput>)
    returns (watcher: Watching.Watcher, fired: nat)
    ensures fresh(watcher)
    ensures watcher.maxTime == ThirtyMins && watcher.startTime == startNow
    ensures |polls| == 0 ==> fired == 0 && watcher.interval == Some(handle) && watcher.stopReasons == []
    ensures |polls| > 0 ==> fired == 1 && watcher.interval == None
                            && watcher.stopReasons == [Watching.ReasonCallback]
  {
    watcher := new Watching.Watcher(ThirtyMins, startNow);
    var _ := watcher.Start(handle);
    var nows := seq(|polls|, i requires 0 <= i < |polls| => polls[i].now);
    var outcomes := seq(|polls|, i requires 0 <= i < |polls| =>
                      Poll(polls[i].reply, sum, polls[i].tipReply, polls[i].now, polls[i].timezoneOffsetMinutes));
    var ticks := CallbackTicks(nows, outcomes, Callback);
    if |polls| > 0 {
      AsWrittenStopsOnFirstTick(startNow, nows, outcomes);
    }
    fired := watcher.RunSchedule(ticks);
  }
}
