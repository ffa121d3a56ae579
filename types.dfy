/** Shapes shared by the pool, the watcher and the entry point: the ledger
    indexer's UTXO record, the match record computed per poll, the fee quote,
    and the Option/Result wrappers used for nullable values and thrown errors. */
module Types {

  datatype Option<+T> = None | Some(value: T)

  datatype Result<+R, +E> = Success(value: R) | Failure(error: E)

  /** Errors the modelled code throws, or receives as a rejected request. */
  datatype PoolError =
    | NoUtxosAvailable   // "No UTXOs available for this address."
    | RequestFailed      // a rejected axios request

  /** Confirmation status of a UTXO as the indexer reports it. An unconfirmed
      UTXO carries no block time; that absent field is modelled as 0, which
      is falsy exactly as `undefined` is. */
  datatype UtxoStatus = UtxoStatus(
    confirmed: bool,
    blockHeight: int,
    blockHash: string,
    blockTime: int       // unix seconds, 0 when absent
  )

  datatype Utxo = Utxo(status: UtxoStatus, txid: string, vout: int, value: int)

  /** What one poll reports about the transfer it looks for. */
  datatype TxMatch = TxMatch(
    confirmations: int,
    matchesSum: bool,
    matchesTime: bool,
    txid: string
  )

  /** Fee rates in satoshi per byte. */
  datatype RecommendedFees = RecommendedFees(
    fastestFee: int,
    halfHourFee: int,
    hourFee: int,
    economyFee: int,
    minimumFee: int
  )
}
