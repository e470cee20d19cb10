/** The error taxonomy of the crate, `ledger_bitcoin::Error`. */
module Errors {

  /** Stands for `ledger::Error`, the transport's own error; this core never looks inside it. */
  datatype TransportError = TransportError(code: int)

  /** Stands for `secp256k1::Error`, the curve library's error; this core never looks inside it. */
  datatype CurveError = CurveError(code: int)

  /**
   * `ledger_bitcoin::Error`. The two `From` conversions of the crate are the
   * constructors `LedgerError` and `Secp256k1Error`, applied where the source
   * writes `?`.
   */
  datatype Error =
    | DerivationPathTooLong
    | InvalidLedgerResponse
    | LedgerError(transport: TransportError)
    | Secp256k1Error(curve: CurveError)
}
