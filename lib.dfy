/** The parameters that identify one fiscal receipt. */
module Lib {
  import opened Decimals
  import opened DateTimes

  /** `ReceiptParams`: fiscal drive number, document number, fiscal sign, timestamp and amount. */
  datatype ReceiptParams = ReceiptParams(
    fiscalDriveNumber: nat,
    fiscalDocumentNumber: nat,
    fiscalSign: nat,
    created: DateTime,
    amount: Dec)
}
