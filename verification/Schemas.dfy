/** The record types of src/schemas/invoice.py and the constants of src/config/settings.py
    and src/domain/constants.py that the models depend on. Times are seconds. */
module Schemas {
  import opened Common

  datatype Product = Product(
    productId: string,
    productName: string,
    productUnitPrice: string,
    productQuantity: string,
    productDiscountMoney: string,
    productTotalMoney: string)

  datatype InvoiceResult = InvoiceResult(
    name: string,
    kind: string,
    date: string,
    time: string,
    posId: string,
    receiptNumber: string,
    cashier: string,
    totalMoney: string,
    barcode: string,
    products: seq<Product>)

  datatype JobStatus = PENDING | PROCESSING | SUCCEEDED | FAILED_PERMANENT | FAILED_TRANSIENT {
    predicate Terminal() {
      this == SUCCEEDED || this == FAILED_PERMANENT || this == FAILED_TRANSIENT
    }
  }

  /** Job ids are UUIDs; only their identity matters. */
  type JobId = nat

  datatype JobRecord = JobRecord(
    status: JobStatus,
    phash: Option<string>,
    imageUrl: string,
    result: Option<InvoiceResult>,
    errorCode: Option<string>,
    errorMessage: Option<string>,
    createdAt: real,
    updatedAt: real)

  const STALE_PROCESSING_SECONDS := 900.0
  const STALE_PENDING_SECONDS := 1800.0
  const JOB_RETENTION_SECONDS := 7776000.0
  const REDIS_PHASH_TTL_SECONDS := 86400.0
  const REDIS_REQUEUE_TTL_SECONDS := 3600.0
  const REQUEUE_MAX: nat := 3
  const BACKPRESSURE_QUEUE_REJECT: nat := 500
  const GEMINI_BACKOFFS_SECONDS: seq<real> := [0.3, 0.6, 1.2]
}
