/**
 * Facts about the PostgreSQL columns the microservices store user ids in.
 */
module Postgres {
  /**
   * The range of an `INTEGER` column. The asyncpg driver refuses a query
   * argument outside it with a `DataError` before the query runs; no
   * handler catches it, so an HTTP handler answers 500 and a consumer
   * stops with nothing stored.
   */
  predicate IsInt32(n: int) {
    -0x8000_0000 <= n < 0x8000_0000
  }
}
