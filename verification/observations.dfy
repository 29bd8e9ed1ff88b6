/** Rows of a price file: `Ticker, Timestamp, Price`. */
module Observations {

  /** One row. Ticker and timestamp are opaque identifiers that are copied
      to the output unchanged; only the price is analysed. */
  datatype Observation = Observation(ticker: string, timestamp: string, price: real)

  /** The prices of a sequence of rows, in row order. */
  function Prices(rows: seq<Observation>): (ps: seq<real>)
    ensures |ps| == |rows|
    ensures forall i :: 0 <= i < |rows| ==> ps[i] == rows[i].price
  {
    seq(|rows|, i requires 0 <= i < |rows| => rows[i].price)
  }
}
