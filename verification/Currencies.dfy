/** The supported currencies and their smallest units. */
module Currencies {
  datatype Option<+T> = None | Some(value: T)

  datatype Currency = NGN | USD | EUR | GBP | CAD | AUD | CHF | JPY | CNY | ZAR | KES | GHS

  /** Smallest units per major unit: the yen has none below it. */
  function SubunitFactor(c: Currency): int {
    match c
    case JPY => 1
    case _ => 100
  }
}
