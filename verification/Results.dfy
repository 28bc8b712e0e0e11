/** What the services answer, and how they read currency codes and rate tables. */
module Results {
  import opened Currencies
  import opened Money

  datatype Error =
    | SameCurrency | UnsupportedCurrency | BadAmount | InProgress | FailedBefore
    | BadRate | AmountTooSmall | QuoteUnavailable | InsufficientBalance | LiquidityExhausted | Internal

  datatype Result<T> = Ok(value: T) | Err(error: Error)

  /** The currency of an upper-case code, if it is supported. */
  function Supported(code: string): Option<Currency> {
    match code
    case "NGN" => Some(NGN)
    case "USD" => Some(USD)
    case "EUR" => Some(EUR)
    case "GBP" => Some(GBP)
    case "CAD" => Some(CAD)
    case "AUD" => Some(AUD)
    case "CHF" => Some(CHF)
    case "JPY" => Some(JPY)
    case "CNY" => Some(CNY)
    case "ZAR" => Some(ZAR)
    case "KES" => Some(KES)
    case "GHS" => Some(GHS)
    case _ => None
  }

  function CodeOf(c: Currency): string {
    match c
    case NGN => "NGN" case USD => "USD" case EUR => "EUR" case GBP => "GBP" case CAD => "CAD" case AUD => "AUD"
    case CHF => "CHF" case JPY => "JPY" case CNY => "CNY" case ZAR => "ZAR" case KES => "KES" case GHS => "GHS"
  }

  /** A code stands for a currency exactly when it is that currency's code. */
  lemma SupportedIsCode(code: string, c: Currency)
    ensures Supported(code) == Some(c) <==> code == CodeOf(c)
  {
  }

  lemma SupportedDistinct(a: string, b: string)
    requires Supported(a).Some? && Supported(b).Some? && a != b
    ensures Supported(a) != Supported(b)
  {
    SupportedIsCode(a, Supported(a).value);
    SupportedIsCode(b, Supported(b).value);
  }

  function RateIn(rates: map<Currency, RawRate>, c: Currency): (r: Option<real>)
    ensures r.Some? ==> 0.0 < r.value
  {
    ParseRate(if c in rates then rates[c] else Absent)
  }
}
