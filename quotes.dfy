/**
 * The dictionaries the scraper hands from step to step: one exchange
 * quotation and one set of gold-coin prices, each field present or absent
 * as its key is in the dictionary or not.
 */
module Quotes {
  import opened Wrappers

  /**
   * Python's `float()` on a cell's text: the number it denotes, or None where
   * it raises ValueError. Its acceptance rules are not part of this model,
   * so every operation that reads numbers takes the parser as a parameter.
   */
  type NumParser = string -> Option<real>

  /** The exchange dictionary: `rate_date`, `currency_pair`, `bid`, `ask`, `avg` and `source`. */
  datatype ExchangeQuote = ExchangeQuote(
    rateDate: Option<string>, currencyPair: Option<string>,
    bid: Option<real>, ask: Option<real>, avg: Option<real>, source: Option<string>)

  /**
   * The gold dictionary: `rate_date`, a price per coin currency, the two
   * digital-token prices, and `source` / `source_url`.
   */
  datatype GoldQuote = GoldQuote(
    rateDate: Option<string>,
    usd: Option<real>, zar: Option<real>, zwg: Option<real>, gbp: Option<real>, eur: Option<real>,
    digitalTokenUsd: Option<real>, digitalTokenZwg: Option<real>,
    source: Option<string>, sourceUrl: Option<string>)
  {
    /** `len(data)`: how many keys the dictionary holds. */
    function Size(): (n: nat)
      ensures n <= 10
      ensures n == 0 <==> this == EmptyGold
    {
      Count(rateDate) + Count(usd) + Count(zar) + Count(zwg) + Count(gbp) + Count(eur)
        + Count(digitalTokenUsd) + Count(digitalTokenZwg) + Count(source) + Count(sourceUrl)
    }
  }

  const EmptyGold := GoldQuote(None, None, None, None, None, None, None, None, None, None)

  const EmptyExchange := ExchangeQuote(None, None, None, None, None, None)

  function Count<T>(o: Option<T>): nat {
    if o.Some? then 1 else 0
  }

  /** Python truthiness of an optional number: present and not zero. */
  predicate Truthy(x: Option<real>) {
    x.Some? && x.value != 0.0
  }

  /** Python truthiness of an optional string: present and not empty. */
  predicate TruthyText(s: Option<string>) {
    s.Some? && s.value != ""
  }
}
