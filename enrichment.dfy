/** The two third-party lookups of the backend (`fetchWeatherData`,
    `fetchCryptoData`), reduced to the parts of their payloads the server reads.
    The HTTP exchange itself is not modelled: its outcome is an input. */
module Enrichment {
  import opened Wrappers

  /** `main` of an OpenWeather reply; `temp` in degrees Celsius (the request asks for
      metric units). `None` is a missing `temp`, which fails both comparisons. A JSON
      `null` would behave differently: JavaScript compares it as 0, so `null < 5`
      holds and the x1.05 factor applies. The model folds `null` into `None`. */
  datatype MainBlock = MainBlock(temp: Option<real>)

  /** One entry of the `weather` array of an OpenWeather reply. */
  datatype Condition = Condition(description: Option<string>)

  /** An OpenWeather reply: `main`, `weather` and `name` (the city as the provider spells it). */
  datatype WeatherPayload = WeatherPayload(main: Option<MainBlock>, weather: Option<seq<Condition>>, name: Option<string>)

  /** `bpi.USD` of a CoinDesk reply; `rate` is a comma-grouped decimal string such as
      "57,123.4567". `None` stands for a missing rate or one that is not a string. */
  datatype UsdQuote = UsdQuote(rate: Option<string>)

  datatype PriceIndex = PriceIndex(usd: Option<UsdQuote>)

  datatype UpdateTime = UpdateTime(updated: Option<string>)

  /** A CoinDesk reply: `bpi` and `time`. */
  datatype CryptoPayload = CryptoPayload(bpi: Option<PriceIndex>, time: Option<UpdateTime>)

  /** What the HTTP client produced for one lookup: the decoded body, or a failure of
      any kind (network error, non-success status, missing API key). */
  datatype HttpReply<T> = Delivered(body: T) | Failed

  /** `fetchWeatherData`: the decoded body on success and `null` on any failure; it
      never throws. Recording the reply in the store cannot change what it returns. */
  function FetchWeatherData(reply: HttpReply<WeatherPayload>): (data: Option<WeatherPayload>)
    ensures data.None? <==> reply.Failed?
    ensures reply.Delivered? ==> data == Some(reply.body)
  {
    match reply
    case Delivered(body) => Some(body)
    case Failed => None
  }

  /** `fetchCryptoData`: as `FetchWeatherData`, for the price index. */
  function FetchCryptoData(reply: HttpReply<CryptoPayload>): (data: Option<CryptoPayload>)
    ensures data.None? <==> reply.Failed?
    ensures reply.Delivered? ==> data == Some(reply.body)
  {
    match reply
    case Delivered(body) => Some(body)
    case Failed => None
  }
}
