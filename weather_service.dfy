/**
 * WeatherService: the weather kinds with their symbol names and Korean descriptions, the
 * mapping from OpenWeatherMap condition codes to kinds, and the outcome of a fetch once the
 * location and network steps have produced their answer.
 */
module WeatherService {
  import opened Wrappers

  /** `WeatherType`: one case per kind the editor can show. */
  datatype WeatherType = Sunny | Cloudy | Rain | Snow | Lightning | Unknown

  /** The raw value of each case: the SF Symbol name drawn for it. */
  function RawValue(w: WeatherType): string
  {
    match w
    case Sunny => "sun.max.fill"
    case Cloudy => "cloud.fill"
    case Rain => "cloud.rain.fill"
    case Snow => "cloud.snow.fill"
    case Lightning => "cloud.bolt.fill"
    case Unknown => "questionmark.circle"
  }

  /** `WeatherType(rawValue:)`: the case whose raw value is `s`, if any. */
  function FromRawValue(s: string): Option<WeatherType>
  {
    if s == "sun.max.fill" then Some(Sunny)
    else if s == "cloud.fill" then Some(Cloudy)
    else if s == "cloud.rain.fill" then Some(Rain)
    else if s == "cloud.snow.fill" then Some(Snow)
    else if s == "cloud.bolt.fill" then Some(Lightning)
    else if s == "questionmark.circle" then Some(Unknown)
    else None
  }

  /** Every case is recovered from its raw value, and a string that is some case's raw value names that case. */
  lemma RawValueRoundTrip(w: WeatherType, s: string)
    ensures FromRawValue(RawValue(w)) == Some(w)
    ensures FromRawValue(s) == Some(w) <==> s == RawValue(w)
  {
  }

  /** `description`: the Korean word the editor stores in an entry's weather field. */
  function Description(w: WeatherType): string
  {
    match w
    case Sunny => "맑음"
    case Cloudy => "흐림"
    case Rain => "비"
    case Snow => "눈"
    case Lightning => "번개"
    case Unknown => "알 수 없음"
  }

  /** Distinct kinds have distinct descriptions, so a stored description names one kind. */
  lemma DescriptionsDistinct(v: WeatherType, w: WeatherType)
    ensures Description(v) == Description(w) <==> v == w
  {
  }

  /** `mapIDToWeatherType(id:)`: OpenWeatherMap condition codes, by group. */
  function MapIDToWeatherType(id: int): WeatherType
  {
    if 200 <= id <= 232 then Lightning
    else if 300 <= id <= 531 then Rain
    else if 600 <= id <= 622 then Snow
    else if id == 800 then Sunny
    else if 801 <= id <= 804 then Cloudy
    else Sunny
  }

  /**
   * The code ranges as the mapping reads them: thunderstorm codes are lightning, drizzle and rain
   * codes are rain, snow codes are snow, 801 to 804 are clouds, and every other code, 800 and
   * the atmosphere codes 7xx included, is sunny.
   */
  lemma MapIDRanges(id: int)
    ensures MapIDToWeatherType(id) == Lightning <==> 200 <= id <= 232
    ensures MapIDToWeatherType(id) == Rain <==> 300 <= id <= 531
    ensures MapIDToWeatherType(id) == Snow <==> 600 <= id <= 622
    ensures MapIDToWeatherType(id) == Cloudy <==> 801 <= id <= 804
    ensures MapIDToWeatherType(id) == Sunny <==>
      !(200 <= id <= 232 || 300 <= id <= 531 || 600 <= id <= 622 || 801 <= id <= 804)
  {
  }

  /**
   * How a fetch ends: location permission refused, no location delivered, the location request
   * or the network request failed, or a decoded response with its list of condition codes.
   */
  datatype FetchOutcome = NotAuthorized | NoLocation | LocationFailed | RequestFailed | Decoded(ids: seq<int>)

  /**
   * `fetchCurrentWeather()` once the outcome is known: every failure falls back to sunny, and a
   * response is mapped by its first condition code (sunny when it has none).
   */
  function FetchCurrentWeather(outcome: FetchOutcome): (w: WeatherType)
  {
    match outcome
    case Decoded(ids) => if ids != [] then MapIDToWeatherType(ids[0]) else Sunny
    case _ => Sunny
  }

  /** A fetch never yields the unknown kind: failures fall back to sunny and no code maps to unknown. */
  lemma FetchNeverUnknown(outcome: FetchOutcome)
    ensures FetchCurrentWeather(outcome) != Unknown
    ensures !outcome.Decoded? ==> FetchCurrentWeather(outcome) == Sunny
    ensures outcome.Decoded? && outcome.ids != [] ==> FetchCurrentWeather(outcome) == MapIDToWeatherType(outcome.ids[0])
  {
    if outcome.Decoded? && outcome.ids != [] {
      MapIDRanges(outcome.ids[0]);
    }
  }
}
