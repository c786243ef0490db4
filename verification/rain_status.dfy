/** Deciding from a decoded forecast response whether it is raining.
    The `current` block is preferred; failing that, the first hourly
    precipitation value is used; failing both, the reading is "dry" with a
    fixed explanation. Fetching the response is left to the caller: the
    decoded payload is the input here. */
module RainStatus {
  import opened Wrappers

  /** A key of a JSON object: absent, present with `null`, or present with
      a value. */
  datatype Slot<+T> = Absent | Nil | Has(value: T)

  /** An abstraction of a JSON precipitation value as `float(v or 0.0)`
      sees it: `Null` stands for every falsy value (null, zero, false, an
      empty string), `Num` for every value `float` converts (a number, or
      `true` as 1.0), and `Unparsable` for every value `float` refuses. */
  datatype Field = Null | Num(mm: real) | Unparsable

  /** The `hourly` block: parallel series of timestamps and precipitation. */
  datatype Hourly = Hourly(time: Slot<seq<string>>, precipitation: Slot<seq<Field>>)

  /** The decoded response object. Only the two blocks the decision reads
      are kept; `current` maps field names to values. */
  datatype Payload = Payload(current: Slot<map<string, Field>>, hourly: Slot<Hourly>)

  /** Which data produced the decision, with the values it was made from. */
  datatype Detail =
    | FromCurrent(precip: real, rain: real)
    | FromHourly(time: string, precip: real)
    | NoFields(message: string)

  datatype RainReading = RainReading(raining: bool, detail: Detail)

  /** Why deciding raised instead of returning: `hourly` was `null` (so
      `.get` is called on nothing), or a value could not be converted to a
      number. */
  datatype PollError = NullHourly | NotANumber

  const Precipitation := "precipitation"
  const Rain := "rain"
  const Unknown := "unknown"
  const NoFieldsMessage := "no precipitation fields found"

  /** `float(v or 0.0)` */
  function Amount(f: Field): (r: Result<real, PollError>)
    ensures r.Failure? <==> f.Unparsable?
    ensures f.Num? ==> r == Success(f.mm)
    ensures f.Null? ==> r == Success(0.0)
    // only a positive number shows precipitation
    ensures r.Success? ==> (r.value > 0.0 <==> f.Num? && f.mm > 0.0)
  {
    match f
    case Null => Success(0.0)
    case Num(x) => Success(x)
    case Unparsable => Failure(NotANumber)
  }

  /** `current.get(key, 0.0)`: a missing key reads like a null one. */
  function Get(current: map<string, Field>, key: string): Field {
    if key in current then current[key] else Null
  }

  /** `hourly.get(key, [])` followed by a truth test: a missing or null
      series is as good as an empty one. */
  function Items<T>(series: Slot<seq<T>>): seq<T> {
    if series.Has? then series.value else []
  }

  /** `current and ("precipitation" in current or "rain" in current)` */
  predicate CurrentApplies(current: Slot<map<string, Field>>) {
    current.Has? && |current.value| > 0 && (Precipitation in current.value || Rain in current.value)
  }

  /** The hourly precipitation series, empty when `hourly` is missing. */
  function HourlyPrecipitation(data: Payload): seq<Field> {
    if data.hourly.Has? then Items(data.hourly.value.precipitation) else []
  }

  /** The first hourly timestamp, or "unknown" when there is none. */
  function FirstTime(data: Payload): string {
    var times := if data.hourly.Has? then Items(data.hourly.value.time) else [];
    if |times| > 0 then times[0] else Unknown
  }

  /** Whether the numbers a detail reports show any precipitation. */
  predicate ShowsPrecipitation(d: Detail) {
    match d
    case FromCurrent(p, r) => p > 0.0 || r > 0.0
    case FromHourly(_, p) => p > 0.0
    case NoFields(_) => false
  }

  /** The rain decision with its precedence: `current` when it applies,
      otherwise `hourly[0]`, otherwise a dry reading saying that no field
      was found. The reading is "raining" exactly when the values it
      reports show precipitation. */
  function GetRainStatus(data: Payload): (r: Result<RainReading, PollError>)
    ensures r.Success? ==> (r.value.raining <==> ShowsPrecipitation(r.value.detail))
    // 1. `current` decides whenever it applies
    ensures CurrentApplies(data.current) ==>
      && (r.Failure? <==> Get(data.current.value, Precipitation).Unparsable? || Get(data.current.value, Rain).Unparsable?)
      && (r.Success? ==>
            && r.value.detail.FromCurrent?
            && Amount(Get(data.current.value, Precipitation)) == Success(r.value.detail.precip)
            && Amount(Get(data.current.value, Rain)) == Success(r.value.detail.rain))
    // a null `hourly` raises once `current` does not apply
    ensures !CurrentApplies(data.current) ==> (r == Failure(NullHourly) <==> data.hourly.Nil?)
    // 2. otherwise the first hourly value decides
    ensures !CurrentApplies(data.current) && !data.hourly.Nil? && |HourlyPrecipitation(data)| > 0 ==>
      && (r.Failure? <==> HourlyPrecipitation(data)[0].Unparsable?)
      && (r.Success? ==>
            && r.value.detail.FromHourly?
            && r.value.detail.time == FirstTime(data)
            && Amount(HourlyPrecipitation(data)[0]) == Success(r.value.detail.precip))
    // 3. otherwise the reading is dry, with the fixed message
    ensures !CurrentApplies(data.current) && !data.hourly.Nil? && |HourlyPrecipitation(data)| == 0 ==>
      r == Success(RainReading(false, NoFields(NoFieldsMessage)))
  {
    if CurrentApplies(data.current) then
      var current := data.current.value;
      match (Amount(Get(current, Precipitation)), Amount(Get(current, Rain)))
      case (Success(precip), Success(rain)) =>
        Success(RainReading(precip > 0.0 || rain > 0.0, FromCurrent(precip, rain)))
      case (Failure(e), _) => Failure(e)
      case (_, Failure(e)) => Failure(e)
    else if data.hourly.Nil? then
      Failure(NullHourly)
    else
      var precs := HourlyPrecipitation(data);
      if |precs| > 0 then
        match Amount(precs[0])
        case Success(precip0) =>
          Success(RainReading(precip0 > 0.0, FromHourly(FirstTime(data), precip0)))
        case Failure(e) => Failure(e)
      else
        Success(RainReading(false, NoFields(NoFieldsMessage)))
  }

  /** When `current` applies, `hourly` is never consulted: replacing it,
      even by `null`, changes nothing. */
  lemma CurrentShadowsHourly(data: Payload, hourly: Slot<Hourly>)
    requires CurrentApplies(data.current)
    ensures GetRainStatus(data.(hourly := hourly)) == GetRainStatus(data)
  {
  }

  /** Of the hourly series only the first entries matter: two payloads
      without an applicable `current` block whose hourly data agree on
      whether `hourly` is null, on the first timestamp and on the first
      precipitation value decide alike. */
  lemma OnlyFirstHourlyEntryCounts(a: Payload, b: Payload)
    requires !CurrentApplies(a.current) && !CurrentApplies(b.current)
    requires a.hourly.Nil? == b.hourly.Nil?
    requires FirstTime(a) == FirstTime(b)
    requires |HourlyPrecipitation(a)| > 0 <==> |HourlyPrecipitation(b)| > 0
    requires |HourlyPrecipitation(a)| > 0 ==> HourlyPrecipitation(a)[0] == HourlyPrecipitation(b)[0]
    ensures GetRainStatus(a) == GetRainStatus(b)
  {
  }

  /** A missing or null `current` block, or one without either
      precipitation field, falls through to `hourly`; so does an empty one. */
  lemma CurrentWithoutFieldsFallsThrough(data: Payload)
    requires data.current.Has? ==> Precipitation !in data.current.value && Rain !in data.current.value
    ensures !CurrentApplies(data.current)
    ensures data.hourly.Absent? ==> GetRainStatus(data) == Success(RainReading(false, NoFields(NoFieldsMessage)))
  {
  }

  /** The three shapes of response that illustrate the precedence: a wet
      `current` block, an empty `current` block with a wet first hour, and
      a response with neither. */
  lemma PrecedenceExamples()
    ensures GetRainStatus(Payload(Has(map[Precipitation := Num(0.5)]), Absent))
         == Success(RainReading(true, FromCurrent(0.5, 0.0)))
    ensures GetRainStatus(Payload(Has(map[]), Has(Hourly(Has(["T00:00"]), Has([Num(1.2), Num(0.0)])))))
         == Success(RainReading(true, FromHourly("T00:00", 1.2)))
    ensures GetRainStatus(Payload(Absent, Has(Hourly(Absent, Has([Null])))))
         == Success(RainReading(false, FromHourly(Unknown, 0.0)))
    ensures GetRainStatus(Payload(Absent, Absent))
         == Success(RainReading(false, NoFields(NoFieldsMessage)))
  {
  }
}
