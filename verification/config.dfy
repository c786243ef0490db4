/** Loading the configuration: the decoded YAML document is validated
    (both coordinates must be present) and the two optional settings get
    their defaults without overwriting values the user gave. Finding and
    reading the file are left to the caller; the decoded document is the
    input here. */
module Config {
  import opened Wrappers

  /** A YAML value as far as the configuration is concerned. A list or a
      mapping is represented only by its number of entries, which is all
      that its truth value depends on. */
  datatype Value =
    | Null
    | Bool(b: bool)
    | Int(i: int)
    | Real(x: real)
    | Str(s: string)
    | Collection(size: nat)

  /** The decoded document: a mapping from setting names to values. */
  type Document = map<string, Value>

  datatype ConfigError = MissingCoordinates

  const Latitude := "latitude"
  const Longitude := "longitude"
  const CheckInterval := "check_interval"
  const AlertOnceKey := "alert_once"

  /** Seconds between polls when the document does not say. */
  const DefaultCheckInterval: int := 300

  /** The document the loader works on: an empty or null YAML document
      decodes to nothing, which `or {}` turns into the empty mapping. */
  function OrEmpty(loaded: Option<Document>): Document {
    match loaded
    case None => map[]
    case Some(doc) => doc
  }

  /** `dict.setdefault`: the key is present afterwards, every entry that was
      there keeps its value, and the default lands only where the key was
      missing. */
  function SetDefault(cfg: Document, key: string, default: Value): (r: Document)
    ensures r.Keys == cfg.Keys + {key}
    ensures forall k :: k in cfg ==> r[k] == cfg[k]
    ensures key !in cfg ==> r[key] == default
  {
    if key in cfg then cfg else cfg[key := default]
  }

  /** Applying the same default twice changes nothing the first time did not. */
  lemma SetDefaultIdempotent(cfg: Document, key: string, d1: Value, d2: Value)
    ensures SetDefault(SetDefault(cfg, key, d1), key, d2) == SetDefault(cfg, key, d1)
  {
  }

  /** The configuration loader: rejects a document that lacks either
      coordinate, and otherwise fills in `check_interval` and `alert_once`
      when they are absent, leaving every given entry as it was. */
  method LoadConfig(loaded: Option<Document>) returns (r: Result<Document, ConfigError>)
    ensures r.Failure? <==> Latitude !in OrEmpty(loaded) || Longitude !in OrEmpty(loaded)
    ensures r.Success? ==> r.value.Keys == OrEmpty(loaded).Keys + {CheckInterval, AlertOnceKey}
    ensures r.Success? ==> forall k :: k in OrEmpty(loaded) ==> r.value[k] == OrEmpty(loaded)[k]
    ensures r.Success? && CheckInterval !in OrEmpty(loaded) ==> r.value[CheckInterval] == Int(DefaultCheckInterval)
    ensures r.Success? && AlertOnceKey !in OrEmpty(loaded) ==> r.value[AlertOnceKey] == Bool(true)
  {
    var cfg := OrEmpty(loaded);
    if Latitude !in cfg || Longitude !in cfg {
      return Failure(MissingCoordinates);
    }
    cfg := SetDefault(cfg, CheckInterval, Int(DefaultCheckInterval));
    cfg := SetDefault(cfg, AlertOnceKey, Bool(true));
    return Success(cfg);
  }

  /** Python's truth value of a setting, as `bool(...)` computes it: exactly
      the null value, false, zero, the empty string and the empty collection
      are false. */
  function Truthy(v: Value): (t: bool)
    ensures !t <==> v in {Null, Bool(false), Int(0), Real(0.0), Str(""), Collection(0)}
  {
    match v
    case Null => false
    case Bool(b) => b
    case Int(i) => i != 0
    case Real(x) => x != 0.0
    case Str(s) => s != ""
    case Collection(n) => n != 0
  }

  /** The notification policy the poll loop runs with. */
  function AlertOnce(cfg: Document): (alertOnce: bool)
    requires AlertOnceKey in cfg
    ensures !alertOnce <==> cfg[AlertOnceKey] in {Null, Bool(false), Int(0), Real(0.0), Str(""), Collection(0)}
    ensures cfg[AlertOnceKey] == Bool(true) ==> alertOnce
    ensures cfg[AlertOnceKey] == Bool(false) ==> !alertOnce
    ensures cfg[AlertOnceKey].Str? ==> (alertOnce <==> cfg[AlertOnceKey].s != "")
  {
    Truthy(cfg[AlertOnceKey])
  }
}
