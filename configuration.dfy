/**
 * `IConfiguration` as the scanner reads it: a key-value store whose keys
 * compare ignoring case. Entries are kept under their upper-cased key.
 */
module Configuration {
  import opened Wrappers
  import opened Errors
  import opened Text

  datatype Configuration = Configuration(entries: map<string, string>)
  {
    /** `configuration[key]`: the value, or null when absent. */
    function Get(key: string): Option<string>
    {
      var k := ToUpperString(key);
      if k in entries then Some(entries[k]) else None
    }

    /** `GetRequiredValue<string>(key)`: the value, or KeyNotFoundException. */
    function GetRequired(key: string): (r: Result<string, Exception>)
      ensures r.Success? <==> Get(key).Some?
      ensures r.Success? ==> r.value == Get(key).value
      ensures r.Failure? ==> r.error.KeyNotFound?
    {
      match Get(key)
      case Some(v) => Success(v)
      case None => Failure(KeyNotFound("Missing configuration, no variable found for key '" + key + "'"))
    }

    /** Two keys that differ only in case name the same entry. */
    lemma KeysIgnoreCase(a: string, b: string)
      requires StringEquals(a, b, true)
      ensures Get(a) == Get(b)
    {
      IgnoreCaseIsUpperEquality(a, b);
    }
  }

  /** `config[key] ?? fallback`. */
  function ValueOr(config: Configuration, key: string, fallback: string): (r: string)
    ensures config.Get(key).None? ==> r == fallback
    ensures config.Get(key).Some? ==> r == config.Get(key).value
  {
    match config.Get(key)
    case Some(v) => v
    case None => fallback
  }

  /** The default of both warning thresholds, as text. */
  const DefaultThreshold: string := "30"

  /** `int.Parse(config[key] ?? "30")`: a threshold in days, as both endpoints read it. */
  function Threshold(config: Configuration, key: string): (r: Result<int, Exception>)
    ensures r.Success? ==> Int32Min <= r.value <= Int32Max
  {
    ParseInt32(ValueOr(config, key, DefaultThreshold))
  }

  /** `(config[key] ?? string.Empty).Split(',').Select(v => v.Trim())`: a list of names to ignore. */
  function NameList(config: Configuration, key: string): (r: seq<string>)
    ensures |r| >= 1
    ensures forall i :: 0 <= i < |r| ==> r[i] == [] || (!IsWhiteSpace(r[i][0]) && !IsWhiteSpace(r[i][|r[i]| - 1]))
  {
    var parts := Split(ValueOr(config, key, ""), ',');
    seq(|parts|, i requires 0 <= i < |parts| => Trim(parts[i]))
  }

  /** The list holds no commas: each name is one trimmed piece between commas. */
  lemma NameListEntries(config: Configuration, key: string)
    ensures forall i :: 0 <= i < |NameList(config, key)| ==> ',' !in NameList(config, key)[i]
  {
    var parts := Split(ValueOr(config, key, ""), ',');
    forall i | 0 <= i < |parts|
      ensures ',' !in Trim(parts[i])
    {
      TrimRemovesOnlyOuterWhiteSpace(parts[i]);
    }
  }

  /** Without the setting the list is one empty name. */
  lemma NameListUnset(config: Configuration, key: string)
    requires config.Get(key).None?
    ensures NameList(config, key) == [""]
  {
    assert Split("", ',') == [""];
  }

  /** A threshold that is not configured is 30 days. */
  lemma ThresholdDefault(config: Configuration, key: string)
    requires config.Get(key).None?
    ensures Threshold(config, key) == Success(30)
  {
    assert Decimal(3) == ['3'];
    assert Decimal(30) == Decimal(3) + ['0'];
    assert Decimal(30) == DefaultThreshold;
    ParseDecimal(30);
  }

  /** A threshold configured as a decimal number is that number. */
  lemma ThresholdConfigured(config: Configuration, key: string, n: nat)
    requires n <= Int32Max && config.Get(key) == Some(Decimal(n))
    ensures Threshold(config, key) == Success(n)
  {
    ParseDecimal(n);
  }

  /** A threshold configured as blank text makes `int.Parse` throw. */
  lemma ThresholdBlank(config: Configuration, key: string)
    requires config.Get(key) == Some(" ")
    ensures Threshold(config, key) == Failure(Format)
  {
    assert Trim(" ") == [];
  }
}
