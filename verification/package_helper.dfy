/**
 * PackageMainHelper: projects the parsed package.json onto eight allowed
 * fields with defaults, and caches the first successful result.
 */
module PackageHelper {
  import opened Values

  /** ALLOWED_FIELDS, in their declared order. */
  const AllowedFields: seq<string> :=
    ["name", "version", "versionCode", "description", "repository", "author", "license", "homepage"]

  /** DEFAULTS: the empty string for every field but `versionCode`, which defaults to 0. */
  const Defaults: map<string, Value> := map[
    "name" := Str(""), "version" := Str(""), "versionCode" := Num(0),
    "description" := Str(""), "repository" := Str(""), "author" := Str(""),
    "license" := Str(""), "homepage" := Str("")]

  /** The two tables agree: eight distinct keys, each with a default that `??` never replaces. */
  lemma AllowedFieldsAndDefaults()
    ensures |AllowedFields| == 8
    ensures forall i, j | 0 <= i < j < |AllowedFields| :: AllowedFields[i] != AllowedFields[j]
    ensures Defaults.Keys == set k | k in AllowedFields
    ensures forall k | k in Defaults :: !IsNullish(Defaults[k])
    ensures forall k | k in Defaults && k != "versionCode" :: Defaults[k] == Str("")
    ensures Defaults["versionCode"] == Num(0)
  {
  }

  /** Every allowed field has a default and every default belongs to an allowed field. */
  lemma FieldsAreDefaultKeys()
    ensures forall j | 0 <= j < |AllowedFields| :: AllowedFields[j] in Defaults
    ensures forall k | k in Defaults :: k in AllowedFields
  {
    AllowedFieldsAndDefaults();
  }

  /**
   * `raw[key]` for one of the allowed fields: a TypeError (None) when `raw` is
   * null or undefined. Otherwise an object's own field is read, and anything
   * else reads as undefined. That holds for these eight names because none of
   * them is an inherited property of a JSON value: no string, array, number or
   * boolean has a property called `name`, `version`, `author` and so on, and
   * neither does Object.prototype. It would not hold for a key such as `length`
   * or `toString`.
   */
  function Property(raw: Value, key: string): (r: Option<Value>)
    requires key in Defaults
    ensures r.None? <==> IsNullish(raw)
    ensures raw.Obj? && key in raw.fields ==> r == Some(raw.fields[key])
    ensures !IsNullish(raw) && !(raw.Obj? && key in raw.fields) ==> r == Some(Undefined)
  {
    if IsNullish(raw) then None
    else if raw.Obj? && key in raw.fields then Some(raw.fields[key])
    else Some(Undefined)
  }

  /** What pickFields produces from `raw`, or None when it throws. */
  function Picked(raw: Value): (r: Option<map<string, Value>>)
    ensures r.None? <==> IsNullish(raw)
    ensures r.Some? ==> r.value.Keys == Defaults.Keys
    ensures r.Some? ==> forall k | k in r.value :: !IsNullish(r.value[k])
  {
    if IsNullish(raw) then None
    else Some(map k | k in Defaults :: Coalesce(Property(raw, k).value, Defaults[k]))
  }

  /** Filtering an already filtered record changes nothing. */
  lemma PickFieldsIdempotent(raw: Value)
    requires Picked(raw).Some?
    ensures Picked(Obj(Picked(raw).value)) == Picked(raw)
  {
    var once := Picked(raw).value;
    var twice := Picked(Obj(once)).value;
    forall k | k in Defaults
      ensures twice[k] == once[k]
    {
      assert Property(Obj(once), k) == Some(once[k]);
    }
    assert twice == once;
  }

  /** Any record with the allowed keys, each `raw[key] ?? DEFAULTS[key]`, is what Picked gives. */
  lemma PickedIsPickFields(raw: Value, m: map<string, Value>)
    requires !IsNullish(raw)
    requires m.Keys == Defaults.Keys
    requires forall k | k in Defaults :: m[k] == Coalesce(Property(raw, k).value, Defaults[k])
    ensures Picked(raw) == Some(m)
  {
    assert Picked(raw).value == m;
  }

  // ---------------------------------------------------------------------------
  // getPackageInfo

  /** Why getPackageInfo rejects: reading or parsing package.json failed, or it parsed
      to null and pickFields threw reading a property of it. */
  datatype PackageError = ReadOrParseFailed | NullRecord

  datatype InfoResult = Info(info: map<string, Value>) | Rejected(error: PackageError)

  /**
   * One getPackageInfo call given the cache and what reading and parsing the
   * file would give (None when either throws). Returns the result and the new cache.
   */
  function GetPackageInfoStep(cached: Option<map<string, Value>>, read: Option<Value>)
    : (r: (InfoResult, Option<map<string, Value>>))
    // a cached value is returned as is and the read is not consulted
    ensures cached.Some? ==> r == (Info(cached.value), cached)
    // the cache is filled only by a successful read, with what pickFields produced
    ensures cached.None? ==> (r.1.Some? <==> read.Some? && !IsNullish(read.value))
    ensures cached.None? && r.1.Some? ==> r.1 == Picked(read.value) && r.0 == Info(r.1.value)
    // every failure leaves the cache empty, so the next call reads again
    ensures r.0.Rejected? ==> r.1.None?
    ensures r.0.Info? ==> r.1 == Some(r.0.info)
  {
    if cached.Some? then (Info(cached.value), cached)
    else if read.None? then (Rejected(ReadOrParseFailed), None)
    else match Picked(read.value) {
      case None => (Rejected(NullRecord), None)
      case Some(info) => (Info(info), Some(info))
    }
  }

  /** The results of successive calls, one read outcome per call. */
  function Calls(cached: Option<map<string, Value>>, outcomes: seq<Option<Value>>): (rs: seq<InfoResult>)
    ensures |rs| == |outcomes|
    decreases |outcomes|
  {
    if outcomes == [] then []
    else
      var (r, next) := GetPackageInfoStep(cached, outcomes[0]);
      [r] + Calls(next, outcomes[1..])
  }

  /** Read once: after the first call that succeeds, every later call returns the
      same record, whatever the file would now hold. */
  lemma {:induction false} CallsAfterSuccessRepeat(cached: Option<map<string, Value>>, outcomes: seq<Option<Value>>, i: nat, j: nat)
    requires i < j < |outcomes|
    requires Calls(cached, outcomes)[i].Info?
    ensures Calls(cached, outcomes)[j] == Calls(cached, outcomes)[i]
    decreases |outcomes|
  {
    var (r, next) := GetPackageInfoStep(cached, outcomes[0]);
    var rest := Calls(next, outcomes[1..]);
    assert Calls(cached, outcomes) == [r] + rest;
    if i == 0 {
      CachedCallsRepeat(r.info, outcomes[1..], j - 1);
    } else {
      CallsAfterSuccessRepeat(next, outcomes[1..], i - 1, j - 1);
    }
  }

  lemma {:induction false} CachedCallsRepeat(info: map<string, Value>, outcomes: seq<Option<Value>>, j: nat)
    requires j < |outcomes|
    ensures Calls(Some(info), outcomes)[j] == Info(info)
  {
    if j > 0 {
      CachedCallsRepeat(info, outcomes[1..], j - 1);
    }
  }

  class PackageMainHelper {
    var cached: Option<map<string, Value>>

    constructor ()
      ensures cached == None
    {
      cached := None;
    }

    /** pickFields: fill a fresh record field by field from ALLOWED_FIELDS. */
    method PickFields(raw: Value) returns (r: Option<map<string, Value>>)
      ensures r.None? <==> IsNullish(raw)
      ensures r.Some? ==> r.value.Keys == Defaults.Keys
      ensures r.Some? ==> forall k | k in Defaults ::
        r.value[k] == Coalesce(Property(raw, k).value, Defaults[k])
    {
      FieldsAreDefaultKeys();
      var result: map<string, Value> := map[];
      for i := 0 to |AllowedFields|
        invariant i > 0 ==> !IsNullish(raw)
        invariant forall j | 0 <= j < i :: AllowedFields[j] in result
        invariant forall k | k in result :: k in Defaults && !IsNullish(raw) && result[k] == Coalesce(Property(raw, k).value, Defaults[k])
      {
        var key := AllowedFields[i];
        var value := Property(raw, key);
        if value.None? {
          return None;
        }
        result := result[key := Coalesce(value.value, Defaults[key])];
      }
      return Some(result);
    }

    /** getPackageInfo; `read` is what reading and parsing package.json would give. */
    method GetPackageInfo(read: Option<Value>) returns (r: InfoResult)
      modifies this`cached
      ensures (r, cached) == GetPackageInfoStep(old(cached), read)
    {
      if cached.Some? {
        return Info(cached.value);
      }
      if read.None? {
        return Rejected(ReadOrParseFailed);
      }
      var picked := PickFields(read.value);
      if picked.None? {
        return Rejected(NullRecord);
      }
      PickedIsPickFields(read.value, picked.value);
      cached := picked;
      r := Info(picked.value);
    }
  }
}
