/** The ASP.NET Core session of one browser: a dictionary from keys to values
    written with SetString or SetInt32. The byte encoding is not modelled:
    every key is read back the way it was written. */
module HttpSession {
  import opened Text

  newtype int32 = x: int | -0x8000_0000 <= x < 0x8000_0000

  const Int32Max: int32 := 0x7FFF_FFFF
  const Int32Min: int32 := -0x8000_0000

  datatype SessionValue = Text(s: string) | Number(n: int32)

  type Values = map<string, SessionValue>

  /** Session.GetString: the string stored under `key`, or None (null). */
  function GetString(values: Values, key: string): (r: Option<string>)
    ensures r.Some? <==> key in values && values[key].Text?
    ensures r.Some? ==> values[key] == Text(r.value)
  {
    if key in values && values[key].Text? then Some(values[key].s) else None
  }

  /** Session.GetInt32: the number stored under `key`, or None (null). */
  function GetInt32(values: Values, key: string): (r: Option<int32>)
    ensures r.Some? <==> key in values && values[key].Number?
    ensures r.Some? ==> values[key] == Number(r.value)
  {
    if key in values && values[key].Number? then Some(values[key].n) else None
  }

  /** The `++` of a C# int in an unchecked context: Int32.MaxValue wraps to Int32.MinValue. */
  function Increment(n: int32): (r: int32)
    ensures n < Int32Max ==> r as int == n as int + 1
    ensures n == Int32Max ==> r == Int32Min
  {
    if n == Int32Max then Int32Min else n + 1
  }

  /** The key holds the string "true" (GetString(key) == "true"). */
  predicate IsTrue(values: Values, key: string) {
    GetString(values, key) == Some("true")
  }

  /** string.IsNullOrEmpty(GetString(key)). */
  predicate IsNullOrEmptyAt(values: Values, key: string) {
    GetString(values, key).None? || GetString(values, key).value == ""
  }

  class Session {
    var values: Values

    /** A fresh session holds no keys. */
    constructor ()
      ensures values == map[]
    {
      values := map[];
    }

    method SetString(key: string, value: string)
      modifies this
      ensures values == old(values)[key := Text(value)]
    {
      values := values[key := Text(value)];
    }

    method SetInt32(key: string, value: int32)
      modifies this
      ensures values == old(values)[key := Number(value)]
    {
      values := values[key := Number(value)];
    }

    method Remove(key: string)
      modifies this
      ensures values == old(values) - {key}
    {
      values := values - {key};
    }

    method Clear()
      modifies this
      ensures values == map[]
    {
      values := map[];
    }
  }

  /** Setting a key makes it read back, and leaves every other key as it was. */
  lemma SetThenGet(values: Values, key: string, value: string, other: string)
    requires other != key
    ensures GetString(values[key := Text(value)], key) == Some(value)
    ensures GetString(values[key := Text(value)], other) == GetString(values, other)
    ensures GetInt32(values[key := Text(value)], other) == GetInt32(values, other)
  {
  }
}
