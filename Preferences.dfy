/** The key/value preference store the screens persist their selections in
    (Android SharedPreferences), reduced to a map from key to typed value. */
module Preferences {
  import opened KotlinLib

  /** A stored value. Storing null removes a key, so a stored string is never null. */
  datatype Pref = FloatPref(f: real) | IntPref(i: int) | StringPref(s: string) | BoolPref(b: bool)

  type Store = map<string, Pref>

  /** `getFloat(key, default)`: the default when the key is absent; a value of another type throws. */
  function GetFloat(store: Store, key: string, default: real): (r: Outcome<real>)
    ensures key !in store ==> r == Ok(default)
    ensures key in store ==> (r.Ok? <==> store[key].FloatPref?)
    ensures key in store && r.Throws? ==> r.error == ClassCast
    ensures key in store && r.Ok? ==> store[key] == FloatPref(r.value)
  {
    if key !in store then Ok(default)
    else match store[key]
      case FloatPref(f) => Ok(f)
      case _ => Throws(ClassCast)
  }

  /** `getInt(key, default)`. */
  function GetInt(store: Store, key: string, default: int): (r: Outcome<int>)
    ensures key !in store ==> r == Ok(default)
    ensures key in store ==> (r.Ok? <==> store[key].IntPref?)
    ensures key in store && r.Throws? ==> r.error == ClassCast
    ensures key in store && r.Ok? ==> store[key] == IntPref(r.value)
  {
    if key !in store then Ok(default)
    else match store[key]
      case IntPref(i) => Ok(i)
      case _ => Throws(ClassCast)
  }

  /** `getString(key, default)`, where the default may be null (None). */
  function GetString(store: Store, key: string, default: Option<string>): (r: Outcome<Option<string>>)
    ensures key !in store ==> r == Ok(default)
    ensures key in store ==> (r.Ok? <==> store[key].StringPref?)
    ensures key in store && r.Throws? ==> r.error == ClassCast
    ensures key in store && r.Ok? ==> r.value.Some? && store[key] == StringPref(r.value.value)
  {
    if key !in store then Ok(default)
    else match store[key]
      case StringPref(s) => Ok(Some(s))
      case _ => Throws(ClassCast)
  }

  /** `getBoolean(key, default)`. */
  function GetBoolean(store: Store, key: string, default: bool): (r: Outcome<bool>)
    ensures key !in store ==> r == Ok(default)
    ensures key in store ==> (r.Ok? <==> store[key].BoolPref?)
    ensures key in store && r.Throws? ==> r.error == ClassCast
    ensures key in store && r.Ok? ==> store[key] == BoolPref(r.value)
  {
    if key !in store then Ok(default)
    else match store[key]
      case BoolPref(b) => Ok(b)
      case _ => Throws(ClassCast)
  }
}
