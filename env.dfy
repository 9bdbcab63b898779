/** Environment lookups with a chain of fallbacks (package env).  The
    process environment is passed in as a map from names to values. */
module Env {
  import opened Values

  type Environment = map<string, string>

  /** Lookup: the value of `key` if it is set (even to ""); otherwise, with
      no fallbacks, ("", false); with one fallback, that fallback as a
      literal default; with more, the first fallback is looked up in turn
      with the rest as its fallbacks. */
  function Lookup(env: Environment, key: string, fallbacks: seq<string>): (r: (string, bool))
    ensures key in env ==> r == (env[key], true)
    ensures r.1 ==> r.0 in env.Values
    ensures !r.1 ==> r.0 == Default(fallbacks)
    decreases |fallbacks|
  {
    if key in env then (env[key], true)
    else if |fallbacks| == 0 then ("", false)
    else if |fallbacks| > 1 then Lookup(env, fallbacks[0], fallbacks[1..])
    else (fallbacks[0], false)
  }

  /** LookupPresent: like Lookup, but a variable set to "" counts as unset. */
  function LookupPresent(env: Environment, key: string, fallbacks: seq<string>): (r: (string, bool))
    ensures key in env && env[key] != "" ==> r == (env[key], true)
    ensures r.1 ==> r.0 in env.Values
    ensures !r.1 ==> r.0 == Default(fallbacks)
    decreases |fallbacks|
  {
    var (value, isSet) := Lookup(env, key, []);
    if isSet && value != "" then (value, true)
    else if |fallbacks| == 0 then ("", false)
    else if |fallbacks| > 1 then LookupPresent(env, fallbacks[0], fallbacks[1..])
    else (fallbacks[0], false)
  }

  /** The names tried, in order: the key and every fallback but the last. */
  function Candidates(key: string, fallbacks: seq<string>): seq<string> {
    if |fallbacks| == 0 then [key] else [key] + fallbacks[..|fallbacks| - 1]
  }

  /** What is returned when no candidate is set: the last fallback, or "". */
  function Default(fallbacks: seq<string>): string {
    if |fallbacks| == 0 then "" else fallbacks[|fallbacks| - 1]
  }

  /** Position of the first name that is set in `env`. */
  function FirstSet(env: Environment, names: seq<string>): (r: Option<nat>)
    ensures r.Some? ==> r.value < |names| && names[r.value] in env
    ensures r.Some? ==> forall j :: 0 <= j < r.value ==> names[j] !in env
    ensures r.None? ==> forall j :: 0 <= j < |names| ==> names[j] !in env
  {
    if |names| == 0 then None
    else if names[0] in env then Some(0)
    else match FirstSet(env, names[1..])
      case None => None
      case Some(j) => Some(j + 1)
  }

  /** Lookup returns the value of the first candidate that is set, with
      true; when none is set it returns the default with false. */
  lemma {:induction false} LookupChain(env: Environment, key: string, fallbacks: seq<string>)
    ensures Lookup(env, key, fallbacks) ==
              match FirstSet(env, Candidates(key, fallbacks))
              case Some(i) => (env[Candidates(key, fallbacks)[i]], true)
              case None => (Default(fallbacks), false)
    decreases |fallbacks|
  {
    var c := Candidates(key, fallbacks);
    if key !in env && |fallbacks| > 1 {
      var rest := fallbacks[1..];
      LookupChain(env, fallbacks[0], rest);
      assert rest[..|rest| - 1] == fallbacks[1..|fallbacks| - 1];
      assert c[1..] == Candidates(fallbacks[0], rest);
    }
  }

  /** The reported flag is true exactly when some candidate is set; the
      value is then that variable's value. */
  lemma LookupFound(env: Environment, key: string, fallbacks: seq<string>)
    ensures Lookup(env, key, fallbacks).1 <==>
              exists j :: 0 <= j < |Candidates(key, fallbacks)| && Candidates(key, fallbacks)[j] in env
    ensures Lookup(env, key, fallbacks).1 ==>
              exists j :: 0 <= j < |Candidates(key, fallbacks)| && Candidates(key, fallbacks)[j] in env &&
                          Lookup(env, key, fallbacks).0 == env[Candidates(key, fallbacks)[j]]
    ensures !Lookup(env, key, fallbacks).1 ==> Lookup(env, key, fallbacks).0 == Default(fallbacks)
  {
    LookupChain(env, key, fallbacks);
  }

  /** The last fallback is never looked up: it is the default, returned as
      is, even when a variable of that name is set. */
  lemma LastFallbackIsLiteral(env: Environment, key: string, name: string)
    requires key !in env
    ensures Lookup(env, key, [name]) == (name, false)
  {
  }

  /** The environment without its empty variables. */
  function NonEmpty(env: Environment): (r: Environment)
    ensures forall k :: k in r <==> k in env && env[k] != ""
    ensures forall k :: k in r ==> r[k] == env[k]
  {
    map k | k in env && env[k] != "" :: env[k]
  }

  /** LookupPresent is Lookup on the environment without its empty variables. */
  lemma {:induction false} LookupPresentIsLookup(env: Environment, key: string, fallbacks: seq<string>)
    ensures LookupPresent(env, key, fallbacks) == Lookup(NonEmpty(env), key, fallbacks)
    decreases |fallbacks|
  {
    if |fallbacks| > 1 {
      LookupPresentIsLookup(env, fallbacks[0], fallbacks[1..]);
    }
  }

  /** A value reported present is never empty. */
  lemma LookupPresentNotEmpty(env: Environment, key: string, fallbacks: seq<string>)
    ensures LookupPresent(env, key, fallbacks).1 ==> LookupPresent(env, key, fallbacks).0 != ""
  {
    LookupPresentIsLookup(env, key, fallbacks);
    LookupChain(NonEmpty(env), key, fallbacks);
  }
}
