/**
 * Configuration selection (lib/env.ts): the backend URL, the public API
 * key, the admin flag and the admin code, each chosen from the app
 * config's `extra` values and the process environment.
 *
 * A configured value is any JavaScript value; only `undefined`, `null`
 * and strings matter to the selection, everything else is `Other`.
 */
module Env {
  import opened Types
  import opened Text

  datatype ConfigValue = Undefined | Null | Str(s: string) | Other

  /** The sources of configuration: the app config's `extra` and the process environment. */
  datatype Config = Config(
    extraUrl: ConfigValue, envUrl: ConfigValue,
    extraAnonKey: ConfigValue, extraKey: ConfigValue, envAnonKey: ConfigValue, envKey: ConfigValue,
    extraAdminMode: ConfigValue, envAdminMode: ConfigValue,
    extraAdminCode: ConfigValue, envAdminCode: ConfigValue)

  const DefaultAdminCode: string := "naziwatch-admin"
  const JwtPrefix: string := "eyJ"

  predicate Nullish(v: ConfigValue) {
    v.Undefined? || v.Null?
  }

  /** `a ?? b`: only `undefined` and `null` fall through; an empty string does not. */
  function Coalesce(a: ConfigValue, b: ConfigValue): (r: ConfigValue)
    ensures Nullish(a) ==> r == b
    ensures !Nullish(a) ==> r == a
  {
    if Nullish(a) then b else a
  }

  /**
   * SUPABASE_URL: the first non-nullish of the two values, or `''`,
   * trimmed. `None` is the case where that value is not a string and
   * `.trim()` throws when the module loads.
   */
  function SupabaseUrl(c: Config): (r: Option<string>)
    ensures var v := Coalesce(c.extraUrl, Coalesce(c.envUrl, Str("")));
      && (r.Some? <==> v.Str?)
      && (r.Some? ==> r.value == Trim(v.s))
  {
    match Coalesce(c.extraUrl, Coalesce(c.envUrl, Str("")))
    case Str(s) => Some(Trim(s))
    case _ => None
  }

  /** The four key values in their order of preference. */
  function KeyValues(c: Config): seq<ConfigValue> {
    [c.extraAnonKey, c.extraKey, c.envAnonKey, c.envKey]
  }

  /** rawCandidates: the string values that are not blank after trimming, in their listed order. */
  function RawCandidates(values: seq<ConfigValue>): (r: seq<string>)
    ensures |r| <= |values|
    ensures forall s :: s in r <==> Str(s) in values && Trim(s) != ""
  {
    if values == [] then []
    else
      var head := if values[0].Str? && Trim(values[0].s) != "" then [values[0].s] else [];
      head + RawCandidates(values[1..])
  }

  /** The filter keeps the order: candidates of a concatenation are candidates of each part, in turn. */
  lemma {:induction false} RawCandidatesAppend(a: seq<ConfigValue>, b: seq<ConfigValue>)
    ensures RawCandidates(a + b) == RawCandidates(a) + RawCandidates(b)
  {
    if a == [] {
      assert a + b == b;
    } else {
      assert (a + b)[1..] == a[1..] + b;
      RawCandidatesAppend(a[1..], b);
    }
  }

  predicate LooksLikeJwt(v: string) {
    StartsWith(Trim(v), JwtPrefix)
  }

  /** `find`: the position of the first element that `p` accepts. */
  function FindFirst<T>(s: seq<T>, p: T -> bool): (r: Option<nat>)
    ensures r.Some? ==>
      && r.value < |s| && p(s[r.value])
      && forall j | 0 <= j < r.value :: !p(s[j])
    ensures r.None? ==> forall j | 0 <= j < |s| :: !p(s[j])
  {
    if s == [] then None
    else if p(s[0]) then Some(0)
    else
      var rest := FindFirst(s[1..], p);
      assert forall j | 1 <= j < |s| :: s[j] == s[1..][j - 1];
      if rest.None? then None else Some(rest.value + 1)
  }

  /** jwtKey: the position of the first candidate whose trimmed form starts with `eyJ`. */
  function FirstJwt(cands: seq<string>): Option<nat> {
    FindFirst(cands, LooksLikeJwt)
  }

  /** SUPABASE_ANON_KEY: the first JWT-looking candidate, else the first candidate, else `''`; trimmed. */
  function AnonKey(c: Config): string {
    var cands := RawCandidates(KeyValues(c));
    match FirstJwt(cands)
    case Some(i) => Trim(cands[i])
    case None => if cands != [] then Trim(cands[0]) else ""
  }

  /**
   * The key is always trimmed; it is empty only when no value is a
   * non-blank string; and it is a JWT-looking key whenever any candidate
   * is one, preferring the earliest such candidate.
   */
  lemma AnonKeyChoice(c: Config)
    ensures Trim(AnonKey(c)) == AnonKey(c)
    ensures AnonKey(c) == "" <==> RawCandidates(KeyValues(c)) == []
    ensures var cands := RawCandidates(KeyValues(c));
      forall i | 0 <= i < |cands| && LooksLikeJwt(cands[i]) ::
        StartsWith(AnonKey(c), JwtPrefix) && exists j | 0 <= j <= i :: AnonKey(c) == Trim(cands[j])
    ensures var cands := RawCandidates(KeyValues(c));
      FirstJwt(cands).Some? ==> AnonKey(c) == Trim(cands[FirstJwt(cands).value])
    ensures var cands := RawCandidates(KeyValues(c));
      FirstJwt(cands).None? && cands != [] ==> AnonKey(c) == Trim(cands[0])
  {
    var cands := RawCandidates(KeyValues(c));
    match FirstJwt(cands)
    case Some(i) =>
      TrimIdempotent(cands[i]);
      assert cands[i] in cands;
    case None =>
      if cands != [] {
        TrimIdempotent(cands[0]);
        assert cands[0] in cands;
      }
  }

  /** ADMIN_MODE: either value is exactly the string `true` (no trimming, case-sensitive). */
  function AdminMode(c: Config): (on: bool)
    ensures on <==> c.extraAdminMode == Str("true") || c.envAdminMode == Str("true")
  {
    (c.extraAdminMode.Str? && c.extraAdminMode.s == "true")
      || (c.envAdminMode.Str? && c.envAdminMode.s == "true")
  }

  /** ADMIN_CODE: the trimmed configured code when it is a non-blank string, else the default. */
  function AdminCode(c: Config): string {
    var raw := Coalesce(c.extraAdminCode, Coalesce(c.envAdminCode, Str("")));
    if raw.Str? && Trim(raw.s) != "" then Trim(raw.s) else DefaultAdminCode
  }

  lemma DefaultCodeIsTrimmed()
    ensures DefaultAdminCode != "" && Trim(DefaultAdminCode) == DefaultAdminCode
  {
    var d := DefaultAdminCode;
    assert d[0] == 'n' && d[|d| - 1] == 'n';
    TrimFixesTrimmed(d);
  }

  /** The admin code is never empty and never has surrounding whitespace, so it never equals a blank entry. */
  lemma AdminCodeNonEmpty(c: Config)
    ensures AdminCode(c) != "" && Trim(AdminCode(c)) == AdminCode(c)
  {
    var raw := Coalesce(c.extraAdminCode, Coalesce(c.envAdminCode, Str("")));
    if raw.Str? && Trim(raw.s) != "" {
      TrimIdempotent(raw.s);
    } else {
      DefaultCodeIsTrimmed();
    }
  }

  /**
   * A value set to the empty string in `extra` wins over the process
   * environment: the URL is empty and the code falls back to the default,
   * whatever the environment says.
   */
  lemma EmptyExtraWins(c: Config)
    requires c.extraUrl == Str("") && c.extraAdminCode == Str("")
    ensures SupabaseUrl(c) == Some("")
    ensures AdminCode(c) == DefaultAdminCode
  {
    TrimFixesTrimmed("");
  }
}
