/** The generation parameters `doGenerate` sends with the prompt: each caller
    option falls back to a default through JavaScript's `||`, and the token
    budget is capped. */
module Parameters {
  import opened Wrappers

  const DefaultMaxNewTokens: int := 150
  const MaxNewTokensCap: int := 512
  const DefaultTemperature: real := 0.7
  const DefaultTopP: real := 0.95

  /** `v || d` for a number that may be undefined: the default replaces a
      missing value and also a zero, the other falsy number; any other value,
      negative ones included, is kept. */
  function OrDefault<T(==)>(v: Option<T>, zero: T, d: T): (r: T)
    ensures r == d <==> (v == None || v == Some(zero) || v == Some(d))
    ensures r != d ==> v == Some(r)
  {
    if v == None || v == Some(zero) then d else v.value
  }

  /** `Math.min(maxOutputTokens || 150, 512)`. */
  function MaxNewTokens(requested: Option<int>): (n: int)
    ensures n <= MaxNewTokensCap
    ensures requested == None || requested == Some(0) ==> n == DefaultMaxNewTokens
    ensures requested.Some? && 0 < requested.value <= MaxNewTokensCap ==> n == requested.value
    ensures requested.Some? && requested.value > MaxNewTokensCap ==> n == MaxNewTokensCap
    ensures requested.Some? && requested.value < 0 ==> n == requested.value
  {
    var wanted := OrDefault(requested, 0, DefaultMaxNewTokens);
    if wanted < MaxNewTokensCap then wanted else MaxNewTokensCap
  }

  /** The budget is positive exactly when the caller asked for no negative
      number of tokens, and a larger positive request never gets a smaller
      budget. */
  lemma MaxNewTokensRange(a: Option<int>, b: int)
    ensures MaxNewTokens(a) >= 1 <==> (a == None || a.value >= 0)
    ensures a.Some? && 0 < a.value <= b ==> MaxNewTokens(a) <= MaxNewTokens(Some(b))
  {
  }

  datatype HfParameters = HfParameters(
    maxNewTokens: int,
    temperature: real,
    returnFullText: bool,
    doSample: bool,
    topP: real)

  /** The parameters object handed to the inference endpoint: the model is
      asked to sample, and to return only the continuation, not the prompt. */
  function BuildParameters(maxOutputTokens: Option<int>, temperature: Option<real>, topP: Option<real>): (p: HfParameters)
    ensures p.maxNewTokens == MaxNewTokens(maxOutputTokens)
    ensures p.temperature != 0.0 && p.topP != 0.0
    ensures p.temperature == DefaultTemperature || Some(p.temperature) == temperature
    ensures p.topP == DefaultTopP || Some(p.topP) == topP
    ensures !p.returnFullText && p.doSample
  {
    HfParameters(
      MaxNewTokens(maxOutputTokens),
      OrDefault(temperature, 0.0, DefaultTemperature),
      false,
      true,
      OrDefault(topP, 0.0, DefaultTopP))
  }
}
