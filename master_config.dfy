/** The Gemini API configuration: which API key is in effect, the checks on
    keys and uploaded images, and the request addresses built from them.

    The key configured in the build environment (`VITE_GEMINI_API_KEY`,
    empty when unset) is a parameter `env`. */
module MasterConfig {
  import opened Wrappers
  import opened Text

  const BASE_URL := "https://generativelanguage.googleapis.com/v1beta/models"
  const MODELS_LIST := "https://generativelanguage.googleapis.com/v1beta/models"
  const DEFAULT_ENDPOINT := "generateContent"
  const KEY_NAME := "key="
  const KEY_PARAM := "?key="
  const KEY_PREFIX := "AIza"
  const MIN_KEY_LENGTH := 20
  const MAX_FILE_SIZE := 2 * 1024 * 1024
  const SUPPORTED_IMAGE_TYPES := ["image/jpeg", "image/png", "image/webp", "image/gif"]

  /** `getActiveApiKey(user)`: the user's key, trimmed, when it is not
      blank; otherwise the trimmed environment key, which is empty when
      that one is blank too. */
  function ActiveApiKey(user: Option<string>, env: string): (r: string)
    ensures user.Some? && Trim(user.value) != [] ==> r == Trim(user.value)
    ensures user.None? || Trim(user.value) == [] ==> r == Trim(env)
  {
    if user.Some? && user.value != [] && |Trim(user.value)| > 0 then Trim(user.value)
    else
      var envKey := Trim(env);
      if envKey != [] && |envKey| > 0 then envKey else ""
  }

  /** The key in effect has no surrounding whitespace. */
  lemma ActiveApiKeyTrimmed(user: Option<string>, env: string)
    ensures Trim(ActiveApiKey(user, env)) == ActiveApiKey(user, env)
  {
    if user.Some? && Trim(user.value) != [] {
      TrimIdempotent(user.value);
    } else {
      TrimIdempotent(env);
    }
  }

  /** `hasValidApiKey(user)`: some key is in effect, which is so exactly
      when the user's key or the environment key is not blank. */
  function HasValidApiKey(user: Option<string>, env: string): (ok: bool)
    ensures ok <==> ActiveApiKey(user, env) != []
    ensures ok <==> (user.Some? && Trim(user.value) != []) || Trim(env) != []
  {
    |ActiveApiKey(user, env)| > 0
  }

  /** `isValidApiKeyFormat(key)`. */
  function IsValidApiKeyFormat(key: string): (ok: bool)
    ensures ok <==> |Trim(key)| >= MIN_KEY_LENGTH && StartsWith(Trim(key), KEY_PREFIX)
  {
    var trimmed := Trim(key);
    |trimmed| >= MIN_KEY_LENGTH && StartsWith(trimmed, KEY_PREFIX)
  }

  /** Surrounding whitespace does not affect the format check. */
  lemma ApiKeyFormatIgnoresBlanks(key: string)
    ensures IsValidApiKeyFormat(Trim(key)) == IsValidApiKeyFormat(key)
  {
    TrimIdempotent(key);
  }

  /** A user key of the right format is the key in effect, whatever the
      environment holds. */
  lemma WellFormedKeyIsActive(key: string, env: string)
    requires IsValidApiKeyFormat(key)
    ensures ActiveApiKey(Some(key), env) == Trim(key)
    ensures HasValidApiKey(Some(key), env)
    ensures IsValidApiKeyFormat(ActiveApiKey(Some(key), env))
  {
    ApiKeyFormatIgnoresBlanks(key);
  }

  /** `isSupportedImageType(mime)`: one of the four accepted image types. */
  function IsSupportedImageType(mime: string): (ok: bool)
    ensures ok <==> mime == "image/jpeg" || mime == "image/png" || mime == "image/webp" || mime == "image/gif"
    ensures ok ==> StartsWith(mime, "image/")
  {
    mime in SUPPORTED_IMAGE_TYPES
  }

  /** `isValidFileSize(size)`: a non-empty file of at most 2 MiB. */
  function IsValidFileSize(size: int): (ok: bool)
    ensures ok <==> 0 < size <= 2097152
  {
    size > 0 && size <= MAX_FILE_SIZE
  }

  /** `buildGeminiApiUrl(modelId, apiKey, endpoint)`. */
  function BuildGeminiApiUrl(modelId: string, apiKey: string, endpoint: string := DEFAULT_ENDPOINT): (url: string)
    ensures StartsWith(url, BASE_URL + "/" + modelId + ":")
    ensures |url| == |BASE_URL| + |modelId| + |endpoint| + |apiKey| + 7
  {
    BASE_URL + "/" + modelId + ":" + endpoint + KEY_PARAM + apiKey
  }

  /** `buildModelsListUrl(apiKey)`. */
  function BuildModelsListUrl(apiKey: string): (url: string)
    ensures StartsWith(url, MODELS_LIST + KEY_PARAM)
    ensures url[|MODELS_LIST| + |KEY_PARAM|..] == apiKey
  {
    MODELS_LIST + KEY_PARAM + apiKey
  }

  /** Reads a generation address back into model, endpoint and key: the
      model runs to the first `:` after the base address, the endpoint to
      the first `?`, and the key is what follows `?key=`. */
  function ParseGeminiApiUrl(url: string): (r: Option<(string, string, string)>)
    ensures r.Some? ==> StartsWith(url, BASE_URL + "/")
  {
    var prefix := BASE_URL + "/";
    if StartsWith(url, prefix) then ParseRequest(url[|prefix|..]) else None
  }

  /** The part of a generation address after the base address, read back
      into model, endpoint and key. */
  function ParseRequest(rest: string): (r: Option<(string, string, string)>)
  {
    match SplitFirst(rest, ':')
    case None => None
    case Some((modelId, tail)) =>
      match SplitFirst(tail, '?')
      case None => None
      case Some((endpoint, query)) =>
        if StartsWith(query, KEY_NAME) then
          Some((modelId, endpoint, query[|KEY_NAME|..]))
        else None
  }

  /** The text before and after the first `x` of `s`. */
  function SplitFirst<T(==)>(s: seq<T>, x: T): (r: Option<(seq<T>, seq<T>)>)
    ensures r.None? <==> x !in s
    ensures r.Some? ==> s == r.value.0 + [x] + r.value.1 && x !in r.value.0
  {
    var k := IndexOf(s, x);
    if k < 0 then None
    else
      assert s == s[..k] + [x] + s[k + 1..];
      assert forall j :: 0 <= j < k ==> s[..k][j] == s[j];
      Some((s[..k], s[k + 1..]))
  }

  /** Splitting at the first `x` undoes joining around an `x` when the left
      part has none. */
  lemma SplitFirstJoin<T>(a: seq<T>, x: T, b: seq<T>)
    requires x !in a
    ensures SplitFirst(a + [x] + b, x) == Some((a, b))
  {
    var s := a + [x] + b;
    assert s[|a|] == x;
    var k := IndexOf(s, x);
    assert k == |a|;
    assert s[..k] == a && s[k + 1..] == b;
  }

  /** The request part of an address reads back as the model, endpoint and
      key it was built from, when the model has no `:` and the endpoint no
      `?`. */
  lemma RequestRoundTrip(modelId: string, apiKey: string, endpoint: string)
    requires ':' !in modelId && '?' !in endpoint
    ensures ParseRequest(modelId + [':'] + endpoint + ['?'] + KEY_NAME + apiKey) == Some((modelId, endpoint, apiKey))
  {
    var query := KEY_NAME + apiKey;
    var tail := endpoint + ['?'] + query;
    assert modelId + [':'] + endpoint + ['?'] + KEY_NAME + apiKey == modelId + [':'] + tail;
    SplitFirstJoin(modelId, ':', tail);
    SplitFirstJoin(endpoint, '?', query);
    assert query[..|KEY_NAME|] == KEY_NAME;
  }

  /** The address built for a model without `:` and an endpoint without
      `?` reads back as the model, endpoint and key it was built from; in
      particular, different requests get different addresses. */
  lemma GeminiApiUrlRoundTrip(modelId: string, apiKey: string, endpoint: string)
    requires ':' !in modelId && '?' !in endpoint
    ensures ParseGeminiApiUrl(BuildGeminiApiUrl(modelId, apiKey, endpoint)) == Some((modelId, endpoint, apiKey))
  {
    var rest := modelId + [':'] + endpoint + ['?'] + KEY_NAME + apiKey;
    var prefix := BASE_URL + "/";
    assert KEY_PARAM == ['?'] + KEY_NAME;
    assert BuildGeminiApiUrl(modelId, apiKey, endpoint) == prefix + rest;
    RequestRoundTrip(modelId, apiKey, endpoint);
  }

  /** Reads a model-list address back into its key. */
  function ParseModelsListUrl(url: string): (r: Option<string>)
    ensures r.Some? ==> url == MODELS_LIST + KEY_PARAM + r.value
  {
    var prefix := MODELS_LIST + KEY_PARAM;
    if StartsWith(url, prefix) then Some(url[|prefix|..]) else None
  }

  /** The model-list address reads back as the key it was built from. */
  lemma ModelsListUrlRoundTrip(apiKey: string)
    ensures ParseModelsListUrl(BuildModelsListUrl(apiKey)) == Some(apiKey)
  {
  }
}
