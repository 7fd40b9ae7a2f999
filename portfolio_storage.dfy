// The portfolio store: the default portfolio, the normalisation of an API
// response, and the order in which getPortfolio tries its sources (the
// portfolio file, then the copy saved in browser storage, then the
// defaults), each merged over the defaults.
module PortfolioStorage {
  import opened Text
  import opened Json
  import Seqs

  /** The resume path used when no environment override is set. */
  const DefaultResumePath: string := "/resume/resume.pdf"

  const DefaultPersonalInfo: Json := JObj([
    ("name", JStr("Lakshya Jain")),
    ("title", JStr("Software Developer")),
    ("summary", JStr("A skilled developer passionate about creating impactful solutions.")),
    ("image", JStr("/assets/default-avatar.png")),
    ("phone", JStr("+91-7976123107")),
    ("email", JStr("lakshyajainrj19@gmail.com")),
    ("location", JStr("India"))])

  const DefaultSocialLinks: Json := JObj([
    ("github", JStr("https://github.com/lakshyajain-0291")),
    ("linkedin", JStr("https://linkedin.com/in/yourusername"))])

  /** GitHub statistics with every counter at zero. */
  const ZeroGithubStats: Json := JObj([
    ("totalPublicRepos", JNum(0)),
    ("totalStars", JNum(0)),
    ("totalForks", JNum(0)),
    ("totalCommits", JNum(0)),
    ("featuredRepos", JNum(0))])

  /** The properties of the default portfolio, in declaration order. */
  const DefaultKeys: seq<string> :=
    ["personalInfo", "socialLinks", "experience", "education", "projects", "skills", "insights",
     "techStack", "githubStats", "resumeUrl", "lastUpdated"]

  /** defaultPortfolioData; `loadedAt` is the Date taken when the module was loaded. */
  function DefaultPortfolio(loadedAt: Json): (d: Json)
    ensures d.JObj? && Keys(d.fields) == DefaultKeys
  {
    JObj([
      ("personalInfo", DefaultPersonalInfo),
      ("socialLinks", DefaultSocialLinks),
      ("experience", JArr([])),
      ("education", JArr([])),
      ("projects", JArr([])),
      ("skills", JArr([])),
      ("insights", JObj([])),
      ("techStack", JArr([])),
      ("githubStats", ZeroGithubStats),
      ("resumeUrl", JStr(DefaultResumePath)),
      ("lastUpdated", loadedAt)])
  }

  lemma DefaultKeysDistinct()
    ensures Seqs.NoDuplicates(DefaultKeys)
  {
  }

  // ---------------------------------------------------------------------
  // processApiResponse
  // ---------------------------------------------------------------------

  /** The properties processApiResponse copies from the response data, in the order it writes them. */
  const ApiKeys: seq<string> :=
    ["personalInfo", "experience", "education", "projects", "skills", "socialLinks", "resumeUrl",
     "insights", "techStack", "githubStats"]

  /** What processApiResponse writes for each of those properties when the data's is falsy. */
  const ApiFallbacks: seq<Json> :=
    [DefaultPersonalInfo, JArr([]), JArr([]), JArr([]), JArr([]), DefaultSocialLinks, JStr(DefaultResumePath),
     JObj([]), JArr([]), ZeroGithubStats]

  /** The response carries a truthy `data` property. */
  predicate ValidResponse(apiData: Json)
  {
    Truthy(apiData) && Truthy(Get(apiData, "data"))
  }

  /** The object processApiResponse builds from the response's data, in the order it writes the properties. */
  function ApiFields(data: Json, now: Json): seq<(string, Json)>
  {
    seq(|ApiKeys|, i requires 0 <= i < |ApiKeys| => (ApiKeys[i], Or(Get(data, ApiKeys[i]), ApiFallbacks[i])))
    + [("lastUpdated", now)]
  }

  /**
   * processApiResponse: the defaults for a missing response or data;
   * otherwise a new object with exactly the listed properties, each the
   * data's when truthy and the fallback otherwise, and `lastUpdated` set to
   * `now`, the time of the call.
   */
  function ProcessApiResponse(apiData: Json, loadedAt: Json, now: Json): (r: Json)
    ensures !ValidResponse(apiData) ==> r == DefaultPortfolio(loadedAt)
    ensures r.JObj?
  {
    if !ValidResponse(apiData) then DefaultPortfolio(loadedAt)
    else JObj(ApiFields(Get(apiData, "data"), now))
  }

  lemma ApiKeysDistinct()
    ensures Seqs.NoDuplicates(ApiKeys + ["lastUpdated"])
  {
  }

  lemma ApiFieldsKeys(data: Json, now: Json)
    ensures Keys(ApiFields(data, now)) == ApiKeys + ["lastUpdated"]
  {
  }

  /** A processed response has the listed properties and `lastUpdated`, and nothing else of the data. */
  lemma ApiResponseKeys(apiData: Json, loadedAt: Json, now: Json)
    requires ValidResponse(apiData)
    ensures var r := ProcessApiResponse(apiData, loadedAt, now);
      Keys(r.fields) == ApiKeys + ["lastUpdated"] && Get(r, "lastUpdated") == now
  {
    var fields := ApiFields(Get(apiData, "data"), now);
    ApiFieldsKeys(Get(apiData, "data"), now);
    ApiKeysDistinct();
    LookupDistinct(fields, |ApiKeys|);
  }

  /** A property of the data outside the listed ones does not make it into the result. */
  lemma ApiResponseDropsOthers(apiData: Json, loadedAt: Json, now: Json, key: string)
    requires ValidResponse(apiData) && key !in ApiKeys && key != "lastUpdated"
    ensures Get(ProcessApiResponse(apiData, loadedAt, now), key) == JUndefined
  {
    ApiResponseKeys(apiData, loadedAt, now);
  }

  /**
   * Each listed property is the data's when that is truthy, and otherwise
   * the default portfolio's value for it: the fallbacks written out in
   * processApiResponse agree with defaultPortfolioData.
   */
  lemma ApiResponseField(apiData: Json, loadedAt: Json, now: Json, i: nat)
    requires ValidResponse(apiData) && i < |ApiKeys|
    ensures var given := Get(Get(apiData, "data"), ApiKeys[i]);
      Get(ProcessApiResponse(apiData, loadedAt, now), ApiKeys[i])
        == if Truthy(given) then given else Get(DefaultPortfolio(loadedAt), ApiKeys[i])
  {
    var fields := ApiFields(Get(apiData, "data"), now);
    ApiFieldsKeys(Get(apiData, "data"), now);
    ApiKeysDistinct();
    LookupDistinct(fields, i);
    FallbackIsDefault(loadedAt, i);
  }

  lemma FallbackIsDefault(loadedAt: Json, i: nat)
    requires i < |ApiKeys|
    ensures ApiFallbacks[i] == Get(DefaultPortfolio(loadedAt), ApiKeys[i])
  {
    if i == 0 { FallbackAt(loadedAt, 0, 0); }
    else if i == 1 { FallbackAt(loadedAt, 1, 2); }
    else if i == 2 { FallbackAt(loadedAt, 2, 3); }
    else if i == 3 { FallbackAt(loadedAt, 3, 4); }
    else if i == 4 { FallbackAt(loadedAt, 4, 5); }
    else if i == 5 { FallbackAt(loadedAt, 5, 1); }
    else if i == 6 { FallbackAt(loadedAt, 6, 9); }
    else if i == 7 { FallbackAt(loadedAt, 7, 6); }
    else if i == 8 { FallbackAt(loadedAt, 8, 7); }
    else { FallbackAt(loadedAt, 9, 8); }
  }

  lemma FallbackAt(loadedAt: Json, i: nat, j: nat)
    requires i < |ApiKeys| && j < |DefaultKeys| && ApiKeys[i] == DefaultKeys[j]
    requires ApiFallbacks[i] == DefaultPortfolio(loadedAt).fields[j].1
    ensures ApiFallbacks[i] == Get(DefaultPortfolio(loadedAt), ApiKeys[i])
  {
    DefaultAt(loadedAt, j);
  }

  /** Each default property reads as the value it is declared with. */
  lemma DefaultAt(loadedAt: Json, j: nat)
    requires j < |DefaultKeys|
    ensures Get(DefaultPortfolio(loadedAt), DefaultKeys[j]) == DefaultPortfolio(loadedAt).fields[j].1
  {
    DefaultKeysDistinct();
    LookupDistinct(DefaultPortfolio(loadedAt).fields, j);
  }

  // ---------------------------------------------------------------------
  // getPortfolio
  // ---------------------------------------------------------------------

  /** The outcome of reading the portfolio file: no usable response (not ok, or fetch or parse threw), or its body. */
  datatype FileRead = FileUnavailable | FileBody(body: Json)

  /** `fileData.data ? fileData.data : fileData`: the file may hold an API envelope. */
  function Unwrap(fileData: Json): Json
  {
    if Truthy(Get(fileData, "data")) then Get(fileData, "data") else fileData
  }

  /**
   * getPortfolio over the given defaults (defaultPortfolioData, which the
   * deployment can configure; DefaultPortfolio is its unconfigured value).
   * A file body wins, unwrapped and merged over the defaults; a null body
   * throws on the `.data` read and counts as no file. Then a non-empty
   * stored string, parsed by `parse` (None when JSON.parse throws, which
   * ends in the defaults), merged over the defaults as it is. Otherwise
   * the defaults.
   */
  function GetPortfolio(defaults: Json, file: FileRead, stored: Option<string>, parse: string -> Option<Json>): Json
  {
    if file.FileBody? && file.body != JNull && file.body != JUndefined then Spread(defaults, Unwrap(file.body))
    else if stored.None? || stored.value == "" then defaults
    else match parse(stored.value)
      case None => defaults
      case Some(parsed) => Spread(defaults, parsed)
  }

  /** Whatever the sources hold, the result is an object whose first properties are all the default ones, in order. */
  lemma GetPortfolioKeepsDefaultKeys(defaults: Json, file: FileRead, stored: Option<string>, parse: string -> Option<Json>)
    requires defaults.JObj?
    ensures var r := GetPortfolio(defaults, file, stored, parse);
      r.JObj? && |defaults.fields| <= |r.fields| && Keys(r.fields)[..|defaults.fields|] == Keys(defaults.fields)
  {
    if file.FileBody? && file.body != JNull && file.body != JUndefined {
      SpreadKeepsTargetKeys(defaults.fields, Unwrap(file.body));
    } else if stored.Some? && stored.value != "" && parse(stored.value).Some? {
      SpreadKeepsTargetKeys(defaults.fields, parse(stored.value).value);
    }
  }

  /** With the unconfigured defaults, every property of defaultPortfolioData is in every result. */
  lemma EveryDefaultPropertyPresent(loadedAt: Json, file: FileRead, stored: Option<string>, parse: string -> Option<Json>)
    ensures var r := GetPortfolio(DefaultPortfolio(loadedAt), file, stored, parse);
      r.JObj? && forall k :: k in DefaultKeys ==> HasKey(r.fields, k)
  {
    var d := DefaultPortfolio(loadedAt);
    GetPortfolioKeepsDefaultKeys(d, file, stored, parse);
    var r := GetPortfolio(d, file, stored, parse);
    PrefixKeys(r.fields, DefaultKeys);
  }

  lemma PrefixKeys(fields: seq<(string, Json)>, ks: seq<string>)
    requires |ks| <= |fields| && Keys(fields)[..|ks|] == ks
    ensures forall k :: k in ks ==> HasKey(fields, k)
  {
    forall k | k in ks ensures k in Keys(fields) {
      var i :| 0 <= i < |ks| && ks[i] == k;
      assert Keys(fields)[i] == k;
    }
  }

  /** From a file holding an object (distinct keys), each property is the file's when it has one and the default otherwise. */
  lemma FileOverridesDefaults(defaults: Json, body: Json, stored: Option<string>, parse: string -> Option<Json>, key: string)
    requires defaults.JObj? && body != JNull && body != JUndefined
    requires Unwrap(body).JObj? && Seqs.NoDuplicates(Keys(Unwrap(body).fields))
    ensures var data := Unwrap(body).fields;
      Get(GetPortfolio(defaults, FileBody(body), stored, parse), key)
        == if HasKey(data, key) then Lookup(data, key) else Get(defaults, key)
  {
    SpreadObjectOverDefaults(defaults.fields, Unwrap(body).fields, key);
  }

  /** A usable file decides the result, whatever is stored. */
  lemma FileComesFirst(defaults: Json, body: Json, stored1: Option<string>, stored2: Option<string>, parse: string -> Option<Json>)
    requires body != JNull && body != JUndefined
    ensures GetPortfolio(defaults, FileBody(body), stored1, parse) == GetPortfolio(defaults, FileBody(body), stored2, parse)
  {
  }

  /** A file whose body is null fails on the `.data` read and is passed over like a missing file. */
  lemma NullFileFallsThrough(defaults: Json, stored: Option<string>, parse: string -> Option<Json>)
    ensures GetPortfolio(defaults, FileBody(JNull), stored, parse) == GetPortfolio(defaults, FileUnavailable, stored, parse)
  {
  }

  /** No file and nothing stored, or a stored string that does not parse: the defaults. */
  lemma NoSourceGivesDefaults(defaults: Json, file: FileRead, stored: Option<string>, parse: string -> Option<Json>)
    requires file.FileUnavailable? || file.body == JNull
    requires stored.None? || stored.value == "" || parse(stored.value).None?
    ensures GetPortfolio(defaults, file, stored, parse) == defaults
  {
  }

  /** An API envelope `{data: {...}}` in the file is unwrapped: its `data` property does not reach the result. */
  lemma FileEnvelopeUnwrapped(defaults: Json, inner: seq<(string, Json)>, stored: Option<string>, parse: string -> Option<Json>)
    requires defaults.JObj? && !HasKey(defaults.fields, "data")
    requires Seqs.NoDuplicates(Keys(inner)) && !HasKey(inner, "data")
    ensures var r := GetPortfolio(defaults, FileBody(JObj([("data", JObj(inner))])), stored, parse);
      Get(r, "data") == JUndefined
      && forall k :: HasKey(inner, k) ==> Get(r, k) == Lookup(inner, k)
  {
    UnwrapEnvelope(inner);
    EnvelopeContents(defaults.fields, inner);
  }

  lemma UnwrapEnvelope(inner: seq<(string, Json)>)
    ensures Unwrap(JObj([("data", JObj(inner))])) == JObj(inner)
  {
    assert Get(JObj([("data", JObj(inner))]), "data") == JObj(inner);
  }

  /** Merging the contents of an envelope over defaults without `data`. */
  lemma EnvelopeContents(defaults: seq<(string, Json)>, inner: seq<(string, Json)>)
    requires Seqs.NoDuplicates(Keys(inner)) && !HasKey(inner, "data") && !HasKey(defaults, "data")
    ensures var r := Spread(JObj(defaults), JObj(inner));
      Get(r, "data") == JUndefined
      && forall k :: HasKey(inner, k) ==> Get(r, k) == Lookup(inner, k)
  {
    SpreadObjectOverDefaults(defaults, inner, "data");
    forall k | HasKey(inner, k) ensures Lookup(Assign(defaults, inner), k) == Lookup(inner, k) {
      SpreadObjectOverDefaults(defaults, inner, k);
    }
  }

  /** The same envelope saved in storage is merged as it is: the result carries it under `data`. */
  lemma StoredEnvelopeKept(defaults: Json, inner: seq<(string, Json)>, stored: string, parse: string -> Option<Json>)
    requires defaults.JObj? && stored != "" && parse(stored) == Some(JObj([("data", JObj(inner))]))
    ensures Get(GetPortfolio(defaults, FileUnavailable, Some(stored), parse), "data") == JObj(inner)
  {
    var envelope := [("data", JObj(inner))];
    assert Keys(envelope) == ["data"];
    SpreadObjectOverDefaults(defaults.fields, envelope, "data");
  }

  /** The unconfigured defaults have no `data` property, so the envelope case applies to them. */
  lemma DefaultsHaveNoData(loadedAt: Json)
    ensures !HasKey(DefaultPortfolio(loadedAt).fields, "data")
  {
  }
}
