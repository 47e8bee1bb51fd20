/**
 * The server endpoint `GET /api/adverse-events`: it validates `drugName`,
 * builds the upstream search expression and URL, and maps the upstream
 * answer to a response. The network call and `encodeURIComponent` are
 * parameters: `upstream` answers a URL, and `encode` gives the encoded text,
 * or `None` where `encodeURIComponent` would throw. The `None` case is kept
 * for every `encode`, although no query parameter value read from a URL can
 * make the real function throw.
 */
module RouteHandler {
  import opened Wrappers

  const FdaApiBaseUrl: string := "https://api.fda.gov/drug/event.json"
  /** `LIMIT` (100), as the template literal writes it into the URL. */
  const LimitText: string := "100"

  const DrugNameRequired: string := "Drug name is required"
  const UpstreamFailed: string := "Failed to fetch data from OpenFDA"

  /** The exact-match clause opens with this text and closes with a double quote. */
  const DrugClauseOpen: string := "patient.drug.medicinalproduct:\""
  const DeathClause: string := "+seriousnessdeath:1"
  const HospitalizationClause: string := "+seriousnesshospitalization:1"

  /** The query string of a request, as (name, value) pairs in order. */
  type Params = seq<(string, string)>

  /** `URLSearchParams.get`: the value of the first pair with this name, `None` when there is none. */
  function QueryParam(params: Params, name: string): (r: Option<string>)
    ensures r.Some? ==> (name, r.value) in params
  {
    if params == [] then None
    else if params[0].0 == name then Some(params[0].1)
    else QueryParam(params[1..], name)
  }

  /** `get` finds a pair exactly when one carries the name, and then the first such pair. */
  lemma {:induction false} QueryParamFirst(params: Params, name: string)
    ensures QueryParam(params, name).None? <==> forall i :: 0 <= i < |params| ==> params[i].0 != name
    ensures QueryParam(params, name).Some? ==>
              exists i :: 0 <= i < |params| && params[i] == (name, QueryParam(params, name).value) &&
                          forall j :: 0 <= j < i ==> params[j].0 != name
  {
    if params != [] && params[0].0 != name {
      QueryParamFirst(params[1..], name);
      var r := QueryParam(params[1..], name);
      if r.Some? {
        var i :| 0 <= i < |params[1..]| && params[1..][i] == (name, r.value) &&
                 forall j :: 0 <= j < i ==> params[1..][j].0 != name;
        assert params[i + 1] == (name, r.value);
      } else {
        forall i | 0 <= i < |params| ensures params[i].0 != name {
          if i > 0 {
            assert params[i] == params[1..][i - 1];
          }
        }
      }
    } else if params != [] {
      assert params[0] == (name, params[0].1);
    }
  }

  // ---------------------------------------------------------------------
  // Validation: `!drugName || drugName.trim() === ""`
  // ---------------------------------------------------------------------

  /** The code points ECMAScript's `String.prototype.trim` removes: WhiteSpace and LineTerminator. */
  predicate IsJsWhitespace(c: char) {
    var n := c as int;
    n == 0x09 || n == 0x0A || n == 0x0B || n == 0x0C || n == 0x0D || n == 0x20 ||
    n == 0xA0 || n == 0x1680 || (0x2000 <= n <= 0x200A) || n == 0x2028 || n == 0x2029 ||
    n == 0x202F || n == 0x205F || n == 0x3000 || n == 0xFEFF
  }

  predicate AllWhitespace(s: string) {
    forall i :: 0 <= i < |s| ==> IsJsWhitespace(s[i])
  }

  /** Drops the leading whitespace: what is left is a suffix that starts with a non-whitespace character. */
  function TrimStart(s: string): (r: string)
    ensures |r| <= |s| && r == s[|s| - |r|..]
    ensures r == [] || !IsJsWhitespace(r[0])
    ensures AllWhitespace(s[..|s| - |r|])
  {
    if s != [] && IsJsWhitespace(s[0]) then
      var r := TrimStart(s[1..]);
      assert s[..|s| - |r|] == [s[0]] + s[1..][..|s[1..]| - |r|];
      r
    else s
  }

  /** Drops the trailing whitespace: what is left is a prefix that ends with a non-whitespace character. */
  function TrimEnd(s: string): (r: string)
    ensures |r| <= |s| && r == s[..|r|]
    ensures r == [] || !IsJsWhitespace(r[|r| - 1])
    ensures AllWhitespace(s[|r|..])
  {
    if s != [] && IsJsWhitespace(s[|s| - 1]) then
      var r := TrimEnd(s[..|s| - 1]);
      assert s[|r|..] == s[..|s| - 1][|r|..] + [s[|s| - 1]];
      r
    else s
  }

  /**
   * `String.prototype.trim`: `s` is the result with whitespace only before
   * and after it, and the result neither starts nor ends with whitespace.
   */
  function Trim(s: string): (r: string)
    ensures Trimmed(r)
    ensures exists k :: Padded(s, r, k)
  {
    var t := TrimStart(s);
    var r := TrimEnd(t);
    PaddedPieces(s, t, r);
    TrimEnds(s);
    r
  }

  /** Neither the first nor the last character of `r` is whitespace. */
  predicate Trimmed(r: string) {
    r == [] || (!IsJsWhitespace(r[0]) && !IsJsWhitespace(r[|r| - 1]))
  }

  /** `s` is `r` with only whitespace before it (the first `k` characters) and after it. */
  predicate Padded(s: string, r: string, k: nat) {
    k + |r| <= |s| && s[k..k + |r|] == r && AllWhitespace(s[..k]) && AllWhitespace(s[k + |r|..])
  }

  /** A prefix `r` of a suffix `t` of `s`, each cut off by whitespace only, sits in `s` padded by whitespace. */
  lemma PaddedPieces(s: string, t: string, r: string)
    requires |t| <= |s| && t == s[|s| - |t|..] && AllWhitespace(s[..|s| - |t|])
    requires |r| <= |t| && r == t[..|r|] && AllWhitespace(t[|r|..])
    ensures Padded(s, r, |s| - |t|)
  {
    assert s[|s| - |t| + |r|..] == t[|r|..];
  }

  /** Neither end of `TrimEnd(TrimStart(s))` is whitespace. */
  lemma TrimEnds(s: string)
    ensures Trimmed(TrimEnd(TrimStart(s)))
  {
    var t := TrimStart(s);
    var r := TrimEnd(t);
    if r != [] {
      assert r[0] == t[0];
    }
  }

  /** `trim()` leaves nothing exactly when every character is whitespace. */
  lemma TrimEmptyIffAllWhitespace(s: string)
    ensures Trim(s) == "" <==> AllWhitespace(s)
  {
    var t := TrimStart(s);
    if Trim(s) == "" {
      if t != [] {
        assert false;
      }
      assert s == s[..|s| - |t|];
    }
    if AllWhitespace(s) && t != [] {
      assert false;
    }
  }

  /** The guard that answers 400: the parameter is missing, empty, or whitespace only. */
  function MissingDrugName(drugName: Option<string>): (missing: bool)
    ensures missing <==> drugName.None? || AllWhitespace(drugName.value)
  {
    if drugName.None? then true
    else
      TrimEmptyIffAllWhitespace(drugName.value);
      drugName.value == "" || Trim(drugName.value) == ""
  }

  // ---------------------------------------------------------------------
  // The search expression
  // ---------------------------------------------------------------------

  /** The restriction a `seriousness` parameter selects. */
  datatype Filter = AllReports | DeathsOnly | HospitalizationsOnly

  /** Only the exact strings "Death" and "Hospitalization" select a restriction. */
  function FilterOf(seriousness: Option<string>): (f: Filter)
    ensures f == DeathsOnly <==> seriousness == Some("Death")
    ensures f == HospitalizationsOnly <==> seriousness == Some("Hospitalization")
  {
    if seriousness == Some("Death") then DeathsOnly
    else if seriousness == Some("Hospitalization") then HospitalizationsOnly
    else AllReports
  }

  function ClauseOf(f: Filter): string {
    match f
    case AllReports => ""
    case DeathsOnly => DeathClause
    case HospitalizationsOnly => HospitalizationClause
  }

  /**
   * The upstream search expression: the quoted drug name, embedded verbatim,
   * followed by the clause the seriousness filter selects, if any.
   */
  function BuildQuery(drugName: string, seriousness: Option<string>): (q: string)
    ensures DrugClauseOpen + drugName + "\"" <= q
    ensures var rest := q[|DrugClauseOpen| + |drugName| + 1..];
            && (seriousness == Some("Death") ==> rest == DeathClause)
            && (seriousness == Some("Hospitalization") ==> rest == HospitalizationClause)
            && (seriousness != Some("Death") && seriousness != Some("Hospitalization") ==> rest == "")
  {
    var q := DrugClauseOpen + drugName + "\"" + ClauseOf(FilterOf(seriousness));
    assert q[|DrugClauseOpen| + |drugName| + 1..] == ClauseOf(FilterOf(seriousness));
    q
  }

  predicate EndsWith(s: string, suffix: string) {
    |suffix| <= |s| && s[|s| - |suffix|..] == suffix
  }

  /** Reads a search expression back into the drug name and the filter it was built from. */
  function ParseQuery(q: string): Option<(string, Filter)> {
    if DrugClauseOpen <= q then ParseClose(q[|DrugClauseOpen|..]) else None
  }

  /** Reads what follows the opening of the drug clause: the name, the closing quote, then the filter clause. */
  function ParseClose(rest: string): Option<(string, Filter)> {
    if EndsWith(rest, "\"" + DeathClause) then
      Some((rest[..|rest| - |DeathClause| - 1], DeathsOnly))
    else if EndsWith(rest, "\"" + HospitalizationClause) then
      Some((rest[..|rest| - |HospitalizationClause| - 1], HospitalizationsOnly))
    else if EndsWith(rest, "\"") then
      Some((rest[..|rest| - 1], AllReports))
    else None
  }

  /**
   * The search expression loses nothing: the drug name (untrimmed, unescaped)
   * and the filter can be read back from it, so two requests that differ in
   * either never share a search expression.
   */
  lemma ParseBuildQuery(drugName: string, seriousness: Option<string>)
    ensures ParseQuery(BuildQuery(drugName, seriousness)) == Some((drugName, FilterOf(seriousness)))
  {
    var q := BuildQuery(drugName, seriousness);
    var close := "\"" + ClauseOf(FilterOf(seriousness));
    assert q == DrugClauseOpen + (drugName + close);
    assert q[|DrugClauseOpen|..] == drugName + close;
    ParseCloseOf(drugName, FilterOf(seriousness));
  }

  lemma ParseCloseOf(drugName: string, f: Filter)
    ensures ParseClose(drugName + ("\"" + ClauseOf(f))) == Some((drugName, f))
  {
    var close := "\"" + ClauseOf(f);
    var rest := drugName + close;
    EndsWithAppended(drugName, close);
    match f
    case DeathsOnly =>
    case HospitalizationsOnly =>
      EndsDiffer(rest, close, "\"" + DeathClause, 2);
    case AllReports =>
      EndsDiffer(rest, close, "\"" + DeathClause, 0);
      EndsDiffer(rest, close, "\"" + HospitalizationClause, 0);
  }

  lemma EndsWithAppended(x: string, suffix: string)
    ensures EndsWith(x + suffix, suffix) && (x + suffix)[..|x|] == x
  {
    assert (x + suffix)[|x|..] == suffix;
  }

  /** A string that ends with `suffix` does not end with `other` when the two differ `k` places from the end. */
  lemma EndsDiffer(s: string, suffix: string, other: string, k: nat)
    requires EndsWith(s, suffix)
    requires k < |suffix| && k < |other|
    requires suffix[|suffix| - 1 - k] != other[|other| - 1 - k]
    ensures !EndsWith(s, other)
  {
    assert s[|s| - |suffix|..][|suffix| - 1 - k] == s[|s| - 1 - k];
    if |other| <= |s| {
      assert s[|s| - |other|..][|other| - 1 - k] == s[|s| - 1 - k];
    }
  }

  /**
   * The upstream URL for an already encoded search expression: the base URL
   * and `?search=`, the encoded expression unchanged, and the same page size,
   * 100, for every request.
   */
  function SearchUrl(encodedQuery: string): (url: string)
    ensures FdaApiBaseUrl + "?search=" <= url
    ensures EndsWith(url, "&limit=100")
    ensures |url| == |FdaApiBaseUrl + "?search="| + |encodedQuery| + |"&limit=100"|
    ensures url[|FdaApiBaseUrl + "?search="|..|url| - |"&limit=100"|] == encodedQuery
  {
    var head := FdaApiBaseUrl + "?search=";
    var url := head + encodedQuery + "&limit=" + LimitText;
    assert url == head + (encodedQuery + "&limit=100");
    assert url == (head + encodedQuery) + "&limit=100";
    EndsWithAppended(head + encodedQuery, "&limit=100");
    url
  }

  // ---------------------------------------------------------------------
  // The request / response exchange
  // ---------------------------------------------------------------------

  /** What the upstream call gives: a thrown network error, or a reply whose JSON body may fail to parse (`None`). */
  datatype Upstream<B> = NetworkFailure | Reply(ok: bool, statusText: string, json: Option<B>)

  datatype Payload<B> = Data(data: B) | ErrorEnvelope(error: string)

  datatype Response<B> = Response(status: nat, payload: Payload<B>)

  /** The response sent back, and the URL of the upstream request made on the way, if one was made. */
  datatype Exchange<B> = Exchange(response: Response<B>, upstreamUrl: Option<string>)

  /**
   * The answer to an upstream call: a parsed body from an ok reply is passed
   * through unchanged; anything else is one fixed 500 envelope, whatever the
   * upstream status text said.
   */
  function Forward<B>(u: Upstream<B>): (r: Response<B>)
    ensures r.status == 200 <==> u.Reply? && u.ok && u.json.Some?
    ensures r.status == 200 ==> r.payload == Data(u.json.value)
    ensures r.status != 200 ==> r == Response(500, ErrorEnvelope(UpstreamFailed))
  {
    match u
    case Reply(true, _, Some(body)) => Response(200, Data(body))
    case _ => Response(500, ErrorEnvelope(UpstreamFailed))
  }

  /** `GET(request)` with the request reduced to its query parameters. */
  function Get<B>(params: Params, encode: string -> Option<string>, upstream: string -> Upstream<B>): (x: Exchange<B>)
    ensures x.response.status in {200, 400, 500}
    ensures x.response.status == 400 <==> MissingDrugName(QueryParam(params, "drugName"))
    ensures x.response.status == 400 ==> x == Exchange(Response(400, ErrorEnvelope(DrugNameRequired)), None)
    ensures x.upstreamUrl.Some? <==>
              !MissingDrugName(QueryParam(params, "drugName")) &&
              encode(BuildQuery(QueryParam(params, "drugName").value, QueryParam(params, "seriousness"))).Some?
    ensures x.upstreamUrl.Some? ==>
              x.upstreamUrl.value ==
                SearchUrl(encode(BuildQuery(QueryParam(params, "drugName").value, QueryParam(params, "seriousness"))).value)
    ensures x.response.status == 200 <==>
              x.upstreamUrl.Some? && upstream(x.upstreamUrl.value).Reply? &&
              upstream(x.upstreamUrl.value).ok && upstream(x.upstreamUrl.value).json.Some?
    ensures x.response.status == 200 ==> x.response.payload == Data(upstream(x.upstreamUrl.value).json.value)
    ensures x.response.status == 500 ==> x.response.payload == ErrorEnvelope(UpstreamFailed)
  {
    var drugName := QueryParam(params, "drugName");
    var seriousness := QueryParam(params, "seriousness");
    if MissingDrugName(drugName) then
      Exchange(Response(400, ErrorEnvelope(DrugNameRequired)), None)
    else
      var query := BuildQuery(drugName.value, seriousness);
      match encode(query)
      case None => Exchange(Response(500, ErrorEnvelope(UpstreamFailed)), None)
      case Some(encoded) =>
        var url := SearchUrl(encoded);
        Exchange(Forward(upstream(url)), Some(url))
  }
}
