/**
 * The dashboard page `Home`: its state (`events`, `metrics`, `isLoading`,
 * `error`, `currentDrug`), the three counters computed from a result list,
 * and the handlers `fetchData`, `handleSearch` and `handleFilterChange`.
 * The call to the endpoint is a parameter: `reply` is what the awaited
 * `fetch` and `response.json()` produced, and each handler runs as one step.
 */
module HomePage {
  import opened Wrappers
  import opened AdverseEvents
  import RouteHandler

  datatype Metrics = Metrics(total: nat, deaths: nat, hospitalizations: nat)

  const NoMetrics: Metrics := Metrics(0, 0, 0)
  const FetchFailed: string := "Failed to fetch data"
  const NonErrorThrown: string := "An error occurred"

  /** The upstream encodes a set flag as the string "1"; any other value, or none, is unset. */
  predicate Died(e: Event) {
    e.seriousnessdeath == Some("1")
  }

  predicate Hospitalized(e: Event) {
    e.seriousnesshospitalization == Some("1")
  }

  // ---------------------------------------------------------------------
  // `results.filter(p).length`
  // ---------------------------------------------------------------------

  /** `Array.prototype.filter`: the elements that satisfy `p`, in their original order. */
  function Filter(es: seq<Event>, p: Event -> bool): (r: seq<Event>)
    ensures |r| <= |es|
    ensures forall e :: e in r <==> e in es && p(e)
  {
    if es == [] then []
    else (if p(es[0]) then [es[0]] else []) + Filter(es[1..], p)
  }

  /** The positions of the elements that satisfy `p`: an independent account of what `filter` keeps. */
  ghost function Matching(es: seq<Event>, p: Event -> bool): set<int> {
    set i | 0 <= i < |es| && p(es[i])
  }

  lemma {:induction false} FilterAppend(a: seq<Event>, b: seq<Event>, p: Event -> bool)
    ensures Filter(a + b, p) == Filter(a, p) + Filter(b, p)
  {
    if a == [] {
      assert a + b == b;
    } else {
      assert (a + b)[0] == a[0];
      assert (a + b)[1..] == a[1..] + b;
      FilterAppend(a[1..], b, p);
    }
  }

  /** Taking one element out of a list lowers the count by one exactly when that element satisfies `p`. */
  lemma FilterCountWithout(b: seq<Event>, i: nat, p: Event -> bool)
    requires i < |b|
    ensures |Filter(b, p)| == |Filter(b[..i] + b[i + 1..], p)| + if p(b[i]) then 1 else 0
  {
    assert b == (b[..i] + [b[i]]) + b[i + 1..];
    FilterAppend(b[..i] + [b[i]], b[i + 1..], p);
    FilterAppend(b[..i], [b[i]], p);
    FilterAppend(b[..i], b[i + 1..], p);
    assert Filter([b[i]], p) == (if p(b[i]) then [b[i]] else []) + Filter([], p);
  }

  /** `filter(p).length` is the number of positions whose element satisfies `p`. */
  lemma {:induction false} FilterCountsMatching(es: seq<Event>, p: Event -> bool)
    ensures |Filter(es, p)| == |Matching(es, p)|
  {
    if es != [] {
      var init, last := es[..|es| - 1], es[|es| - 1];
      assert es == init + [last];
      FilterAppend(init, [last], p);
      assert Filter([last], p) == (if p(last) then [last] else []) + Filter([], p);
      FilterCountsMatching(init, p);
      MatchingSnoc(init, last, p);
    }
  }

  lemma MatchingSnoc(init: seq<Event>, last: Event, p: Event -> bool)
    ensures Matching(init + [last], p) == Matching(init, p) + if p(last) then {|init|} else {}
    ensures |init| !in Matching(init, p)
  {
    var es := init + [last];
    forall i | 0 <= i < |init| ensures es[i] == init[i] {}
  }

  /** Counting with `filter` does not depend on the order of the list. */
  lemma {:induction false} FilterCountIgnoresOrder(a: seq<Event>, b: seq<Event>, p: Event -> bool)
    requires multiset(a) == multiset(b)
    ensures |Filter(a, p)| == |Filter(b, p)|
    decreases |a|
  {
    if a == [] {
      assert |multiset(b)| == 0;
    } else {
      var x := a[0];
      assert x in multiset(b);
      var i :| 0 <= i < |b| && b[i] == x;
      var rest := b[..i] + b[i + 1..];
      MultisetWithout(a, b, i);
      FilterCountIgnoresOrder(a[1..], rest, p);
      FilterCountWithout(b, i, p);
      FilterCountWithout(a, 0, p);
      assert a[..0] + a[1..] == a[1..];
    }
  }

  /** Removing the head of `a` and a matching element of `b` keeps the two lists permutations of each other. */
  lemma MultisetWithout(a: seq<Event>, b: seq<Event>, i: nat)
    requires multiset(a) == multiset(b) && a != [] && i < |b| && b[i] == a[0]
    ensures multiset(b[..i] + b[i + 1..]) == multiset(a[1..])
  {
    var x := a[0];
    assert b == b[..i] + [x] + b[i + 1..];
    assert multiset(b) == multiset(b[..i]) + multiset{x} + multiset(b[i + 1..]);
    assert a == [x] + a[1..];
    assert multiset(a) == multiset{x} + multiset(a[1..]);
    assert multiset(b[..i] + b[i + 1..]) == multiset(b) - multiset{x};
    assert multiset(a[1..]) == multiset(a) - multiset{x};
  }

  // ---------------------------------------------------------------------
  // The three counters
  // ---------------------------------------------------------------------

  /**
   * The metrics of a result list: its length, and the numbers of reports
   * whose death and hospitalization flags are exactly "1".
   */
  function ComputeMetrics(results: seq<Event>): (m: Metrics)
    ensures m.total == |results|
    ensures m.deaths == |Matching(results, Died)| && m.deaths <= m.total
    ensures m.hospitalizations == |Matching(results, Hospitalized)| && m.hospitalizations <= m.total
  {
    FilterCountsMatching(results, Died);
    FilterCountsMatching(results, Hospitalized);
    Metrics(|results|, |Filter(results, Died)|, |Filter(results, Hospitalized)|)
  }

  /** Reordering the result list leaves every counter unchanged. */
  lemma MetricsIgnoreOrder(a: seq<Event>, b: seq<Event>)
    requires multiset(a) == multiset(b)
    ensures ComputeMetrics(a) == ComputeMetrics(b)
  {
    FilterCountIgnoresOrder(a, b, Died);
    FilterCountIgnoresOrder(a, b, Hospitalized);
    assert |a| == |multiset(a)| == |multiset(b)| == |b|;
  }

  /** Two deaths and one hospitalization without a death flag give {total: 3, deaths: 2, hospitalizations: 1}. */
  lemma ThreeReportExample()
    ensures ComputeMetrics([
              Event("20210101", Some("1"), None),
              Event("20210102", Some("1"), Some("2")),
              Event("20210103", None, Some("1"))]) == Metrics(3, 2, 1)
  {
    var es := [
      Event("20210101", Some("1"), None),
      Event("20210102", Some("1"), Some("2")),
      Event("20210103", None, Some("1"))];
    assert Filter(es, Died) == [es[0], es[1]];
    assert Filter(es, Hospitalized) == [es[2]];
  }

  // ---------------------------------------------------------------------
  // The request the page sends
  // ---------------------------------------------------------------------

  /** `seriousness && seriousness !== "All"`: an absent, empty or "All" filter is not sent. */
  function SendsSeriousness(seriousness: Option<string>): (sends: bool)
    ensures sends <==> seriousness !in {None, Some(""), Some("All")}
    ensures RouteHandler.FilterOf(seriousness) != RouteHandler.AllReports ==> sends
  {
    seriousness.Some? && seriousness.value != "" && seriousness.value != "All"
  }

  /** The query parameters of `fetchData`'s request, as the endpoint will read them. */
  function RequestParams(drugName: string, seriousness: Option<string>): (params: RouteHandler.Params)
    ensures RouteHandler.QueryParam(params, "drugName") == Some(drugName)
    ensures RouteHandler.QueryParam(params, "seriousness") == if SendsSeriousness(seriousness) then seriousness else None
    ensures |params| == if SendsSeriousness(seriousness) then 2 else 1
  {
    [("drugName", drugName)] + if SendsSeriousness(seriousness) then [("seriousness", seriousness.value)] else []
  }

  /** Leaving out an "All" or empty filter selects the same restriction at the endpoint as sending it. */
  lemma RequestKeepsFilter(drugName: string, seriousness: Option<string>)
    ensures RouteHandler.FilterOf(RouteHandler.QueryParam(RequestParams(drugName, seriousness), "seriousness"))
            == RouteHandler.FilterOf(seriousness)
  {
  }

  // ---------------------------------------------------------------------
  // What `fetchData` does with the reply
  // ---------------------------------------------------------------------

  /** A value caught by the `catch` clause: an `Error` instance, or anything else. */
  datatype Thrown = ErrorObject(message: string) | NonErrorValue

  /** The awaited `fetch` and `response.json()`: one of them threw, or both completed. */
  datatype Reply = Threw(thrown: Thrown) | Responded(ok: bool, data: Body)

  /** How a `fetchData` call ends. */
  datatype Settlement = Loaded(results: seq<Event>) | Unchanged | Failed(message: string)

  /**
   * The outcome the page's `try` / `catch` gives a reply: a failed reply
   * shows the endpoint's `error` text (unless it is absent or empty), an ok
   * reply with `results` loads them, and an ok reply without `results` leaves
   * the page as it was.
   */
  function Settle(reply: Reply): (s: Settlement)
    ensures s.Failed? <==> reply.Threw? || !reply.ok
    ensures s.Loaded? <==> reply.Responded? && reply.ok && reply.data.results.Some?
    ensures s.Loaded? ==> s.results == reply.data.results.value
    ensures reply.Responded? && !reply.ok ==>
              s.message == if reply.data.error.Some? && reply.data.error.value != "" then reply.data.error.value else FetchFailed
    ensures reply == Threw(NonErrorValue) ==> s == Failed(NonErrorThrown)
    ensures reply.Threw? && reply.thrown.ErrorObject? ==> s == Failed(reply.thrown.message)
  {
    match reply
    case Threw(ErrorObject(message)) => Failed(message)
    case Threw(NonErrorValue) => Failed(NonErrorThrown)
    case Responded(false, data) =>
      Failed(if data.error.Some? && data.error.value != "" then data.error.value else FetchFailed)
    case Responded(true, data) =>
      if data.results.Some? then Loaded(data.results.value) else Unchanged
  }

  /**
   * The page's view of an endpoint response: `response.ok` and the parsed
   * JSON body. A passed-through body reaches the page unchanged, and the
   * message of an error envelope is the one the page shows.
   */
  function ClientView(response: RouteHandler.Response<Body>): (reply: Reply)
    ensures reply.Responded? && (reply.ok <==> 200 <= response.status < 300)
    ensures response.payload.Data? ==> reply.data == response.payload.data
    ensures response.payload.ErrorEnvelope? ==> reply.data.results.None? && reply.data.error == Some(response.payload.error)
    ensures response.status in {400, 500} && response.payload.ErrorEnvelope? && response.payload.error != "" ==>
              Settle(reply) == Failed(response.payload.error)
  {
    Responded(
      200 <= response.status < 300,
      match response.payload
      case Data(body) => body
      case ErrorEnvelope(message) => Body(None, Some(message)))
  }

  /**
   * A search from the page, carried through the endpoint and back: a blank
   * drug name shows "Drug name is required" and makes no upstream request; an
   * upstream request carries the page's drug name and filter; any upstream
   * failure shows the fixed OpenFDA message; an upstream success loads its
   * results, or leaves the page as it was when it has none.
   */
  lemma {:induction false} SearchRoundTrip(
    drugName: string, seriousness: Option<string>,
    encode: string -> Option<string>, upstream: string -> RouteHandler.Upstream<Body>)
    ensures var x := RouteHandler.Get(RequestParams(drugName, seriousness), encode, upstream);
            var s := Settle(ClientView(x.response));
            && (RouteHandler.AllWhitespace(drugName) ==>
                  x.upstreamUrl.None? && s == Failed(RouteHandler.DrugNameRequired))
            && (!RouteHandler.AllWhitespace(drugName) ==>
                  match encode(RouteHandler.BuildQuery(drugName, seriousness))
                  case None => x.upstreamUrl.None? && s == Failed(RouteHandler.UpstreamFailed)
                  case Some(encoded) =>
                    && x.upstreamUrl == Some(RouteHandler.SearchUrl(encoded))
                    && match upstream(RouteHandler.SearchUrl(encoded))
                       case Reply(true, _, Some(body)) =>
                         s == if body.results.Some? then Loaded(body.results.value) else Unchanged
                       case _ => s == Failed(RouteHandler.UpstreamFailed))
  {
    var params := RequestParams(drugName, seriousness);
    assert RouteHandler.QueryParam(params, "drugName") == Some(drugName);
    RequestKeepsFilter(drugName, seriousness);
    var query := RouteHandler.BuildQuery(drugName, RouteHandler.QueryParam(params, "seriousness"));
    assert query == RouteHandler.BuildQuery(drugName, seriousness);
    var x := RouteHandler.Get(params, encode, upstream);
    if RouteHandler.AllWhitespace(drugName) {
      assert x.response == RouteHandler.Response(400, RouteHandler.ErrorEnvelope(RouteHandler.DrugNameRequired));
    } else if encode(query).Some? {
      var url := RouteHandler.SearchUrl(encode(query).value);
      assert x.upstreamUrl == Some(url);
      assert x.response == RouteHandler.Forward(upstream(url));
    } else {
      assert x.response == RouteHandler.Response(500, RouteHandler.ErrorEnvelope(RouteHandler.UpstreamFailed));
    }
  }

  // ---------------------------------------------------------------------
  // The page state
  // ---------------------------------------------------------------------

  class Home {
    var events: seq<Event>
    var metrics: Metrics
    var isLoading: bool
    var error: Option<string>
    var currentDrug: Option<string>

    /** The counters on screen always describe the events on screen. */
    ghost predicate Valid()
      reads this
    {
      metrics == ComputeMetrics(events)
    }

    /** The `useState` initial values. */
    constructor ()
      ensures Valid()
      ensures events == [] && metrics == NoMetrics && !isLoading && error == None && currentDrug == None
    {
      events := [];
      metrics := NoMetrics;
      isLoading := false;
      error := None;
      currentDrug := None;
    }

    /** The state a `fetchData` call leaves, given the state before it. */
    ghost predicate SettledBy(reply: Reply, previousEvents: seq<Event>, previousMetrics: Metrics)
      reads this
    {
      && !isLoading
      && match Settle(reply)
         case Loaded(results) => events == results && metrics == ComputeMetrics(results) && error == None
         case Unchanged => events == previousEvents && metrics == previousMetrics && error == None
         case Failed(message) => events == [] && metrics == NoMetrics && error == Some(message)
    }

    /** `fetchData(drugName, seriousness)`: returns the parameters it sent. */
    method FetchData(drugName: string, seriousness: Option<string>, reply: Reply) returns (sent: RouteHandler.Params)
      requires Valid()
      modifies this`events, this`metrics, this`isLoading, this`error
      ensures Valid()
      ensures sent == RequestParams(drugName, seriousness)
      ensures SettledBy(reply, old(events), old(metrics))
    {
      isLoading := true;
      error := None;
      sent := [("drugName", drugName)];
      if seriousness.Some? && seriousness.value != "" && seriousness.value != "All" {
        sent := sent + [("seriousness", seriousness.value)];
      }
      var caught: Option<Thrown> := None;
      match reply {
        case Threw(t) =>
          caught := Some(t);
        case Responded(ok, data) =>
          if !ok {
            var message := if data.error.Some? && data.error.value != "" then data.error.value else FetchFailed;
            caught := Some(ErrorObject(message));
          } else if data.results.Some? {
            events := data.results.value;
            var total := |data.results.value|;
            var deaths := |Filter(data.results.value, Died)|;
            var hospitalizations := |Filter(data.results.value, Hospitalized)|;
            metrics := Metrics(total, deaths, hospitalizations);
          }
      }
      if caught.Some? {
        // `error instanceof Error ? error.message : "An error occurred"`
        error := Some(if caught.value.ErrorObject? then caught.value.message else NonErrorThrown);
        events := [];
        metrics := NoMetrics;
      }
      isLoading := false;
    }

    /** `handleSearch(drugName)`: remembers the drug, then fetches without a filter. */
    method HandleSearch(drugName: string, reply: Reply) returns (sent: RouteHandler.Params)
      requires Valid()
      modifies this
      ensures Valid()
      ensures currentDrug == Some(drugName)
      ensures sent == RequestParams(drugName, None)
      ensures SettledBy(reply, old(events), old(metrics))
    {
      currentDrug := Some(drugName);
      sent := FetchData(drugName, None, reply);
    }

    /**
     * `handleFilterChange(filter)`: refetches the remembered drug with the new
     * filter; with no drug remembered (or an empty one) nothing happens.
     */
    method HandleFilterChange(filter: string, reply: Reply) returns (sent: Option<RouteHandler.Params>)
      requires Valid()
      modifies this`events, this`metrics, this`isLoading, this`error
      ensures Valid()
      ensures old(currentDrug).None? || old(currentDrug) == Some("") ==>
                sent.None? && events == old(events) && metrics == old(metrics) &&
                isLoading == old(isLoading) && error == old(error)
      ensures old(currentDrug).Some? && old(currentDrug) != Some("") ==>
                sent == Some(RequestParams(old(currentDrug).value, Some(filter))) &&
                SettledBy(reply, old(events), old(metrics))
    {
      sent := None;
      if currentDrug.Some? && currentDrug.value != "" {
        var params := FetchData(currentDrug.value, Some(filter), reply);
        sent := Some(params);
      }
    }
  }

  /** After a search, a filter change refetches the searched drug with that filter. */
  method SearchThenFilter(drugName: string, filter: string, first: Reply, second: Reply)
    returns (refetch: Option<RouteHandler.Params>)
    requires drugName != ""
    ensures refetch == Some(RequestParams(drugName, Some(filter)))
  {
    var home := new Home();
    var sent := home.HandleSearch(drugName, first);
    refetch := home.HandleFilterChange(filter, second);
  }
}
