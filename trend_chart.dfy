/**
 * The data behind the `TrendChart` bar chart: events grouped by the first
 * four characters of `receivedate`, the observed years sorted ascending as
 * `labels`, and the matching counts as `dataPoints`.
 */
module TrendChart {
  import opened Wrappers
  import opened AdverseEvents
  import opened StringOrder

  /** `receivedate.slice(0, 4)`: the first four characters, or the whole date when it is shorter. */
  function YearOf(e: Event): (year: string)
    ensures |year| == if |e.receivedate| < 4 then |e.receivedate| else 4
    ensures year <= e.receivedate
  {
    if |e.receivedate| <= 4 then e.receivedate else e.receivedate[..4]
  }

  /** The number of events whose year key is `year`. */
  function CountYear(events: seq<Event>, year: string): nat {
    if events == [] then 0
    else CountYear(events[..|events| - 1], year) + if YearOf(events[|events| - 1]) == year then 1 else 0
  }

  /** The year keys that occur in `events`. */
  ghost function Years(events: seq<Event>): set<string> {
    if events == [] then {} else Years(events[..|events| - 1]) + {YearOf(events[|events| - 1])}
  }

  /** `Years` holds the year of every event and nothing else. */
  lemma {:induction false} YearsObserved(events: seq<Event>, year: string)
    ensures year in Years(events) <==> exists i :: 0 <= i < |events| && YearOf(events[i]) == year
  {
    if events != [] {
      var init := events[..|events| - 1];
      YearsObserved(init, year);
      if exists i :: 0 <= i < |events| && YearOf(events[i]) == year {
        var i :| 0 <= i < |events| && YearOf(events[i]) == year;
        if i < |init| {
          assert init[i] == events[i];
        }
      }
      if exists i :: 0 <= i < |init| && YearOf(init[i]) == year {
        var i :| 0 <= i < |init| && YearOf(init[i]) == year;
        assert events[i] == init[i];
      }
    }
  }

  /** A year is a key exactly when at least one event falls in it. */
  lemma {:induction false} CountYearPositive(events: seq<Event>, year: string)
    ensures CountYear(events, year) > 0 <==> year in Years(events)
  {
    if events != [] {
      CountYearPositive(events[..|events| - 1], year);
    }
  }

  /**
   * The `reduce` that builds `yearData`: one pass that adds one to the
   * bucket of each event's year, starting a missing bucket at zero. `keys`
   * lists the buckets in the order they were created.
   */
  method BucketByYear(events: seq<Event>) returns (yearData: map<string, nat>, keys: seq<string>)
    ensures yearData.Keys == Years(events)
    ensures forall year :: year in yearData ==> yearData[year] == CountYear(events, year)
    ensures Distinct(keys) && |keys| <= |events|
    ensures forall year :: year in keys <==> year in yearData
  {
    yearData, keys := map[], [];
    var i := 0;
    while i < |events|
      invariant 0 <= i <= |events|
      invariant yearData.Keys == Years(events[..i])
      invariant forall year :: year in yearData ==> yearData[year] == CountYear(events[..i], year)
      invariant Distinct(keys) && |keys| <= i
      invariant forall year :: year in keys <==> year in yearData
    {
      var year := YearOf(events[i]);
      var count := if year in yearData then yearData[year] else 0;
      if year !in yearData {
        DistinctAppend(keys, year);
        keys := keys + [year];
      }
      BucketStep(events, i, yearData);
      yearData := yearData[year := count + 1];
      i := i + 1;
    }
    assert events[..i] == events;
  }

  /** Counting event `i` into a correct bucket map for the events before it gives the correct map for one more event. */
  lemma BucketStep(events: seq<Event>, i: nat, yearData: map<string, nat>)
    requires i < |events|
    requires yearData.Keys == Years(events[..i])
    requires forall year :: year in yearData ==> yearData[year] == CountYear(events[..i], year)
    ensures var year := YearOf(events[i]);
            var next := yearData[year := (if year in yearData then yearData[year] else 0) + 1];
            && next.Keys == Years(events[..i + 1])
            && forall y :: y in next ==> next[y] == CountYear(events[..i + 1], y)
  {
    var year := YearOf(events[i]);
    var prefix := events[..i + 1];
    assert prefix[..|prefix| - 1] == events[..i];
    if year !in yearData {
      CountYearPositive(events[..i], year);
    }
  }

  function Sum(s: seq<nat>): nat {
    if s == [] then 0 else s[0] + Sum(s[1..])
  }

  /** The count of each label, in label order. */
  function Counts(events: seq<Event>, labels: seq<string>): (r: seq<nat>)
    ensures |r| == |labels|
    ensures forall i :: 0 <= i < |labels| ==> r[i] == CountYear(events, labels[i])
  {
    if labels == [] then [] else [CountYear(events, labels[0])] + Counts(events, labels[1..])
  }

  /** One more event adds one to the total of the counts when its year is among the labels. */
  lemma {:induction false} CountsStep(events: seq<Event>, e: Event, labels: seq<string>)
    requires Distinct(labels)
    ensures Sum(Counts(events + [e], labels)) == Sum(Counts(events, labels)) + if YearOf(e) in labels then 1 else 0
  {
    if labels != [] {
      assert (events + [e])[..|events + [e]| - 1] == events;
      assert YearOf(e) in labels <==> YearOf(e) == labels[0] || YearOf(e) in labels[1..];
      assert labels[0] !in labels[1..];
      CountsStep(events, e, labels[1..]);
    }
  }

  /** Each event lands in exactly one bucket, so the counts of all observed years add up to the number of events. */
  lemma {:induction false} CountsAddUp(events: seq<Event>, labels: seq<string>)
    requires Distinct(labels)
    requires forall year :: year in Years(events) ==> year in labels
    ensures Sum(Counts(events, labels)) == |events|
  {
    if events == [] {
      NoEventsNoCounts(labels);
    } else {
      var init, last := events[..|events| - 1], events[|events| - 1];
      assert events == init + [last];
      CountsAddUp(init, labels);
      CountsStep(init, last, labels);
    }
  }

  lemma {:induction false} NoEventsNoCounts(labels: seq<string>)
    ensures Sum(Counts([], labels)) == 0
  {
    if labels != [] {
      NoEventsNoCounts(labels[1..]);
    }
  }

  /**
   * `events ?? []`: a present list is charted as it is, an absent one like an
   * empty one, so `!events?.length` holds exactly when the result is empty.
   */
  function Listed(events: Option<seq<Event>>): (r: seq<Event>)
    ensures events.Some? ==> r == events.value
    ensures r == [] <==> events.None? || |events.value| == 0
  {
    if events.Some? then events.value else []
  }

  /**
   * `labels`, `dataPoints` and the "No data to display" test of `TrendChart`:
   * the observed years once each in ascending order, the count of each, and
   * the empty-chart branch exactly when there are no events.
   */
  method ChartSeries(events: Option<seq<Event>>) returns (labels: seq<string>, dataPoints: seq<nat>, noData: bool)
    ensures Sorted(labels)
    ensures forall year :: year in labels <==> year in Years(Listed(events))
    ensures |dataPoints| == |labels|
    ensures forall i :: 0 <= i < |labels| ==> dataPoints[i] == CountYear(Listed(events), labels[i]) && dataPoints[i] > 0
    ensures Sum(dataPoints) == |Listed(events)|
    ensures noData <==> Listed(events) == []
    ensures noData ==> labels == []
  {
    if events.None? {
      labels, dataPoints := [], [];
    } else {
      var yearData, keys := BucketByYear(events.value);
      labels := SortKeys(keys);
      dataPoints := seq(|labels|, i requires 0 <= i < |labels| => yearData[labels[i]]);
      forall i | 0 <= i < |labels| ensures dataPoints[i] > 0 {
        CountYearPositive(events.value, labels[i]);
      }
      assert Distinct(labels) by {
        forall i, j | 0 <= i < j < |labels| ensures labels[i] != labels[j] {
          LessIrreflexive(labels[i]);
        }
      }
      assert dataPoints == Counts(events.value, labels);
      CountsAddUp(events.value, labels);
    }
    noData := events.None? || |events.value| == 0;
  }

  /** Three reports received in 2021, 2021 and 2022. */
  const ExampleEvents: seq<Event> :=
    [Event("20210304", None, None), Event("20210101", None, None), Event("20220101", None, None)]

  lemma ExampleYears()
    ensures Years(ExampleEvents) == {"2021", "2022"}
  {
    var es := ExampleEvents;
    assert YearOf(es[0]) == "2021" && YearOf(es[1]) == "2021" && YearOf(es[2]) == "2022";
    var one, two := es[..1], es[..2];
    assert es[..|es| - 1] == two && two[..|two| - 1] == one && one[..|one| - 1] == [];
    assert one[0] == es[0] && two[1] == es[1];
    assert Years(one) == {"2021"};
    assert Years(two) == {"2021"};
  }

  lemma ExampleCounts()
    ensures CountYear(ExampleEvents, "2021") == 2 && CountYear(ExampleEvents, "2022") == 1
  {
    var es := ExampleEvents;
    assert YearOf(es[0]) == "2021" && YearOf(es[1]) == "2021" && YearOf(es[2]) == "2022";
    var one, two := es[..1], es[..2];
    assert es[..|es| - 1] == two && two[..|two| - 1] == one && one[..|one| - 1] == [];
    assert one[0] == es[0] && two[1] == es[1];
    assert CountYear(one, "2021") == 1 && CountYear(one, "2022") == 0;
    assert CountYear(two, "2021") == 2 && CountYear(two, "2022") == 0;
  }

  /** Report dates "20210304", "20210101" and "20220101" chart as 2021 with two events and 2022 with one. */
  lemma TwoYearExample(labels: seq<string>)
    requires Sorted(labels)
    requires forall year :: year in labels <==> year in Years(ExampleEvents)
    ensures labels == ["2021", "2022"]
    ensures Counts(ExampleEvents, labels) == [2, 1]
  {
    ExampleYears();
    ExampleCounts();
    var expected := ["2021", "2022"];
    assert Less(expected[0], expected[1]);
    assert forall year :: year in labels <==> year in expected;
    SortedUnique(labels, expected);
  }
}
