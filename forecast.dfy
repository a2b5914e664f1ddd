/**
 The forecast aggregation of the weather client: the raw feed of 3-hourly
 samples becomes an hourly window (the first eight samples) and a list of
 per-day summaries, one per calendar date, of which the first is dropped and
 the next three are kept.

 The calendar date of a sample is `dateOf(dt)`, a deterministic function of
 the sample's epoch seconds that stands for the browser's local-time
 `toLocaleDateString`.
 */
module Forecast {

  /** The first entry of a sample's `weather` array: the condition. */
  datatype Condition = Condition(id: int, main: string, description: string, icon: string)

  /** One entry of the forecast feed (`main.temp`, `weather[0]`, `pop`, `wind.speed`). */
  datatype Sample = Sample(dt: int, temp: real, weather: Condition, pop: real, windSpeed: real)

  /** The record kept per date while the feed is folded. */
  datatype DaySummary = DaySummary(dt: int, tempMin: real, tempMax: real, weather: Condition, pop: real, windSpeed: real)

  /** The record a date's first sample creates. */
  function Fresh(s: Sample): DaySummary
  {
    DaySummary(s.dt, s.temp, s.temp, s.weather, s.pop, s.windSpeed)
  }

  /**
   A later sample of the date updates its record: the temperature range
   and `pop` widen only on a strict comparison, the condition changes only
   to a strictly smaller id, and time and wind speed stay.
   */
  function Update(day: DaySummary, s: Sample): DaySummary
  {
    DaySummary(day.dt,
               if s.temp < day.tempMin then s.temp else day.tempMin,
               if s.temp > day.tempMax then s.temp else day.tempMax,
               if s.weather.id < day.weather.id then s.weather else day.weather,
               if s.pop > day.pop then s.pop else day.pop,
               day.windSpeed)
  }

  /** `Array.prototype.slice(start, end)` for non-negative arguments. */
  function Slice<T>(s: seq<T>, start: nat, end: nat): (r: seq<T>)
    ensures |r| == if end <= start || |s| <= start then 0
                   else (if end <= |s| then end else |s|) - start
    ensures forall i :: 0 <= i < |r| ==> r[i] == s[start + i]
  {
    var e := if end <= |s| then end else |s|;
    if e <= start then [] else s[start..e]
  }

  /** The hourly window: the next 24 hours of 3-hourly samples. */
  function HourlyWindow(list: seq<Sample>): (h: seq<Sample>)
    ensures |h| == if |list| < 8 then |list| else 8
    ensures forall i :: 0 <= i < |h| ==> h[i] == list[i]
  {
    Slice(list, 0, 8)
  }

  // ---------------------------------------------------------------------
  // Specification of the grouping: which samples belong to which date.
  // ---------------------------------------------------------------------

  /** The date key of every sample, in feed order. */
  function KeysOf(dateOf: int -> string, list: seq<Sample>): seq<string>
  {
    seq(|list|, i requires 0 <= i < |list| => dateOf(list[i].dt))
  }

  /** The feed positions whose key is `k`, in increasing order. */
  function Positions(ks: seq<string>, k: string): (ps: seq<nat>)
    ensures forall a :: 0 <= a < |ps| ==> ps[a] < |ks| && ks[ps[a]] == k
    ensures forall a, b :: 0 <= a < b < |ps| ==> ps[a] < ps[b]
    ensures forall i :: 0 <= i < |ks| && ks[i] == k ==> i in ps
    ensures |ps| > 0 <==> k in ks
  {
    if ks == [] then []
    else
      var p := ks[..|ks| - 1];
      var ps := Positions(p, k);
      assert forall i :: 0 <= i < |p| ==> ks[i] == p[i];
      assert forall x :: x in ks <==> x in p || x == ks[|ks| - 1] by {
        assert ks == p + [ks[|ks| - 1]];
      }
      if ks[|ks| - 1] == k then ps + [|ks| - 1] else ps
  }

  /** The position of the first sample whose key is `k`. */
  function FirstIndex(ks: seq<string>, k: string): (i: nat)
    requires k in ks
    ensures i < |ks| && ks[i] == k
    ensures forall j :: 0 <= j < i ==> ks[j] != k
  {
    if ks[0] == k then 0 else 1 + FirstIndex(ks[1..], k)
  }

  /** The keys of `ks`, each once, in the order of their first appearance. */
  function Distinct(ks: seq<string>): (d: seq<string>)
    ensures forall k :: k in d <==> k in ks
    ensures forall a, b :: 0 <= a < b < |d| ==> d[a] != d[b]
  {
    if ks == [] then []
    else
      var d := Distinct(ks[..|ks| - 1]);
      var k := ks[|ks| - 1];
      assert forall x :: x in ks <==> x in ks[..|ks| - 1] || x == k by {
        assert ks == ks[..|ks| - 1] + [k];
      }
      if k in d then d else d + [k]
  }

  /** The samples of date `k`, in feed order. */
  function DaySamples(dateOf: int -> string, list: seq<Sample>, k: string): seq<Sample>
  {
    var ps := Positions(KeysOf(dateOf, list), k);
    seq(|ps|, a requires 0 <= a < |ps| => list[ps[a]])
  }

  // ---------------------------------------------------------------------
  // Specification of one day's summary.
  // ---------------------------------------------------------------------

  function Temps(xs: seq<Sample>): seq<real>
  {
    seq(|xs|, i requires 0 <= i < |xs| => xs[i].temp)
  }

  function Pops(xs: seq<Sample>): seq<real>
  {
    seq(|xs|, i requires 0 <= i < |xs| => xs[i].pop)
  }

  function Minimum(s: seq<real>): (m: real)
    requires |s| > 0
    ensures m in s
    ensures forall x :: x in s ==> m <= x
  {
    if |s| == 1 then s[0]
    else
      var rest := Minimum(s[1..]);
      assert forall x :: x in s ==> x == s[0] || x in s[1..] by {
        assert s == [s[0]] + s[1..];
      }
      if s[0] <= rest then s[0] else rest
  }

  function Maximum(s: seq<real>): (m: real)
    requires |s| > 0
    ensures m in s
    ensures forall x :: x in s ==> x <= m
  {
    if |s| == 1 then s[0]
    else
      var rest := Maximum(s[1..]);
      assert forall x :: x in s ==> x == s[0] || x in s[1..] by {
        assert s == [s[0]] + s[1..];
      }
      if s[0] >= rest then s[0] else rest
  }

  /** The index of the earliest sample whose condition id is the smallest. */
  function Dominant(xs: seq<Sample>): (i: nat)
    requires |xs| > 0
    ensures i < |xs|
    ensures forall j :: 0 <= j < |xs| ==> xs[i].weather.id <= xs[j].weather.id
    ensures forall j :: 0 <= j < i ==> xs[j].weather.id > xs[i].weather.id
  {
    if |xs| == 1 then 0
    else
      var j := 1 + Dominant(xs[1..]);
      assert forall m :: 1 <= m < |xs| ==> xs[m] == xs[1..][m - 1];
      if xs[0].weather.id <= xs[j].weather.id then 0 else j
  }

  /**
   What one date's samples fold to: the lowest and highest temperature, the
   earliest condition of smallest id, the highest precipitation probability,
   and the time and wind speed of the day's first sample.
   */
  function Summarize(xs: seq<Sample>): (d: DaySummary)
    requires |xs| > 0
    ensures d.dt == xs[0].dt && d.windSpeed == xs[0].windSpeed
    ensures d.tempMin <= d.tempMax
    ensures forall i :: 0 <= i < |xs| ==>
              && d.tempMin <= xs[i].temp <= d.tempMax
              && xs[i].pop <= d.pop
              && d.weather.id <= xs[i].weather.id
  {
    var ts, qs := Temps(xs), Pops(xs);
    assert forall i :: 0 <= i < |xs| ==> ts[i] == xs[i].temp && ts[i] in ts && qs[i] == xs[i].pop && qs[i] in qs;
    DaySummary(xs[0].dt, Minimum(ts), Maximum(ts),
               xs[Dominant(xs)].weather, Maximum(qs), xs[0].windSpeed)
  }

  /** The grouped table, one summary per distinct date in order of first appearance. */
  function Days(dateOf: int -> string, list: seq<Sample>): (r: seq<DaySummary>)
    ensures |r| == |Distinct(KeysOf(dateOf, list))|
    ensures |r| > 0 <==> |list| > 0
  {
    assert |list| > 0 ==> KeysOf(dateOf, list)[0] in Distinct(KeysOf(dateOf, list));
    var d := Distinct(KeysOf(dateOf, list));
    seq(|d|, j requires 0 <= j < |d| => Summarize(DaySamples(dateOf, list, d[j])))
  }

  /** The exposed daily forecast: the grouped table without its first date, at most three days. */
  function DailyForecast(dateOf: int -> string, list: seq<Sample>): (r: seq<DaySummary>)
    ensures |r| == if |Days(dateOf, list)| <= 1 then 0
                   else if |Days(dateOf, list)| - 1 < 3 then |Days(dateOf, list)| - 1 else 3
    ensures forall j :: 0 <= j < |r| ==> r[j] == Days(dateOf, list)[j + 1]
  {
    Slice(Days(dateOf, list), 1, 4)
  }

  // ---------------------------------------------------------------------
  // The fold as the source runs it.
  // ---------------------------------------------------------------------

  /**
   The forecast block: the hourly window, then the grouping of the feed by
   date, then the grouped records in insertion order without the first, at
   most three.
   */
  method Aggregate(dateOf: int -> string, list: seq<Sample>) returns (hourly: seq<Sample>, daily: seq<DaySummary>)
    ensures hourly == HourlyWindow(list)
    ensures daily == DailyForecast(dateOf, list)
  {
    hourly := Slice(list, 0, 8);
    var days, order := GroupByDate(dateOf, list);
    TableIsDays(dateOf, list, days, order);
    daily := Slice(Values(days, order), 1, 4);
  }

  /**
   Walks the feed once, inserting a fresh record for an unseen date and
   otherwise updating that date's record in place; `order` is the key
   insertion order that `Object.values` follows.
   */
  method GroupByDate(dateOf: int -> string, list: seq<Sample>) returns (days: map<string, DaySummary>, order: seq<string>)
    ensures order == Distinct(KeysOf(dateOf, list))
    ensures forall k :: k in days <==> k in order
    ensures forall k :: k in days ==> Folded(dateOf, list, k, days[k])
  {
    days, order := map[], [];
    var i := 0;
    while i < |list|
      invariant 0 <= i <= |list|
      invariant Grouped(dateOf, list[..i], days, order)
    {
      var item := list[i];
      var date := dateOf(item.dt);
      ghost var p := list[..i];
      assert list[..i + 1] == p + [item];
      if date !in days {
        GroupedNew(dateOf, p, item, days, order);
        days := days[date := DaySummary(item.dt, item.temp, item.temp, item.weather, item.pop, item.windSpeed)];
        order := order + [date];
      } else {
        var day := days[date];
        GroupedNext(dateOf, p, item, days, order);
        if item.temp < day.tempMin { day := day.(tempMin := item.temp); }
        if item.temp > day.tempMax { day := day.(tempMax := item.temp); }
        if item.weather.id < day.weather.id { day := day.(weather := item.weather); }
        if item.pop > day.pop { day := day.(pop := item.pop); }
        days := days[date := day];
      }
      i := i + 1;
    }
    assert list[..i] == list;
  }

  /** `Object.values`: the records of `days` in key insertion order. */
  function Values(days: map<string, DaySummary>, order: seq<string>): (r: seq<DaySummary>)
    requires forall k :: k in order ==> k in days
    ensures |r| == |order|
    ensures forall j :: 0 <= j < |r| ==> r[j] == days[order[j]]
    ensures forall k :: k in order ==> days[k] in r
  {
    assert forall j :: 0 <= j < |order| ==> order[j] in days;
    var r := seq(|order|, j requires 0 <= j < |order| => days[order[j]]);
    assert forall k :: k in order ==> exists j :: 0 <= j < |order| && order[j] == k && r[j] == days[k];
    r
  }

  /** The table the loop ends with, read in insertion order, is the grouped table. */
  lemma TableIsDays(dateOf: int -> string, list: seq<Sample>, days: map<string, DaySummary>, order: seq<string>)
    requires order == Distinct(KeysOf(dateOf, list))
    requires forall k :: k in days <==> k in order
    requires forall k :: k in days ==> Folded(dateOf, list, k, days[k])
    ensures Values(days, order) == Days(dateOf, list)
  {
    var v, d := Values(days, order), Days(dateOf, list);
    assert |v| == |d|;
    forall j | 0 <= j < |v|
      ensures v[j] == d[j]
    {
      assert order[j] in days;
    }
  }

  /** The loop's table after the prefix `p`: insertion order, key set and records. */
  ghost predicate Grouped(dateOf: int -> string, p: seq<Sample>, days: map<string, DaySummary>, order: seq<string>)
  {
    && order == Distinct(KeysOf(dateOf, p))
    && (forall k :: k in days <==> k in order)
    && (forall k :: k in days ==> Folded(dateOf, p, k, days[k]))
  }

  /** A sample of an unseen date inserts a fresh record and appends its key. */
  lemma GroupedNew(dateOf: int -> string, p: seq<Sample>, s: Sample, days: map<string, DaySummary>, order: seq<string>)
    requires Grouped(dateOf, p, days, order) && dateOf(s.dt) !in days
    ensures Grouped(dateOf, p + [s], days[dateOf(s.dt) := Fresh(s)], order + [dateOf(s.dt)])
  {
    DistinctSnoc(dateOf, p, s);
    FirstSampleOfDay(dateOf, p, s);
    GroupedPut(dateOf, p, s, days, order, Fresh(s), order + [dateOf(s.dt)]);
  }

  /** A sample of a seen date updates that record alone, order unchanged. */
  lemma GroupedNext(dateOf: int -> string, p: seq<Sample>, s: Sample, days: map<string, DaySummary>, order: seq<string>)
    requires Grouped(dateOf, p, days, order) && dateOf(s.dt) in days
    ensures Grouped(dateOf, p + [s], days[dateOf(s.dt) := Update(days[dateOf(s.dt)], s)], order)
  {
    var day := days[dateOf(s.dt)];
    DistinctSnoc(dateOf, p, s);
    NextSampleOfDay(dateOf, p, s, day);
    GroupedPut(dateOf, p, s, days, order, Update(day, s), order);
  }

  /** Storing the new sample's date record keeps the table grouped, the other records untouched. */
  lemma GroupedPut(dateOf: int -> string, p: seq<Sample>, s: Sample, days: map<string, DaySummary>, order: seq<string>,
                   next: DaySummary, order': seq<string>)
    requires Grouped(dateOf, p, days, order)
    requires order' == Distinct(KeysOf(dateOf, p + [s]))
    requires forall k :: k in order' <==> k in order || k == dateOf(s.dt)
    requires Folded(dateOf, p + [s], dateOf(s.dt), next)
    ensures Grouped(dateOf, p + [s], days[dateOf(s.dt) := next], order')
  {
    var days' := days[dateOf(s.dt) := next];
    forall k | k in days' && k != dateOf(s.dt)
      ensures Folded(dateOf, p + [s], k, days'[k])
    {
      OtherDaySnoc(dateOf, p, s, k, days[k]);
    }
  }

  /** `day` is the summary of the samples of date `k` in `p`, of which there is at least one. */
  ghost predicate Folded(dateOf: int -> string, p: seq<Sample>, k: string, day: DaySummary)
  {
    |DaySamples(dateOf, p, k)| > 0 && day == Summarize(DaySamples(dateOf, p, k))
  }

  lemma DistinctSnoc(dateOf: int -> string, p: seq<Sample>, s: Sample)
    ensures var d, k := Distinct(KeysOf(dateOf, p)), dateOf(s.dt);
      Distinct(KeysOf(dateOf, p + [s])) == if k in d then d else d + [k]
  {
    var ks := KeysOf(dateOf, p + [s]);
    KeysSnoc(dateOf, p, s);
    assert ks[..|ks| - 1] == KeysOf(dateOf, p);
  }

  /** A sample changes nothing about the other dates. */
  lemma OtherDaySnoc(dateOf: int -> string, p: seq<Sample>, s: Sample, k: string, day: DaySummary)
    requires k != dateOf(s.dt) && Folded(dateOf, p, k, day)
    ensures Folded(dateOf, p + [s], k, day)
  {
    var xs := DaySamples(dateOf, p, k);
    DaySamplesSnoc(dateOf, p, s, k);
    assert xs + [] == xs;
    assert DaySamples(dateOf, p + [s], k) == xs;
  }

  /** The first sample of a date creates its record from that sample alone. */
  lemma FirstSampleOfDay(dateOf: int -> string, p: seq<Sample>, s: Sample)
    requires dateOf(s.dt) !in Distinct(KeysOf(dateOf, p))
    ensures Folded(dateOf, p + [s], dateOf(s.dt), Fresh(s))
  {
    var k := dateOf(s.dt);
    DaySamplesSnoc(dateOf, p, s, k);
    assert DaySamples(dateOf, p, k) == [];
    assert DaySamples(dateOf, p + [s], k) == [s];
    assert Temps([s]) == [s.temp];
    assert Pops([s]) == [s.pop];
  }

  /** A later sample of a date updates its record as the four conditional updates do. */
  lemma NextSampleOfDay(dateOf: int -> string, p: seq<Sample>, s: Sample, day: DaySummary)
    requires Folded(dateOf, p, dateOf(s.dt), day)
    ensures Folded(dateOf, p + [s], dateOf(s.dt), Update(day, s))
  {
    var k := dateOf(s.dt);
    DaySamplesSnoc(dateOf, p, s, k);
    SummarizeSnoc(DaySamples(dateOf, p, k), s);
  }

  lemma KeysSnoc(dateOf: int -> string, p: seq<Sample>, s: Sample)
    ensures KeysOf(dateOf, p + [s]) == KeysOf(dateOf, p) + [dateOf(s.dt)]
  {
  }

  lemma DaySamplesSnoc(dateOf: int -> string, p: seq<Sample>, s: Sample, k: string)
    ensures DaySamples(dateOf, p + [s], k) ==
              DaySamples(dateOf, p, k) + (if dateOf(s.dt) == k then [s] else [])
  {
    var ks := KeysOf(dateOf, p + [s]);
    KeysSnoc(dateOf, p, s);
    assert ks[..|ks| - 1] == KeysOf(dateOf, p);
  }

  /** Folding one more sample into a day's summary is the source's four conditional updates. */
  lemma SummarizeSnoc(xs: seq<Sample>, s: Sample)
    requires |xs| > 0
    ensures Summarize(xs + [s]) == Update(Summarize(xs), s)
  {
    var ys := xs + [s];
    assert Temps(ys) == Temps(xs) + [s.temp];
    assert Pops(ys) == Pops(xs) + [s.pop];
    MinimumSnoc(Temps(xs), s.temp);
    MaximumSnoc(Temps(xs), s.temp);
    MaximumSnoc(Pops(xs), s.pop);
    DominantSnoc(xs, s);
  }

  lemma MinimumSnoc(s: seq<real>, x: real)
    requires |s| > 0
    ensures Minimum(s + [x]) == if x < Minimum(s) then x else Minimum(s)
  {
    var t, m, mo := s + [x], Minimum(s + [x]), Minimum(s);
    assert t[|s|] == x;
    assert x in t;
    assert m <= x;
    assert mo in t;
    assert m <= mo;
    if m != x {
      assert m in s;
    }
  }

  lemma MaximumSnoc(s: seq<real>, x: real)
    requires |s| > 0
    ensures Maximum(s + [x]) == if x > Maximum(s) then x else Maximum(s)
  {
    var t, m, mo := s + [x], Maximum(s + [x]), Maximum(s);
    assert t[|s|] == x;
    assert x in t;
    assert m >= x;
    assert mo in t;
    assert m >= mo;
    if m != x {
      assert m in s;
    }
  }

  lemma DominantSnoc(xs: seq<Sample>, s: Sample)
    requires |xs| > 0
    ensures Dominant(xs + [s]) == if s.weather.id < xs[Dominant(xs)].weather.id then |xs| else Dominant(xs)
  {
    var ys := xs + [s];
    var c := if s.weather.id < xs[Dominant(xs)].weather.id then |xs| else Dominant(xs);
    DominantUnique(ys, c);
  }

  /** The earliest index of smallest id is determined by its two defining properties. */
  lemma DominantUnique(xs: seq<Sample>, c: nat)
    requires c < |xs|
    requires forall j :: 0 <= j < |xs| ==> xs[c].weather.id <= xs[j].weather.id
    requires forall j :: 0 <= j < c ==> xs[j].weather.id > xs[c].weather.id
    ensures Dominant(xs) == c
  {
  }
}

/** What the grouped table and the exposed daily forecast are, stated against the raw feed. */
module ForecastProperties {
  import opened Forecast

  /** The dates present in the feed. */
  function Dates(dateOf: int -> string, list: seq<Sample>): set<string>
  {
    set k | k in KeysOf(dateOf, list)
  }

  /** A sample of the feed lies on date `k`. */
  predicate OnDate(dateOf: int -> string, list: seq<Sample>, i: int, k: string)
  {
    0 <= i < |list| && dateOf(list[i].dt) == k
  }

  /** Record j of the grouped table is stamped with the j-th distinct date. */
  lemma DayDates(dateOf: int -> string, list: seq<Sample>)
    ensures forall j :: 0 <= j < |Days(dateOf, list)| ==>
              dateOf(Days(dateOf, list)[j].dt) == Distinct(KeysOf(dateOf, list))[j]
  {
    var ds, d := Days(dateOf, list), Distinct(KeysOf(dateOf, list));
    forall j | 0 <= j < |ds|
      ensures dateOf(ds[j].dt) == d[j]
    {
      FirstSampleOfDate(dateOf, list, d[j]);
    }
  }

  /**
   One record per distinct date: every record is the summary of the samples
   of its own date, every date of the feed has exactly one record, the
   records follow the order in which their dates first appear, and the
   first record is that of the feed's first sample.
   */
  lemma DaysGroupedByFirstAppearance(dateOf: int -> string, list: seq<Sample>)
    ensures |Days(dateOf, list)| == |Dates(dateOf, list)|
    ensures forall j :: 0 <= j < |Days(dateOf, list)| ==>
              && dateOf(Days(dateOf, list)[j].dt) in Dates(dateOf, list)
              && Days(dateOf, list)[j] == Summarize(DaySamples(dateOf, list, dateOf(Days(dateOf, list)[j].dt)))
    ensures forall k :: k in Dates(dateOf, list) ==>
              exists j :: 0 <= j < |Days(dateOf, list)| && dateOf(Days(dateOf, list)[j].dt) == k
    ensures forall a, b :: 0 <= a < b < |Days(dateOf, list)| ==>
              FirstIndex(KeysOf(dateOf, list), dateOf(Days(dateOf, list)[a].dt)) <
              FirstIndex(KeysOf(dateOf, list), dateOf(Days(dateOf, list)[b].dt))
    ensures |list| > 0 ==> |Days(dateOf, list)| > 0 && Days(dateOf, list)[0].dt == list[0].dt
  {
    DayDates(dateOf, list);
    DaysCoverDates(dateOf, list);
    DistinctOrder(KeysOf(dateOf, list));
    if |list| > 0 {
      var ks := KeysOf(dateOf, list);
      DistinctHead(ks);
      FirstSampleOfDate(dateOf, list, ks[0]);
      assert FirstIndex(ks, ks[0]) == 0;
    }
  }

  lemma DaysCoverDates(dateOf: int -> string, list: seq<Sample>)
    ensures |Days(dateOf, list)| == |Dates(dateOf, list)|
    ensures forall j :: 0 <= j < |Days(dateOf, list)| ==> dateOf(Days(dateOf, list)[j].dt) in Dates(dateOf, list)
    ensures forall k :: k in Dates(dateOf, list) ==>
              exists j :: 0 <= j < |Days(dateOf, list)| && dateOf(Days(dateOf, list)[j].dt) == k
  {
    DayDates(dateOf, list);
    var ks := KeysOf(dateOf, list);
    LabelsCover(dateOf, Days(dateOf, list), Distinct(ks), ks);
  }

  /**
   Records stamped one to one with the distinct keys of `ks` are as many as
   its key set, and every key has its record.
   */
  lemma LabelsCover(dateOf: int -> string, ds: seq<DaySummary>, d: seq<string>, ks: seq<string>)
    requires |ds| == |d|
    requires forall j :: 0 <= j < |ds| ==> dateOf(ds[j].dt) == d[j]
    requires forall k :: k in d <==> k in ks
    requires forall a, b :: 0 <= a < b < |d| ==> d[a] != d[b]
    ensures |ds| == |set x | x in ks|
    ensures forall j :: 0 <= j < |ds| ==> dateOf(ds[j].dt) in (set x | x in ks)
    ensures forall k :: k in ks ==> exists j :: 0 <= j < |ds| && dateOf(ds[j].dt) == k
  {
    DistinctCard(d);
    assert (set k | k in d) == (set x | x in ks);
    forall k | k in ks
      ensures exists j :: 0 <= j < |ds| && dateOf(ds[j].dt) == k
    {
      var j :| 0 <= j < |d| && d[j] == k;
      assert dateOf(ds[j].dt) == k;
    }
  }

  /** The samples of a present date start with its first sample. */
  lemma FirstSampleOfDate(dateOf: int -> string, list: seq<Sample>, k: string)
    requires k in KeysOf(dateOf, list)
    ensures |DaySamples(dateOf, list, k)| > 0
    ensures DaySamples(dateOf, list, k)[0] == list[FirstIndex(KeysOf(dateOf, list), k)]
  {
    var ks := KeysOf(dateOf, list);
    var ps, f := Positions(ks, k), FirstIndex(ks, k);
    assert f in ps;
  }

  /** The first distinct key is the first key. */
  lemma {:induction false} DistinctHead(ks: seq<string>)
    requires |ks| > 0
    ensures |Distinct(ks)| > 0 && Distinct(ks)[0] == ks[0]
  {
    var p := ks[..|ks| - 1];
    if |p| > 0 {
      DistinctHead(p);
      assert p[0] == ks[0];
    } else {
      assert Distinct(p) == [];
    }
  }

  /** Distinct lists keys in order of their first appearance. */
  lemma {:induction false} DistinctOrder(ks: seq<string>)
    ensures forall a, b :: 0 <= a < b < |Distinct(ks)| ==>
              FirstIndex(ks, Distinct(ks)[a]) < FirstIndex(ks, Distinct(ks)[b])
  {
    if ks != [] {
      var p, x := ks[..|ks| - 1], ks[|ks| - 1];
      assert ks == p + [x];
      DistinctOrder(p);
      var dp, d := Distinct(p), Distinct(ks);
      assert d == if x in dp then dp else dp + [x];
      forall a, b | 0 <= a < b < |d|
        ensures FirstIndex(ks, d[a]) < FirstIndex(ks, d[b])
      {
        assert d[a] == dp[a] && d[a] in p;
        FirstIndexSnoc(p, x, d[a]);
        if b < |dp| {
          assert d[b] == dp[b] && d[b] in p;
          FirstIndexSnoc(p, x, d[b]);
          assert FirstIndex(p, dp[a]) < FirstIndex(p, dp[b]);
        } else {
          assert d[b] == x && x !in p;
          var g := FirstIndex(ks, x);
          assert ks[|p|] == x;
          assert FirstIndex(p, d[a]) < |p| <= g;
        }
      }
    }
  }

  lemma FirstIndexSnoc(p: seq<string>, x: string, y: string)
    requires y in p
    ensures FirstIndex(p + [x], y) == FirstIndex(p, y)
  {
    var f, g := FirstIndex(p, y), FirstIndex(p + [x], y);
    assert (p + [x])[f] == y;
  }

  /** A list without repetitions has as many elements as its set. */
  lemma {:induction false} DistinctCard(d: seq<string>)
    requires forall a, b :: 0 <= a < b < |d| ==> d[a] != d[b]
    ensures |set k | k in d| == |d|
  {
    if d != [] {
      var p, x := d[..|d| - 1], d[|d| - 1];
      assert d == p + [x];
      DistinctCard(p);
      assert (set k | k in d) == (set k | k in p) + {x};
      assert x !in p;
    }
  }

  /**
   The summary of a date's samples holds the lowest and the highest
   temperature among them, so the lowest is at most the highest.
   */
  lemma DateTemperatureRange(dateOf: int -> string, list: seq<Sample>, k: string, d: DaySummary)
    requires k in KeysOf(dateOf, list) && d == Summarize(DaySamples(dateOf, list, k))
    ensures d.tempMin <= d.tempMax
    ensures forall i :: OnDate(dateOf, list, i, k) ==> d.tempMin <= list[i].temp <= d.tempMax
    ensures exists i :: OnDate(dateOf, list, i, k) && list[i].temp == d.tempMin
    ensures exists i :: OnDate(dateOf, list, i, k) && list[i].temp == d.tempMax
  {
    var ks := KeysOf(dateOf, list);
    var ps, xs := Positions(ks, k), DaySamples(dateOf, list, k);
    var ts := Temps(xs);
    forall i | OnDate(dateOf, list, i, k)
      ensures d.tempMin <= list[i].temp <= d.tempMax
    {
      assert ks[i] == k;
      var a :| 0 <= a < |ps| && ps[a] == i;
      assert ts[a] == list[i].temp && ts[a] in ts;
    }
    var a := Index(ts, d.tempMin);
    assert OnDate(dateOf, list, ps[a], k) && list[ps[a]].temp == d.tempMin;
    a := Index(ts, d.tempMax);
    assert OnDate(dateOf, list, ps[a], k) && list[ps[a]].temp == d.tempMax;
  }

  /** The summary of a date's samples holds their highest precipitation probability. */
  lemma DatePrecipitation(dateOf: int -> string, list: seq<Sample>, k: string, d: DaySummary)
    requires k in KeysOf(dateOf, list) && d == Summarize(DaySamples(dateOf, list, k))
    ensures forall i :: OnDate(dateOf, list, i, k) ==> list[i].pop <= d.pop
    ensures exists i :: OnDate(dateOf, list, i, k) && list[i].pop == d.pop
  {
    var ks := KeysOf(dateOf, list);
    var ps, xs := Positions(ks, k), DaySamples(dateOf, list, k);
    var qs := Pops(xs);
    forall i | OnDate(dateOf, list, i, k)
      ensures list[i].pop <= d.pop
    {
      assert ks[i] == k;
      var a :| 0 <= a < |ps| && ps[a] == i;
      assert qs[a] == list[i].pop && qs[a] in qs;
    }
    var a := Index(qs, d.pop);
    assert OnDate(dateOf, list, ps[a], k) && list[ps[a]].pop == d.pop;
  }

  /**
   The summary of a date's samples holds the condition of the earliest of
   them whose condition id is the smallest of the date.
   */
  lemma DateCondition(dateOf: int -> string, list: seq<Sample>, k: string, d: DaySummary)
    requires k in KeysOf(dateOf, list) && d == Summarize(DaySamples(dateOf, list, k))
    ensures forall i :: OnDate(dateOf, list, i, k) ==> d.weather.id <= list[i].weather.id
    ensures exists i :: OnDate(dateOf, list, i, k) && list[i].weather == d.weather &&
              forall i' :: 0 <= i' < i && OnDate(dateOf, list, i', k) ==> list[i'].weather.id > d.weather.id
  {
    DateConditionLowest(dateOf, list, k, d);
    var xs := DaySamples(dateOf, list, k);
    var iw := DateConditionEarliest(dateOf, list, k);
    assert d.weather == xs[Dominant(xs)].weather;
  }

  lemma DateConditionLowest(dateOf: int -> string, list: seq<Sample>, k: string, d: DaySummary)
    requires k in KeysOf(dateOf, list) && d == Summarize(DaySamples(dateOf, list, k))
    ensures forall i :: OnDate(dateOf, list, i, k) ==> d.weather.id <= list[i].weather.id
  {
    var ks := KeysOf(dateOf, list);
    var ps, xs := Positions(ks, k), DaySamples(dateOf, list, k);
    forall i | OnDate(dateOf, list, i, k)
      ensures d.weather.id <= list[i].weather.id
    {
      assert ks[i] == k;
      var a :| 0 <= a < |ps| && ps[a] == i;
      assert xs[a] == list[i];
    }
  }

  /**
   The dominant sample of a date sits at some feed position `iw` of that
   date, and every earlier sample of the date has a larger condition id.
   */
  lemma DateConditionEarliest(dateOf: int -> string, list: seq<Sample>, k: string) returns (iw: nat)
    requires k in KeysOf(dateOf, list)
    ensures OnDate(dateOf, list, iw, k)
    ensures list[iw] == DaySamples(dateOf, list, k)[Dominant(DaySamples(dateOf, list, k))]
    ensures forall i' :: 0 <= i' < iw && OnDate(dateOf, list, i', k) ==> list[i'].weather.id > list[iw].weather.id
  {
    var ks := KeysOf(dateOf, list);
    var ps, xs := Positions(ks, k), DaySamples(dateOf, list, k);
    var w := Dominant(xs);
    iw := ps[w];
    assert xs[w] == list[iw];
    forall i' | 0 <= i' < iw && OnDate(dateOf, list, i', k)
      ensures list[i'].weather.id > list[iw].weather.id
    {
      assert ks[i'] == k;
      var b := PositionRank(ks, k, i');
      assert b < w;
      assert xs[b] == list[i'];
    }
  }

  /** The rank among the positions of `k` of a position holding `k`. */
  lemma PositionRank(ks: seq<string>, k: string, i: nat) returns (b: nat)
    requires i < |ks| && ks[i] == k
    ensures b < |Positions(ks, k)| && Positions(ks, k)[b] == i
  {
    var ps := Positions(ks, k);
    assert i in ps;
    b :| 0 <= b < |ps| && ps[b] == i;
  }

  /** The summary of a date's samples keeps the time and wind speed of the date's first sample. */
  lemma DateFirstSample(dateOf: int -> string, list: seq<Sample>, k: string, d: DaySummary)
    requires k in KeysOf(dateOf, list) && d == Summarize(DaySamples(dateOf, list, k))
    ensures d.dt == list[FirstIndex(KeysOf(dateOf, list), k)].dt
    ensures d.windSpeed == list[FirstIndex(KeysOf(dateOf, list), k)].windSpeed
  {
    FirstSampleOfDate(dateOf, list, k);
  }

  /** A position at which `y` occurs in `s`. */
  function Index(s: seq<real>, y: real): (i: nat)
    requires y in s
    ensures i < |s| && s[i] == y
  {
    if s[0] == y then 0 else 1 + Index(s[1..], y)
  }

  /**
   The exposed daily forecast is the grouped table from its second record
   on, at most three records: min(3, D - 1) of them for D dates, none of
   them for the date of the feed's first sample, no date twice.
   */
  lemma DailyForecastShape(dateOf: int -> string, list: seq<Sample>)
    ensures |DailyForecast(dateOf, list)| ==
              var n := |Dates(dateOf, list)|; if n <= 1 then 0 else if n - 1 < 3 then n - 1 else 3
    ensures forall j :: 0 <= j < |DailyForecast(dateOf, list)| ==>
              DailyForecast(dateOf, list)[j] == Days(dateOf, list)[j + 1]
    ensures forall j :: 0 <= j < |DailyForecast(dateOf, list)| ==>
              |list| > 0 && dateOf(DailyForecast(dateOf, list)[j].dt) != dateOf(list[0].dt)
    ensures forall a, b :: 0 <= a < b < |DailyForecast(dateOf, list)| ==>
              dateOf(DailyForecast(dateOf, list)[a].dt) != dateOf(DailyForecast(dateOf, list)[b].dt)
  {
    DaysCoverDates(dateOf, list);
    DailyOmitsFirstDate(dateOf, list);
    DailyDatesDistinct(dateOf, list);
  }

  lemma DailyOmitsFirstDate(dateOf: int -> string, list: seq<Sample>)
    ensures forall j :: 0 <= j < |DailyForecast(dateOf, list)| ==>
              |list| > 0 && dateOf(DailyForecast(dateOf, list)[j].dt) != dateOf(list[0].dt)
  {
    DayDates(dateOf, list);
    var ds, ks := Days(dateOf, list), KeysOf(dateOf, list);
    var d, daily := Distinct(ks), DailyForecast(dateOf, list);
    forall j | 0 <= j < |daily|
      ensures |list| > 0 && dateOf(daily[j].dt) != dateOf(list[0].dt)
    {
      assert d[0] in ks;
      DistinctHead(ks);
      assert daily[j] == ds[j + 1] && dateOf(ds[j + 1].dt) == d[j + 1];
    }
  }

  lemma DailyDatesDistinct(dateOf: int -> string, list: seq<Sample>)
    ensures forall a, b :: 0 <= a < b < |DailyForecast(dateOf, list)| ==>
              dateOf(DailyForecast(dateOf, list)[a].dt) != dateOf(DailyForecast(dateOf, list)[b].dt)
  {
    DayDates(dateOf, list);
    SliceKeepsDistinctDates(dateOf, Days(dateOf, list), Distinct(KeysOf(dateOf, list)));
  }

  /** Records stamped with pairwise distinct dates stay so in any slice of them. */
  lemma SliceKeepsDistinctDates(dateOf: int -> string, ds: seq<DaySummary>, d: seq<string>)
    requires |ds| == |d|
    requires forall j :: 0 <= j < |ds| ==> dateOf(ds[j].dt) == d[j]
    requires forall a, b :: 0 <= a < b < |d| ==> d[a] != d[b]
    ensures forall a, b :: 0 <= a < b < |Slice(ds, 1, 4)| ==>
              dateOf(Slice(ds, 1, 4)[a].dt) != dateOf(Slice(ds, 1, 4)[b].dt)
  {
    var daily := Slice(ds, 1, 4);
    forall a, b | 0 <= a < b < |daily|
      ensures dateOf(daily[a].dt) != dateOf(daily[b].dt)
    {
      assert daily[a] == ds[a + 1] && daily[b] == ds[b + 1];
    }
  }

  /**
   A feed of sixteen 3-hourly samples over two dates, eight on each: the
   hourly window is the first date's eight samples and the daily forecast
   is the single record of the second date, stamped with its first sample.
   */
  lemma TwoDateFeed(dateOf: int -> string, list: seq<Sample>)
    requires |list| == 16
    requires forall i :: 0 <= i < 8 ==> dateOf(list[i].dt) == dateOf(list[0].dt)
    requires forall i :: 8 <= i < 16 ==> dateOf(list[i].dt) == dateOf(list[8].dt)
    requires dateOf(list[0].dt) != dateOf(list[8].dt)
    ensures HourlyWindow(list) == list[..8]
    ensures |DailyForecast(dateOf, list)| == 1
    ensures DailyForecast(dateOf, list)[0].dt == list[8].dt
  {
    var k0, k8 := dateOf(list[0].dt), dateOf(list[8].dt);
    TwoDates(dateOf, list);
    DailyForecastShape(dateOf, list);
    var daily := DailyForecast(dateOf, list);
    DaysGroupedByFirstAppearance(dateOf, list);
    var d := Days(dateOf, list)[1];
    assert daily[0] == d;
    assert dateOf(d.dt) == k8;
    assert d == Summarize(DaySamples(dateOf, list, k8));
    SecondDateStartsAtEight(dateOf, list);
    DateFirstSample(dateOf, list, k8, d);
  }

  /** The two-date feed has exactly its two dates. */
  lemma TwoDates(dateOf: int -> string, list: seq<Sample>)
    requires |list| == 16
    requires forall i :: 0 <= i < 8 ==> dateOf(list[i].dt) == dateOf(list[0].dt)
    requires forall i :: 8 <= i < 16 ==> dateOf(list[i].dt) == dateOf(list[8].dt)
    requires dateOf(list[0].dt) != dateOf(list[8].dt)
    ensures Dates(dateOf, list) == {dateOf(list[0].dt), dateOf(list[8].dt)}
    ensures |Dates(dateOf, list)| == 2
  {
    var ks := KeysOf(dateOf, list);
    var k0, k8 := dateOf(list[0].dt), dateOf(list[8].dt);
    assert ks[0] == k0 && ks[8] == k8;
    forall k | k in ks ensures k == k0 || k == k8 {
      var i :| 0 <= i < |ks| && ks[i] == k;
      assert OnDate(dateOf, list, i, k);
    }
  }

  /** In the two-date feed the second date first appears at sample eight. */
  lemma SecondDateStartsAtEight(dateOf: int -> string, list: seq<Sample>)
    requires |list| == 16
    requires forall i :: 0 <= i < 8 ==> dateOf(list[i].dt) == dateOf(list[0].dt)
    requires dateOf(list[0].dt) != dateOf(list[8].dt)
    ensures dateOf(list[8].dt) in KeysOf(dateOf, list)
    ensures FirstIndex(KeysOf(dateOf, list), dateOf(list[8].dt)) == 8
  {
    var ks, k8 := KeysOf(dateOf, list), dateOf(list[8].dt);
    assert ks[8] == k8;
    var f := FirstIndex(ks, k8);
    assert f <= 8;
    assert ks[f] == k8;
  }
}
