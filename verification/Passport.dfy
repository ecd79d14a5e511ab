/** The visit passport: one pass over a user's visits, many totals (handlers/user/passport.go). */
module VisitPassport {
  import opened Common

  datatype Place = Place(lat: real, lon: real)

  /** Days carry the parts the totals are kept by. */
  datatype Day = Day(year: int, month: int, date: int, weekday: int)

  datatype Visit = Visit(arcade: string, day: Day, place: Option<Place>, city: string)

  /** `None` selects all years. */
  type Selection = Option<int>

  predicate InSelection(v: Visit, sel: Selection) {
    sel.None? || v.day.year == sel.value
  }

  // ---------------------------------------------------------------------------------------------
  // Histograms
  // ---------------------------------------------------------------------------------------------

  /** How often each key occurs. */
  function Histogram<K(==)>(keys: seq<K>): map<K, nat> {
    map k <- keys :: multiset(keys)[k]
  }

  function Bump<K(==)>(h: map<K, nat>, k: K): map<K, nat> {
    h[k := (if k in h then h[k] else 0) + 1]
  }

  lemma HistogramAppend<K>(keys: seq<K>, k: K)
    ensures Histogram(keys + [k]) == Bump(Histogram(keys), k)
  {
    assert multiset(keys + [k]) == multiset(keys) + multiset{k};
    forall x ensures x in keys + [k] <==> x in keys || x == k {
    }
    forall x | x in keys + [k] ensures Histogram(keys + [k])[x] == Bump(Histogram(keys), k)[x] {
      if x !in keys {
        assert multiset(keys)[x] == 0;
      }
    }
  }

  ghost function Pick<K(!new)>(s: set<K>): (k: K)
    requires s != {}
    ensures k in s
  {
    var k :| k in s; k
  }

  ghost function Total<K(!new)>(h: map<K, nat>): nat {
    if h.Keys == {} then 0 else var k := Pick(h.Keys); h[k] + Total(h - {k})
  }

  /** The sum does not depend on the order in which the keys are taken. */
  lemma {:induction false} TotalTakes<K(!new)>(h: map<K, nat>, k: K)
    requires k in h
    ensures Total(h) == h[k] + Total(h - {k})
    decreases h
  {
    var first := Pick(h.Keys);
    if first != k {
      TotalTakes(h - {first}, k);
      TotalTakes(h - {k}, first);
      assert (h - {first}) - {k} == (h - {k}) - {first};
    }
  }

  lemma TotalBump<K(!new)>(h: map<K, nat>, k: K)
    ensures Total(Bump(h, k)) == Total(h) + 1
  {
    TotalTakes(Bump(h, k), k);
    if k in h {
      TotalTakes(h, k);
      assert Bump(h, k) - {k} == h - {k};
    } else {
      assert Bump(h, k) - {k} == h;
    }
  }

  /** A histogram adds up to the number of its entries. */
  lemma {:induction false} HistogramTotal<K(!new)>(keys: seq<K>)
    ensures Total(Histogram(keys)) == |keys|
  {
    if keys != [] {
      var rest, k := keys[..|keys| - 1], keys[|keys| - 1];
      assert keys == rest + [k];
      HistogramTotal(rest);
      HistogramAppend(rest, k);
      TotalBump(Histogram(rest), k);
    }
  }

  // ---------------------------------------------------------------------------------------------
  // What the totals mean
  // ---------------------------------------------------------------------------------------------

  function Selected(visits: seq<Visit>, sel: Selection): seq<Visit> {
    if visits == [] then []
    else
      var last := visits[|visits| - 1];
      Selected(visits[..|visits| - 1], sel) + if InSelection(last, sel) then [last] else []
  }

  /** The first visit to each arcade. */
  function Firsts(visits: seq<Visit>): seq<Visit> {
    if visits == [] then []
    else
      var rest, last := visits[..|visits| - 1], visits[|visits| - 1];
      Firsts(rest) + if last.arcade in Arcades(rest) then [] else [last]
  }

  function Arcades(visits: seq<Visit>): seq<string> {
    if visits == [] then [] else Arcades(visits[..|visits| - 1]) + [visits[|visits| - 1].arcade]
  }

  function Months(visits: seq<Visit>): seq<(int, int)> {
    if visits == [] then []
    else Months(visits[..|visits| - 1]) + [(visits[|visits| - 1].day.year, visits[|visits| - 1].day.month)]
  }

  function Weekdays(visits: seq<Visit>): seq<int> {
    if visits == [] then [] else Weekdays(visits[..|visits| - 1]) + [visits[|visits| - 1].day.weekday]
  }

  function Years(visits: seq<Visit>): seq<int> {
    if visits == [] then [] else Years(visits[..|visits| - 1]) + [visits[|visits| - 1].day.year]
  }

  /** The cities of the visits that have one. */
  function Cities(visits: seq<Visit>): seq<string> {
    if visits == [] then []
    else
      var last := visits[|visits| - 1];
      Cities(visits[..|visits| - 1]) + if last.city == "" then [] else [last.city]
  }

  /** How many visits have no city. */
  function Unplaced(visits: seq<Visit>): nat {
    if visits == [] then 0
    else Unplaced(visits[..|visits| - 1]) + if visits[|visits| - 1].city == "" then 1 else 0
  }

  function Leg(a: Visit, b: Visit, sel: Selection, dist: (Place, Place) -> real): real {
    if InSelection(a, sel) && InSelection(b, sel) && a.place.Some? && b.place.Some?
    then dist(a.place.value, b.place.value) else 0.0
  }

  /** The legs between consecutive located visits of the selection. */
  function Distance(visits: seq<Visit>, sel: Selection, dist: (Place, Place) -> real): real {
    var n := |visits|;
    if n < 2 then 0.0
    else Distance(visits[..n - 1], sel, dist) + Leg(visits[n - 2], visits[n - 1], sel, dist)
  }

  function Days(visits: seq<Visit>): set<Day> {
    set v <- visits :: v.day
  }

  function ArcadesOn(visits: seq<Visit>, d: Day): set<string> {
    set v <- visits | v.day == d :: v.arcade
  }

  function ByDay(visits: seq<Visit>): map<Day, set<string>> {
    map d <- Days(visits) :: ArcadesOn(visits, d)
  }

  function VisitYears(visits: seq<Visit>): set<int> {
    set v <- visits :: v.day.year
  }

  /** Counts over the selected visits. `stamps` holds the visits per arcade. */
  datatype Counts = Counts(visits: nat, stamps: map<string, nat>, months: map<(int, int), nat>,
                           weekdays: map<int, nat>, days: map<Day, set<string>>)

  /** Arcades visited for the first time ever. */
  datatype Discoveries = Discoveries(arcades: nat, byMonth: map<(int, int), nat>)

  /** Visits and distinct arcades per city; arcades without a city. */
  datatype CityCounts = CityCounts(visits: map<string, nat>, arcades: map<string, nat>, unclassified: nat)

  datatype Totals = Totals(counts: Counts, found: Discoveries, cities: CityCounts, years: set<int>, distance: real)

  function CountsOf(chosen: seq<Visit>): Counts {
    Counts(|chosen|, Histogram(Arcades(chosen)), Histogram(Months(chosen)), Histogram(Weekdays(chosen)), ByDay(chosen))
  }

  function DiscoveriesOf(visits: seq<Visit>, sel: Selection): Discoveries {
    var firsts := Selected(Firsts(visits), sel);
    Discoveries(|firsts|, Histogram(Months(firsts)))
  }

  function CitiesOf(chosen: seq<Visit>): CityCounts {
    var firsts := Firsts(chosen);
    CityCounts(Histogram(Cities(chosen)), Histogram(Cities(firsts)), Unplaced(firsts))
  }

  /** Every total by its own definition. */
  function Summary(visits: seq<Visit>, sel: Selection, dist: (Place, Place) -> real): Totals {
    var chosen := Selected(visits, sel);
    Totals(CountsOf(chosen), DiscoveriesOf(visits, sel), CitiesOf(chosen), VisitYears(visits),
        Distance(visits, sel, dist))
  }

  // ---------------------------------------------------------------------------------------------
  // The pass
  // ---------------------------------------------------------------------------------------------

  lemma SelectedAppend(rest: seq<Visit>, v: Visit, sel: Selection)
    ensures InSelection(v, sel) ==> Selected(rest + [v], sel) == Selected(rest, sel) + [v]
    ensures !InSelection(v, sel) ==> Selected(rest + [v], sel) == Selected(rest, sel)
  {
    assert (rest + [v])[..|rest|] == rest;
  }

  lemma FirstsAppend(rest: seq<Visit>, v: Visit)
    ensures v.arcade in Arcades(rest) ==> Firsts(rest + [v]) == Firsts(rest)
    ensures v.arcade !in Arcades(rest) ==> Firsts(rest + [v]) == Firsts(rest) + [v]
  {
    assert (rest + [v])[..|rest|] == rest;
  }

  lemma CitiesAppend(rest: seq<Visit>, v: Visit)
    ensures v.city == "" ==> Cities(rest + [v]) == Cities(rest) && Unplaced(rest + [v]) == Unplaced(rest) + 1
    ensures v.city != "" ==> Cities(rest + [v]) == Cities(rest) + [v.city] && Unplaced(rest + [v]) == Unplaced(rest)
  {
    assert (rest + [v])[..|rest|] == rest;
  }

  lemma KeysAppend(rest: seq<Visit>, v: Visit)
    ensures Arcades(rest + [v]) == Arcades(rest) + [v.arcade]
    ensures Months(rest + [v]) == Months(rest) + [(v.day.year, v.day.month)]
    ensures Weekdays(rest + [v]) == Weekdays(rest) + [v.day.weekday]
    ensures Years(rest + [v]) == Years(rest) + [v.day.year]
  {
    assert (rest + [v])[..|rest|] == rest;
  }

  lemma YearsAppend(rest: seq<Visit>, v: Visit)
    ensures VisitYears(rest + [v]) == VisitYears(rest) + {v.day.year}
  {
    forall x ensures x in rest + [v] <==> x in rest || x == v {
    }
  }

  /** The part of the loop that every visit reaches. */
  function WithLeg(t: Totals, v: Visit, leg: real): Totals {
    t.(years := t.years + {v.day.year}, distance := t.distance + leg)
  }

  /** The parts that only selected visits reach. */
  function MoreCounts(c: Counts, v: Visit): Counts {
    Counts(c.visits + 1, Bump(c.stamps, v.arcade), Bump(c.months, (v.day.year, v.day.month)),
           Bump(c.weekdays, v.day.weekday),
           c.days[v.day := (if v.day in c.days then c.days[v.day] else {}) + {v.arcade}])
  }

  function MoreDiscoveries(d: Discoveries, v: Visit): Discoveries {
    Discoveries(d.arcades + 1, Bump(d.byMonth, (v.day.year, v.day.month)))
  }

  function MoreCities(c: CityCounts, v: Visit, first: bool): CityCounts {
    if v.city != "" then
      CityCounts(Bump(c.visits, v.city), if first then Bump(c.arcades, v.city) else c.arcades, c.unclassified)
    else CityCounts(c.visits, c.arcades, if first then c.unclassified + 1 else c.unclassified)
  }

  function WithVisit(t: Totals, v: Visit, known: bool): Totals {
    t.(counts := MoreCounts(t.counts, v), found := if known then t.found else MoreDiscoveries(t.found, v),
       cities := MoreCities(t.cities, v, v.arcade !in t.counts.stamps))
  }

  /** handlers/user/passport.go's loop. `known` are the arcades with a stamp from any year. */
  method LoadPassport(visits: seq<Visit>, sel: Selection, dist: (Place, Place) -> real) returns (t: Totals)
    ensures t == Summary(visits, sel, dist)
  {
    hide Summary, Leg, WithVisit;
    t := Totals(Counts(0, map[], map[], map[], map[]), Discoveries(0, map[]), CityCounts(map[], map[], 0), {}, 0.0);
    var known: set<string> := {};
    var prev: Option<Place> := None;
    EmptySummary(sel, dist);
    for n := 0 to |visits|
      invariant t == Summary(visits[..n], sel, dist)
      invariant known == Known(visits[..n])
      invariant prev == Previous(visits, n, sel)
    {
      var v := visits[n];
      var exists_ := v.arcade in known;
      var selected := InSelection(v, sel);
      SummaryStep(visits, n, sel, dist);
      assert visits[..n + 1] == visits[..n] + [v];
      var leg := 0.0;
      if selected && v.place.Some? && prev.Some? {
        leg := dist(prev.value, v.place.value);
      }
      t := t.(years := t.years + {v.day.year}, distance := t.distance + leg);
      known := known + {v.arcade};
      prev := if selected then v.place else None;
      if !selected {
        continue;
      }
      t := AddVisit(t, v, exists_);
    }
    assert visits[..|visits|] == visits;
  }

  method AddVisit(t: Totals, v: Visit, known: bool) returns (r: Totals)
    ensures r == WithVisit(t, v, known)
  {
    var firstInPeriod := v.arcade !in t.counts.stamps;
    var month := (v.day.year, v.day.month);
    var day := (if v.day in t.counts.days then t.counts.days[v.day] else {}) + {v.arcade};
    var counts := Counts(t.counts.visits + 1, Bump(t.counts.stamps, v.arcade), Bump(t.counts.months, month),
                         Bump(t.counts.weekdays, v.day.weekday), t.counts.days[v.day := day]);
    r := t.(counts := counts);
    if !known {
      r := r.(found := Discoveries(t.found.arcades + 1, Bump(t.found.byMonth, month)));
    }
    var cities := t.cities;
    if v.city != "" {
      cities := cities.(visits := Bump(cities.visits, v.city));
      if firstInPeriod {
        cities := cities.(arcades := Bump(cities.arcades, v.city));
      }
    } else if firstInPeriod {
      cities := cities.(unclassified := cities.unclassified + 1);
    }
    r := r.(cities := cities);
  }

  function Known(visits: seq<Visit>): set<string> {
    set a <- Arcades(visits)
  }

  function Previous(visits: seq<Visit>, n: nat, sel: Selection): Option<Place>
    requires n <= |visits|
  {
    if n > 0 && InSelection(visits[n - 1], sel) then visits[n - 1].place else None
  }

  lemma EmptySummary(sel: Selection, dist: (Place, Place) -> real)
    ensures Summary([], sel, dist) ==
            Totals(Counts(0, map[], map[], map[], map[]), Discoveries(0, map[]), CityCounts(map[], map[], 0), {}, 0.0)
  {
  }

  /** The leg that visit `n` adds. */
  function NextLeg(visits: seq<Visit>, n: nat, sel: Selection, dist: (Place, Place) -> real): real
    requires n < |visits|
  {
    var v, prev := visits[n], Previous(visits, n, sel);
    if InSelection(v, sel) && v.place.Some? && prev.Some? then dist(prev.value, v.place.value) else 0.0
  }

  lemma SummaryStep(visits: seq<Visit>, n: nat, sel: Selection, dist: (Place, Place) -> real)
    requires n < |visits|
    ensures var rest, v := visits[..n], visits[n];
            && Known(rest + [v]) == Known(rest) + {v.arcade}
            && var t := WithLeg(Summary(rest, sel, dist), v, NextLeg(visits, n, sel, dist));
               Summary(rest + [v], sel, dist) == if InSelection(v, sel) then WithVisit(t, v, v.arcade in Known(rest))
                   else t
  {
    var rest, v := visits[..n], visits[n];
    DistanceStep(visits, n, sel, dist);
    assert visits[..n + 1] == rest + [v];
    KnownAppend(rest, v);
    SummaryDistance(rest, sel, dist);
    var leg := NextLeg(visits, n, sel, dist);
    hide *;
    if InSelection(v, sel) {
      AddedVisit(rest, v, sel, dist, leg);
    } else {
      SkippedVisit(rest, v, sel, dist, leg);
    }
  }

  lemma KnownAppend(rest: seq<Visit>, v: Visit)
    ensures Known(rest + [v]) == Known(rest) + {v.arcade}
  {
    KeysAppend(rest, v);
  }

  lemma SummaryDistance(visits: seq<Visit>, sel: Selection, dist: (Place, Place) -> real)
    ensures Summary(visits, sel, dist).distance == Distance(visits, sel, dist)
  {
  }

  lemma DistanceStep(visits: seq<Visit>, n: nat, sel: Selection, dist: (Place, Place) -> real)
    requires n < |visits|
    ensures Distance(visits[..n + 1], sel, dist) == Distance(visits[..n], sel, dist) + NextLeg(visits, n, sel, dist)
  {
    assert visits[..n + 1][..n] == visits[..n];
  }

  lemma SkippedVisit(rest: seq<Visit>, v: Visit, sel: Selection, dist: (Place, Place) -> real, leg: real)
    requires !InSelection(v, sel) && Distance(rest + [v], sel, dist) == Summary(rest, sel, dist).distance + leg
    ensures Summary(rest + [v], sel, dist) == WithLeg(Summary(rest, sel, dist), v, leg)
  {
    SelectedAppend(rest, v, sel);
    FirstsAppend(rest, v);
    SelectedAppend(Firsts(rest), v, sel);
    YearsAppend(rest, v);
    hide CountsOf, CitiesOf, Selected, Firsts, Distance, VisitYears, Histogram, Months;
  }

  lemma AddedVisit(rest: seq<Visit>, v: Visit, sel: Selection, dist: (Place, Place) -> real, leg: real)
    requires InSelection(v, sel) && Distance(rest + [v], sel, dist) == Summary(rest, sel, dist).distance + leg
    ensures Summary(rest + [v], sel, dist) ==
            WithVisit(WithLeg(Summary(rest, sel, dist), v, leg), v, v.arcade in Known(rest))
  {
    hide CountsOf, CitiesOf, DiscoveriesOf, MoreCounts, MoreDiscoveries, MoreCities, Selected, Distance, VisitYears,
        Known,
         Histogram, Arcades;
    var chosen := Selected(rest, sel);
    SelectedAppend(rest, v, sel);
    YearsAppend(rest, v);
    AddedToCounts(chosen, v);
    AddedToDiscoveries(rest, v, sel);
    AddedToCities(chosen, v);
    StampedArcade(chosen, v.arcade);
    KnownArcade(rest, v.arcade);
  }

  lemma AddedToCounts(chosen: seq<Visit>, v: Visit)
    ensures CountsOf(chosen + [v]) == MoreCounts(CountsOf(chosen), v)
  {
    KeysAppend(chosen, v);
    ByDayStep(chosen, v);
    HistogramAppend(Arcades(chosen), v.arcade);
    HistogramAppend(Months(chosen), (v.day.year, v.day.month));
    HistogramAppend(Weekdays(chosen), v.day.weekday);
    hide Histogram, Bump, ByDay, Months, Weekdays, Arcades;
  }

  lemma AddedToDiscoveries(rest: seq<Visit>, v: Visit, sel: Selection)
    requires InSelection(v, sel)
    ensures DiscoveriesOf(rest + [v], sel) ==
            if v.arcade in Arcades(rest) then DiscoveriesOf(rest, sel) else MoreDiscoveries(DiscoveriesOf(rest, sel), v)
  {
    var firsts := Selected(Firsts(rest), sel);
    FirstsAppend(rest, v);
    SelectedAppend(Firsts(rest), v, sel);
    KeysAppend(firsts, v);
    HistogramAppend(Months(firsts), (v.day.year, v.day.month));
    hide Histogram, Bump, Firsts, Selected, Months, Arcades;
  }

  lemma AddedToCities(chosen: seq<Visit>, v: Visit)
    ensures CitiesOf(chosen + [v]) == MoreCities(CitiesOf(chosen), v, v.arcade !in Arcades(chosen))
  {
    FirstsAppend(chosen, v);
    CitiesAppend(chosen, v);
    CitiesAppend(Firsts(chosen), v);
    HistogramAppend(Cities(chosen), v.city);
    HistogramAppend(Cities(Firsts(chosen)), v.city);
    hide Histogram, Bump, Firsts, Cities, Unplaced, Arcades;
  }

  lemma StampedArcade(chosen: seq<Visit>, a: string)
    ensures a in CountsOf(chosen).stamps <==> a in Arcades(chosen)
  {
  }

  lemma KnownArcade(rest: seq<Visit>, a: string)
    ensures a in Known(rest) <==> a in Arcades(rest)
  {
  }

  lemma ByDayStep(rest: seq<Visit>, v: Visit)
    ensures ByDay(rest + [v]) ==
            ByDay(rest)[v.day := (if v.day in ByDay(rest) then ByDay(rest)[v.day] else {}) + {v.arcade}]
  {
    DaysAppend(rest, v);
    forall d ensures ArcadesOn(rest + [v], d) == ArcadesOn(rest, d) + if d == v.day then {v.arcade} else {} {
      ArcadesOnAppend(rest, v, d);
    }
    var grown := ByDay(rest)[v.day := (if v.day in ByDay(rest) then ByDay(rest)[v.day] else {}) + {v.arcade}];
    assert ByDay(rest + [v]).Keys == grown.Keys;
    forall d <- grown.Keys ensures ByDay(rest + [v])[d] == grown[d] {
    }
  }

  lemma DaysAppend(rest: seq<Visit>, v: Visit)
    ensures Days(rest + [v]) == Days(rest) + {v.day}
    ensures v.day !in Days(rest) ==> ArcadesOn(rest, v.day) == {}
  {
    forall x ensures x in rest + [v] <==> x in rest || x == v {
    }
  }

  lemma ArcadesOnAppend(rest: seq<Visit>, v: Visit, d: Day)
    ensures ArcadesOn(rest + [v], d) == ArcadesOn(rest, d) + if d == v.day then {v.arcade} else {}
  {
    forall x ensures x in rest + [v] <==> x in rest || x == v {
    }
  }

  // ---------------------------------------------------------------------------------------------
  // The totals agree with each other
  // ---------------------------------------------------------------------------------------------

  lemma {:induction false} FirstsAreArcades(visits: seq<Visit>)
    ensures |Histogram(Arcades(visits))| == |Firsts(visits)|
  {
    if visits != [] {
      var rest, v := visits[..|visits| - 1], visits[|visits| - 1];
      assert visits == rest + [v];
      FirstsAreArcades(rest);
      KeysAppend(rest, v);
      FirstsAppend(rest, v);
      HistogramAppend(Arcades(rest), v.arcade);
      assert v.arcade in Histogram(Arcades(rest)) <==> v.arcade in Arcades(rest);
      hide Histogram, Firsts, Arcades;
      BumpSize(Histogram(Arcades(rest)), v.arcade);
    }
  }

  lemma BumpSize<K>(h: map<K, nat>, k: K)
    ensures |Bump(h, k)| == |h| + if k in h then 0 else 1
  {
    assert Bump(h, k).Keys == h.Keys + {k};
  }

  lemma {:induction false} CitySplit(visits: seq<Visit>)
    ensures |Cities(visits)| + Unplaced(visits) == |visits|
  {
    if visits != [] {
      CitySplit(visits[..|visits| - 1]);
    }
  }

  /** For every selection: months, weekdays and stamps each add up to the visits, cities and unplaced visits too;
      the arcades counted per city and the unclassified ones add up to the distinct arcades. */
  lemma TotalsAgree(visits: seq<Visit>, sel: Selection, dist: (Place, Place) -> real)
    ensures var s := Summary(visits, sel, dist);
            && Total(s.counts.months) == s.counts.visits
            && Total(s.counts.weekdays) == s.counts.visits
            && Total(s.counts.stamps) == s.counts.visits
            && Total(s.cities.visits) + Unplaced(Selected(visits, sel)) == s.counts.visits
            && Total(s.cities.arcades) + s.cities.unclassified == |s.counts.stamps|
            && Total(s.found.byMonth) == s.found.arcades
  {
    var chosen, found := Selected(visits, sel), Selected(Firsts(visits), sel);
    KeyCounts(chosen);
    KeyCounts(found);
    HistogramTotal(Months(chosen));
    HistogramTotal(Weekdays(chosen));
    HistogramTotal(Arcades(chosen));
    HistogramTotal(Months(found));
    HistogramTotal(Cities(chosen));
    HistogramTotal(Cities(Firsts(chosen)));
    CitySplit(chosen);
    CitySplit(Firsts(chosen));
    FirstsAreArcades(chosen);
    hide Total, Histogram, Selected, Firsts, Cities, Months, Weekdays, Arcades, Unplaced, ByDay;
  }

  lemma {:induction false} KeyCounts(visits: seq<Visit>)
    ensures |Months(visits)| == |Weekdays(visits)| == |Arcades(visits)| == |Years(visits)| == |visits|
  {
    if visits != [] {
      KeyCounts(visits[..|visits| - 1]);
    }
  }

  function Sizes(days: map<Day, set<string>>): map<Day, nat> {
    map d <- days :: |days[d]|
  }

  /** Stored visits are unique per arcade and day (the unique index on arcade_visit). */
  predicate OncePerDay(visits: seq<Visit>) {
    forall i, j :: 0 <= i < j < |visits| ==> visits[i].arcade != visits[j].arcade || visits[i].day != visits[j].day
  }

  lemma SizesStep(rest: seq<Visit>, v: Visit)
    ensures var known := v.day in ByDay(rest) && v.arcade in ByDay(rest)[v.day];
            Sizes(ByDay(rest + [v])) == if known then Sizes(ByDay(rest)) else Bump(Sizes(ByDay(rest)), v.day)
  {
    ByDayStep(rest, v);
    hide ByDay;
    var days := ByDay(rest);
    var on := if v.day in days then days[v.day] else {};
    assert v.arcade in on ==> on + {v.arcade} == on;
    assert v.arcade !in on ==> |on + {v.arcade}| == |on| + 1;
  }

  lemma KnownOnDay(rest: seq<Visit>, v: Visit)
    ensures (v.day in ByDay(rest) && v.arcade in ByDay(rest)[v.day]) <==>
            exists i :: 0 <= i < |rest| && rest[i].arcade == v.arcade && rest[i].day == v.day
  {
    if v.day in ByDay(rest) && v.arcade in ByDay(rest)[v.day] {
      var x :| x in rest && x.day == v.day && x.arcade == v.arcade;
    }
    if i :| 0 <= i < |rest| && rest[i].arcade == v.arcade && rest[i].day == v.day {
      assert rest[i] in rest;
      assert v.day in Days(rest);
      assert v.arcade in ArcadesOn(rest, v.day);
    }
  }

  /** The per-day arcade sets never hold more than the visits, and exactly as many when no arcade is visited
      twice on one day. */
  lemma {:induction false} DaysAgree(visits: seq<Visit>)
    ensures Total(Sizes(ByDay(visits))) <= |visits|
    ensures Total(Sizes(ByDay(visits))) == |visits| <==> OncePerDay(visits)
  {
    if visits == [] {
      assert Sizes(ByDay(visits)) == map[];
    } else {
      var rest, v := visits[..|visits| - 1], visits[|visits| - 1];
      assert visits == rest + [v];
      DaysAgree(rest);
      SizesStep(rest, v);
      KnownOnDay(rest, v);
      TotalBump(Sizes(ByDay(rest)), v.day);
      OncePerDayStep(rest, v);
      hide Total, Sizes, ByDay, OncePerDay, Bump;
    }
  }

  lemma OncePerDayStep(rest: seq<Visit>, v: Visit)
    ensures OncePerDay(rest + [v]) <==>
            OncePerDay(rest) && !exists i :: 0 <= i < |rest| && rest[i].arcade == v.arcade && rest[i].day == v.day
  {
    var all := rest + [v];
    assert forall i :: 0 <= i < |rest| ==> all[i] == rest[i];
    if OncePerDay(all) {
      forall i | 0 <= i < |rest| ensures rest[i].arcade != v.arcade || rest[i].day != v.day {
        assert all[|rest|] == v && all[i] == rest[i];
      }
      forall i, j | 0 <= i < j < |rest| ensures rest[i].arcade != rest[j].arcade || rest[i].day != rest[j].day {
        assert all[i] == rest[i] && all[j] == rest[j];
      }
    }
  }

  // ---------------------------------------------------------------------------------------------
  // Years add up to all time
  // ---------------------------------------------------------------------------------------------

  function PerYear(visits: seq<Visit>, years: set<int>): map<int, nat> {
    map y <- years :: |Selected(visits, Some(y))|
  }

  lemma {:induction false} ZeroTotal(h: map<int, nat>)
    requires forall k <- h :: h[k] == 0
    ensures Total(h) == 0
    decreases h
  {
    if h.Keys != {} {
      var k := Pick(h.Keys);
      TotalTakes(h, k);
      ZeroTotal(h - {k});
    }
  }

  lemma {:induction false} YearsPartition(visits: seq<Visit>, years: set<int>)
    requires VisitYears(visits) <= years
    ensures Total(PerYear(visits, years)) == |visits|
  {
    if visits == [] {
      ZeroTotal(PerYear(visits, years));
    } else {
      var rest, v := visits[..|visits| - 1], visits[|visits| - 1];
      assert visits == rest + [v];
      YearsAppend(rest, v);
      YearsPartition(rest, years);
      forall y <- years
        ensures PerYear(visits, years)[y] == PerYear(rest, years)[y] + if y == v.day.year then 1 else 0
      {
        SelectedAppend(rest, v, Some(y));
      }
      assert PerYear(visits, years) == Bump(PerYear(rest, years), v.day.year);
      TotalBump(PerYear(rest, years), v.day.year);
    }
  }

  lemma {:induction false} SelectedAll(visits: seq<Visit>)
    ensures Selected(visits, None) == visits
  {
    if visits != [] {
      SelectedAll(visits[..|visits| - 1]);
    }
  }

  lemma {:induction false} FirstsYears(visits: seq<Visit>)
    ensures VisitYears(Firsts(visits)) <= VisitYears(visits)
  {
    if visits != [] {
      var rest, v := visits[..|visits| - 1], visits[|visits| - 1];
      assert visits == rest + [v];
      FirstsYears(rest);
      FirstsAppend(rest, v);
      YearsAppend(rest, v);
      YearsAppend(Firsts(rest), v);
    }
  }

  /** Over the available years, the yearly visits add up to the visits of all time, and the yearly discoveries to
      its distinct arcades. */
  lemma YearsAgree(visits: seq<Visit>, dist: (Place, Place) -> real)
    ensures var all := Summary(visits, None, dist);
            && Total(map y <- all.years :: Summary(visits, Some(y), dist).counts.visits) == all.counts.visits
            && Total(map y <- all.years :: Summary(visits, Some(y), dist).found.arcades) == |all.counts.stamps|
  {
    var all := Summary(visits, None, dist);
    var years := VisitYears(visits);
    AllTime(visits, dist);
    YearsPartition(visits, years);
    FirstsYears(visits);
    YearsPartition(Firsts(visits), years);
    YearlyMaps(visits, years, dist);
    hide *;
  }

  lemma YearlyMaps(visits: seq<Visit>, years: set<int>, dist: (Place, Place) -> real)
    ensures (map y <- years :: Summary(visits, Some(y), dist).counts.visits) == PerYear(visits, years)
    ensures (map y <- years :: Summary(visits, Some(y), dist).found.arcades) == PerYear(Firsts(visits), years)
  {
    hide Summary, Selected, Firsts;
    forall y <- years {
      YearlyCounts(visits, y, dist);
    }
  }

  lemma YearlyCounts(visits: seq<Visit>, y: int, dist: (Place, Place) -> real)
    ensures Summary(visits, Some(y), dist).counts.visits == |Selected(visits, Some(y))|
    ensures Summary(visits, Some(y), dist).found.arcades == |Selected(Firsts(visits), Some(y))|
  {
    hide Selected, Firsts;
  }

  lemma AllTime(visits: seq<Visit>, dist: (Place, Place) -> real)
    ensures var all := Summary(visits, None, dist);
            all.years == VisitYears(visits) && all.counts.visits == |visits| && |all.counts.stamps| == |Firsts(visits)|
  {
    SelectedAll(visits);
    FirstsAreArcades(visits);
  }

  ghost function TotalReal(h: map<int, real>): real {
    if h.Keys == {} then 0.0 else var k := Pick(h.Keys); h[k] + TotalReal(h - {k})
  }

  lemma {:induction false} TotalRealTakes(h: map<int, real>, k: int)
    requires k in h
    ensures TotalReal(h) == h[k] + TotalReal(h - {k})
    decreases h
  {
    var first := Pick(h.Keys);
    if first != k {
      TotalRealTakes(h - {first}, k);
      TotalRealTakes(h - {k}, first);
      assert (h - {first}) - {k} == (h - {k}) - {first};
    }
  }

  lemma {:induction false} ZeroTotalReal(h: map<int, real>)
    requires forall k <- h :: h[k] == 0.0
    ensures TotalReal(h) == 0.0
    decreases h
  {
    if h.Keys != {} {
      var k := Pick(h.Keys);
      TotalRealTakes(h, k);
      ZeroTotalReal(h - {k});
    }
  }

  function PerYearDistance(visits: seq<Visit>, years: set<int>, dist: (Place, Place) -> real): map<int, real> {
    map y <- years :: Distance(visits, Some(y), dist)
  }

  /** The legs that no single year counts. */
  function CrossYearDistance(visits: seq<Visit>, dist: (Place, Place) -> real): real {
    var n := |visits|;
    if n < 2 then 0.0
    else CrossYearDistance(visits[..n - 1], dist)
         + if visits[n - 2].day.year == visits[n - 1].day.year then 0.0
             else Leg(visits[n - 2], visits[n - 1], None, dist)
  }

  lemma RaiseOne(h: map<int, real>, more: map<int, real>, k: int, d: real)
    requires k in h && more == h[k := h[k] + d]
    ensures TotalReal(more) == TotalReal(h) + d
  {
    TotalRealTakes(h, k);
    TotalRealTakes(more, k);
    assert more - {k} == h - {k};
  }

  /** One more leg counts for the year that both of its visits fall in, if there is one. */
  lemma YearlyLeg(visits: seq<Visit>, years: set<int>, dist: (Place, Place) -> real)
    requires |visits| >= 2
    ensures var n := |visits|;
            var a, b := visits[n - 2], visits[n - 1];
            var h, more := PerYearDistance(visits[..n - 1], years, dist), PerYearDistance(visits, years, dist);
            if a.day.year == b.day.year && a.day.year in years
            then a.day.year in h && more == h[a.day.year := h[a.day.year] + Leg(a, b, None, dist)]
            else more == h
  {
    var n := |visits|;
    forall y <- years {
      DistanceLast(visits, Some(y), dist);
    }
    hide Distance;
  }

  lemma DistanceLast(visits: seq<Visit>, sel: Selection, dist: (Place, Place) -> real)
    requires |visits| >= 2
    ensures var n := |visits|;
            Distance(visits, sel, dist)
            == Distance(visits[..n - 1], sel, dist) + Leg(visits[n - 2], visits[n - 1], sel, dist)
  {
    hide Leg;
  }

  lemma CrossLast(visits: seq<Visit>, dist: (Place, Place) -> real)
    requires |visits| >= 2
    ensures var n := |visits|;
            var a, b := visits[n - 2], visits[n - 1];
            CrossYearDistance(visits, dist) == CrossYearDistance(visits[..n - 1], dist)
              + if a.day.year == b.day.year then 0.0 else Leg(a, b, None, dist)
  {
    hide Leg;
  }

  lemma YearsOfRest(visits: seq<Visit>)
    requires visits != []
    ensures VisitYears(visits[..|visits| - 1]) <= VisitYears(visits)
    ensures visits[|visits| - 1].day.year in VisitYears(visits)
  {
    assert visits == visits[..|visits| - 1] + [visits[|visits| - 1]];
    YearsAppend(visits[..|visits| - 1], visits[|visits| - 1]);
  }

  lemma ShortDistances(visits: seq<Visit>, years: set<int>, dist: (Place, Place) -> real)
    requires |visits| < 2
    ensures TotalReal(PerYearDistance(visits, years, dist)) == 0.0
    ensures Distance(visits, None, dist) == CrossYearDistance(visits, dist) == 0.0
  {
    ZeroTotalReal(PerYearDistance(visits, years, dist));
  }

  /** All-time distance exceeds the sum over the years by exactly the legs that cross years. */
  lemma {:induction false} DistanceAgrees(visits: seq<Visit>, years: set<int>, dist: (Place, Place) -> real)
    requires VisitYears(visits) <= years
    ensures Distance(visits, None, dist) ==
            TotalReal(PerYearDistance(visits, years, dist)) + CrossYearDistance(visits, dist)
  {
    hide *;
    var n := |visits|;
    if n < 2 {
      ShortDistances(visits, years, dist);
    } else {
      var rest, a, b := visits[..n - 1], visits[n - 2], visits[n - 1];
      YearsOfRest(visits);
      DistanceAgrees(rest, years, dist);
      DistanceLast(visits, None, dist);
      CrossLast(visits, dist);
      YearlyLeg(visits, years, dist);
      if a.day.year == b.day.year {
        RaiseOne(PerYearDistance(rest, years, dist), PerYearDistance(visits, years, dist), a.day.year,
                 Leg(a, b, None, dist));
      }
    }
  }
}
