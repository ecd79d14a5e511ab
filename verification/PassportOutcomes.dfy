/** Every number of the visit passport as a number of visits (handlers/user/passport.go). */
module PassportOutcomes {
  import opened Common
  import opened VisitPassport

  /** What a number is about. */
  datatype Which = All | InMonth(year: int, month: int) | OnWeekday(weekday: int) | At(arcade: string)
                 | InCity(city: string)

  predicate About(v: Visit, which: Which) {
    match which
    case All => true
    case InMonth(year, month) => v.day.year == year && v.day.month == month
    case OnWeekday(weekday) => v.day.weekday == weekday
    case At(arcade) => v.arcade == arcade
    case InCity(city) => v.city == city
  }

  /** All visits of the selected year, those that discover an arcade, or the first ones of the year to each arcade. */
  datatype Mode = Every | Discovering | FirstOfYear

  predicate Chosen(v: Visit, sel: Selection) {
    sel == None || sel == Some(v.day.year)
  }

  ghost predicate Counts(visits: seq<Visit>, i: int, sel: Selection, which: Which, mode: Mode) {
    && 0 <= i < |visits| && Chosen(visits[i], sel) && About(visits[i], which)
    && match mode
       case Every => true
       case Discovering => forall j :: 0 <= j < i ==> visits[j].arcade != visits[i].arcade
       case FirstOfYear => forall j :: 0 <= j < i && Chosen(visits[j], sel) ==> visits[j].arcade != visits[i].arcade
  }

  ghost function Indices(visits: seq<Visit>, sel: Selection, which: Which, mode: Mode): set<int> {
    set i | 0 <= i < |visits| && Counts(visits, i, sel, which, mode)
  }

  /** How many visits count. */
  ghost function Number(visits: seq<Visit>, sel: Selection, which: Which, mode: Mode): nat {
    |Indices(visits, sel, which, mode)|
  }

  lemma CountsSame(rest: seq<Visit>, v: Visit, i: int, sel: Selection, which: Which, mode: Mode)
    requires 0 <= i < |rest|
    ensures Counts(rest + [v], i, sel, which, mode) == Counts(rest, i, sel, which, mode)
  {
    hide Chosen, About;
    assert forall j :: 0 <= j <= i ==> (rest + [v])[j] == rest[j];
  }

  lemma IndicesNext(rest: seq<Visit>, v: Visit, sel: Selection, which: Which, mode: Mode)
    ensures |rest| !in Indices(rest, sel, which, mode)
    ensures Indices(rest + [v], sel, which, mode)
         == Indices(rest, sel, which, mode) + if Counts(rest + [v], |rest|, sel, which, mode) then {|rest|} else {}
  {
    forall i | 0 <= i < |rest| {
      CountsSame(rest, v, i, sel, which, mode);
    }
    hide Counts;
  }

  lemma NumberNext(rest: seq<Visit>, v: Visit, sel: Selection, which: Which, mode: Mode)
    ensures Number(rest + [v], sel, which, mode) == Number(rest, sel, which, mode)
              + if Counts(rest + [v], |rest|, sel, which, mode) then 1 else 0
  {
    IndicesNext(rest, v, sel, which, mode);
    hide Indices, Counts;
  }

  /** The same number, from the keys of the visits. */
  function Tally(s: seq<Visit>, which: Which): nat {
    match which
    case All => |s|
    case InMonth(year, month) => multiset(Months(s))[(year, month)]
    case OnWeekday(weekday) => multiset(Weekdays(s))[weekday]
    case At(arcade) => multiset(Arcades(s))[arcade]
    case InCity(city) => if city == "" then Unplaced(s) else multiset(Cities(s))[city]
  }

  lemma OneMore<K>(keys: seq<K>, k: K, x: K)
    ensures multiset(keys + [k])[x] == multiset(keys)[x] + if x == k then 1 else 0
  {
  }

  lemma MonthNext(s: seq<Visit>, v: Visit, year: int, month: int)
    ensures Tally(s + [v], InMonth(year, month))
         == Tally(s, InMonth(year, month)) + if v.day.year == year && v.day.month == month then 1 else 0
  {
    hide Months;
    KeysAppend(s, v);
    OneMore(Months(s), (v.day.year, v.day.month), (year, month));
  }

  lemma WeekdayNext(s: seq<Visit>, v: Visit, weekday: int)
    ensures Tally(s + [v], OnWeekday(weekday))
         == Tally(s, OnWeekday(weekday)) + if v.day.weekday == weekday then 1 else 0
  {
    hide Weekdays;
    KeysAppend(s, v);
    OneMore(Weekdays(s), v.day.weekday, weekday);
  }

  lemma ArcadeNext(s: seq<Visit>, v: Visit, arcade: string)
    ensures Tally(s + [v], At(arcade)) == Tally(s, At(arcade)) + if v.arcade == arcade then 1 else 0
  {
    hide Arcades;
    KeysAppend(s, v);
    OneMore(Arcades(s), v.arcade, arcade);
  }

  lemma CityNext(s: seq<Visit>, v: Visit, city: string)
    ensures Tally(s + [v], InCity(city)) == Tally(s, InCity(city)) + if v.city == city then 1 else 0
  {
    hide Cities, Unplaced;
    CitiesAppend(s, v);
    OneMore(Cities(s), v.city, city);
  }

  lemma EachNext(s: seq<Visit>, v: Visit)
    ensures Tally(s + [v], All) == Tally(s, All) + 1
  {
  }

  lemma TallyNext(s: seq<Visit>, v: Visit, which: Which)
    ensures Tally(s + [v], which) == Tally(s, which) + if About(v, which) then 1 else 0
  {
    hide Tally;
    match which
    case All => EachNext(s, v);
    case InMonth(year, month) => MonthNext(s, v, year, month);
    case OnWeekday(weekday) => WeekdayNext(s, v, weekday);
    case At(arcade) => ArcadeNext(s, v, arcade);
    case InCity(city) => CityNext(s, v, city);
  }

  lemma ChosenIs(v: Visit, sel: Selection)
    ensures InSelection(v, sel) <==> Chosen(v, sel)
  {
  }

  lemma NoneYet(sel: Selection, which: Which, mode: Mode)
    ensures Number([], sel, which, mode) == 0 && Tally([], which) == 0
    ensures Selected([], sel) == Firsts([]) == []
  {
  }

  lemma LastEvery(rest: seq<Visit>, v: Visit, sel: Selection, which: Which)
    ensures Counts(rest + [v], |rest|, sel, which, Every) <==> Chosen(v, sel) && About(v, which)
  {
    hide Chosen, About;
  }

  lemma {:induction false} EveryNumber(visits: seq<Visit>, sel: Selection, which: Which)
    ensures Tally(Selected(visits, sel), which) == Number(visits, sel, which, Every)
  {
    hide *;
    if visits == [] {
      NoneYet(sel, which, Every);
    } else {
      var rest, v := visits[..|visits| - 1], visits[|visits| - 1];
      assert visits == rest + [v];
      EveryNumber(rest, sel, which);
      NumberNext(rest, v, sel, which, Every);
      LastEvery(rest, v, sel, which);
      ChosenIs(v, sel);
      SelectedAppend(rest, v, sel);
      TallyNext(Selected(rest, sel), v, which);
    }
  }

  lemma {:induction false} ArcadeKnown(visits: seq<Visit>, arcade: string)
    ensures arcade in Arcades(visits) <==> exists j :: 0 <= j < |visits| && visits[j].arcade == arcade
  {
    if visits != [] {
      ArcadeKnown(visits[..|visits| - 1], arcade);
    }
  }

  lemma LastDiscovering(rest: seq<Visit>, v: Visit, sel: Selection, which: Which)
    ensures Counts(rest + [v], |rest|, sel, which, Discovering) <==>
            Chosen(v, sel) && About(v, which) && v.arcade !in Arcades(rest)
  {
    ArcadeKnown(rest, v.arcade);
    hide Chosen, About, Arcades;
    var visits := rest + [v];
    assert visits[|rest|] == v && forall j :: 0 <= j < |rest| ==> visits[j] == rest[j];
  }

  lemma {:induction false} DiscoveringNumber(visits: seq<Visit>, sel: Selection, which: Which)
    ensures Tally(Selected(Firsts(visits), sel), which) == Number(visits, sel, which, Discovering)
  {
    hide *;
    NoneYet(sel, which, Discovering);
    if visits != [] {
      var rest, v := visits[..|visits| - 1], visits[|visits| - 1];
      assert visits == rest + [v];
      DiscoveringNumber(rest, sel, which);
      NumberNext(rest, v, sel, which, Discovering);
      LastDiscovering(rest, v, sel, which);
      ChosenIs(v, sel);
      FirstsAppend(rest, v);
      SelectedAppend(Firsts(rest), v, sel);
      TallyNext(Selected(Firsts(rest), sel), v, which);
    }
  }

  ghost predicate VisitedIn(visits: seq<Visit>, sel: Selection, arcade: string) {
    exists j :: 0 <= j < |visits| && Chosen(visits[j], sel) && visits[j].arcade == arcade
  }

  lemma VisitedNext(rest: seq<Visit>, v: Visit, sel: Selection, arcade: string)
    ensures VisitedIn(rest + [v], sel, arcade) <==>
            VisitedIn(rest, sel, arcade) || (Chosen(v, sel) && v.arcade == arcade)
  {
    hide Chosen;
    assert (rest + [v])[|rest|] == v && forall j :: 0 <= j < |rest| ==> (rest + [v])[j] == rest[j];
  }

  lemma {:induction false} ChosenKnown(visits: seq<Visit>, sel: Selection, arcade: string)
    ensures arcade in Arcades(Selected(visits, sel)) <==> VisitedIn(visits, sel, arcade)
  {
    if visits == [] {
      NoArcade(sel);
    } else {
      hide *;
      var rest, v := visits[..|visits| - 1], visits[|visits| - 1];
      assert visits == rest + [v];
      ChosenKnown(rest, sel, arcade);
      VisitedNext(rest, v, sel, arcade);
      ChosenIs(v, sel);
      SelectedAppend(rest, v, sel);
      KeysAppend(Selected(rest, sel), v);
    }
  }

  lemma NoArcade(sel: Selection)
    ensures Arcades(Selected([], sel)) == []
  {
  }

  lemma LastFirst(rest: seq<Visit>, v: Visit, sel: Selection, which: Which)
    ensures Counts(rest + [v], |rest|, sel, which, FirstOfYear) <==>
            Chosen(v, sel) && About(v, which) && v.arcade !in Arcades(Selected(rest, sel))
  {
    ChosenKnown(rest, sel, v.arcade);
    hide Chosen, About, Arcades, Selected;
    var visits := rest + [v];
    assert visits[|rest|] == v && forall j :: 0 <= j < |rest| ==> visits[j] == rest[j];
  }

  lemma {:induction false} FirstNumber(visits: seq<Visit>, sel: Selection, which: Which)
    ensures Tally(Firsts(Selected(visits, sel)), which) == Number(visits, sel, which, FirstOfYear)
  {
    hide *;
    NoneYet(sel, which, FirstOfYear);
    if visits != [] {
      var rest, v := visits[..|visits| - 1], visits[|visits| - 1];
      assert visits == rest + [v];
      FirstNumber(rest, sel, which);
      NumberNext(rest, v, sel, which, FirstOfYear);
      LastFirst(rest, v, sel, which);
      ChosenIs(v, sel);
      SelectedAppend(rest, v, sel);
      FirstsAppend(Selected(rest, sel), v);
      TallyNext(Firsts(Selected(rest, sel)), v, which);
    }
  }

  // ---------------------------------------------------------------------------------------------
  // The passport
  // ---------------------------------------------------------------------------------------------

  /** A table holds the numbers of the keys that occur. */
  ghost predicate Lists<K>(h: map<K, nat>, k: K, n: nat) {
    (k in h <==> n > 0) && (k in h ==> h[k] == n)
  }

  lemma HistogramLists<K>(keys: seq<K>, k: K)
    ensures Lists(Histogram(keys), k, multiset(keys)[k])
  {
  }

  /** For any year or all of them, the totals, the tables by month, weekday, arcade and city, and the discoveries are
      the numbers of the visits they are about. */
  lemma NumbersAre(visits: seq<Visit>, sel: Selection, dist: (Place, Place) -> real, year: int, month: int,
                   weekday: int, arcade: string, city: string)
    requires city != ""
    ensures var t := Summary(visits, sel, dist);
            && t.counts.visits == Number(visits, sel, All, Every)
            && Lists(t.counts.months, (year, month), Number(visits, sel, InMonth(year, month), Every))
            && Lists(t.counts.weekdays, weekday, Number(visits, sel, OnWeekday(weekday), Every))
            && Lists(t.counts.stamps, arcade, Number(visits, sel, At(arcade), Every))
            && t.found.arcades == Number(visits, sel, All, Discovering)
            && Lists(t.found.byMonth, (year, month), Number(visits, sel, InMonth(year, month), Discovering))
            && Lists(t.cities.visits, city, Number(visits, sel, InCity(city), Every))
            && Lists(t.cities.arcades, city, Number(visits, sel, InCity(city), FirstOfYear))
            && t.cities.unclassified == Number(visits, sel, InCity(""), FirstOfYear)
  {
    hide *;
    SummaryIs(visits, sel, dist);
    CountNumbers(visits, sel, year, month, weekday, arcade);
    FoundNumbers(visits, sel, year, month);
    CityNumbers(visits, sel, city);
  }

  lemma SummaryIs(visits: seq<Visit>, sel: Selection, dist: (Place, Place) -> real)
    ensures var t := Summary(visits, sel, dist);
            && t.counts == CountsOf(Selected(visits, sel)) && t.found == DiscoveriesOf(visits, sel)
            && t.cities == CitiesOf(Selected(visits, sel))
  {
    hide CountsOf, DiscoveriesOf, CitiesOf, Selected;
  }

  lemma CountNumbers(visits: seq<Visit>, sel: Selection, year: int, month: int, weekday: int, arcade: string)
    ensures var counts := CountsOf(Selected(visits, sel));
            && counts.visits == Number(visits, sel, All, Every)
            && Lists(counts.months, (year, month), Number(visits, sel, InMonth(year, month), Every))
            && Lists(counts.weekdays, weekday, Number(visits, sel, OnWeekday(weekday), Every))
            && Lists(counts.stamps, arcade, Number(visits, sel, At(arcade), Every))
  {
    var s := Selected(visits, sel);
    hide Selected, Number, Histogram, Months, Weekdays, Arcades, Lists, ByDay;
    EveryNumber(visits, sel, All);
    EveryNumber(visits, sel, InMonth(year, month));
    EveryNumber(visits, sel, OnWeekday(weekday));
    EveryNumber(visits, sel, At(arcade));
    HistogramLists(Months(s), (year, month));
    HistogramLists(Weekdays(s), weekday);
    HistogramLists(Arcades(s), arcade);
  }

  lemma FoundNumbers(visits: seq<Visit>, sel: Selection, year: int, month: int)
    ensures var found := DiscoveriesOf(visits, sel);
            && found.arcades == Number(visits, sel, All, Discovering)
            && Lists(found.byMonth, (year, month), Number(visits, sel, InMonth(year, month), Discovering))
  {
    hide Selected, Firsts, Number, Histogram, Months, Lists;
    DiscoveringNumber(visits, sel, All);
    DiscoveringNumber(visits, sel, InMonth(year, month));
    HistogramLists(Months(Selected(Firsts(visits), sel)), (year, month));
  }

  lemma CityNumbers(visits: seq<Visit>, sel: Selection, city: string)
    requires city != ""
    ensures var cities := CitiesOf(Selected(visits, sel));
            && Lists(cities.visits, city, Number(visits, sel, InCity(city), Every))
            && Lists(cities.arcades, city, Number(visits, sel, InCity(city), FirstOfYear))
            && cities.unclassified == Number(visits, sel, InCity(""), FirstOfYear)
  {
    var s := Selected(visits, sel);
    hide Selected, Firsts, Number, Histogram, Cities, Unplaced, Lists;
    EveryNumber(visits, sel, InCity(city));
    FirstNumber(visits, sel, InCity(city));
    FirstNumber(visits, sel, InCity(""));
    HistogramLists(Cities(s), city);
    HistogramLists(Cities(Firsts(s)), city);
  }

  /** The arcades of each day, and the years with visits. */
  lemma DaysAre(visits: seq<Visit>, sel: Selection, dist: (Place, Place) -> real, day: Day, arcade: string)
    ensures var t := Summary(visits, sel, dist);
            && (day in t.counts.days && arcade in t.counts.days[day] <==>
                exists i :: 0 <= i < |visits| && Chosen(visits[i], sel)
                            && visits[i].day == day && visits[i].arcade == arcade)
            && (day in t.counts.days <==>
                exists i :: 0 <= i < |visits| && Chosen(visits[i], sel) && visits[i].day == day)
            && forall y :: y in t.years <==> exists i :: 0 <= i < |visits| && visits[i].day.year == y
  {
    hide Histogram, Distance, CitiesOf, DiscoveriesOf;
    forall v: Visit ensures v in Selected(visits, sel) <==> v in visits && Chosen(v, sel) {
      SelectedHas(visits, sel, v);
    }
    hide Selected;
  }

  lemma {:induction false} SelectedHas(visits: seq<Visit>, sel: Selection, v: Visit)
    ensures v in Selected(visits, sel) <==> v in visits && Chosen(v, sel)
  {
    if visits != [] {
      var rest, last := visits[..|visits| - 1], visits[|visits| - 1];
      assert visits == rest + [last];
      SelectedHas(rest, sel, v);
    }
  }

  /** The distance adds up the legs from each visit to the next, if both are of the selected year and have a place. */
  ghost function LegsTo(visits: seq<Visit>, n: nat, sel: Selection, dist: (Place, Place) -> real): real
    requires n <= |visits|
  {
    if n < 2 then 0.0
    else
      var a, b := visits[n - 2], visits[n - 1];
      LegsTo(visits, n - 1, sel, dist)
      + if Chosen(a, sel) && Chosen(b, sel) && a.place.Some? && b.place.Some? then dist(a.place.value, b.place.value)
        else 0.0
  }

  lemma {:induction false} DistanceIs(visits: seq<Visit>, sel: Selection, dist: (Place, Place) -> real, n: nat)
    requires n <= |visits|
    ensures Summary(visits[..n], sel, dist).distance == LegsTo(visits, n, sel, dist)
  {
    hide CountsOf, DiscoveriesOf, CitiesOf, VisitYears, Selected;
    if n >= 2 {
      DistanceIs(visits, sel, dist, n - 1);
      assert visits[..n][..n - 1] == visits[..n - 1];
    }
  }
}
