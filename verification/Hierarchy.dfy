/** GeoNames sections and the cities that absorb them (passportcities/hierarchy.go).

    The two extracts are read line by line before this point: a place is a decoded `City`, a hierarchy line
    the list of its tab-separated fields. */
module PassportHierarchy {
  import opened Common

  datatype City = City(featureCode: string, sourceId: string, name: string, country: string, admin1: string,
                       aliases: seq<string>)

  predicate IsSection(c: City) {
    c.featureCode == "PPLX"
  }

  type Line = seq<string>

  predicate ValidLine(f: Line) {
    |f| >= 2 && f[0] != "" && f[1] != ""
  }

  // ---------------------------------------------------------------------------------------------
  // What the two extracts mean
  // ---------------------------------------------------------------------------------------------

  /** Places by id; a repeated id keeps its last occurrence. */
  function Index(places: seq<City>): (cities: map<string, City>)
    ensures forall id <- cities :: cities[id].sourceId == id
    ensures cities.Keys == set c <- places :: c.sourceId
  {
    if places == [] then map[]
    else
      var last := places[|places| - 1];
      Index(places[..|places| - 1])[last.sourceId := last]
  }

  /** The line records a parent for a section: both places are known and share country and subdivision. */
  predicate Attaches(cities: map<string, City>, f: Line) {
    && ValidLine(f)
    && f[1] in cities && f[0] in cities
    && IsSection(cities[f[1]])
    && cities[f[1]].country == cities[f[0]].country
    && cities[f[1]].admin1 == cities[f[0]].admin1
  }

  type Edges = set<(string, string)>

  /** The recorded (child, parent) pairs. */
  function Recorded(cities: map<string, City>, lines: seq<Line>): Edges {
    set f <- lines | Attaches(cities, f) :: (f[1], f[0])
  }

  ghost predicate IsPath(edges: Edges, path: seq<string>) {
    path != [] && forall k :: 0 <= k < |path| - 1 ==> (path[k], path[k + 1]) in edges
  }

  ghost predicate Reaches(edges: Edges, a: string, b: string) {
    exists path :: IsPath(edges, path) && path[0] == a && path[|path| - 1] == b
  }

  /** The cities that can be reached from `id` going up through sections. */
  ghost function RootsOf(cities: map<string, City>, edges: Edges, id: string): set<string> {
    set x | x in cities && !IsSection(cities[x]) && Reaches(edges, id, x)
  }

  lemma ReachesStep(edges: Edges, a: string, b: string, c: string)
    requires (a, b) in edges && Reaches(edges, b, c)
    ensures Reaches(edges, a, c)
  {
    var path :| IsPath(edges, path) && path[0] == b && path[|path| - 1] == c;
    assert IsPath(edges, [a] + path) by {
      forall k | 0 <= k < |path| ensures (([a] + path)[k], ([a] + path)[k + 1]) in edges {
      }
    }
    assert ([a] + path)[|path|] == c;
  }

  lemma ReachesSelf(edges: Edges, a: string)
    ensures Reaches(edges, a, a)
  {
    assert IsPath(edges, [a]);
  }

  /** A set that holds the start and is closed under the edges holds everything reachable. */
  lemma {:induction false} ClosedHoldsPath(edges: Edges, seen: set<string>, path: seq<string>)
    requires IsPath(edges, path) && path[0] in seen
    requires forall e <- edges :: e.0 in seen ==> e.1 in seen
    ensures path[|path| - 1] in seen
  {
    if |path| > 1 {
      assert (path[0], path[1]) in edges;
      assert IsPath(edges, path[1..]) by {
        forall k | 0 <= k < |path| - 2 ensures (path[1..][k], path[1..][k + 1]) in edges {
          assert (path[k + 1], path[k + 1 + 1]) in edges;
        }
      }
      ClosedHoldsPath(edges, seen, path[1..]);
    }
  }

  // ---------------------------------------------------------------------------------------------
  // The search
  // ---------------------------------------------------------------------------------------------

  /** The `roots` closure with the two maps it fills. */
  class RootSearch {
    const cities: map<string, City>
    const parents: map<string, seq<string>>
    ghost const edges: Edges
    var seen: set<string>
    var found: set<string>

    constructor (cities: map<string, City>, parents: map<string, seq<string>>, ghost edges: Edges)
      requires ParentLists(cities, parents, edges)
      ensures this.cities == cities && this.parents == parents && this.edges == edges
      ensures seen == {} && found == {}
    {
      this.cities, this.parents, this.edges := cities, parents, edges;
      seen, found := {}, {};
    }

    /** Terminates on every graph, cyclic ones included: each call that goes on marks a new place. */
    method Roots(id: string)
      requires ParentLists(cities, parents, edges) && id in cities && seen <= cities.Keys
      modifies this
      ensures id in seen && Explored(cities, edges, id, old(seen), old(found), seen, found, {})
      decreases cities.Keys - seen
    {
      hide *;
      if id in seen {
        NothingMarked(cities, edges, id, seen, found);
        return;
      }
      Marked(cities, parents, edges, id, seen, found);
      seen := seen + {id};
      if !IsSection(cities[id]) {
        found := found + {id};
        return;
      }
      var up := if id in parents then parents[id] else [];
      ghost var seen0, found0 := old(seen), old(found);
      for k := 0 to |up|
        invariant old(seen) < seen <= cities.Keys && id in seen
        invariant Explored(cities, edges, id, seen0, found0, seen, found, {id})
        invariant forall p <- up[..k] :: p in seen
      {
        assert up[k] in up;
        ghost var seen1, found1 := seen, found;
        Roots(up[k]);
        OneParent(cities, edges, id, up[k], seen0, found0, seen1, found1, seen, found);
      }
      assert up[..|up|] == up;
      AllParents(cities, parents, edges, id, up, seen0, found0, seen, found);
    }
  }

  /** What a search from `id` adds to the marks `seen` and the cities `found`: nothing but places that can be reached,
      all their parents except perhaps those of `open`, and every city among them. */
  ghost predicate Explored(cities: map<string, City>, edges: Edges, id: string, seen: set<string>, found: set<string>,
                           seen': set<string>, found': set<string>, open: set<string>) {
    && seen <= seen' <= cities.Keys
    && found' == found + (set x | x in seen' - seen && !IsSection(cities[x]))
    && (forall e <- edges :: e.0 in seen' - seen - open ==> e.1 in seen')
    && (forall x <- seen' - seen :: Reaches(edges, id, x))
  }

  lemma NothingMarked(cities: map<string, City>, edges: Edges, id: string, seen: set<string>, found: set<string>)
    requires seen <= cities.Keys
    ensures Explored(cities, edges, id, seen, found, seen, found, {})
  {
  }

  lemma Marked(cities: map<string, City>, parents: map<string, seq<string>>, edges: Edges, id: string,
               seen: set<string>, found: set<string>)
    requires ParentLists(cities, parents, edges) && id in cities && id !in seen && seen <= cities.Keys
    ensures if IsSection(cities[id])
            then (forall p <- (if id in parents then parents[id] else []) :: p in cities && (id, p) in edges)
                 && Explored(cities, edges, id, seen, found, seen + {id}, found, {id})
            else Explored(cities, edges, id, seen, found, seen + {id}, found + {id}, {})
  {
    ReachesSelf(edges, id);
  }

  lemma OneParent(cities: map<string, City>, edges: Edges, id: string, parent: string, seen: set<string>,
                  found: set<string>, seen1: set<string>, found1: set<string>, seen2: set<string>, found2: set<string>)
    requires Explored(cities, edges, id, seen, found, seen1, found1, {id}) && (id, parent) in edges
    requires Explored(cities, edges, parent, seen1, found1, seen2, found2, {})
    ensures Explored(cities, edges, id, seen, found, seen2, found2, {id}) && seen1 <= seen2 <= cities.Keys
  {
    hide IsSection, Reaches;
    forall x <- seen2 - seen1 ensures Reaches(edges, id, x) {
      ReachesStep(edges, id, parent, x);
    }
  }

  lemma AllParents(cities: map<string, City>, parents: map<string, seq<string>>, edges: Edges, id: string,
                   up: seq<string>, seen: set<string>, found: set<string>, seen': set<string>, found': set<string>)
    requires Explored(cities, edges, id, seen, found, seen', found', {id}) && ParentLists(cities, parents, edges)
    requires up == (if id in parents then parents[id] else []) && forall p <- up :: p in seen'
    ensures Explored(cities, edges, id, seen, found, seen', found', {})
  {
    hide IsSection, Reaches;
  }

  /** The adjacency lists hold the recorded pairs; pairs only lead from sections to known places. */
  ghost predicate ParentLists(cities: map<string, City>, parents: map<string, seq<string>>, edges: Edges) {
    && (forall c <- parents :: forall p <- parents[c] :: (c, p) in edges)
    && (forall e <- edges :: e.0 in parents && e.1 in parents[e.0])
    && (forall e <- edges :: e.0 in cities && IsSection(cities[e.0]) && e.1 in cities)
  }

  /** From a fresh start the search finds exactly the cities reachable through sections. */
  method FindRoots(cities: map<string, City>, parents: map<string, seq<string>>, ghost edges: Edges, id: string)
    returns (found: set<string>)
    requires ParentLists(cities, parents, edges) && id in cities
    ensures found == RootsOf(cities, edges, id)
  {
    var search := new RootSearch(cities, parents, edges);
    search.Roots(id);
    found := search.found;
    forall x | x in RootsOf(cities, edges, id) ensures x in found {
      var path :| IsPath(edges, path) && path[0] == id && path[|path| - 1] == x;
      ClosedHoldsPath(edges, search.seen, path);
    }
  }

  // ---------------------------------------------------------------------------------------------
  // Sorted alias lists
  // ---------------------------------------------------------------------------------------------

  /** Order of Go strings: bytewise, which for UTF-8 is code point by code point. */
  predicate Less(a: string, b: string) {
    if b == "" then false
    else if a == "" then true
    else a[0] < b[0] || (a[0] == b[0] && Less(a[1..], b[1..]))
  }

  lemma {:induction false} LessTransitive(a: string, b: string, c: string)
    requires Less(a, b) && Less(b, c)
    ensures Less(a, c)
  {
    if a != "" && a[0] == b[0] == c[0] {
      LessTransitive(a[1..], b[1..], c[1..]);
    }
  }

  lemma {:induction false} LessTotal(a: string, b: string)
    ensures a == b || Less(a, b) || Less(b, a)
    ensures !Less(a, a)
  {
    if a != "" && b != "" {
      LessTotal(a[1..], b[1..]);
      assert a == [a[0]] + a[1..] && b == [b[0]] + b[1..];
    } else if a != "" {
      LessTotal(a[1..], b);
    }
  }

  predicate Sorted(s: seq<string>) {
    forall i, j :: 0 <= i < j < |s| ==> Less(s[i], s[j])
  }

  function Elements(s: seq<string>): set<string> {
    set x <- s
  }

  /** A set has one sorted listing. */
  lemma {:induction false} SortedUnique(s: seq<string>, t: seq<string>)
    requires Sorted(s) && Sorted(t) && Elements(s) == Elements(t)
    ensures s == t
  {
    if s == [] {
      if t != [] {
        HeadIsElement(t);
        assert false;
      }
    } else {
      assert s[0] in Elements(t);
      assert t != [] && t[0] in Elements(s);
      SameHead(s, t);
      TailElements(s);
      TailElements(t);
      SortedUnique(s[1..], t[1..]);
      assert s == [s[0]] + s[1..] && t == [t[0]] + t[1..];
    }
  }

  lemma HeadIsElement(s: seq<string>)
    requires s != []
    ensures s[0] in Elements(s)
  {
  }

  lemma SameHead(s: seq<string>, t: seq<string>)
    requires Sorted(s) && Sorted(t) && s != [] && t != [] && s[0] in t && t[0] in s
    ensures s[0] == t[0]
  {
    if s[0] != t[0] {
      LessTransitive(s[0], t[0], s[0]);
      LessTotal(s[0], s[0]);
    }
  }

  lemma TailElements(s: seq<string>)
    requires Sorted(s) && s != []
    ensures Elements(s[1..]) == Elements(s) - {s[0]}
  {
    LessTotal(s[0], s[0]);
    forall x <- Elements(s) - {s[0]} ensures x in s[1..] {
      var k :| 0 <= k < |s| && s[k] == x;
      assert s[1..][k - 1] == x;
    }
  }

  /** Lists a set in order, as the map traversal followed by `sort.Strings` does. */
  method SortedList(names: set<string>) returns (list: seq<string>)
    ensures Sorted(list) && Elements(list) == names
  {
    list := [];
    var rest := names;
    while rest != {}
      invariant Sorted(list) && rest <= names && Elements(list) == names - rest
      decreases rest
    {
      var name :| name in rest;
      list := InsertSorted(list, name);
      rest := rest - {name};
    }
  }

  method InsertSorted(list: seq<string>, name: string) returns (r: seq<string>)
    requires Sorted(list) && name !in list
    ensures Sorted(r) && Elements(r) == Elements(list) + {name}
  {
    var k := 0;
    while k < |list| && Less(list[k], name)
      invariant k <= |list|
      invariant forall i :: 0 <= i < k ==> Less(list[i], name)
    {
      k := k + 1;
    }
    r := list[..k] + [name] + list[k..];
    if k < |list| {
      LessTotal(list[k], name);
      assert list[k] in list;
    }
    forall j | k <= j < |list| ensures Less(name, list[j]) {
      if k < j {
        LessTransitive(name, list[k], list[j]);
      }
    }
    forall x <- Elements(list) + {name} ensures x in r {
      if x in list {
        var i :| 0 <= i < |list| && list[i] == x;
        assert r[if i < k then i else i + 1] == x;
      } else {
        assert r[k] == name;
      }
    }
  }

  // ---------------------------------------------------------------------------------------------
  // The catalog
  // ---------------------------------------------------------------------------------------------

  predicate Blank(s: string) {
    forall c <- s :: IsSpace(c)
  }

  function NonBlank(names: seq<string>): set<string> {
    set n <- names | !Blank(n)
  }

  /** A section is absorbed by a city when that city is the only one it reaches. */
  ghost predicate AbsorbedBy(cities: map<string, City>, edges: Edges, section: string, city: string) {
    section in cities && IsSection(cities[section]) && RootsOf(cities, edges, section) == {city}
  }

  /** The names under which a city is found: its own and those of the sections it absorbs. */
  ghost function AliasesOf(cities: map<string, City>, edges: Edges, id: string): set<string>
    requires id in cities
  {
    NonBlank(cities[id].aliases) +
    set s, n | s in cities && AbsorbedBy(cities, edges, s, id)
        && n in NonBlank([cities[s].name] + cities[s].aliases) :: n
  }

  function CityIds(cities: map<string, City>, order: seq<string>): seq<string>
    requires forall id <- order :: id in cities
  {
    if order == [] then []
    else
      var last := order[|order| - 1];
      CityIds(cities, order[..|order| - 1]) + if IsSection(cities[last]) then [] else [last]
  }

  function Order(places: seq<City>): (ids: seq<string>)
    ensures |ids| == |places| && forall k :: 0 <= k < |places| ==> ids[k] == places[k].sourceId
  {
    seq(|places|, k requires 0 <= k < |places| => places[k].sourceId)
  }

  /** One emitted city: the place as read, with its alias set as a sorted list. */
  ghost predicate Emitted(cities: map<string, City>, edges: Edges, id: string, c: City) {
    && id in cities
    && c == cities[id].(aliases := c.aliases)
    && Sorted(c.aliases) && Elements(c.aliases) == AliasesOf(cities, edges, id)
  }

  ghost predicate IsCatalog(cities: map<string, City>, edges: Edges, ids: seq<string>, out: seq<City>) {
    |out| == |ids| && forall k :: 0 <= k < |ids| ==> Emitted(cities, edges, ids[k], out[k])
  }

  datatype Reading = Catalog(cities: seq<City>) | InvalidLine(number: nat)

  /** The whole import. It fails at the first malformed hierarchy line, and otherwise emits the cities in
      reading order with exactly the aliases that are theirs. */
  method ReadCatalog(places: seq<City>, lines: seq<Line>) returns (r: Reading)
    ensures r.InvalidLine? <==> exists f <- lines :: !ValidLine(f)
    ensures r.InvalidLine? ==> 1 <= r.number <= |lines| && !ValidLine(lines[r.number - 1])
                               && forall f <- lines[..r.number - 1] :: ValidLine(f)
    ensures r.Catalog? ==> var cities := Index(places);
                           forall id <- Order(places) :: id in cities
    ensures r.Catalog? ==> var cities := Index(places);
                           IsCatalog(cities, Recorded(cities, lines), CityIds(cities, Order(places)), r.cities)
  {
    var cities, order := ReadPlaces(places);
    var parents := map[];
    ghost var base := cities;
    for n := 0 to |lines|
      invariant forall f <- lines[..n] :: ValidLine(f)
      invariant ParentLists(base, parents, Recorded(base, lines[..n]))
    {
      var f := lines[n];
      assert lines[..n + 1] == lines[..n] + [f];
      if |f| < 2 || f[0] == "" || f[1] == "" {
        assert f in lines;
        return InvalidLine(n + 1);
      }
      RecordedMore(base, lines[..n], f);
      hide ParentLists, Recorded, Attaches;
      parents := Attach(cities, parents, f, Recorded(base, lines[..n]));
    }
    assert lines[..|lines|] == lines;
    ghost var edges := Recorded(base, lines);
    cities := AbsorbSections(cities, parents, edges, order);
    var out := Emit(base, edges, cities, order);
    return Catalog(out);
  }

  /** Adds one parent to a section's list. */
  method Attach(cities: map<string, City>, parents: map<string, seq<string>>, f: Line, ghost edges: Edges)
    returns (r: map<string, seq<string>>)
    requires ParentLists(cities, parents, edges) && ValidLine(f)
    ensures ParentLists(cities, r, edges + if Attaches(cities, f) then {(f[1], f[0])} else {})
  {
    r := parents;
    if f[1] in cities && f[0] in cities {
      var child, parent := cities[f[1]], cities[f[0]];
      if child.featureCode == "PPLX" && child.country == parent.country && child.admin1 == parent.admin1 {
        r := parents[f[1] := (if f[1] in parents then parents[f[1]] else []) + [f[0]]];
      }
    }
  }

  lemma RecordedMore(cities: map<string, City>, lines: seq<Line>, f: Line)
    ensures Recorded(cities, lines + [f])
         == Recorded(cities, lines) + if Attaches(cities, f) then {(f[1], f[0])} else {}
  {
    forall e | e in Recorded(cities, lines) + (if Attaches(cities, f) then {(f[1], f[0])} else {})
      ensures e in Recorded(cities, lines + [f])
    {
      if e in Recorded(cities, lines) {
        var g :| g in lines && Attaches(cities, g) && e == (g[1], g[0]);
        assert g in lines + [f];
      } else {
        assert f in lines + [f];
      }
    }
  }

  method ReadPlaces(places: seq<City>) returns (cities: map<string, City>, order: seq<string>)
    ensures cities == Index(places) && order == Order(places)
    ensures forall id <- order :: id in cities
    ensures Elements(order) == cities.Keys
  {
    cities, order := map[], [];
    for k := 0 to |places|
      invariant cities == Index(places[..k]) && order == Order(places[..k])
    {
      assert places[..k + 1][..k] == places[..k];
      cities := cities[places[k].sourceId := places[k]];
      order := order + [places[k].sourceId];
    }
    assert places[..|places|] == places;
    forall id <- cities.Keys ensures id in order {
      var c :| c in places && c.sourceId == id;
      var k :| 0 <= k < |places| && places[k] == c;
      assert order[k] == id;
    }
  }

  /** Names gathered so far by city `id`, after the sections in `done` were handled. */
  ghost function Gathered(cities: map<string, City>, edges: Edges, done: set<string>, id: string): set<string>
    requires id in cities
  {
    NonBlank(cities[id].aliases) +
    set s, n | s in done && AbsorbedBy(cities, edges, s, id) && n in NonBlank([cities[s].name] + cities[s].aliases) :: n
  }

  /** The working copy: only the alias lists of cities have grown. */
  ghost predicate Gathering(base: map<string, City>, edges: Edges, done: set<string>, cities: map<string, City>) {
    && cities.Keys == base.Keys
    && forall id <- base ::
         && cities[id] == base[id].(aliases := cities[id].aliases)
         && (IsSection(base[id]) ==> cities[id] == base[id])
         && (!IsSection(base[id]) ==> NonBlank(cities[id].aliases) == Gathered(base, edges, done, id))
  }

  method AbsorbSections(base: map<string, City>, parents: map<string, seq<string>>, ghost edges: Edges,
                        order: seq<string>)
    returns (cities: map<string, City>)
    requires ParentLists(base, parents, edges)
    requires Elements(order) == base.Keys
    ensures Gathering(base, edges, base.Keys, cities)
  {
    cities := base;
    for k := 0 to |order|
      invariant Gathering(base, edges, Elements(order[..k]), cities)
    {
      var id := order[k];
      assert id in Elements(order);
      ghost var done := Elements(order[..k]);
      assert Elements(order[..k + 1]) == done + {id} by { assert order[..k + 1] == order[..k] + [id]; }
      var child := cities[id];
      if child.featureCode != "PPLX" {
        NothingAbsorbed(base, edges, done, cities, id);
        continue;
      }
      assert ParentLists(cities, parents, edges);
      var found := FindRoots(cities, parents, edges, id);
      assert found == RootsOf(base, edges, id);
      if |found| != 1 {
        NothingAbsorbed(base, edges, done, cities, id);
        continue;
      }
      var parentId :| parentId in found;
      SingleElement(found, parentId);
      var parent := cities[parentId];
      ghost var before := cities;
      cities := cities[parentId := parent.(aliases := parent.aliases + [child.name] + child.aliases)];
      SectionAbsorbed(base, edges, done, before, id, parentId);
    }
    assert order[..|order|] == order;
  }

  lemma SingleElement(s: set<string>, x: string)
    requires |s| == 1 && x in s
    ensures s == {x}
  {
    assert |s - {x}| == 0;
  }

  lemma NothingAbsorbed(base: map<string, City>, edges: Edges, done: set<string>, cities: map<string, City>, id: string)
    requires Gathering(base, edges, done, cities) && id in base
    requires !IsSection(base[id]) || |RootsOf(base, edges, id)| != 1
    ensures Gathering(base, edges, done + {id}, cities)
  {
    hide Gathered, NonBlank, RootsOf;
    forall c <- base {
      SameGathered(base, edges, done, id, c);
    }
  }

  lemma SameGathered(base: map<string, City>, edges: Edges, done: set<string>, id: string, c: string)
    requires c in base && !AbsorbedBy(base, edges, id, c)
    ensures Gathered(base, edges, done + {id}, c) == Gathered(base, edges, done, c)
  {
    hide AbsorbedBy, NonBlank;
  }

  lemma SectionAbsorbed(base: map<string, City>, edges: Edges, done: set<string>, cities: map<string, City>,
                        id: string, city: string)
    requires Gathering(base, edges, done, cities) && id in base && IsSection(base[id])
    requires RootsOf(base, edges, id) == {city}
    ensures city in cities
    ensures var grown := cities[city].(aliases := cities[city].aliases + [base[id].name] + base[id].aliases);
            Gathering(base, edges, done + {id}, cities[city := grown])
  {
    assert city in RootsOf(base, edges, id);
    var names := [base[id].name] + base[id].aliases;
    var old_ := cities[city].aliases;
    var grown := cities[city].(aliases := old_ + [base[id].name] + base[id].aliases);
    assert grown.aliases == old_ + names;
    NonBlankJoin(old_, names);
    var after := cities[city := grown];
    hide RootsOf, Gathered, NonBlank;
    forall c <- base
      ensures after[c] == base[c].(aliases := after[c].aliases)
      ensures IsSection(base[c]) ==> after[c] == base[c]
      ensures !IsSection(base[c]) ==> NonBlank(after[c].aliases) == Gathered(base, edges, done + {id}, c)
    {
      GatheredMore(base, edges, done, id, city, c);
    }
  }

  lemma GatheredMore(base: map<string, City>, edges: Edges, done: set<string>, id: string, city: string, c: string)
    requires id in base && IsSection(base[id]) && RootsOf(base, edges, id) == {city} && c in base
    ensures !IsSection(base[city])
    ensures Gathered(base, edges, done + {id}, c) ==
            Gathered(base, edges, done, c) + if c == city then NonBlank([base[id].name] + base[id].aliases) else {}
  {
    assert city in RootsOf(base, edges, id);
    assert AbsorbedBy(base, edges, id, c) <==> c == city;
    hide RootsOf, NonBlank;
    var names := NonBlank([base[id].name] + base[id].aliases);
    forall n | n in names && c == city ensures n in Gathered(base, edges, done + {id}, c) {
      assert id in done + {id};
    }
  }

  lemma NonBlankJoin(a: seq<string>, b: seq<string>)
    ensures NonBlank(a + b) == NonBlank(a) + NonBlank(b)
  {
    forall x <- NonBlank(a) + NonBlank(b) ensures x in a + b {
      if x in a {
        var k :| 0 <= k < |a| && a[k] == x;
        assert (a + b)[k] == x;
      } else {
        var k :| 0 <= k < |b| && b[k] == x;
        assert (a + b)[|a| + k] == x;
      }
    }
  }

  method Emit(ghost base: map<string, City>, ghost edges: Edges, cities: map<string, City>, order: seq<string>)
    returns (out: seq<City>)
    requires Gathering(base, edges, base.Keys, cities)
    requires forall id <- order :: id in base
    ensures IsCatalog(base, edges, CityIds(base, order), out)
  {
    out := [];
    for k := 0 to |order|
      invariant forall id <- order[..k] :: id in base
      invariant IsCatalog(base, edges, CityIds(base, order[..k]), out)
    {
      var id := order[k];
      assert order[..k + 1][..k] == order[..k];
      assert forall i <- order[..k + 1] :: i in order;
      var c := cities[id];
      if c.featureCode == "PPLX" {
        continue;
      }
      var unique := set alias <- c.aliases | !Blank(alias);
      assert unique == NonBlank(c.aliases);
      var sorted := SortedList(unique);
      assert Gathered(base, edges, base.Keys, id) == AliasesOf(base, edges, id);
      out := out + [c.(aliases := sorted)];
    }
    assert order[..|order|] == order;
  }

  /** The catalog does not depend on the order, or the repetition, of hierarchy lines. */
  lemma LineOrderIrrelevant(places: seq<City>, lines: seq<Line>, other: seq<Line>, out: seq<City>, otherOut: seq<City>)
    requires forall f :: f in lines <==> f in other
    requires forall id <- Order(places) :: id in Index(places)
    requires IsCatalog(Index(places), Recorded(Index(places), lines), CityIds(Index(places), Order(places)), out)
    requires IsCatalog(Index(places), Recorded(Index(places), other), CityIds(Index(places), Order(places)), otherOut)
    ensures out == otherOut
  {
    var cities := Index(places);
    var edges := Recorded(cities, lines);
    assert edges == Recorded(cities, other);
    forall k | 0 <= k < |out| ensures out[k] == otherOut[k] {
      var id := CityIds(cities, Order(places))[k];
      assert Emitted(cities, edges, id, out[k]) && Emitted(cities, edges, id, otherOut[k]);
      SortedUnique(out[k].aliases, otherOut[k].aliases);
    }
  }

  // ---------------------------------------------------------------------------------------------
  // What the catalog says about the extracts
  // ---------------------------------------------------------------------------------------------

  /** Of several places with one id the last one is kept. */
  lemma {:induction false} IndexIs(places: seq<City>, id: string) returns (k: nat)
    requires id in Index(places)
    ensures k < |places| && places[k] == Index(places)[id] && places[k].sourceId == id
    ensures forall j :: k < j < |places| ==> places[j].sourceId != id
  {
    k := |places| - 1;
    if places[k].sourceId != id {
      k := IndexIs(places[..|places| - 1], id);
      assert forall j :: 0 <= j < |places| - 1 ==> places[..|places| - 1][j] == places[j];
    }
  }

  /** Places that are no sections leave in their order. */
  lemma {:induction false} CityIdsJoin(cities: map<string, City>, first: seq<string>, second: seq<string>)
    requires (forall id <- first :: id in cities) && (forall id <- second :: id in cities)
    ensures forall id <- first + second :: id in cities
    ensures CityIds(cities, first + second) == CityIds(cities, first) + CityIds(cities, second)
  {
    hide *;
    if second == [] {
      assert first + second == first;
      NoCityIds(cities, first);
    } else {
      var rest, last := second[..|second| - 1], second[|second| - 1];
      assert second == rest + [last];
      Regroup(first, rest, last);
      CityIdsJoin(cities, first, rest);
      CityIdsLast(cities, rest, last);
      CityIdsLast(cities, first + rest, last);
      SameIds(CityIds(cities, first), CityIds(cities, rest), if cities[last].featureCode == "PPLX" then [] else [last]);
    }
  }

  lemma NoCityIds(cities: map<string, City>, first: seq<string>)
    requires forall id <- first :: id in cities
    ensures CityIds(cities, first) + CityIds(cities, []) == CityIds(cities, first)
  {
  }

  lemma Regroup(first: seq<string>, rest: seq<string>, last: string)
    ensures first + (rest + [last]) == (first + rest) + [last]
  {
  }

  lemma SameIds(a: seq<string>, b: seq<string>, c: seq<string>)
    ensures a + (b + c) == (a + b) + c
  {
  }

  lemma CityIdsLast(cities: map<string, City>, rest: seq<string>, last: string)
    requires (forall id <- rest :: id in cities) && last in cities
    ensures forall id <- rest + [last] :: id in cities
    ensures CityIds(cities, rest + [last]) ==
            CityIds(cities, rest) + if cities[last].featureCode == "PPLX" then [] else [last]
  {
    assert (rest + [last])[..|rest|] == rest;
  }

  /** A line leads from a section up to a place of the same country and subdivision. */
  ghost predicate LeadsUp(cities: map<string, City>, lines: seq<Line>, a: string, b: string) {
    && a in cities && b in cities && cities[a].featureCode == "PPLX"
    && cities[a].country == cities[b].country && cities[a].admin1 == cities[b].admin1
    && exists f <- lines :: |f| >= 2 && f[0] == b && f[1] == a && a != "" && b != ""
  }

  /** A chain of lines leads from `a` up to `b`. */
  ghost predicate Climbs(cities: map<string, City>, lines: seq<Line>, a: string, b: string) {
    exists path: seq<string> ::
      && path != [] && path[0] == a && path[|path| - 1] == b
      && forall k :: 0 <= k < |path| - 1 ==> LeadsUp(cities, lines, path[k], path[k + 1])
  }

  /** From the section no city but this one can be climbed to. */
  ghost predicate SoleCity(cities: map<string, City>, lines: seq<Line>, s: string, id: string) {
    && s in cities && id in cities && cities[s].featureCode == "PPLX" && cities[id].featureCode != "PPLX"
    && forall x <- cities :: cities[x].featureCode != "PPLX" ==> (Climbs(cities, lines, s, x) <==> x == id)
  }

  /** The aliases of a city are the names with something to read among its own aliases and the names of those sections
      from which it is the only city that can be climbed to. */
  lemma AliasExactly(cities: map<string, City>, lines: seq<Line>, id: string, name: string)
    requires id in cities
    ensures name in AliasesOf(cities, Recorded(cities, lines), id) <==>
            && (exists c <- name :: !IsSpace(c))
            && (name in cities[id].aliases ||
                exists s <- cities ::
                  SoleCity(cities, lines, s, id) && (name == cities[s].name || name in cities[s].aliases))
  {
    forall s <- cities ensures AbsorbedBy(cities, Recorded(cities, lines), s, id) <==> SoleCity(cities, lines, s, id) {
      AbsorbedExactly(cities, lines, s, id);
    }
    hide *;
    AliasIn(cities, Recorded(cities, lines), id, name);
  }

  lemma AliasIn(cities: map<string, City>, edges: Edges, id: string, name: string)
    requires id in cities
    ensures name in AliasesOf(cities, edges, id) <==>
            && (exists c <- name :: !IsSpace(c))
            && (name in cities[id].aliases ||
                exists s <- cities ::
                  AbsorbedBy(cities, edges, s, id) && (name == cities[s].name || name in cities[s].aliases))
  {
    forall names ensures name in NonBlank(names) <==> name in names && exists c <- name :: !IsSpace(c) {
      NonBlankIs(names, name);
    }
    hide AbsorbedBy, IsSpace, NonBlank;
    forall s <- cities
      ensures name in [cities[s].name] + cities[s].aliases <==> name == cities[s].name || name in cities[s].aliases
    {
    }
  }

  lemma NonBlankIs(names: seq<string>, name: string)
    ensures name in NonBlank(names) <==> name in names && exists c <- name :: !IsSpace(c)
  {
    hide IsSpace;
  }

  lemma ReachesClimbs(cities: map<string, City>, lines: seq<Line>, a: string, b: string)
    ensures Reaches(Recorded(cities, lines), a, b) <==> Climbs(cities, lines, a, b)
  {
    var edges := Recorded(cities, lines);
    forall x, y ensures (x, y) in edges <==> LeadsUp(cities, lines, x, y) {
      EdgeLeads(cities, lines, x, y);
    }
    hide Recorded, LeadsUp;
  }

  lemma EdgeLeads(cities: map<string, City>, lines: seq<Line>, a: string, b: string)
    ensures (a, b) in Recorded(cities, lines) <==> LeadsUp(cities, lines, a, b)
  {
  }

  lemma AbsorbedExactly(cities: map<string, City>, lines: seq<Line>, s: string, id: string)
    requires s in cities && id in cities
    ensures AbsorbedBy(cities, Recorded(cities, lines), s, id) <==> SoleCity(cities, lines, s, id)
  {
    var roots := RootsOf(cities, Recorded(cities, lines), s);
    forall x ensures x in roots <==> x in cities && cities[x].featureCode != "PPLX" && Climbs(cities, lines, s, x) {
      ReachesClimbs(cities, lines, s, x);
    }
    hide Climbs, Recorded, Reaches, RootsOf;
    assert roots == {id} <==> forall x :: x in roots <==> x == id;
  }
}
