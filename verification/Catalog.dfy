/** The game catalog (handlers/gamecatalog/management.go): versioned records in a reference hierarchy, every
    change of which is logged with the record before and after.

    Record ids of each collection are natural numbers; a link that is absent, empty or malformed is `None`. Texts
    are the values after trimming. The hash of a request body is the body itself. What refers to the catalog from
    outside (current installations, running campaigns) is arbitrary and brought along by each request. */
module GameCatalog {
  import opened Common

  type Id = nat
  type Actor = string

  datatype Entity = Manufacturer | Series | Version | Cabinet | Compatibility
  datatype Key = Key(entity: Entity, id: Id)

  datatype Names = Names(en: string, kr: string, jp: string)

  /** A price table as JSON, with what the price validator says about it. */
  datatype Price = Price(json: string, isObject: bool, valid: bool)

  datatype Fields =
    | ManufacturerFields(names: Names)
    | SeriesFields(number: int, names: Names, shorts: Names, manufacturer: Option<Id>, hideAt: seq<string>)
    | VersionFields(series: Id, releasedOn: string, names: Names, price: Option<Price>, hideAt: seq<string>)
    | CabinetFields(series: Id, names: Names)
    | CompatibilityFields(version: Id, cabinet: Id, price: Option<Price>)

  datatype Record = Record(fields: Fields, archived: bool, archivedBy: Actor, revision: nat)

  type Records = map<Key, Record>

  /** Operation ids are chosen by clients, or derived from one for each link of a batch. A client may choose a
      derived one. */
  datatype OpId = Client(name: string) | Derived(base: OpId, activate: bool, cabinet: Id)

  datatype Action = Create | Update | Archive | Restore | Revert

  /** A day as it is entered, and as the date field it is stored in reads it back. */
  datatype Day = Day(text: string, stored: string)

  /** The `values` of a request: which keys it holds and what is read under each. */
  datatype Values = Values(keys: set<string>, names: Names, shorts: Names, number: Option<int>,
                           manufacturer: Option<Id>, series: Option<Id>, version: Option<Id>,
                           cabinet: Option<Id>, releasedOn: Day, price: Option<Price>, hideAt: seq<string>)

  datatype Expected = Expected(id: Id, cabinet: Id, revision: nat)

  datatype Body =
    | Single(op: OpId, reason: string, entity: Option<Entity>, id: Option<Id>, expected: int,
             values: Option<Values>, change: Option<nat>)
    | Batch(op: OpId, reason: string, version: Id, cabinets: seq<Id>, links: seq<Expected>)

  /** An entry of the changelog. Its id is its position. */
  datatype Change = Change(op: OpId, payload: Body, actor: Actor, action: Action, key: Key,
                           before: Option<Record>, after: Record, revisionBefore: nat, revisionAfter: nat,
                           reverts: Option<nat>)

  datatype Store = Store(records: Records, changes: seq<Change>)

  datatype Answer = Saved(item: Record, change: Change) | Replayed(item: Record, change: Change) | Refused(status: nat)

  datatype BatchAnswer = Reconciled(changes: seq<Change>) | BatchReplayed | BatchRefused(status: nat)

  // ---------------------------------------------------------------------------------------------
  // The reference hierarchy
  // ---------------------------------------------------------------------------------------------

  predicate Fits(entity: Entity, f: Fields) {
    match entity
    case Manufacturer => f.ManufacturerFields?
    case Series => f.SeriesFields?
    case Version => f.VersionFields?
    case Cabinet => f.CabinetFields?
    case Compatibility => f.CompatibilityFields?
  }

  function Parents(f: Fields): set<Key> {
    match f
    case ManufacturerFields(_) => {}
    case SeriesFields(_, _, _, manufacturer, _) =>
      if manufacturer.Some? then {Key(Manufacturer, manufacturer.value)} else {}
    case VersionFields(series, _, _, _, _) => {Key(Series, series)}
    case CabinetFields(series, _) => {Key(Series, series)}
    case CompatibilityFields(version, cabinet, _) => {Key(Version, version), Key(Cabinet, cabinet)}
  }

  predicate Active(records: Records, key: Key) {
    key in records && !records[key].archived
  }

  /** A compatibility joins a version and a cabinet of one series. */
  predicate SameSeries(records: Records, f: Fields) {
    f.CompatibilityFields? ==>
      var v, c := Key(Version, f.version), Key(Cabinet, f.cabinet);
      && v in records && records[v].fields.VersionFields?
      && c in records && records[c].fields.CabinetFields?
      && records[v].fields.series == records[c].fields.series
  }

  /** Every record has the fields of its collection. */
  predicate Consistent(records: Records) {
    forall k <- records :: Fits(k.entity, records[k].fields)
  }

  /** `ensureRestorable`. */
  predicate Restorable(records: Records, f: Fields) {
    (forall p <- Parents(f) :: Active(records, p)) && SameSeries(records, f)
  }

  /** What installations and campaigns refer to: the version and cabinet of each game now installed in an arcade, and
      the versions and cabinets, or all cabinets, of each campaign that has not ended. */
  datatype Campaign = Campaign(versions: set<Id>, everyCabinet: bool, cabinets: set<Id>)

  datatype Usage = Usage(installed: set<(Id, Id)>, campaigns: set<Campaign>)
  {
    predicate HasVersion(version: Id) {
      (exists i <- installed :: i.0 == version) || exists c <- campaigns :: version in c.versions
    }

    predicate HasCabinet(cabinet: Id) {
      (exists i <- installed :: i.1 == cabinet) || exists c <- campaigns :: c.everyCabinet || cabinet in c.cabinets
    }

    predicate HasLink(version: Id, cabinet: Id) {
      || (version, cabinet) in installed
      || exists c <- campaigns :: version in c.versions && (c.everyCabinet || cabinet in c.cabinets)
    }
  }

  /** The references from outside the catalog that `blockingReferences` counts. A manufacturer never has any. */
  predicate InUse(records: Records, usage: Usage, key: Key) {
    match key.entity
    case Manufacturer => false
    case Series =>
      exists k <- records :: k.entity == Version && records[k].fields.VersionFields?
                             && records[k].fields.series == key.id && usage.HasVersion(k.id)
    case Version => usage.HasVersion(key.id)
    case Cabinet => usage.HasCabinet(key.id)
    case Compatibility =>
      key in records && records[key].fields.CompatibilityFields?
      && usage.HasLink(records[key].fields.version, records[key].fields.cabinet)
  }

  /** `blockingReferences` is not empty. */
  predicate Blocked(records: Records, usage: Usage, key: Key) {
    InUse(records, usage, key) || exists k <- records :: !records[k].archived && key in Parents(records[k].fields)
  }

  /** Which links can never change: all but a series' manufacturer. */
  predicate SameLinks(f: Fields, g: Fields) {
    match f
    case ManufacturerFields(_) => g.ManufacturerFields?
    case SeriesFields(_, _, _, _, _) => g.SeriesFields?
    case VersionFields(series, _, _, _, _) => g.VersionFields? && g.series == series
    case CabinetFields(series, _) => g.CabinetFields? && g.series == series
    case CompatibilityFields(version, cabinet, _) =>
      g.CompatibilityFields? && g.version == version && g.cabinet == cabinet
  }

  // ---------------------------------------------------------------------------------------------
  // Editing
  // ---------------------------------------------------------------------------------------------

  predicate NamesValid(n: Names) {
    && 1 <= |n.en| <= 120 && 1 <= |n.kr| <= 120 && 1 <= |n.jp| <= 120
  }

  predicate ShortsValid(n: Names) {
    |n.en| <= 60 && |n.kr| <= 60 && |n.jp| <= 60
  }

  /** Only a compatibility may do without a price of its own; a version's price is an object. */
  predicate PriceValid(price: Option<Price>, nullable: bool) {
    match price
    case None => nullable
    case Some(p) => p.valid && (nullable || p.isObject)
  }

  /** The checks on names, numbers and prices, which stored fields pass once they were entered. */
  predicate EntryValid(f: Fields) {
    match f
    case ManufacturerFields(names) => NamesValid(names)
    case SeriesFields(number, names, shorts, _, _) => NamesValid(names) && ShortsValid(shorts) && number >= 1
    case VersionFields(_, _, names, price, _) => NamesValid(names) && PriceValid(price, false)
    case CabinetFields(_, names) => NamesValid(names)
    case CompatibilityFields(_, _, price) => PriceValid(price, true)
  }

  /** The check on the day of a version, on the day as it is stored. */
  predicate DayFits(f: Fields) {
    f.VersionFields? ==> |f.releasedOn| == 10
  }

  /** The checks that do not look at other records, on fields that are applied from a snapshot. */
  predicate FieldsValid(f: Fields) {
    EntryValid(f) && DayFits(f)
  }

  function Allowed(entity: Entity): set<string> {
    match entity
    case Series => {"series_number", "en", "kr", "jp", "en_short", "kr_short", "jp_short", "manufacturer", "hide_at"}
    case Version => {"series", "released_on", "en", "kr", "jp", "price_default", "hide_at"}
    case Cabinet => {"series", "en", "kr", "jp"}
    case Compatibility => {"version", "cabinet", "price_default"}
    case Manufacturer => {"en", "kr", "jp"}
  }

  /** An unspecified link keeps the stored one. */
  predicate Keeps(requested: Option<Id>, stored: Id) {
    requested.Some? ==> requested.value == stored
  }

  function AppliedSeries(records: Records, v: Values): Result<Fields> {
    if !NamesValid(v.names) || !ShortsValid(v.shorts) || v.number.None? || v.number.value < 1 then Fail(400)
    else if v.manufacturer.Some? && !Active(records, Key(Manufacturer, v.manufacturer.value)) then Fail(409)
    else Ok(SeriesFields(v.number.value, v.names, v.shorts, v.manufacturer, v.hideAt))
  }

  function AppliedVersion(records: Records, current: Option<Fields>, v: Values): Result<Fields>
    requires current.Some? ==> current.value.VersionFields?
  {
    if !NamesValid(v.names) then Fail(400)
    else if current.None? && v.series.None? then Fail(400)
    else if current.None? && !Active(records, Key(Series, v.series.value)) then Fail(409)
    else if current.Some? && !Keeps(v.series, current.value.series) then Fail(400)
    else if |v.releasedOn.text| != 10 || !PriceValid(v.price, false) then Fail(400)
    else Ok(VersionFields(if current.Some? then current.value.series else v.series.value,
                          v.releasedOn.stored, v.names, v.price, v.hideAt))
  }

  function AppliedCabinet(records: Records, current: Option<Fields>, v: Values): Result<Fields>
    requires current.Some? ==> current.value.CabinetFields?
  {
    if !NamesValid(v.names) then Fail(400)
    else if current.None? && (v.series.None? || !Active(records, Key(Series, v.series.value))) then Fail(409)
    else if current.Some? && !Keeps(v.series, current.value.series) then Fail(400)
    else Ok(CabinetFields(if current.Some? then current.value.series else v.series.value, v.names))
  }

  function AppliedCompatibility(records: Records, current: Option<Fields>, v: Values): Result<Fields>
    requires current.Some? ==> current.value.CompatibilityFields?
  {
    match current
    case None =>
      if v.version.None? || !Active(records, Key(Version, v.version.value)) then Fail(409)
      else if v.cabinet.None? || !Active(records, Key(Cabinet, v.cabinet.value)) then Fail(409)
      else if !SameSeries(records, CompatibilityFields(v.version.value, v.cabinet.value, v.price)) then Fail(409)
      else if !PriceValid(v.price, true) then Fail(400)
      else Ok(CompatibilityFields(v.version.value, v.cabinet.value, v.price))
    case Some(f) =>
      if !Keeps(v.version, f.version) || !Keeps(v.cabinet, f.cabinet) || !PriceValid(v.price, true) then Fail(400)
      else Ok(CompatibilityFields(f.version, f.cabinet, v.price))
  }

  /** `applyValues`; `current` is `None` when the record is being created. */
  function Applied(records: Records, entity: Entity, current: Option<Fields>, values: Option<Values>): Result<Fields>
    requires current.Some? ==> Fits(entity, current.value)
  {
    if values.None? || !(values.value.keys <= Allowed(entity)) then Fail(400)
    else
      match entity
      case Manufacturer =>
        if NamesValid(values.value.names) then Ok(ManufacturerFields(values.value.names)) else Fail(400)
      case Series => AppliedSeries(records, values.value)
      case Version => AppliedVersion(records, current, values.value)
      case Cabinet => AppliedCabinet(records, current, values.value)
      case Compatibility => AppliedCompatibility(records, current, values.value)
  }

  const NO_NAMES := Names("", "", "")
  const NO_VALUES := Values({}, NO_NAMES, NO_NAMES, None, None, None, None, None, Day("", ""), None, [])

  /** The values a snapshot is applied with. */
  function ValuesOf(entity: Entity, f: Fields): Values {
    var v := NO_VALUES.(keys := Allowed(entity));
    match f
    case ManufacturerFields(names) => v.(names := names)
    case SeriesFields(number, names, shorts, manufacturer, hideAt) =>
      v.(number := Some(number), names := names, shorts := shorts, manufacturer := manufacturer, hideAt := hideAt)
    case VersionFields(series, releasedOn, names, price, hideAt) =>
      v.(series := Some(series), releasedOn := Day(releasedOn, releasedOn), names := names, price := price,
         hideAt := hideAt)
    case CabinetFields(series, names) => v.(series := Some(series), names := names)
    case CompatibilityFields(version, cabinet, price) =>
      v.(version := Some(version), cabinet := Some(cabinet), price := price)
  }

  /** `applySnapshot`. */
  function Rewound(records: Records, entity: Entity, r: Record, target: Record): Result<Record>
    requires Fits(entity, r.fields)
  {
    match Applied(records, entity, Some(r.fields), Some(ValuesOf(entity, target.fields)))
    case Fail(status) => Fail(status)
    case Ok(f) =>
      if !target.archived && !Restorable(records, f) then Fail(409)
      else Ok(Record(f, target.archived, if target.archived then target.archivedBy else "", r.revision))
  }

  // ---------------------------------------------------------------------------------------------
  // The changelog
  // ---------------------------------------------------------------------------------------------

  function FindChange(changes: seq<Change>, op: OpId): Option<Change> {
    if changes == [] then None
    else
      var n := |changes| - 1;
      match FindChange(changes[..n], op)
      case Some(c) => Some(c)
      case None => if changes[n].op == op then Some(changes[n]) else None
  }

  /** `findReplay`: `Ok(None)` when the id is new. */
  function FindReplay(changes: seq<Change>, payload: Body, op: OpId, actor: Actor): Result<Option<Change>> {
    match FindChange(changes, op)
    case None => Ok(None)
    case Some(c) => if c.payload != payload || c.actor != actor then Fail(409) else Ok(Some(c))
  }

  /** The unique index on version and cabinet. */
  predicate Clashes(records: Records, key: Key, r: Record) {
    r.fields.CompatibilityFields? &&
    exists k <- records :: k != key && records[k].fields.CompatibilityFields?
                           && records[k].fields.version == r.fields.version
                           && records[k].fields.cabinet == r.fields.cabinet
  }

  function Logged(payload: Body, op: OpId, actor: Actor, action: Action, key: Key, before: Option<Record>,
                  after: Record, reverts: Option<nat>): Change {
    Change(op, payload, actor, action, key, before, after, if before.Some? then before.value.revision else 0,
           after.revision, reverts)
  }

  /** Saves the record and its log entry. The changelog takes an operation id only once. */
  function Commit(s: Store, c: Change, clash: nat): Result<Store> {
    if Clashes(s.records, c.key, c.after) then Fail(clash)
    else if FindChange(s.changes, c.op).Some? then Fail(502)
    else Ok(Store(s.records[c.key := c.after], s.changes + [c]))
  }

  // ---------------------------------------------------------------------------------------------
  // Single changes
  // ---------------------------------------------------------------------------------------------

  /** What an action makes of the stored record. */
  function Changed(records: Records, usage: Usage, action: Action, body: Body, actor: Actor, key: Key)
    : Result<Record>
    requires body.Single? && key in records && Fits(key.entity, records[key].fields)
  {
    var r := records[key];
    match action
    case Archive =>
      if r.archived || Blocked(records, usage, key) then Fail(409)
      else Ok(Record(r.fields, true, actor, r.revision + 1))
    case Restore =>
      if !r.archived || !Restorable(records, r.fields) then Fail(409)
      else Ok(Record(r.fields, false, "", r.revision + 1))
    case _ =>
      match Applied(records, key.entity, Some(r.fields), body.values)
      case Fail(status) => Fail(status)
      case Ok(f) => Ok(r.(fields := f, revision := r.revision + 1))
  }

  function Answered(s: Store, c: Change, clash: nat): (Store, Answer) {
    match Commit(s, c, clash)
    case Fail(status) => (s, Refused(status))
    case Ok(t) => (t, Saved(c.after, c))
  }

  /** `mutate`. The replay check runs before the transaction, on the first `seen` entries of the changelog.
      `newId` is the id a created record gets. */
  function Mutated(s: Store, usage: Usage, action: Action, body: Body, actor: Actor, newId: Id,
                   seen: nat)
    : (Store, Answer)
    requires body.Single? && seen <= |s.changes| && Consistent(s.records)
  {
    if body.entity.None? then (s, Refused(400)) else
    match FindReplay(s.changes[..seen], body, body.op, actor)
    case Fail(status) => (s, Refused(status))
    case Ok(Some(c)) => (s, Replayed(c.after, c))
    case Ok(None) =>
      var entity := body.entity.value;
      if action == Create then
        match Applied(s.records, entity, None, body.values)
        case Fail(status) => (s, Refused(status))
        case Ok(f) =>
          var after := Record(f, false, "", 1);
          Answered(s, Logged(body, body.op, actor, Create, Key(entity, newId), None, after, None), 409)
      else if body.id.None? then (s, Refused(400))
      else
        var key := Key(entity, body.id.value);
        if key !in s.records then (s, Refused(404))
        else if body.expected < 1 || s.records[key].revision != body.expected then (s, Refused(409))
        else
          match Changed(s.records, usage, action, body, actor, key)
          case Fail(status) => (s, Refused(status))
          case Ok(after) =>
            Answered(s, Logged(body, body.op, actor, action, key, Some(s.records[key]), after, None), 409)
  }

  /** The record a revert leads to, from the entry it reverts; the revision still has to rise. */
  function Reverted(records: Records, usage: Usage, actor: Actor, key: Key, target: Option<Record>)
    : Result<Record>
    requires key in records && Fits(key.entity, records[key].fields)
  {
    var r := records[key];
    match target
    case None =>
      if Blocked(records, usage, key) then Fail(409) else Ok(r.(archived := true, archivedBy := actor))
    case Some(t) =>
      if t.archived && !r.archived && Blocked(records, usage, key) then Fail(409)
      else Rewound(records, key.entity, r, t)
  }

  /** `revert`. */
  function RevertOf(s: Store, usage: Usage, body: Body, actor: Actor, seen: nat): (Store, Answer)
    requires body.Single? && seen <= |s.changes| && Consistent(s.records)
  {
    if body.change.None? then (s, Refused(400)) else
    match FindReplay(s.changes[..seen], body, body.op, actor)
    case Fail(status) => (s, Refused(status))
    case Ok(Some(c)) => (s, Replayed(c.after, c))
    case Ok(None) =>
      if body.change.value >= |s.changes| then (s, Refused(404))
      else
        var c := s.changes[body.change.value];
        if c.key !in s.records then (s, Refused(404))
        else if body.expected < 1 || s.records[c.key].revision != body.expected then (s, Refused(409))
        else
          match Reverted(s.records, usage, actor, c.key, c.before)
          case Fail(status) => (s, Refused(status))
          case Ok(r) =>
            Answered(s, Logged(body, body.op, actor, Revert, c.key, Some(s.records[c.key]),
                               r.(revision := r.revision + 1), Some(body.change.value)), 502)
  }

  // ---------------------------------------------------------------------------------------------
  // Batches
  // ---------------------------------------------------------------------------------------------

  predicate Distinct<T(==)>(s: seq<T>) {
    forall i, j :: 0 <= i < j < |s| ==> s[i] != s[j]
  }

  function LinkCabinets(links: seq<Expected>): seq<Id> {
    seq(|links|, i requires 0 <= i < |links| => links[i].cabinet)
  }

  function LinkIds(links: seq<Expected>): seq<Id> {
    seq(|links|, i requires 0 <= i < |links| => links[i].id)
  }

  /** `normalizeCompatibilityMutation`. */
  predicate WellFormed(body: Body)
    requires body.Batch?
  {
    && Distinct(body.cabinets) && Distinct(LinkIds(body.links)) && Distinct(LinkCabinets(body.links))
    && forall e <- body.links :: e.revision >= 1
  }

  predicate IsLink(records: Records, k: Key, version: Id) {
    k in records && records[k].fields.CompatibilityFields? && records[k].fields.version == version
  }

  predicate Known(records: Records, rows: seq<Id>) {
    forall id <- rows :: Key(Compatibility, id) in records
        && records[Key(Compatibility, id)].fields.CompatibilityFields?
  }

  /** The rows of a version in the order the database returns them. */
  ghost predicate Lists(records: Records, version: Id, rows: seq<Id>) {
    && Distinct(rows)
    && (forall id <- rows :: IsLink(records, Key(Compatibility, id), version))
    && (forall k <- records :: IsLink(records, k, version) ==> k.entity == Compatibility && k.id in rows)
  }

  /** `validateCompatibilityCabinets`, after the version was found to be active. */
  predicate Offered(records: Records, version: Id, cabinets: seq<Id>) {
    && Active(records, Key(Version, version))
    && forall c <- cabinets :: Active(records, Key(Cabinet, c))
        && SameSeries(records, CompatibilityFields(version, c, None))
  }

  /** The operation ids a batch logs under: one for each cabinet it adds, one for each it drops. */
  function Intents(body: Body): seq<OpId>
    requires body.Batch?
  {
    Activations(body, body.cabinets) + Archivals(body, LinkCabinets(body.links))
  }

  function Activations(body: Body, cabinets: seq<Id>): seq<OpId>
    requires body.Batch?
  {
    if cabinets == [] then []
    else
      var n := |cabinets| - 1;
      Activations(body, cabinets[..n]) +
      if cabinets[n] in LinkCabinets(body.links) then [] else [Derived(body.op, true, cabinets[n])]
  }

  function Archivals(body: Body, cabinets: seq<Id>): seq<OpId>
    requires body.Batch?
  {
    if cabinets == [] then []
    else
      var n := |cabinets| - 1;
      Archivals(body, cabinets[..n]) +
      if cabinets[n] in body.cabinets then [] else [Derived(body.op, false, cabinets[n])]
  }

  /** `compatibilityReplay`: all intents were logged by this request. */
  function AllReplayed(changes: seq<Change>, body: Body, actor: Actor, intents: seq<OpId>): Result<bool> {
    if intents == [] then Ok(true)
    else
      match FindReplay(changes, body, intents[0], actor)
      case Fail(status) => Fail(status)
      case Ok(None) => Ok(false)
      case Ok(Some(_)) => AllReplayed(changes, body, actor, intents[1..])
  }

  function ActiveRows(records: Records, rows: seq<Id>): set<Id>
    requires Known(records, rows)
  {
    set id <- rows | !records[Key(Compatibility, id)].archived
  }

  /** `ensureExpectedCompatibilities`. */
  predicate AsExpected(records: Records, rows: seq<Id>, links: seq<Expected>)
    requires Known(records, rows)
  {
    && |ActiveRows(records, rows)| == |links|
    && forall e <- links ::
         && e.id in ActiveRows(records, rows)
         && records[Key(Compatibility, e.id)].fields.cabinet == e.cabinet
         && records[Key(Compatibility, e.id)].revision == e.revision
  }

  /** The row for a cabinet. */
  function RowFor(records: Records, rows: seq<Id>, cabinet: Id): (r: Option<Id>)
    requires Known(records, rows)
    ensures r.Some? ==> r.value in rows && records[Key(Compatibility, r.value)].fields.cabinet == cabinet
    ensures r.None? ==> forall id <- rows :: records[Key(Compatibility, id)].fields.cabinet != cabinet
  {
    if rows == [] then None
    else
      var n := |rows| - 1;
      if records[Key(Compatibility, rows[n])].fields.cabinet == cabinet then Some(rows[n])
      else RowFor(records, rows[..n], cabinet)
  }

  datatype Work = Work(store: Store, rows: seq<Id>)

  function Activation(records: Records, body: Body, actor: Actor, cabinet: Id, row: Option<Id>, newId: Id): Change
    requires body.Batch?
    requires row.Some? ==> Key(Compatibility, row.value) in records
  {
    if row.Some? then
      var r := records[Key(Compatibility, row.value)];
      Logged(body, Derived(body.op, true, cabinet), actor, Restore, Key(Compatibility, row.value), Some(r),
             Record(r.fields, false, "", r.revision + 1), None)
    else
      Logged(body, Derived(body.op, true, cabinet), actor, Create, Key(Compatibility, newId), None,
             Record(CompatibilityFields(body.version, cabinet, None), false, "", 1), None)
  }

  /** Restores or creates the link to one cabinet. */
  function ActivateOne(w: Work, body: Body, actor: Actor, cabinet: Id, newId: Id): (r: Result<Work>)
    requires body.Batch? && Known(w.store.records, w.rows)
    ensures r.Ok? ==> Known(r.value.store.records, r.value.rows) && w.store.changes <= r.value.store.changes
  {
    var row := RowFor(w.store.records, w.rows, cabinet);
    if row.Some? && !w.store.records[Key(Compatibility, row.value)].archived then Ok(w)
    else
      match Commit(w.store, Activation(w.store.records, body, actor, cabinet, row, newId), 502)
      case Fail(status) => Fail(status)
      case Ok(t) => Ok(Work(t, if row.Some? then w.rows else w.rows + [newId]))
  }

  function ActivateFirst(w: Work, body: Body, actor: Actor, newIds: seq<Id>, n: nat): (r: Result<Work>)
    requires body.Batch? && Known(w.store.records, w.rows) && n <= |body.cabinets| == |newIds|
    ensures r.Ok? ==> Known(r.value.store.records, r.value.rows) && w.store.changes <= r.value.store.changes
  {
    if n == 0 then Ok(w)
    else
      match ActivateFirst(w, body, actor, newIds, n - 1)
      case Fail(status) => Fail(status)
      case Ok(v) => ActivateOne(v, body, actor, body.cabinets[n - 1], newIds[n - 1])
  }

  function Archival(records: Records, body: Body, actor: Actor, id: Id): Change
    requires body.Batch? && Known(records, [id])
  {
    assert id in [id];
    var r := records[Key(Compatibility, id)];
    Logged(body, Derived(body.op, false, r.fields.cabinet), actor, Archive, Key(Compatibility, id), Some(r),
           Record(r.fields, true, actor, r.revision + 1), None)
  }

  /** Archives one link unless its cabinet was asked for. */
  function ArchiveOne(s: Store, usage: Usage, body: Body, actor: Actor, id: Id): (r: Result<Store>)
    requires body.Batch? && Known(s.records, [id])
    ensures r.Ok? ==> s.changes <= r.value.changes
    ensures r.Ok? ==> forall rows :: Known(s.records, rows) ==> Known(r.value.records, rows)
  {
    assert id in [id];
    var r := s.records[Key(Compatibility, id)];
    if r.archived || r.fields.cabinet in body.cabinets then Ok(s)
    else if Blocked(s.records, usage, Key(Compatibility, id)) then Fail(409)
    else Commit(s, Archival(s.records, body, actor, id), 502)
  }

  function ArchiveFirst(s: Store, usage: Usage, body: Body, actor: Actor, rows: seq<Id>, n: nat)
    : (r: Result<Store>)
    requires body.Batch? && Known(s.records, rows) && n <= |rows|
    ensures r.Ok? ==> Known(r.value.records, rows) && s.changes <= r.value.changes
  {
    if n == 0 then Ok(s)
    else
      match ArchiveFirst(s, usage, body, actor, rows, n - 1)
      case Fail(status) => Fail(status)
      case Ok(t) =>
        assert rows[n - 1] in rows;
        ArchiveOne(t, usage, body, actor, rows[n - 1])
  }

  /** `ReplaceCompatibilities`; `newIds` holds the ids that created links get. */
  function Replaced(s: Store, usage: Usage, body: Body, actor: Actor, rows: seq<Id>, newIds: seq<Id>)
    : (Store, BatchAnswer)
    requires body.Batch? && Known(s.records, rows) && |newIds| == |body.cabinets|
  {
    if !WellFormed(body) then (s, BatchRefused(400))
    else if !Offered(s.records, body.version, body.cabinets) then (s, BatchRefused(409))
    else
      match AllReplayed(s.changes, body, actor, Intents(body))
      case Fail(status) => (s, BatchRefused(status))
      case Ok(found) =>
        if found && Intents(body) != [] then (s, BatchReplayed)
        else if !AsExpected(s.records, rows, body.links) then (s, BatchRefused(409))
        else
          match ActivateFirst(Work(s, rows), body, actor, newIds, |body.cabinets|)
          case Fail(status) => (s, BatchRefused(status))
          case Ok(w) =>
            match ArchiveFirst(w.store, usage, body, actor, w.rows, |w.rows|)
            case Fail(status) => (s, BatchRefused(status))
            case Ok(t) => (t, Reconciled(t.changes[|s.changes|..]))
  }

  // ---------------------------------------------------------------------------------------------
  // What every commit keeps
  // ---------------------------------------------------------------------------------------------

  function Lookup(records: Records, key: Key): Option<Record> {
    if key in records then Some(records[key]) else None
  }

  /** The catalog one obtains from the changelog alone. */
  function Replay(base: Records, changes: seq<Change>): Records {
    if changes == [] then base
    else
      var n := |changes| - 1;
      Replay(base, changes[..n])[changes[n].key := changes[n].after]
  }

  /** An entry continues the record it changes by one revision; only a create starts one, at revision 1. */
  ghost predicate Continues(records: Records, c: Change) {
    && c.before == Lookup(records, c.key)
    && (c.before.None? <==> c.action == Create)
    && c.revisionBefore == (if c.before.Some? then c.before.value.revision else 0)
    && c.revisionAfter == c.after.revision == c.revisionBefore + 1
  }

  ghost predicate History(base: Records, changes: seq<Change>) {
    changes != [] ==>
      var n := |changes| - 1;
      History(base, changes[..n]) && Continues(Replay(base, changes[..n]), changes[n])
  }

  /** A record's links lead to existing records, of one series where they meet, and to active ones while the
      record itself is active. */
  ghost predicate Anchored(records: Records, r: Record) {
    && (forall p <- Parents(r.fields) :: p in records && (!r.archived ==> !records[p].archived))
    && SameSeries(records, r.fields)
  }

  ghost predicate Sound(records: Records) {
    Consistent(records) && forall k <- records :: Anchored(records, records[k])
  }

  ghost predicate UniqueLinks(records: Records) {
    forall k <- records :: !Clashes(records, k, records[k])
  }

  ghost predicate UniqueOps(changes: seq<Change>) {
    forall i, j :: 0 <= i < j < |changes| ==> changes[i].op != changes[j].op
  }

  /** A logged record is still there, with the links it had. */
  ghost predicate Traceable(s: Store) {
    forall c <- s.changes :: c.key in s.records && SameLinks(c.after.fields, s.records[c.key].fields)
                             && (c.before.Some? ==> SameLinks(c.before.value.fields, s.records[c.key].fields))
  }

  /** Once valid, always valid: a record that the API created or that had valid fields before some change has valid
      fields now. */
  ghost predicate Validated(s: Store) {
    forall c <- s.changes :: c.key in s.records && (c.before.None? || EntryValid(c.before.value.fields)) ==>
                               EntryValid(s.records[c.key].fields)
  }

  ghost predicate Inv(base: Records, s: Store) {
    && Sound(s.records) && UniqueLinks(s.records) && UniqueOps(s.changes) && Traceable(s) && Validated(s)
    && History(base, s.changes) && s.records == Replay(base, s.changes)
  }

  /** What every entry that the operations log satisfies. */
  ghost predicate Admissible(records: Records, c: Change) {
    && Continues(records, c)
    && Fits(c.key.entity, c.after.fields)
    && Anchored(records, c.after)
    && (c.before.Some? ==> SameLinks(c.before.value.fields, c.after.fields))
    && (c.before.None? || EntryValid(c.before.value.fields) ==> EntryValid(c.after.fields))
    && (c.after.archived ==> forall k <- records :: c.key in Parents(records[k].fields) ==> records[k].archived)
  }

  /** Nothing is forgotten: records stay, with their fixed links, and so do log entries. */
  ghost predicate Extends(s: Store, t: Store) {
    && s.changes <= t.changes
    && forall k <- s.records :: k in t.records && SameLinks(s.records[k].fields, t.records[k].fields)
  }

  lemma {:induction false} FindFacts(changes: seq<Change>, op: OpId)
    ensures FindChange(changes, op).Some? <==> exists c <- changes :: c.op == op
    ensures FindChange(changes, op).Some? ==>
        FindChange(changes, op).value in changes && FindChange(changes, op).value.op == op
  {
    if changes != [] {
      var n := |changes| - 1;
      FindFacts(changes[..n], op);
      assert changes == changes[..n] + [changes[n]];
    }
  }

  /** A parent keeps its series and stays active while a child is, so no child loses its anchor. */
  lemma StillAnchored(records: Records, c: Change, k: Key)
    requires Sound(records) && Admissible(records, c) && k in records
    ensures Anchored(records[c.key := c.after], records[k])
  {
    var after := records[c.key := c.after];
    var r := records[k];
    assert Anchored(records, r);
    forall p <- Parents(r.fields) ensures p in after && (!r.archived ==> !after[p].archived) {
    }
    if c.key in records {
      assert SameLinks(records[c.key].fields, c.after.fields);
    }
  }

  lemma StillSound(records: Records, c: Change)
    requires Sound(records) && Admissible(records, c)
    ensures Sound(records[c.key := c.after])
  {
    var after := records[c.key := c.after];
    forall k <- after ensures Anchored(after, after[k]) {
      if k == c.key {
        AnchoredAfter(records, c);
      } else {
        StillAnchored(records, c, k);
      }
    }
  }

  /** The changed record is not its own parent. */
  lemma AnchoredAfter(records: Records, c: Change)
    requires Sound(records) && Admissible(records, c)
    ensures Anchored(records[c.key := c.after], c.after)
  {
    assert c.key !in Parents(c.after.fields);
  }

  lemma CommitKeeps(base: Records, s: Store, c: Change, clash: nat)
    requires Inv(base, s) && Admissible(s.records, c)
    ensures var r := Commit(s, c, clash); r.Ok? ==> Inv(base, r.value) && Extends(s, r.value)
  {
    hide *;
    CommitIs(s, c, clash);
    InvParts(base, s);
    AdmissibleParts(s.records, c);
    if Commit(s, c, clash).Ok? {
      StillSound(s.records, c);
      CommitUnique(s, c, clash);
      CommitTraceable(s, c);
      CommitValidated(s, c);
      CommitHistory(base, s, c);
      CommitExtends(s, c);
      InvFrom(base, Store(s.records[c.key := c.after], s.changes + [c]));
    }
  }

  lemma InvParts(base: Records, s: Store)
    requires Inv(base, s)
    ensures Sound(s.records) && Consistent(s.records) && UniqueLinks(s.records) && UniqueOps(s.changes)
    ensures Traceable(s) && Validated(s) && History(base, s.changes) && s.records == Replay(base, s.changes)
  {
    InvConsistent(base, s);
    hide Sound, Consistent, UniqueLinks, UniqueOps, Traceable, Validated, History, Replay;
  }

  lemma InvFrom(base: Records, s: Store)
    requires Sound(s.records) && UniqueLinks(s.records) && UniqueOps(s.changes)
    requires Traceable(s) && Validated(s) && History(base, s.changes) && s.records == Replay(base, s.changes)
    ensures Inv(base, s)
  {
    hide Sound, UniqueLinks, UniqueOps, Traceable, Validated, History, Replay;
  }

  lemma CommitHistory(base: Records, s: Store, c: Change)
    requires History(base, s.changes) && s.records == Replay(base, s.changes) && Continues(s.records, c)
    ensures History(base, s.changes + [c]) && Replay(base, s.changes + [c]) == s.records[c.key := c.after]
  {
    assert (s.changes + [c])[..|s.changes|] == s.changes;
  }

  lemma CommitExtends(s: Store, c: Change)
    requires Admissible(s.records, c)
    ensures Extends(s, Store(s.records[c.key := c.after], s.changes + [c]))
  {
    SameLinksReflexive();
  }

  lemma CommitValidated(s: Store, c: Change)
    requires Validated(s) && Traceable(s) && Admissible(s.records, c)
    ensures Validated(Store(s.records[c.key := c.after], s.changes + [c]))
  {
    var t := Store(s.records[c.key := c.after], s.changes + [c]);
    forall d <- t.changes
      ensures d.before.None? || EntryValid(d.before.value.fields) ==> EntryValid(t.records[d.key].fields)
    {
      assert d in s.changes || d == c;
    }
  }

  lemma CommitTraceable(s: Store, c: Change)
    requires Traceable(s) && Admissible(s.records, c)
    ensures Traceable(Store(s.records[c.key := c.after], s.changes + [c]))
  {
    var t := Store(s.records[c.key := c.after], s.changes + [c]);
    SameLinksReflexive();
    forall d <- t.changes ensures d.key in t.records && SameLinks(d.after.fields, t.records[d.key].fields)
                                  && (d.before.Some? ==> SameLinks(d.before.value.fields, t.records[d.key].fields)) {
      assert d in s.changes || d == c;
    }
  }

  lemma SameLinksReflexive()
    ensures forall f :: SameLinks(f, f)
  {
  }

  lemma CommitUnique(s: Store, c: Change, clash: nat)
    requires UniqueLinks(s.records) && UniqueOps(s.changes) && Admissible(s.records, c) && Consistent(s.records)
    requires Commit(s, c, clash).Ok?
    ensures UniqueLinks(s.records[c.key := c.after]) && UniqueOps(s.changes + [c])
  {
    FindFacts(s.changes, c.op);
    var after := s.records[c.key := c.after];
    forall k <- after ensures !Clashes(after, k, after[k]) {
      if k != c.key {
        assert !Clashes(s.records, k, s.records[k]);
      }
      assert !Clashes(s.records, c.key, c.after);
    }
  }

  // ---------------------------------------------------------------------------------------------
  // Single changes are admissible
  // ---------------------------------------------------------------------------------------------

  /** What `applyValues` accepts: a new record only under active parents; an existing one only with its own
      links, a series also under an active manufacturer. */
  lemma AppliedFacts(records: Records, entity: Entity, current: Option<Fields>, values: Option<Values>)
    requires current.Some? ==> Fits(entity, current.value)
    ensures var r := Applied(records, entity, current, values);
            r.Ok? ==>
              && Fits(entity, r.value) && EntryValid(r.value)
              && (current.None? || entity == Series ==> Restorable(records, r.value))
              && (current.Some? ==> SameLinks(current.value, r.value))
              && (current.Some? && entity != Series ==> Parents(r.value) == Parents(current.value))
  {
    var r := Applied(records, entity, current, values);
    if r.Ok? && entity == Compatibility && current.None? {
      assert SameSeries(records, CompatibilityFields(r.value.version, r.value.cabinet, r.value.price));
    }
  }

  lemma Unblocked(records: Records, usage: Usage, key: Key)
    requires !Blocked(records, usage, key)
    ensures forall k <- records :: key in Parents(records[k].fields) ==> records[k].archived
  {
  }

  /** The parents of archived records may be archived, those of active ones may not. */
  lemma ChildrenArchived(records: Records, key: Key)
    requires Sound(records) && key in records && records[key].archived
    ensures forall k <- records :: key in Parents(records[k].fields) ==> records[k].archived
  {
    forall k <- records | key in Parents(records[k].fields) ensures records[k].archived {
      assert Anchored(records, records[k]);
    }
  }

  /** Editing keeps a record anchored. */
  lemma AppliedAnchored(records: Records, key: Key, values: Option<Values>)
    requires Sound(records) && key in records
    ensures Fits(key.entity, records[key].fields)
    ensures var r := Applied(records, key.entity, Some(records[key].fields), values);
            r.Ok? ==> forall who, n :: Anchored(records, Record(r.value, records[key].archived, who, n))
  {
    AppliedFacts(records, key.entity, Some(records[key].fields), values);
    assert Anchored(records, records[key]);
  }

  lemma ChangedAdmissible(records: Records, usage: Usage, action: Action, body: Body, actor: Actor, key: Key)
    requires Sound(records) && key in records && body.Single? && action != Create
    ensures Fits(key.entity, records[key].fields)
    ensures var r := Changed(records, usage, action, body, actor, key);
            r.Ok? ==> Admissible(records, Logged(body, body.op, actor, action, key, Some(records[key]), r.value, None))
  {
    var r := Changed(records, usage, action, body, actor, key);
    assert Anchored(records, records[key]);
    SameLinksReflexive();
    if r.Ok? {
      if records[key].archived {
        ChildrenArchived(records, key);
      }
      if action == Archive {
        Unblocked(records, usage, key);
      } else if action != Restore {
        AppliedFacts(records, key.entity, Some(records[key].fields), body.values);
        AppliedAnchored(records, key, body.values);
      }
    }
  }

  lemma CreateAdmissible(records: Records, body: Body, actor: Actor, entity: Entity, newId: Id)
    requires Sound(records) && body.Single? && Key(entity, newId) !in records
    ensures var r := Applied(records, entity, None, body.values);
            r.Ok? ==> Admissible(records, Logged(body, body.op, actor, Create, Key(entity, newId), None,
                                                 Record(r.value, false, "", 1), None))
  {
    AppliedFacts(records, entity, None, body.values);
  }

  lemma RevertedAdmissible(records: Records, usage: Usage, body: Body, op: OpId, actor: Actor, key: Key,
                           target: Option<Record>, reverts: Option<nat>)
    requires Sound(records) && key in records
    ensures Fits(key.entity, records[key].fields)
    ensures var r := Reverted(records, usage, actor, key, target);
            r.Ok? ==> Admissible(records, Logged(body, op, actor, Revert, key, Some(records[key]),
                                                 r.value.(revision := r.value.revision + 1), reverts))
  {
    SoundFits(records, key);
    hide Sound, Admissible, Logged, Reverted, Fits;
    match target
    case None => UndoneAdmissible(records, usage, body, op, actor, key, reverts);
    case Some(t) => RewoundAdmissible(records, usage, body, op, actor, key, t, reverts);
  }

  lemma SoundFits(records: Records, key: Key)
    requires Sound(records) && key in records
    ensures Fits(key.entity, records[key].fields)
  {
    assert Anchored(records, records[key]);
  }

  /** Reverting a creation archives the record. */
  lemma UndoneAdmissible(records: Records, usage: Usage, body: Body, op: OpId, actor: Actor, key: Key,
                         reverts: Option<nat>)
    requires Sound(records) && key in records && Fits(key.entity, records[key].fields)
    ensures var r := Reverted(records, usage, actor, key, None);
            r.Ok? ==> Admissible(records, Logged(body, op, actor, Revert, key, Some(records[key]),
                                                 r.value.(revision := r.value.revision + 1), reverts))
  {
    assert Anchored(records, records[key]);
    SameLinksReflexive();
    if !Blocked(records, usage, key) {
      Unblocked(records, usage, key);
    }
    hide Sound, Blocked, Restorable;
  }

  /** Reverting another entry rewinds the record to its snapshot. */
  lemma RewoundAdmissible(records: Records, usage: Usage, body: Body, op: OpId, actor: Actor, key: Key,
                          target: Record, reverts: Option<nat>)
    requires Sound(records) && key in records && Fits(key.entity, records[key].fields)
    ensures var r := Reverted(records, usage, actor, key, Some(target));
            r.Ok? ==> Admissible(records, Logged(body, op, actor, Revert, key, Some(records[key]),
                                                 r.value.(revision := r.value.revision + 1), reverts))
  {
    var values := Some(ValuesOf(key.entity, target.fields));
    AppliedFacts(records, key.entity, Some(records[key].fields), values);
    AppliedAnchored(records, key, values);
    if records[key].archived {
      ChildrenArchived(records, key);
    } else if !Blocked(records, usage, key) {
      Unblocked(records, usage, key);
    }
    hide Sound, Blocked, Applied, ValuesOf, SameLinks, EntryValid, Parents, SameSeries;
  }

  lemma MutatedKeeps(base: Records, s: Store, usage: Usage, action: Action, body: Body, actor: Actor, newId: Id,
                     seen: nat)
    requires Inv(base, s) && body.Single? && seen <= |s.changes| && action != Revert
    requires action == Create && body.entity.Some? ==> Key(body.entity.value, newId) !in s.records
    ensures var t := Mutated(s, usage, action, body, actor, newId, seen).0; Inv(base, t) && Extends(s, t)
  {
    hide *;
    InvParts(base, s);
    ExtendsReflexive(s);
    if body.entity.Some? && Mutated(s, usage, action, body, actor, newId, seen).0 != s {
      var entity := body.entity.value;
      if action == Create {
        CreateCommits(s, usage, body, actor, newId, seen);
        CreateAdmissible(s.records, body, actor, entity, newId);
        CommitKeeps(base, s, Logged(body, body.op, actor, Create, Key(entity, newId), None,
            Record(Applied(s.records, entity, None, body.values).value, false, "", 1), None), 409);
      } else {
        ChangeCommits(s, usage, action, body, actor, newId, seen);
        var key := Key(entity, body.id.value);
        ChangedAdmissible(s.records, usage, action, body, actor, key);
        CommitKeeps(base, s, Logged(body, body.op, actor, action, key, Some(s.records[key]),
            Changed(s.records, usage, action, body, actor, key).value, None), 409);
      }
    } else {
      NoEntity(s, usage, action, body, actor, newId, seen);
    }
  }

  lemma ExtendsReflexive(s: Store)
    ensures Extends(s, s)
  {
    SameLinksReflexive();
  }

  lemma NoEntity(s: Store, usage: Usage, action: Action, body: Body, actor: Actor, newId: Id, seen: nat)
    requires body.Single? && seen <= |s.changes| && Consistent(s.records)
    ensures body.entity.None? ==> Mutated(s, usage, action, body, actor, newId, seen).0 == s
  {
  }

  /** A creation that changes anything commits the new record. */
  lemma CreateCommits(s: Store, usage: Usage, body: Body, actor: Actor, newId: Id, seen: nat)
    requires body.Single? && body.entity.Some? && seen <= |s.changes| && Consistent(s.records)
    requires Mutated(s, usage, Create, body, actor, newId, seen).0 != s
    ensures var entity := body.entity.value;
            var r := Applied(s.records, entity, None, body.values);
            r.Ok? && Commit(s, Logged(body, body.op, actor, Create, Key(entity, newId), None,
                                      Record(r.value, false, "", 1), None), 409)
                     == Ok(Mutated(s, usage, Create, body, actor, newId, seen).0)
  {
    hide Applied, Commit, FindReplay, Logged, Consistent;
  }

  /** Another mutation that changes anything commits the changed record. */
  lemma ChangeCommits(s: Store, usage: Usage, action: Action, body: Body, actor: Actor, newId: Id, seen: nat)
    requires body.Single? && body.entity.Some? && seen <= |s.changes| && Consistent(s.records) && action != Create
    requires Mutated(s, usage, action, body, actor, newId, seen).0 != s
    ensures body.id.Some? && Key(body.entity.value, body.id.value) in s.records
    ensures var key := Key(body.entity.value, body.id.value);
            && Fits(key.entity, s.records[key].fields)
            && var r := Changed(s.records, usage, action, body, actor, key);
               r.Ok? && Commit(s, Logged(body, body.op, actor, action, key, Some(s.records[key]), r.value, None), 409)
                        == Ok(Mutated(s, usage, action, body, actor, newId, seen).0)
  {
    hide Changed, Commit, FindReplay, Logged, Fits;
  }

  /** The entry a revert logs. */
  function RevertEntry(s: Store, usage: Usage, body: Body, actor: Actor): Result<Change>
    requires body.Single? && Consistent(s.records) && body.change.Some? && body.change.value < |s.changes|
    requires s.changes[body.change.value].key in s.records
  {
    var key := s.changes[body.change.value].key;
    match Reverted(s.records, usage, actor, key, s.changes[body.change.value].before)
    case Fail(status) => Fail(status)
    case Ok(r) => Ok(Logged(body, body.op, actor, Revert, key, Some(s.records[key]), r.(revision := r.revision + 1),
        body.change))
  }

  /** A revert changes nothing, or commits its entry. */
  lemma RevertOfShape(s: Store, usage: Usage, body: Body, actor: Actor, seen: nat)
    requires body.Single? && seen <= |s.changes| && Consistent(s.records)
    ensures var t := RevertOf(s, usage, body, actor, seen).0;
            t != s ==>
              && body.change.Some? && body.change.value < |s.changes| && s.changes[body.change.value].key in s.records
              && RevertEntry(s, usage, body, actor).Ok?
              && Commit(s, RevertEntry(s, usage, body, actor).value, 502) == Ok(t)
  {
    hide Reverted, Commit, FindReplay, Logged, Consistent;
  }

  lemma RevertEntryAdmissible(s: Store, usage: Usage, body: Body, actor: Actor)
    requires body.Single? && Sound(s.records) && body.change.Some? && body.change.value < |s.changes|
    requires s.changes[body.change.value].key in s.records
    ensures Consistent(s.records)
    ensures var r := RevertEntry(s, usage, body, actor); r.Ok? ==> Admissible(s.records, r.value)
  {
    var c := s.changes[body.change.value];
    RevertedAdmissible(s.records, usage, body, body.op, actor, c.key, c.before, body.change);
    hide Admissible, Reverted, Logged, Sound;
  }

  lemma RevertOfKeeps(base: Records, s: Store, usage: Usage, body: Body, actor: Actor, seen: nat)
    requires Inv(base, s) && body.Single? && seen <= |s.changes|
    ensures Consistent(s.records)
    ensures var t := RevertOf(s, usage, body, actor, seen).0; Inv(base, t) && Extends(s, t)
  {
    SameLinksReflexive();
    assert Extends(s, s);
    InvConsistent(base, s);
    hide *;
    RevertOfShape(s, usage, body, actor, seen);
    if RevertOf(s, usage, body, actor, seen).0 != s {
      RevertEntryAdmissible(s, usage, body, actor);
      CommitKeeps(base, s, RevertEntry(s, usage, body, actor).value, 502);
    }
  }

  // ---------------------------------------------------------------------------------------------
  // A batch reaches exactly the requested set
  // ---------------------------------------------------------------------------------------------

  /** The cabinets a version is currently compatible with. */
  ghost function ActiveCabinets(records: Records, version: Id): set<Id> {
    set k <- records | IsLink(records, k, version) && !records[k].archived :: records[k].fields.cabinet
  }

  function Elements<T>(s: seq<T>): set<T> {
    set x <- s
  }

  function Entries(changes: seq<Change>, key: Key): nat {
    if changes == [] then 0
    else
      var n := |changes| - 1;
      Entries(changes[..n], key) + if changes[n].key == key then 1 else 0
  }

  ghost predicate LinkTo(records: Records, k: Key, version: Id, cabinet: Id) {
    IsLink(records, k, version) && records[k].fields.cabinet == cabinet
  }

  /** A link that was active is archived, any other is active; a new one has no price of its own. Nothing else about it
      changes. */
  ghost predicate Flips(before: Option<Record>, after: Record, actor: Actor) {
    && after.fields.CompatibilityFields?
    && after.fields == (if before.Some? then before.value.fields
                        else CompatibilityFields(after.fields.version, after.fields.cabinet, None))
    && after.archived == (before.Some? && !before.value.archived)
    && after.archivedBy == (if after.archived then actor else "")
    && after.revision == (if before.Some? then before.value.revision else 0) + 1
  }

  /** The record switched between active and archived, in one logged revision. */
  ghost predicate Switched(s: Store, t: Store, k: Key, actor: Actor)
    requires s.changes <= t.changes
  {
    && k in t.records
    && t.records[k].archived == Active(s.records, k)
    && Flips(Lookup(s.records, k), t.records[k], actor)
    && Entries(t.changes[|s.changes|..], k) == 1
  }

  ghost predicate Untouched(s: Store, t: Store, k: Key)
    requires s.changes <= t.changes
  {
    Lookup(t.records, k) == Lookup(s.records, k) && Entries(t.changes[|s.changes|..], k) == 0
  }

  /** The change of a cabinet's link is on record under the request's derived id: an activation unless the
      cabinet was in `before`. */
  ghost predicate Recorded(changes: seq<Change>, body: Body, actor: Actor, before: set<Id>, cabinet: Id)
    requires body.Batch?
  {
    var r := FindReplay(changes, body, Derived(body.op, cabinet !in before, cabinet), actor);
    r.Ok? && r.value.Some?
  }

  /** From `s` to `t` the links of `version` to the cabinets in `moved` switched, and nothing else changed. */
  ghost predicate Moved(s: Store, t: Store, version: Id, actor: Actor, moved: set<Id>) {
    && s.changes <= t.changes
    && (forall k :: if k in t.records && IsLink(t.records, k, version) && t.records[k].fields.cabinet in moved
                    then Switched(s, t, k, actor) else Untouched(s, t, k))
    && (forall c <- moved :: exists k :: LinkTo(t.records, k, version, c))
  }

  ghost predicate AllRecorded(changes: seq<Change>, body: Body, actor: Actor, before: set<Id>, moved: set<Id>)
    requires body.Batch?
  {
    forall c <- moved :: Recorded(changes, body, actor, before, c)
  }

  lemma EntriesAppend(changes: seq<Change>, c: Change, key: Key)
    ensures Entries(changes + [c], key) == Entries(changes, key) + if c.key == key then 1 else 0
  {
    assert (changes + [c])[..|changes|] == changes;
  }

  /** Log entries stay findable. */
  lemma {:induction false} FindExtends(changes: seq<Change>, more: seq<Change>, op: OpId)
    requires FindChange(changes, op).Some?
    ensures FindChange(changes + more, op) == FindChange(changes, op)
  {
    if more == [] {
      assert changes + more == changes;
    } else {
      var n := |more| - 1;
      FindExtends(changes, more[..n], op);
      assert (changes + more)[..|changes + more| - 1] == changes + more[..n];
    }
  }

  lemma RecordedExtends(s: Store, t: Store, body: Body, actor: Actor, before: set<Id>, moved: set<Id>)
    requires body.Batch? && s.changes <= t.changes && AllRecorded(s.changes, body, actor, before, moved)
    ensures AllRecorded(t.changes, body, actor, before, moved)
  {
    forall c <- moved ensures Recorded(t.changes, body, actor, before, c) {
      assert Recorded(s.changes, body, actor, before, c);
      FindExtends(s.changes, t.changes[|s.changes|..], Derived(body.op, c !in before, c));
      assert t.changes == s.changes + t.changes[|s.changes|..];
    }
  }

  lemma CommitRecords(s: Store, c: Change, clash: nat)
    requires Commit(s, c, clash).Ok?
    ensures FindChange(Commit(s, c, clash).value.changes, c.op) == Some(c)
  {
    assert (s.changes + [c])[..|s.changes|] == s.changes;
  }

  /** A commit for a link whose cabinet has not moved yet. */
  lemma MoveOne(s: Store, t: Store, c: Change, version: Id, actor: Actor, moved: set<Id>)
    requires Moved(s, t, version, actor, moved) && Continues(t.records, c) && Flips(c.before, c.after, actor)
    requires IsLink(t.records[c.key := c.after], c.key, version) && c.after.fields.cabinet !in moved
    requires c.before.Some? ==> SameLinks(c.before.value.fields, c.after.fields)
    requires c.after.archived == Active(t.records, c.key)
    requires forall k <- t.records :: LinkTo(t.records, k, version, c.after.fields.cabinet) ==> k == c.key
    ensures Moved(s, Store(t.records[c.key := c.after], t.changes + [c]), version, actor,
                  moved + {c.after.fields.cabinet})
  {
    var u := Store(t.records[c.key := c.after], t.changes + [c]);
    var news := t.changes[|s.changes|..];
    assert u.changes[|s.changes|..] == news + [c];
    ContinuesParts(t.records, c);
    assert Untouched(s, t, c.key);
    hide Flips, Continues, SameLinks;
    forall k
      ensures if k in u.records && IsLink(u.records, k, version)
          && u.records[k].fields.cabinet in moved + {c.after.fields.cabinet}
              then Switched(s, u, k, actor) else Untouched(s, u, k)
    {
      EntriesAppend(news, c, k);
      assert k == c.key ==> Untouched(s, t, k);
    }
    forall d <- moved + {c.after.fields.cabinet} ensures exists k :: LinkTo(u.records, k, version, d) {
      if d in moved {
        var k :| LinkTo(t.records, k, version, d);
        assert LinkTo(u.records, k, version, d);
      } else {
        assert LinkTo(u.records, c.key, version, d);
      }
    }
  }

  lemma OneLink(records: Records, version: Id, j: Key, k: Key)
    requires UniqueLinks(records) && IsLink(records, j, version) && IsLink(records, k, version)
    requires records[j].fields.cabinet == records[k].fields.cabinet
    ensures j == k
  {
    assert !Clashes(records, j, records[j]);
  }

  /** A batch under way: the links to `moved` have switched, nothing else has changed. */
  ghost predicate Stage(base: Records, s: Store, t: Store, body: Body, actor: Actor, moved: set<Id>)
    requires body.Batch?
  {
    && Inv(base, t) && Extends(s, t) && Moved(s, t, body.version, actor, moved)
    && AllRecorded(t.changes, body, actor, ActiveCabinets(s.records, body.version), moved)
    && FreshLog(s.changes, t.changes, body, ActiveCabinets(s.records, body.version), moved)
  }

  /** The derived id under which a batch logs the change of a cabinet. */
  function Intent(body: Body, before: set<Id>, cabinet: Id): OpId
    requires body.Batch?
  {
    Derived(body.op, cabinet !in before, cabinet)
  }

  /** The new entries carry the derived ids of the cabinets in `moved`, which were unused before. */
  ghost predicate FreshLog(first: seq<Change>, second: seq<Change>, body: Body, before: set<Id>, moved: set<Id>)
    requires body.Batch?
  {
    && first <= second
    && (forall c <- moved :: FindChange(first, Intent(body, before, c)).None?)
    && (forall i :: |first| <= i < |second| ==>
          second[i].op.Derived? && second[i].op.cabinet in moved
              && second[i].op == Intent(body, before, second[i].op.cabinet))
  }

  lemma FreshOne(first: seq<Change>, t: Store, body: Body, before: set<Id>, moved: set<Id>, c: Change)
    requires body.Batch? && FreshLog(first, t.changes, body, before, moved) && Commit(t, c, 502).Ok?
    requires c.after.fields.CompatibilityFields? && c.op == Intent(body, before, c.after.fields.cabinet)
    ensures FreshLog(first, t.changes + [c], body, before, moved + {c.after.fields.cabinet})
  {
    CommitNew(t, c, 502);
    FreshBefore(first, t.changes, c.op);
    hide FindChange, Commit;
  }

  lemma CommitNew(s: Store, c: Change, clash: nat)
    requires Commit(s, c, clash).Ok?
    ensures FindChange(s.changes, c.op).None?
  {
  }

  lemma FreshBefore(first: seq<Change>, second: seq<Change>, op: OpId)
    requires first <= second && FindChange(second, op).None?
    ensures FindChange(first, op).None?
  {
    FindFacts(first, op);
    FindFacts(second, op);
    hide FindChange;
    assert forall c <- first :: c in second;
  }

  /** A derived id that was unused before the batch is unused until its cabinet's turn. */
  lemma StillFresh(first: seq<Change>, second: seq<Change>, body: Body, before: set<Id>, moved: set<Id>, cabinet: Id)
    requires body.Batch? && FreshLog(first, second, body, before, moved)
    requires cabinet !in moved && FindChange(first, Intent(body, before, cabinet)).None?
    ensures FindChange(second, Intent(body, before, cabinet)).None?
  {
    var op := Intent(body, before, cabinet);
    FindFacts(first, op);
    FindFacts(second, op);
    forall c <- second ensures c.op != op {
      var i :| 0 <= i < |second| && second[i] == c;
      assert i < |first| ==> first[i] in first;
    }
  }

  lemma ExtendsTransitive(s: Store, t: Store, u: Store)
    requires Extends(s, t) && Extends(t, u)
    ensures Extends(s, u)
  {
    forall k <- s.records ensures k in u.records && SameLinks(s.records[k].fields, u.records[k].fields) {
      assert k in t.records && SameLinks(s.records[k].fields, t.records[k].fields);
    }
  }

  /** One more link switches. */
  lemma StageCommit(base: Records, s: Store, t: Store, body: Body, actor: Actor, moved: set<Id>, c: Change)
    requires body.Batch? && Stage(base, s, t, body, actor, moved) && Admissible(t.records, c)
    requires IsLink(t.records[c.key := c.after], c.key, body.version)
    requires var cabinet := c.after.fields.cabinet;
             && cabinet !in moved
             && c.after.archived == Active(t.records, c.key) && Flips(c.before, c.after, actor)
             && (forall k <- t.records :: LinkTo(t.records, k, body.version, cabinet) ==> k == c.key)
             && c.op == Intent(body, ActiveCabinets(s.records, body.version), cabinet)
             && c.payload == body && c.actor == actor
    ensures var r := Commit(t, c, 502); r.Ok? ==> Stage(base, s, r.value, body, actor, moved + {c.after.fields.cabinet})
  {
    var r := Commit(t, c, 502);
    StageParts(base, s, t, body, actor, moved);
    AdmissibleParts(t.records, c);
    CommitIs(t, c, 502);
    hide *;
    if r.Ok? {
      CommitKeeps(base, t, c, 502);
      ExtendsTransitive(s, t, r.value);
      MoveOne(s, t, c, body.version, actor, moved);
      RecordOne(t, body, actor, ActiveCabinets(s.records, body.version), moved, c);
      FreshOne(s.changes, t, body, ActiveCabinets(s.records, body.version), moved, c);
      StageFrom(base, s, r.value, body, actor, moved + {c.after.fields.cabinet});
    }
  }

  lemma StageParts(base: Records, s: Store, t: Store, body: Body, actor: Actor, moved: set<Id>)
    requires body.Batch? && Stage(base, s, t, body, actor, moved)
    ensures Inv(base, t) && Extends(s, t) && Moved(s, t, body.version, actor, moved)
    ensures AllRecorded(t.changes, body, actor, ActiveCabinets(s.records, body.version), moved)
    ensures FreshLog(s.changes, t.changes, body, ActiveCabinets(s.records, body.version), moved)
  {
    hide Inv, Extends, Moved, AllRecorded, FreshLog;
  }

  lemma StageFrom(base: Records, s: Store, t: Store, body: Body, actor: Actor, moved: set<Id>)
    requires body.Batch? && Inv(base, t) && Extends(s, t) && Moved(s, t, body.version, actor, moved)
    requires AllRecorded(t.changes, body, actor, ActiveCabinets(s.records, body.version), moved)
    requires FreshLog(s.changes, t.changes, body, ActiveCabinets(s.records, body.version), moved)
    ensures Stage(base, s, t, body, actor, moved)
  {
    hide Inv, Extends, Moved, AllRecorded, FreshLog, ActiveCabinets;
  }

  lemma AdmissibleParts(records: Records, c: Change)
    requires Admissible(records, c)
    ensures Continues(records, c) && (c.before.Some? ==> SameLinks(c.before.value.fields, c.after.fields))
  {
    hide Continues, SameLinks;
  }

  lemma RecordOne(t: Store, body: Body, actor: Actor, before: set<Id>, moved: set<Id>, c: Change)
    requires body.Batch? && AllRecorded(t.changes, body, actor, before, moved)
    requires c.after.fields.CompatibilityFields? && Commit(t, c, 502).Ok? && c.payload == body && c.actor == actor
    requires c.op == Intent(body, before, c.after.fields.cabinet)
    ensures AllRecorded(t.changes + [c], body, actor, before, moved + {c.after.fields.cabinet})
  {
    var u := Commit(t, c, 502).value;
    CommitRecords(t, c, 502);
    RecordedExtends(t, u, body, actor, before, moved);
    forall d <- moved + {c.after.fields.cabinet} ensures Recorded(u.changes, body, actor, before, d) {
      if d in moved {
        assert Recorded(u.changes, body, actor, before, d);
      }
    }
  }

  /** Links that have not moved are active exactly as they were. */
  lemma ActiveUnmoved(base: Records, s: Store, t: Store, body: Body, actor: Actor, moved: set<Id>, k: Key)
    requires body.Batch? && Stage(base, s, t, body, actor, moved)
    requires IsLink(t.records, k, body.version) && t.records[k].fields.cabinet !in moved
    ensures t.records[k].archived <==> t.records[k].fields.cabinet !in ActiveCabinets(s.records, body.version)
  {
    assert Untouched(s, t, k);
    if t.records[k].fields.cabinet in ActiveCabinets(s.records, body.version) {
      var j :| j in s.records && IsLink(s.records, j, body.version) && !s.records[j].archived
               && s.records[j].fields.cabinet == t.records[k].fields.cabinet;
      assert SameLinks(s.records[j].fields, t.records[j].fields);
      OneLink(t.records, body.version, j, k);
    }
  }

  lemma LinkSurvives(s: Store, t: Store, version: Id, cabinet: Id)
    requires Extends(s, t)
    ensures cabinet in ActiveCabinets(s.records, version) ==>
        exists k <- t.records :: LinkTo(t.records, k, version, cabinet)
  {
    if cabinet in ActiveCabinets(s.records, version) {
      var j :| j in s.records && IsLink(s.records, j, version) && !s.records[j].archived
          && s.records[j].fields.cabinet == cabinet;
      assert SameLinks(s.records[j].fields, t.records[j].fields);
      assert LinkTo(t.records, j, version, cabinet);
    }
  }

  /** Versions and cabinets do not change during a batch. */
  lemma StillRestorable(base: Records, s: Store, t: Store, body: Body, actor: Actor, moved: set<Id>, cabinet: Id)
    requires body.Batch? && Stage(base, s, t, body, actor, moved) && Consistent(s.records)
    requires Restorable(s.records, CompatibilityFields(body.version, cabinet, None))
    ensures Restorable(t.records, CompatibilityFields(body.version, cabinet, None))
  {
    StageInv(base, s, t, body, actor, moved);
    InvConsistent(base, t);
    StageMoved(base, s, t, body, actor, moved);
    hide *;
    OthersStay(s, t, body.version, actor, moved, Key(Version, body.version));
    OthersStay(s, t, body.version, actor, moved, Key(Cabinet, cabinet));
    RestorableSame(s.records, t.records, body.version, cabinet);
  }

  lemma RestorableSame(first: Records, second: Records, version: Id, cabinet: Id)
    requires Restorable(first, CompatibilityFields(version, cabinet, None))
    requires Lookup(second, Key(Version, version)) == Lookup(first, Key(Version, version))
    requires Lookup(second, Key(Cabinet, cabinet)) == Lookup(first, Key(Cabinet, cabinet))
    ensures Restorable(second, CompatibilityFields(version, cabinet, None))
  {
    var f := CompatibilityFields(version, cabinet, None);
    assert Parents(f) == {Key(Version, version), Key(Cabinet, cabinet)};
    forall p <- Parents(f) ensures Active(second, p) {
      assert Active(first, p);
    }
  }

  lemma StageMoved(base: Records, s: Store, t: Store, body: Body, actor: Actor, moved: set<Id>)
    requires body.Batch? && Stage(base, s, t, body, actor, moved)
    ensures Moved(s, t, body.version, actor, moved)
  {
  }

  lemma OthersStay(s: Store, t: Store, version: Id, actor: Actor, moved: set<Id>, k: Key)
    requires Moved(s, t, version, actor, moved) && Consistent(t.records) && k.entity != Compatibility
    ensures Lookup(t.records, k) == Lookup(s.records, k)
  {
    assert k in t.records ==> Fits(k.entity, t.records[k].fields);
    assert Untouched(s, t, k);
  }

  lemma ActivationAdmissible(records: Records, body: Body, actor: Actor, cabinet: Id, row: Option<Id>, newId: Id)
    requires body.Batch? && Sound(records)
    requires Restorable(records, CompatibilityFields(body.version, cabinet, None))
    requires row.Some? ==> LinkTo(records, Key(Compatibility, row.value), body.version, cabinet)
    requires row.None? ==> Key(Compatibility, newId) !in records
    ensures Admissible(records, Activation(records, body, actor, cabinet, row, newId))
  {
    SameLinksReflexive();
    var c := Activation(records, body, actor, cabinet, row, newId);
    assert Parents(c.after.fields) == Parents(CompatibilityFields(body.version, cabinet, None));
  }

  /** A cabinet that has not moved is inactive before exactly if it has no active row now. */
  lemma RowTellsActive(base: Records, s: Store, w: Work, body: Body, actor: Actor, moved: set<Id>, cabinet: Id)
    requires body.Batch? && Stage(base, s, w.store, body, actor, moved) && Lists(w.store.records, body.version, w.rows)
    requires cabinet !in moved
    ensures Known(w.store.records, w.rows)
    ensures var row := RowFor(w.store.records, w.rows, cabinet);
            && (row.Some? ==> LinkTo(w.store.records, Key(Compatibility, row.value), body.version, cabinet))
            && (cabinet in ActiveCabinets(s.records, body.version) <==>
                  row.Some? && !w.store.records[Key(Compatibility, row.value)].archived)
            && (forall k <- w.store.records :: LinkTo(w.store.records, k, body.version, cabinet) ==>
                  row.Some? && k == Key(Compatibility, row.value))
  {
    var records := w.store.records;
    assert forall id <- w.rows :: IsLink(records, Key(Compatibility, id), body.version);
    var row := RowFor(records, w.rows, cabinet);
    LinkSurvives(s, w.store, body.version, cabinet);
    forall k <- records | LinkTo(records, k, body.version, cabinet)
      ensures row.Some? && k == Key(Compatibility, row.value)
    {
      assert k.id in w.rows;
      OneLink(records, body.version, k, Key(Compatibility, row.value));
    }
    if row.Some? {
      ActiveUnmoved(base, s, w.store, body, actor, moved, Key(Compatibility, row.value));
    }
  }

  /** A cabinet without an active row gets one. */
  lemma ActivationMoves(base: Records, s: Store, t: Store, body: Body, actor: Actor, moved: set<Id>, cabinet: Id,
                        row: Option<Id>, newId: Id)
    requires body.Batch? && Stage(base, s, t, body, actor, moved)
    requires Restorable(t.records, CompatibilityFields(body.version, cabinet, None))
    requires cabinet !in moved && cabinet !in ActiveCabinets(s.records, body.version)
    requires row.None? ==> Key(Compatibility, newId) !in t.records
    requires row.Some? ==> LinkTo(t.records, Key(Compatibility, row.value), body.version, cabinet)
    requires row.Some? ==> t.records[Key(Compatibility, row.value)].archived
    requires forall k <- t.records :: LinkTo(t.records, k, body.version, cabinet) ==>
        row.Some? && k == Key(Compatibility, row.value)
    ensures var r := Commit(t, Activation(t.records, body, actor, cabinet, row, newId), 502);
            r.Ok? ==> Stage(base, s, r.value, body, actor, moved + {cabinet})
  {
    hide *;
    LinkKnown(t.records, row, body.version, cabinet);
    StageParts(base, s, t, body, actor, moved);
    InvParts(base, t);
    ActivationAdmissible(t.records, body, actor, cabinet, row, newId);
    ActivationShape(t.records, body, actor, cabinet, row, newId, ActiveCabinets(s.records, body.version));
    StageCommit(base, s, t, body, actor, moved, Activation(t.records, body, actor, cabinet, row, newId));
  }

  lemma LinkKnown(records: Records, row: Option<Id>, version: Id, cabinet: Id)
    requires row.Some? ==> LinkTo(records, Key(Compatibility, row.value), version, cabinet)
    ensures row.Some? ==> Key(Compatibility, row.value) in records
  {
  }

  lemma ActivationShape(records: Records, body: Body, actor: Actor, cabinet: Id, row: Option<Id>, newId: Id,
                        before: set<Id>)
    requires body.Batch? && cabinet !in before
    requires row.None? ==> Key(Compatibility, newId) !in records
    requires row.Some? ==> LinkTo(records, Key(Compatibility, row.value), body.version, cabinet)
    requires row.Some? ==> records[Key(Compatibility, row.value)].archived
    ensures var c := Activation(records, body, actor, cabinet, row, newId);
            && c.key == Key(Compatibility, if row.Some? then row.value else newId)
            && IsLink(records[c.key := c.after], c.key, body.version)
            && c.after.fields.CompatibilityFields? && c.after.fields.cabinet == cabinet
            && c.after.archived == Active(records, c.key) && Flips(c.before, c.after, actor)
            && c.op == Intent(body, before, cabinet) && c.payload == body && c.actor == actor
  {
  }

  lemma ActivateOneIs(w: Work, body: Body, actor: Actor, cabinet: Id, newId: Id)
    requires body.Batch? && Known(w.store.records, w.rows)
    ensures var row := RowFor(w.store.records, w.rows, cabinet);
            var c := Activation(w.store.records, body, actor, cabinet, row, newId);
            var one := ActivateOne(w, body, actor, cabinet, newId);
            one.Ok? ==>
              if row.Some? && !w.store.records[Key(Compatibility, row.value)].archived then one.value == w
              else Commit(w.store, c, 502) == Ok(one.value.store)
                   && one.value.store.records == w.store.records[c.key := c.after]
                   && c.key == Key(Compatibility, if row.Some? then row.value else newId)
                   && one.value.rows == if row.Some? then w.rows else w.rows + [c.key.id]
  {
    hide RowFor;
  }

  /** The rows are still listed, and only the new link may have been added. */
  lemma ActivateOneLists(base: Records, s: Store, w: Work, body: Body, actor: Actor, moved: set<Id>, cabinet: Id,
                         newId: Id)
    requires body.Batch? && Stage(base, s, w.store, body, actor, moved) && Lists(w.store.records, body.version, w.rows)
    requires cabinet !in moved && Key(Compatibility, newId) !in w.store.records
    ensures Known(w.store.records, w.rows)
    ensures var r := ActivateOne(w, body, actor, cabinet, newId);
            r.Ok? ==> Lists(r.value.store.records, body.version, r.value.rows)
                      && forall k <- r.value.store.records :: k in w.store.records || k == Key(Compatibility, newId)
  {
    RowTellsActive(base, s, w, body, actor, moved, cabinet);
    var row := RowFor(w.store.records, w.rows, cabinet);
    ActivateOneIs(w, body, actor, cabinet, newId);
    ListsAfter(w.store.records, body.version, w.rows, Activation(w.store.records, body, actor, cabinet, row, newId),
        row);
    hide *;
  }

  /** What activating one more cabinet does: nothing if it was active before, one switch otherwise. */
  lemma ActivateOneMoves(base: Records, s: Store, w: Work, body: Body, actor: Actor, moved: set<Id>, cabinet: Id,
                         newId: Id)
    requires body.Batch? && Stage(base, s, w.store, body, actor, moved) && Lists(w.store.records, body.version, w.rows)
    requires Restorable(w.store.records, CompatibilityFields(body.version, cabinet, None))
    requires cabinet !in moved && Key(Compatibility, newId) !in w.store.records
    ensures Known(w.store.records, w.rows)
    ensures var r := ActivateOne(w, body, actor, cabinet, newId);
            r.Ok? ==> Stage(base, s, r.value.store, body, actor, moved
                + ({cabinet} - ActiveCabinets(s.records, body.version)))
  {
    hide *;
    RowTellsActive(base, s, w, body, actor, moved, cabinet);
    ActivateOneIs(w, body, actor, cabinet, newId);
    var before := ActiveCabinets(s.records, body.version);
    if cabinet in before {
      assert moved + ({cabinet} - before) == moved;
    } else {
      assert moved + ({cabinet} - before) == moved + {cabinet};
      ActivationMoves(base, s, w.store, body, actor, moved, cabinet, RowFor(w.store.records, w.rows, cabinet), newId);
    }
  }

  lemma ListsAfter(records: Records, version: Id, rows: seq<Id>, c: Change, row: Option<Id>)
    requires Lists(records, version, rows) && c.key.entity == Compatibility
    requires c.after.fields.CompatibilityFields? && c.after.fields.version == version
    requires row.Some? ==> c.key.id in rows
    requires row.None? ==> c.key !in records
    ensures Lists(records[c.key := c.after], version, if row.Some? then rows else rows + [c.key.id])
  {
    var after := records[c.key := c.after];
    var rows' := if row.Some? then rows else rows + [c.key.id];
    forall id <- rows' ensures IsLink(after, Key(Compatibility, id), version) {
      assert id in rows || id == c.key.id;
    }
  }

  ghost predicate NewIds(records: Records, newIds: seq<Id>) {
    Distinct(newIds) && forall id <- newIds :: Key(Compatibility, id) !in records
  }

  lemma ListsKnown(records: Records, version: Id, rows: seq<Id>)
    requires Lists(records, version, rows)
    ensures Known(records, rows)
  {
    forall id <- rows
      ensures Key(Compatibility, id) in records && records[Key(Compatibility, id)].fields.CompatibilityFields?
    {
      assert IsLink(records, Key(Compatibility, id), version);
    }
  }

  lemma StageStart(base: Records, s: Store, body: Body, actor: Actor)
    requires body.Batch? && Inv(base, s)
    ensures Stage(base, s, s, body, actor, {})
  {
    SameLinksReflexive();
  }

  lemma OfferedRestorable(records: Records, version: Id, cabinets: seq<Id>, cabinet: Id)
    requires Offered(records, version, cabinets) && cabinet in cabinets
    ensures Restorable(records, CompatibilityFields(version, cabinet, None))
  {
  }

  lemma {:induction false} ActivateFirstMoves(base: Records, s: Store, rows: seq<Id>, body: Body, actor: Actor,
                                              newIds: seq<Id>, n: nat)
    requires body.Batch? && Inv(base, s) && Lists(s.records, body.version, rows)
    requires Offered(s.records, body.version, body.cabinets) && Distinct(body.cabinets)
    requires NewIds(s.records, newIds) && n <= |body.cabinets| == |newIds|
    ensures Known(s.records, rows)
    ensures var r := ActivateFirst(Work(s, rows), body, actor, newIds, n);
            r.Ok? ==>
              && Stage(base, s, r.value.store, body, actor, Elements(body.cabinets[..n])
                  - ActiveCabinets(s.records, body.version))
              && Lists(r.value.store.records, body.version, r.value.rows)
              && (forall k <- r.value.store.records :: k in s.records || k.id in newIds[..n])
  {
    hide *;
    ListsKnown(s.records, body.version, rows);
    InvParts(base, s);
    ActivateFirstUnfolds(Work(s, rows), body, actor, newIds, n);
    if n == 0 {
      StageStart(base, s, body, actor);
      NoElements(ActiveCabinets(s.records, body.version));
    } else {
      ActivateFirstMoves(base, s, rows, body, actor, newIds, n - 1);
      var v := ActivateFirst(Work(s, rows), body, actor, newIds, n - 1);
      if v.Ok? {
        ActivateNext(base, s, v.value, body, actor, newIds, n);
      }
    }
  }

  lemma NoElements(before: set<Id>)
    ensures Elements([]) - before == {}
  {
  }

  lemma ActivateNext(base: Records, s: Store, w: Work, body: Body, actor: Actor, newIds: seq<Id>, n: nat)
    requires body.Batch? && Consistent(s.records) && Lists(w.store.records, body.version, w.rows)
    requires Offered(s.records, body.version, body.cabinets) && Distinct(body.cabinets)
    requires NewIds(s.records, newIds) && 0 < n <= |body.cabinets| == |newIds|
    requires Stage(base, s, w.store, body, actor, Elements(body.cabinets[..n - 1])
        - ActiveCabinets(s.records, body.version))
    requires forall k <- w.store.records :: k in s.records || k.id in newIds[..n - 1]
    ensures Known(w.store.records, w.rows)
    ensures var r := ActivateOne(w, body, actor, body.cabinets[n - 1], newIds[n - 1]);
            r.Ok? ==>
              && Stage(base, s, r.value.store, body, actor, Elements(body.cabinets[..n])
                  - ActiveCabinets(s.records, body.version))
              && Lists(r.value.store.records, body.version, r.value.rows)
              && (forall k <- r.value.store.records :: k in s.records || k.id in newIds[..n])
  {
    var before, cabinet := ActiveCabinets(s.records, body.version), body.cabinets[n - 1];
    var moved := Elements(body.cabinets[..n - 1]) - before;
    OfferedRestorable(s.records, body.version, body.cabinets, cabinet);
    StillRestorable(base, s, w.store, body, actor, moved, cabinet);
    NextCabinet(body.cabinets, n, before);
    NextId(s.records, w.store.records, newIds, n);
    hide *;
    ActivateOneMoves(base, s, w, body, actor, moved, cabinet, newIds[n - 1]);
    ActivateOneLists(base, s, w, body, actor, moved, cabinet, newIds[n - 1]);
  }

  lemma NextCabinet(cabinets: seq<Id>, n: nat, before: set<Id>)
    requires 0 < n <= |cabinets| && Distinct(cabinets)
    ensures cabinets[n - 1] !in Elements(cabinets[..n - 1])
    ensures Elements(cabinets[..n - 1]) - before + ({cabinets[n - 1]} - before) == Elements(cabinets[..n]) - before
  {
    assert cabinets[..n] == cabinets[..n - 1] + [cabinets[n - 1]];
  }

  lemma NextId(first: Records, records: Records, newIds: seq<Id>, n: nat)
    requires NewIds(first, newIds) && 0 < n <= |newIds|
    requires forall k <- records :: k in first || k.id in newIds[..n - 1]
    ensures Key(Compatibility, newIds[n - 1]) !in records
    ensures forall k <- records :: k in first || k.id in newIds[..n]
    ensures newIds[n - 1] in newIds[..n]
  {
    assert newIds[..n] == newIds[..n - 1] + [newIds[n - 1]];
    assert newIds[n - 1] !in newIds[..n - 1] && newIds[n - 1] in newIds;
  }

  lemma ArchivalAdmissible(records: Records, body: Body, actor: Actor, id: Id)
    requires body.Batch? && Known(records, [id]) && Sound(records)
    ensures Admissible(records, Archival(records, body, actor, id))
  {
    SameLinksReflexive();
    assert id in [id];
    assert Anchored(records, records[Key(Compatibility, id)]);
  }

  lemma ArchivalMoves(base: Records, s: Store, t: Store, body: Body, actor: Actor, moved: set<Id>, id: Id)
    requires body.Batch? && Stage(base, s, t, body, actor, moved) && Known(t.records, [id])
    requires IsLink(t.records, Key(Compatibility, id), body.version) && !t.records[Key(Compatibility, id)].archived
    requires var cabinet := t.records[Key(Compatibility, id)].fields.cabinet;
             cabinet !in moved && cabinet in ActiveCabinets(s.records, body.version)
    ensures var r := Commit(t, Archival(t.records, body, actor, id), 502);
            r.Ok? ==> Stage(base, s, r.value, body, actor, moved + {t.records[Key(Compatibility, id)].fields.cabinet})
  {
    var c := Archival(t.records, body, actor, id);
    ArchivalAdmissible(t.records, body, actor, id);
    forall k <- t.records | LinkTo(t.records, k, body.version, c.after.fields.cabinet) ensures k == c.key {
      OneLink(t.records, body.version, k, c.key);
    }
    hide Stage, Admissible, ActiveCabinets, Commit;
    StageCommit(base, s, t, body, actor, moved, c);
  }

  lemma ArchiveOneLists(t: Store, usage: Usage, body: Body, actor: Actor, rows: seq<Id>, id: Id)
    requires body.Batch? && Lists(t.records, body.version, rows) && id in rows
    ensures Known(t.records, [id]) && Known(t.records, rows)
    ensures var r := ArchiveOne(t, usage, body, actor, id); r.Ok? ==> Lists(r.value.records, body.version, rows)
  {
    ListsKnown(t.records, body.version, rows);
    assert IsLink(t.records, Key(Compatibility, id), body.version);
    ListsAfter(t.records, body.version, rows, Archival(t.records, body, actor, id), Some(id));
    hide *;
    ArchiveOneIs(t, usage, body, actor, id);
  }

  /** What the archiving loop does to one row: nothing to a requested cabinet or an archived link. */
  lemma ArchiveOneMoves(base: Records, s: Store, t: Store, usage: Usage, body: Body, actor: Actor, moved: set<Id>,
                        rows: seq<Id>, id: Id)
    requires body.Batch? && Stage(base, s, t, body, actor, moved) && Lists(t.records, body.version, rows) && id in rows
    ensures Known(t.records, [id])
    requires var cabinet := t.records[Key(Compatibility, id)].fields.cabinet;
             cabinet !in body.cabinets ==> cabinet !in moved
    ensures var r := ArchiveOne(t, usage, body, actor, id);
            var cabinet := t.records[Key(Compatibility, id)].fields.cabinet;
            r.Ok? ==> Stage(base, s, r.value, body, actor,
                            moved + ({cabinet} * ActiveCabinets(s.records, body.version) - Elements(body.cabinets)))
  {
    var key := Key(Compatibility, id);
    assert IsLink(t.records, key, body.version);
    assert id in [id];
    var cabinet := t.records[key].fields.cabinet;
    var before := ActiveCabinets(s.records, body.version);
    if cabinet !in body.cabinets {
      ActiveUnmoved(base, s, t, body, actor, moved, key);
    }
    ArchivedOrNot(moved, cabinet, before, body.cabinets);
    hide *;
    ArchiveOneIs(t, usage, body, actor, id);
    if cabinet !in body.cabinets && !t.records[key].archived {
      ArchivalMoves(base, s, t, body, actor, moved, id);
    }
  }

  lemma ArchivedOrNot(moved: set<Id>, cabinet: Id, before: set<Id>, desired: seq<Id>)
    ensures moved + ({cabinet} * before - Elements(desired))
         == if cabinet in before && cabinet !in desired then moved + {cabinet} else moved
  {
  }

  lemma ArchiveOneIs(t: Store, usage: Usage, body: Body, actor: Actor, id: Id)
    requires body.Batch? && Known(t.records, [id]) && Key(Compatibility, id) in t.records
    requires t.records[Key(Compatibility, id)].fields.CompatibilityFields?
    ensures var r := t.records[Key(Compatibility, id)];
            var one := ArchiveOne(t, usage, body, actor, id);
            one.Ok? ==>
              if r.fields.cabinet in body.cabinets || r.archived then one.value == t
              else Commit(t, Archival(t.records, body, actor, id), 502) == one
                   && one.value.records == t.records[Key(Compatibility, id) := Archival(t.records, body, actor,
                       id).after]
  {
  }

  function RowCabinets(records: Records, rows: seq<Id>): set<Id>
    requires Known(records, rows)
  {
    set id <- rows :: records[Key(Compatibility, id)].fields.cabinet
  }

  lemma {:induction false} ArchiveFirstMoves(base: Records, s: Store, t: Store, usage: Usage, body: Body,
                                             actor: Actor, moved: set<Id>, rows: seq<Id>, n: nat)
    requires body.Batch? && Stage(base, s, t, body, actor, moved) && Lists(t.records, body.version, rows)
    requires moved <= Elements(body.cabinets) && n <= |rows|
    ensures Known(t.records, rows) && Known(t.records, rows[..n])
    ensures var r := ArchiveFirst(t, usage, body, actor, rows, n);
            r.Ok? ==>
              && Stage(base, s, r.value, body, actor,
                       moved + (RowCabinets(t.records, rows[..n]) * ActiveCabinets(s.records, body.version)
                           - Elements(body.cabinets)))
              && Lists(r.value.records, body.version, rows) && Extends(t, r.value)
  {
    ListsKnown(t.records, body.version, rows);
    var before := ActiveCabinets(s.records, body.version);
    if n == 0 {
      assert moved + (RowCabinets(t.records, rows[..0]) * before - Elements(body.cabinets)) == moved;
      SameLinksReflexive();
    } else {
      ArchiveFirstMoves(base, s, t, usage, body, actor, moved, rows, n - 1);
      var v := ArchiveFirst(t, usage, body, actor, rows, n - 1);
      if v.Ok? {
        NextRow(t, v.value, body.version, rows, n);
        hide Stage, Lists, ActiveCabinets, Extends, ArchiveOne;
        ArchiveNext(base, s, t, v.value, usage, body, actor, moved, rows, rows[n - 1],
            RowCabinets(t.records, rows[..n - 1]));
      }
    }
  }

  /** `seen` holds the cabinets of the rows before. */
  lemma ArchiveNext(base: Records, s: Store, t: Store, v: Store, usage: Usage, body: Body, actor: Actor,
                    moved: set<Id>, rows: seq<Id>, id: Id, seen: set<Id>)
    requires body.Batch? && id in rows && moved <= Elements(body.cabinets)
    requires Lists(v.records, body.version, rows) && Extends(t, v) && Known(v.records, [id])
    requires v.records[Key(Compatibility, id)].fields.cabinet !in seen
    requires Stage(base, s, v, body, actor, moved
        + (seen * ActiveCabinets(s.records, body.version) - Elements(body.cabinets)))
    ensures var r := ArchiveOne(v, usage, body, actor, id);
            var seen' := seen + {v.records[Key(Compatibility, id)].fields.cabinet};
            r.Ok? ==>
              && Stage(base, s, r.value, body, actor, moved
                  + (seen' * ActiveCabinets(s.records, body.version) - Elements(body.cabinets)))
              && Lists(r.value.records, body.version, rows) && Extends(t, r.value)
  {
    var cabinet := v.records[Key(Compatibility, id)].fields.cabinet;
    hide *;
    var before := ActiveCabinets(s.records, body.version);
    var gone := moved + (seen * before - Elements(body.cabinets));
    StageInv(base, s, v, body, actor, gone);
    ArchiveOneExtends(base, v, usage, body, actor, id, t);
    NextGone(moved, seen, before, body.cabinets, cabinet);
    ArchiveOneMoves(base, s, v, usage, body, actor, gone, rows, id);
    ArchiveOneLists(v, usage, body, actor, rows, id);
  }

  lemma NextGone(moved: set<Id>, seen: set<Id>, before: set<Id>, desired: seq<Id>, cabinet: Id)
    requires moved <= Elements(desired) && cabinet !in seen
    ensures cabinet !in desired ==> cabinet !in moved + (seen * before - Elements(desired))
    ensures moved + (seen * before - Elements(desired)) + ({cabinet} * before - Elements(desired))
         == moved + ((seen + {cabinet}) * before - Elements(desired))
  {
  }

  lemma StageInv(base: Records, s: Store, t: Store, body: Body, actor: Actor, moved: set<Id>)
    requires body.Batch? && Stage(base, s, t, body, actor, moved)
    ensures Inv(base, t)
  {
  }

  lemma NextRow(t: Store, v: Store, version: Id, rows: seq<Id>, n: nat)
    requires Lists(t.records, version, rows) && Lists(v.records, version, rows) && Extends(t, v)
    requires UniqueLinks(t.records) && 0 < n <= |rows|
    ensures Known(t.records, rows) && Known(t.records, rows[..n - 1]) && Known(t.records, rows[..n])
    ensures Known(v.records, [rows[n - 1]]) && IsLink(v.records, Key(Compatibility, rows[n - 1]), version)
    ensures var cabinet := v.records[Key(Compatibility, rows[n - 1])].fields.cabinet;
            && cabinet !in RowCabinets(t.records, rows[..n - 1])
            && RowCabinets(t.records, rows[..n]) == RowCabinets(t.records, rows[..n - 1]) + {cabinet}
  {
    ListsKnown(t.records, version, rows);
    var key := Key(Compatibility, rows[n - 1]);
    assert IsLink(t.records, key, version) && IsLink(v.records, key, version);
    assert SameLinks(t.records[key].fields, v.records[key].fields);
    forall j <- rows[..n - 1] ensures t.records[Key(Compatibility, j)].fields.cabinet != t.records[key].fields.cabinet {
      assert IsLink(t.records, Key(Compatibility, j), version);
      if t.records[Key(Compatibility, j)].fields.cabinet == t.records[key].fields.cabinet {
        OneLink(t.records, version, key, Key(Compatibility, j));
      }
    }
    assert rows[..n] == rows[..n - 1] + [rows[n - 1]];
  }

  lemma ArchiveOneExtends(base: Records, v: Store, usage: Usage, body: Body, actor: Actor, id: Id, t: Store)
    requires body.Batch? && Known(v.records, [id]) && Inv(base, v) && Extends(t, v)
    ensures var r := ArchiveOne(v, usage, body, actor, id); r.Ok? ==> Extends(t, r.value)
  {
    var c := Archival(v.records, body, actor, id);
    assert id in [id];
    InvConsistent(base, v);
    ArchiveOneIs(v, usage, body, actor, id);
    hide *;
    ArchivalAdmissible(v.records, body, actor, id);
    CommitKeeps(base, v, c, 502);
    var r := ArchiveOne(v, usage, body, actor, id);
    if r.Ok? && r.value != v {
      ExtendsTransitive(t, v, r.value);
    }
  }

  lemma {:induction false} DistinctSize<T>(s: seq<T>)
    requires Distinct(s)
    ensures |Elements(s)| == |s|
  {
    if s != [] {
      var n := |s| - 1;
      DistinctSize(s[..n]);
      assert s == s[..n] + [s[n]];
      assert Elements(s) == Elements(s[..n]) + {s[n]};
      assert s[n] !in Elements(s[..n]);
    }
  }

  lemma SameSize<T>(a: set<T>, b: set<T>)
    requires a <= b && |a| == |b|
    ensures a == b
  {
    assert b == a + (b - a);
  }

  /** What the caller expects is all there is: the count leaves no room for a link it does not name. */
  lemma ExpectedIsActive(records: Records, version: Id, rows: seq<Id>, links: seq<Expected>)
    requires Lists(records, version, rows) && Distinct(LinkIds(links))
    ensures Known(records, rows)
    ensures AsExpected(records, rows, links) ==> ActiveCabinets(records, version) == Elements(LinkCabinets(links))
  {
    ListsKnown(records, version, rows);
    if AsExpected(records, rows, links) {
      var ids, cabinets := LinkIds(links), LinkCabinets(links);
      DistinctSize(ids);
      forall id <- ids ensures id in ActiveRows(records, rows) {
        var i :| 0 <= i < |ids| && ids[i] == id;
        assert links[i] in links;
      }
      SameSize(Elements(ids), ActiveRows(records, rows));
      forall c <- cabinets ensures c in ActiveCabinets(records, version) {
        var i :| 0 <= i < |cabinets| && cabinets[i] == c;
        assert links[i] in links && links[i].id in rows;
        assert IsLink(records, Key(Compatibility, links[i].id), version);
      }
      forall c <- ActiveCabinets(records, version) ensures c in cabinets {
        var k :| k in records && IsLink(records, k, version) && !records[k].archived && records[k].fields.cabinet == c;
        assert k.id in ActiveRows(records, rows) && k.id in Elements(ids);
        var i :| 0 <= i < |ids| && ids[i] == k.id;
        assert links[i] in links && cabinets[i] == c;
      }
    }
  }

  /** The cabinets on which a request and its expectation differ. */
  ghost function Difference(body: Body): set<Id>
    requires body.Batch?
  {
    var desired, expected := Elements(body.cabinets), Elements(LinkCabinets(body.links));
    (desired - expected) + (expected - desired)
  }

  /** Switching the links in the difference turns the old set into the requested one. */
  lemma SwitchedSet(base: Records, s: Store, t: Store, body: Body, actor: Actor)
    requires body.Batch? && Stage(base, s, t, body, actor, Difference(body))
    requires ActiveCabinets(s.records, body.version) == Elements(LinkCabinets(body.links))
    ensures ActiveCabinets(t.records, body.version) == Elements(body.cabinets)
  {
    hide *;
    forall k <- t.records | IsLink(t.records, k, body.version) {
      SwitchedLink(base, s, t, body, actor, k);
    }
    forall c <- Elements(body.cabinets) {
      SwitchedHas(base, s, t, body, actor, c);
    }
    LinksDecide(t.records, body.version, Elements(body.cabinets));
  }

  lemma LinksDecide(records: Records, version: Id, desired: set<Id>)
    requires forall k <- records :: IsLink(records, k, version) ==>
        (records[k].archived <==> records[k].fields.cabinet !in desired)
    requires forall c <- desired :: exists k :: LinkTo(records, k, version, c)
    ensures ActiveCabinets(records, version) == desired
  {
    forall c <- desired ensures c in ActiveCabinets(records, version) {
      var k :| LinkTo(records, k, version, c);
    }
  }

  /** After the batch a link is active exactly if it was asked for. */
  lemma SwitchedLink(base: Records, s: Store, t: Store, body: Body, actor: Actor, k: Key)
    requires body.Batch? && Stage(base, s, t, body, actor, Difference(body))
    requires ActiveCabinets(s.records, body.version) == Elements(LinkCabinets(body.links))
    requires IsLink(t.records, k, body.version)
    ensures t.records[k].archived <==> t.records[k].fields.cabinet !in Elements(body.cabinets)
  {
    StageParts(base, s, t, body, actor, Difference(body));
    InvParts(base, t);
    hide Stage, Inv, Elements, Extends, AllRecorded, FreshLog, ActiveCabinets, UniqueLinks, Active;
    if t.records[k].fields.cabinet in Difference(body) {
      assert Switched(s, t, k, actor);
      ActiveBefore(s, t, k, body.version);
    } else {
      ActiveUnmoved(base, s, t, body, actor, Difference(body), k);
    }
  }

  /** After the batch every cabinet asked for has a link. */
  lemma SwitchedHas(base: Records, s: Store, t: Store, body: Body, actor: Actor, cabinet: Id)
    requires body.Batch? && Stage(base, s, t, body, actor, Difference(body)) && cabinet in Elements(body.cabinets)
    requires ActiveCabinets(s.records, body.version) == Elements(LinkCabinets(body.links))
    ensures exists k :: LinkTo(t.records, k, body.version, cabinet)
  {
    StageParts(base, s, t, body, actor, Difference(body));
    hide Stage, Inv, Elements, Extends, AllRecorded, FreshLog, ActiveCabinets, LinkTo, Switched, Untouched;
    LinkSurvives(s, t, body.version, cabinet);
  }

  lemma ActiveBefore(s: Store, t: Store, k: Key, version: Id)
    requires Extends(s, t) && UniqueLinks(t.records) && IsLink(t.records, k, version)
    ensures Active(s.records, k) <==> t.records[k].fields.cabinet in ActiveCabinets(s.records, version)
  {
    var cabinet := t.records[k].fields.cabinet;
    if Active(s.records, k) {
      assert SameLinks(s.records[k].fields, t.records[k].fields);
    }
    if cabinet in ActiveCabinets(s.records, version) {
      var j :| j in s.records && IsLink(s.records, j, version) && !s.records[j].archived
          && s.records[j].fields.cabinet == cabinet;
      assert SameLinks(s.records[j].fields, t.records[j].fields);
      OneLink(t.records, version, j, k);
    }
  }

  /** A batch that is carried out leaves the version with exactly the requested cabinets. It switches the links on
      which request and expectation differ, each in one logged revision, and touches nothing else. */
  lemma BatchReconciles(base: Records, s: Store, usage: Usage, body: Body, actor: Actor, rows: seq<Id>,
                        newIds: seq<Id>)
    requires body.Batch? && Inv(base, s) && Lists(s.records, body.version, rows)
    requires NewIds(s.records, newIds) && |newIds| == |body.cabinets|
    ensures Known(s.records, rows)
    ensures var (t, answer) := Replaced(s, usage, body, actor, rows, newIds);
            answer.Reconciled? ==>
              && ActiveCabinets(s.records, body.version) == Elements(LinkCabinets(body.links))
              && ActiveCabinets(t.records, body.version) == Elements(body.cabinets)
              && Moved(s, t, body.version, actor, Difference(body))
              && answer.changes == t.changes[|s.changes|..]
  {
    ReplacedStage(base, s, usage, body, actor, rows, newIds);
    var (t, answer) := Replaced(s, usage, body, actor, rows, newIds);
    if answer.Reconciled? {
      SwitchedSet(base, s, t, body, actor);
    }
  }

  lemma ReplacedStage(base: Records, s: Store, usage: Usage, body: Body, actor: Actor, rows: seq<Id>,
                      newIds: seq<Id>)
    requires body.Batch? && Inv(base, s) && Lists(s.records, body.version, rows)
    requires NewIds(s.records, newIds) && |newIds| == |body.cabinets|
    ensures Known(s.records, rows)
    ensures var (t, answer) := Replaced(s, usage, body, actor, rows, newIds);
            if answer.Reconciled? then
              && Stage(base, s, t, body, actor, Difference(body))
              && ActiveCabinets(s.records, body.version) == Elements(LinkCabinets(body.links))
              && s.changes <= t.changes && answer.changes == t.changes[|s.changes|..]
            else t == s
  {
    hide *;
    ListsKnown(s.records, body.version, rows);
    InvParts(base, s);
    ReplacedCases(s, usage, body, actor, rows, newIds);
    if Replaced(s, usage, body, actor, rows, newIds).1.Reconciled? {
      CheckedParts(s, body, rows);
      ExpectedIsActive(s.records, body.version, rows, body.links);
      ActivateFirstMoves(base, s, rows, body, actor, newIds, |body.cabinets|);
      var w := ActivateFirst(Work(s, rows), body, actor, newIds, |body.cabinets|).value;
      assert body.cabinets[..|body.cabinets|] == body.cabinets;
      ArchiveAllMoves(base, s, w, usage, body, actor,
                      Elements(body.cabinets) - ActiveCabinets(s.records, body.version));
    }
  }

  /** A batch changes nothing, or activates and archives. */
  lemma ReplacedCases(s: Store, usage: Usage, body: Body, actor: Actor, rows: seq<Id>, newIds: seq<Id>)
    requires body.Batch? && Known(s.records, rows) && |newIds| == |body.cabinets|
    ensures var (t, answer) := Replaced(s, usage, body, actor, rows, newIds);
            if answer.Reconciled? then
              && Checked(s, body, rows)
              && var first := ActivateFirst(Work(s, rows), body, actor, newIds, |body.cabinets|);
                 && first.Ok? && Known(first.value.store.records, first.value.rows)
                 && ArchiveFirst(first.value.store, usage, body, actor, first.value.rows, |first.value.rows|)
                    == Ok(t)
                 && s.changes <= t.changes && answer.changes == t.changes[|s.changes|..]
            else t == s
  {
    hide WellFormed, Offered, AsExpected, AllReplayed, Intents, ActivateFirst, ArchiveFirst, Known;
  }

  lemma ArchiveAllMoves(base: Records, s: Store, w: Work, usage: Usage, body: Body, actor: Actor, moved: set<Id>)
    requires body.Batch? && Stage(base, s, w.store, body, actor, moved) && Lists(w.store.records, body.version, w.rows)
    requires moved == Elements(body.cabinets) - ActiveCabinets(s.records, body.version)
    requires ActiveCabinets(s.records, body.version) == Elements(LinkCabinets(body.links))
    ensures Known(w.store.records, w.rows)
    ensures var r := ArchiveFirst(w.store, usage, body, actor, w.rows, |w.rows|);
            r.Ok? ==> Stage(base, s, r.value, body, actor, Difference(body))
  {
    ArchiveFirstMoves(base, s, w.store, usage, body, actor, moved, w.rows, |w.rows|);
    assert w.rows[..|w.rows|] == w.rows;
    var before, cabinets := ActiveCabinets(s.records, body.version), RowCabinets(w.store.records, w.rows);
    forall c <- before ensures c in cabinets {
      LinkSurvives(s, w.store, body.version, c);
      var k :| k in w.store.records && LinkTo(w.store.records, k, body.version, c);
      assert k.id in w.rows;
    }
    assert cabinets * before == before;
  }

  // ---------------------------------------------------------------------------------------------
  // When a batch is carried out
  // ---------------------------------------------------------------------------------------------

  /** What a caller can check before asking: a well-formed request for an active version and cabinets of its series,
      an expectation that is met, derived ids that are unused, and no link to be dropped that is in use outside the
      catalog. */
  ghost predicate CanReconcile(s: Store, usage: Usage, body: Body, rows: seq<Id>)
    requires body.Batch? && Known(s.records, rows)
  {
    && WellFormed(body) && Offered(s.records, body.version, body.cabinets)
    && AsExpected(s.records, rows, body.links)
    && (forall op <- Intents(body) :: FindChange(s.changes, op).None?)
    && forall id <- rows :: !Stuck(s.records, usage, body, id)
  }

  /** An active link to a cabinet that was not asked for. */
  predicate Dropped(records: Records, body: Body, id: Id)
    requires body.Batch?
  {
    var key := Key(Compatibility, id);
    key in records && records[key].fields.CompatibilityFields? && !records[key].archived
    && records[key].fields.cabinet !in body.cabinets
  }

  /** Such a link that cannot be archived, as it is in use outside the catalog. */
  predicate Stuck(records: Records, usage: Usage, body: Body, id: Id)
    requires body.Batch?
  {
    Dropped(records, body, id) && InUse(records, usage, Key(Compatibility, id))
  }

  /** Nothing in the catalog refers to a compatibility. */
  lemma LinkBlocked(records: Records, usage: Usage, id: Id)
    ensures Blocked(records, usage, Key(Compatibility, id)) <==> InUse(records, usage, Key(Compatibility, id))
  {
  }

  /** A commit under an unused id for a link that clashes with no other. */
  lemma CommitSucceeds(base: Records, s: Store, t: Store, body: Body, actor: Actor, moved: set<Id>, c: Change,
                       cabinet: Id)
    requires body.Batch? && Stage(base, s, t, body, actor, moved) && cabinet !in moved
    requires c.op == Intent(body, ActiveCabinets(s.records, body.version), cabinet)
    requires FindChange(s.changes, c.op).None?
    requires c.after.fields.CompatibilityFields? && c.after.fields.version == body.version
        && c.after.fields.cabinet == cabinet
    requires forall k <- t.records :: LinkTo(t.records, k, body.version, cabinet) ==> k == c.key
    ensures Commit(t, c, 502).Ok?
  {
    StageParts(base, s, t, body, actor, moved);
    StillFresh(s.changes, t.changes, body, ActiveCabinets(s.records, body.version), moved, cabinet);
    hide Stage, Inv, Extends, Moved, AllRecorded, FreshLog, ActiveCabinets;
    assert !Clashes(t.records, c.key, c.after);
  }

  /** Activating a cabinet succeeds if its derived id is unused. */
  lemma ActivateOneSucceeds(base: Records, s: Store, w: Work, body: Body, actor: Actor, moved: set<Id>, cabinet: Id,
                            newId: Id)
    requires body.Batch? && Stage(base, s, w.store, body, actor, moved) && Lists(w.store.records, body.version, w.rows)
    requires cabinet !in moved
    requires cabinet !in ActiveCabinets(s.records, body.version) ==>
        FindChange(s.changes, Derived(body.op, true, cabinet)).None?
    ensures Known(w.store.records, w.rows)
    ensures ActivateOne(w, body, actor, cabinet, newId).Ok?
  {
    RowTellsActive(base, s, w, body, actor, moved, cabinet);
    var row := RowFor(w.store.records, w.rows, cabinet);
    if cabinet !in ActiveCabinets(s.records, body.version) {
      var c := Activation(w.store.records, body, actor, cabinet, row, newId);
      hide Stage, Lists, ActiveCabinets, RowFor, Commit, Known;
      CommitSucceeds(base, s, w.store, body, actor, moved, c, cabinet);
    }
    hide Stage, Lists, ActiveCabinets, RowFor, Commit, Known;
  }

  lemma {:induction false} ActivateFirstSucceeds(base: Records, s: Store, rows: seq<Id>, body: Body, actor: Actor,
                                                 newIds: seq<Id>, n: nat)
    requires body.Batch? && Inv(base, s) && Lists(s.records, body.version, rows)
    requires Offered(s.records, body.version, body.cabinets) && Distinct(body.cabinets)
    requires NewIds(s.records, newIds) && n <= |body.cabinets| == |newIds|
    requires forall c <- body.cabinets :: c !in ActiveCabinets(s.records, body.version) ==>
               FindChange(s.changes, Derived(body.op, true, c)).None?
    ensures Known(s.records, rows)
    ensures ActivateFirst(Work(s, rows), body, actor, newIds, n).Ok?
  {
    hide *;
    ListsKnown(s.records, body.version, rows);
    ActivateFirstUnfolds(Work(s, rows), body, actor, newIds, n);
    if n > 0 {
      ActivateFirstSucceeds(base, s, rows, body, actor, newIds, n - 1);
      ActivateNextSucceeds(base, s, rows, body, actor, newIds, n,
          ActivateFirst(Work(s, rows), body, actor, newIds, n - 1).value);
    }
  }

  lemma ActivateFirstUnfolds(w: Work, body: Body, actor: Actor, newIds: seq<Id>, n: nat)
    requires body.Batch? && Known(w.store.records, w.rows) && n <= |body.cabinets| == |newIds|
    ensures ActivateFirst(w, body, actor, newIds, 0) == Ok(w)
    ensures n > 0 ==>
              var first := ActivateFirst(w, body, actor, newIds, n - 1);
              if first.Fail? then ActivateFirst(w, body, actor, newIds, n) == first
              else Known(first.value.store.records, first.value.rows)
                   && ActivateFirst(w, body, actor, newIds, n)
                      == ActivateOne(first.value, body, actor, body.cabinets[n - 1], newIds[n - 1])
  {
    hide ActivateOne, Known;
  }

  lemma ActivateNextSucceeds(base: Records, s: Store, rows: seq<Id>, body: Body, actor: Actor, newIds: seq<Id>, n: nat,
                             w: Work)
    requires body.Batch? && Inv(base, s) && Lists(s.records, body.version, rows) && Known(s.records, rows)
    requires Offered(s.records, body.version, body.cabinets) && Distinct(body.cabinets)
    requires NewIds(s.records, newIds) && 0 < n <= |body.cabinets| == |newIds|
    requires ActivateFirst(Work(s, rows), body, actor, newIds, n - 1) == Ok(w)
    requires body.cabinets[n - 1] !in ActiveCabinets(s.records, body.version) ==>
               FindChange(s.changes, Derived(body.op, true, body.cabinets[n - 1])).None?
    ensures Known(w.store.records, w.rows)
    ensures ActivateOne(w, body, actor, body.cabinets[n - 1], newIds[n - 1]).Ok?
  {
    hide *;
    ActivateFirstMoves(base, s, rows, body, actor, newIds, n - 1);
    NextCabinet(body.cabinets, n, ActiveCabinets(s.records, body.version));
    ActivateOneSucceeds(base, s, w, body, actor, Elements(body.cabinets[..n - 1])
        - ActiveCabinets(s.records, body.version),
                        body.cabinets[n - 1], newIds[n - 1]);
  }

  /** With unused derived ids, archiving a row fails exactly if it is a link to be dropped that is in use outside. */
  lemma ArchiveOneSucceeds(base: Records, s: Store, t: Store, usage: Usage, body: Body, actor: Actor,
                           moved: set<Id>, rows: seq<Id>, id: Id)
    requires body.Batch? && Stage(base, s, t, body, actor, moved) && Lists(t.records, body.version, rows) && id in rows
    ensures Known(t.records, [id])
    requires var cabinet := t.records[Key(Compatibility, id)].fields.cabinet;
             cabinet !in body.cabinets ==>
               cabinet !in moved
               && (cabinet in ActiveCabinets(s.records, body.version) ==>
                   FindChange(s.changes, Derived(body.op, false, cabinet)).None?)
    ensures ArchiveOne(t, usage, body, actor, id).Ok? <==>
        !Stuck(t.records, usage, body, id)
    ensures Dropped(t.records, body, id) ==>
              t.records[Key(Compatibility, id)].fields.cabinet in ActiveCabinets(s.records, body.version)
  {
    var key := Key(Compatibility, id);
    assert id in [id] && IsLink(t.records, key, body.version);
    LinkBlocked(t.records, usage, id);
    ArchiveOneCases(t, usage, body, actor, id);
    hide Stage, Lists, ActiveCabinets, Blocked, Commit, Archival, ArchiveOne;
    if Dropped(t.records, body, id) {
      ActiveUnmoved(base, s, t, body, actor, moved, key);
      DropSucceeds(base, s, t, body, actor, moved, id);
    }
  }

  lemma ArchiveOneCases(t: Store, usage: Usage, body: Body, actor: Actor, id: Id)
    requires body.Batch? && Known(t.records, [id])
    ensures var key := Key(Compatibility, id);
            && key in t.records
            && ArchiveOne(t, usage, body, actor, id) ==
               if t.records[key].archived || t.records[key].fields.cabinet in body.cabinets then Ok(t)
               else if Blocked(t.records, usage, key) then Fail(409)
               else Commit(t, Archival(t.records, body, actor, id), 502)
  {
    hide Commit, Blocked, Archival;
    assert id in [id];
  }

  lemma DropSucceeds(base: Records, s: Store, t: Store, body: Body, actor: Actor, moved: set<Id>, id: Id)
    requires body.Batch? && Stage(base, s, t, body, actor, moved)
    requires Known(t.records, [id]) && IsLink(t.records, Key(Compatibility, id), body.version)
    requires var cabinet := t.records[Key(Compatibility, id)].fields.cabinet;
             && cabinet !in moved && cabinet in ActiveCabinets(s.records, body.version)
             && FindChange(s.changes, Derived(body.op, false, cabinet)).None?
    ensures Commit(t, Archival(t.records, body, actor, id), 502).Ok?
  {
    var key := Key(Compatibility, id);
    var c := Archival(t.records, body, actor, id);
    StageParts(base, s, t, body, actor, moved);
    InvParts(base, t);
    hide Stage, Inv, UniqueLinks, Extends, Moved, AllRecorded, FreshLog, ActiveCabinets, Commit, FindChange;
    forall k <- t.records | LinkTo(t.records, k, body.version, c.after.fields.cabinet) ensures k == key {
      OneLink(t.records, body.version, k, key);
    }
    CommitSucceeds(base, s, t, body, actor, moved, c, c.after.fields.cabinet);
  }

  ghost predicate NothingInUse(records: Records, usage: Usage, body: Body, rows: seq<Id>)
    requires body.Batch?
  {
    forall id <- rows :: !Stuck(records, usage, body, id)
  }

  /** The links that are to be dropped are the same at every stage before their turn. */
  lemma DroppedUnmoved(base: Records, s: Store, t: Store, v: Store, usage: Usage, body: Body, actor: Actor,
                       moved: set<Id>, gone: set<Id>, id: Id)
    requires body.Batch? && Stage(base, s, t, body, actor, moved) && Stage(base, s, v, body, actor, gone)
        && Extends(t, v)
    requires IsLink(t.records, Key(Compatibility, id), body.version)
    requires var cabinet := t.records[Key(Compatibility, id)].fields.cabinet;
             cabinet !in body.cabinets ==> cabinet !in moved && cabinet !in gone
    ensures Dropped(v.records, body, id) <==> Dropped(t.records, body, id)
    ensures Stuck(v.records, usage, body, id) <==> Stuck(t.records, usage, body, id)
  {
    hide Stage, ActiveCabinets, Extends;
    var key := Key(Compatibility, id);
    LinkStays(t, v, body.version, key);
    if t.records[key].fields.cabinet !in body.cabinets {
      ActiveUnmoved(base, s, t, body, actor, moved, key);
      ActiveUnmoved(base, s, v, body, actor, gone, key);
    }
  }

  lemma LinkStays(t: Store, v: Store, version: Id, k: Key)
    requires Extends(t, v) && IsLink(t.records, k, version)
    ensures IsLink(v.records, k, version) && v.records[k].fields.cabinet == t.records[k].fields.cabinet
  {
    assert SameLinks(t.records[k].fields, v.records[k].fields);
  }

  ghost predicate DropsUnlogged(s: Store, body: Body)
    requires body.Batch?
  {
    forall c <- ActiveCabinets(s.records, body.version) ::
      c !in body.cabinets ==> FindChange(s.changes, Derived(body.op, false, c)).None?
  }

  lemma {:induction false} ArchiveFirstSucceeds(base: Records, s: Store, t: Store, usage: Usage, body: Body,
                                                actor: Actor, moved: set<Id>, rows: seq<Id>, n: nat)
    requires body.Batch? && Stage(base, s, t, body, actor, moved) && Lists(t.records, body.version, rows)
    requires moved <= Elements(body.cabinets) && n <= |rows| && DropsUnlogged(s, body)
    ensures Known(t.records, rows)
    ensures ArchiveFirst(t, usage, body, actor, rows, n).Ok? <==> NothingInUse(t.records, usage, body, rows[..n])
  {
    hide *;
    ListsKnown(t.records, body.version, rows);
    ArchiveFirstUnfolds(t, usage, body, actor, rows, n);
    if n > 0 {
      ArchiveFirstSucceeds(base, s, t, usage, body, actor, moved, rows, n - 1);
      assert rows[..n] == rows[..n - 1] + [rows[n - 1]];
      NothingInUseNext(t.records, usage, body, rows[..n - 1], rows[n - 1]);
      var v := ArchiveFirst(t, usage, body, actor, rows, n - 1);
      if v.Ok? {
        ArchiveNextSucceeds(base, s, t, v.value, usage, body, actor, moved, rows, n);
      }
    } else {
      NoRowInUse(t.records, usage, body, rows);
    }
  }

  lemma NoRowInUse(records: Records, usage: Usage, body: Body, rows: seq<Id>)
    requires body.Batch?
    ensures NothingInUse(records, usage, body, rows[..0])
  {
  }

  lemma ArchiveFirstUnfolds(t: Store, usage: Usage, body: Body, actor: Actor, rows: seq<Id>, n: nat)
    requires body.Batch? && Known(t.records, rows) && n <= |rows|
    ensures ArchiveFirst(t, usage, body, actor, rows, 0) == Ok(t)
    ensures n > 0 ==>
              var first := ArchiveFirst(t, usage, body, actor, rows, n - 1);
              if first.Ok? then
                && Known(first.value.records, [rows[n - 1]])
                && ArchiveFirst(t, usage, body, actor, rows, n)
                    == ArchiveOne(first.value, usage, body, actor, rows[n - 1])
              else ArchiveFirst(t, usage, body, actor, rows, n).Fail?
  {
    if n > 0 {
      assert rows[n - 1] in rows;
    }
    hide ArchiveOne;
  }

  lemma NothingInUseNext(records: Records, usage: Usage, body: Body, rows: seq<Id>, id: Id)
    requires body.Batch?
    ensures NothingInUse(records, usage, body, rows + [id]) <==>
              NothingInUse(records, usage, body, rows)
                  && !Stuck(records, usage, body, id)
  {
    hide Dropped;
    assert id in rows + [id];
    assert forall x <- rows :: x in rows + [id];
  }

  lemma ArchiveNextSucceeds(base: Records, s: Store, t: Store, v: Store, usage: Usage, body: Body, actor: Actor,
                            moved: set<Id>, rows: seq<Id>, n: nat)
    requires body.Batch? && Stage(base, s, t, body, actor, moved) && Lists(t.records, body.version, rows)
        && Known(t.records, rows)
    requires moved <= Elements(body.cabinets) && 0 < n <= |rows| && DropsUnlogged(s, body)
    requires ArchiveFirst(t, usage, body, actor, rows, n - 1) == Ok(v)
    ensures Known(v.records, [rows[n - 1]])
    ensures ArchiveOne(v, usage, body, actor, rows[n - 1]).Ok? <==>
              !Stuck(t.records, usage, body, rows[n - 1])
  {
    hide *;
    ArchiveFirstMoves(base, s, t, usage, body, actor, moved, rows, n - 1);
    StageInv(base, s, t, body, actor, moved);
    InvUnique(base, t);
    NextRow(t, v, body.version, rows, n);
    var seen, id := RowCabinets(t.records, rows[..n - 1]), rows[n - 1];
    var gone := moved + (seen * ActiveCabinets(s.records, body.version) - Elements(body.cabinets));
    RowCabinetStays(t, v, body.version, rows, id);
    var cabinet := v.records[Key(Compatibility, id)].fields.cabinet;
    NextGone(moved, seen, ActiveCabinets(s.records, body.version), body.cabinets, cabinet);
    NotMoved(moved, body.cabinets, cabinet);
    DropUnlogged(s, body, cabinet);
    DroppedUnmoved(base, s, t, v, usage, body, actor, moved, gone, id);
    ArchiveOneSucceeds(base, s, v, usage, body, actor, gone, rows, id);
  }

  lemma InvUnique(base: Records, s: Store)
    requires Inv(base, s)
    ensures UniqueLinks(s.records)
  {
  }

  lemma NotMoved(moved: set<Id>, desired: seq<Id>, cabinet: Id)
    requires moved <= Elements(desired)
    ensures cabinet !in desired ==> cabinet !in moved
  {
  }

  lemma DropUnlogged(s: Store, body: Body, cabinet: Id)
    requires body.Batch? && DropsUnlogged(s, body)
    ensures cabinet in ActiveCabinets(s.records, body.version) && cabinet !in body.cabinets ==>
              FindChange(s.changes, Derived(body.op, false, cabinet)).None?
  {
    hide FindChange, ActiveCabinets;
  }

  lemma RowCabinetStays(t: Store, v: Store, version: Id, rows: seq<Id>, id: Id)
    requires Lists(t.records, version, rows) && Lists(v.records, version, rows) && Extends(t, v) && id in rows
    ensures IsLink(t.records, Key(Compatibility, id), version) && IsLink(v.records, Key(Compatibility, id), version)
    ensures Key(Compatibility, id) in t.records && t.records[Key(Compatibility, id)].fields.CompatibilityFields?
    ensures Key(Compatibility, id) in v.records && v.records[Key(Compatibility, id)].fields.CompatibilityFields?
    ensures v.records[Key(Compatibility, id)].fields.cabinet == t.records[Key(Compatibility, id)].fields.cabinet
  {
    var key := Key(Compatibility, id);
    assert IsLink(t.records, key, version) && IsLink(v.records, key, version);
    assert SameLinks(t.records[key].fields, v.records[key].fields);
  }

  /** After the activations the links to be dropped are still those of the start. */
  lemma DropsSame(base: Records, s: Store, rows: seq<Id>, w: Work, usage: Usage, body: Body, actor: Actor,
                  moved: set<Id>)
    requires body.Batch? && Inv(base, s) && Stage(base, s, w.store, body, actor, moved)
    requires Lists(s.records, body.version, rows) && Lists(w.store.records, body.version, w.rows)
    requires moved <= Elements(body.cabinets)
    ensures NothingInUse(w.store.records, usage, body, w.rows) <==> NothingInUse(s.records, usage, body, rows)
  {
    StageStart(base, s, body, actor);
    StageParts(base, s, w.store, body, actor, moved);
    forall id <- rows
      ensures id in w.rows && (Stuck(w.store.records, usage, body, id) <==> Stuck(s.records, usage, body, id))
    {
      var key := Key(Compatibility, id);
      assert IsLink(s.records, key, body.version);
      assert SameLinks(s.records[key].fields, w.store.records[key].fields);
      assert IsLink(w.store.records, key, body.version);
      DroppedUnmoved(base, s, s, w.store, usage, body, actor, {}, moved, id);
    }
    forall id <- w.rows | Stuck(w.store.records, usage, body, id) ensures id in rows {
      var key := Key(Compatibility, id);
      assert IsLink(w.store.records, key, body.version);
      DroppedBefore(base, s, w.store, body, actor, moved, key);
    }
    hide Stage, Inv, Lists, Stuck, Extends, Moved, AllRecorded, FreshLog;
  }

  /** A link that is to be dropped was there at the start. */
  lemma DroppedBefore(base: Records, s: Store, t: Store, body: Body, actor: Actor, moved: set<Id>, k: Key)
    requires body.Batch? && Stage(base, s, t, body, actor, moved) && moved <= Elements(body.cabinets)
    requires IsLink(t.records, k, body.version) && !t.records[k].archived
        && t.records[k].fields.cabinet !in body.cabinets
    ensures IsLink(s.records, k, body.version)
  {
    StageMoved(base, s, t, body, actor, moved);
    assert Untouched(s, t, k);
    hide Stage;
  }

  /** A batch is carried out exactly if the request can be reconciled with the catalog as it is. */
  lemma BatchSucceedsExactly(base: Records, s: Store, usage: Usage, body: Body, actor: Actor, rows: seq<Id>,
                             newIds: seq<Id>)
    requires body.Batch? && Inv(base, s) && Lists(s.records, body.version, rows)
    requires NewIds(s.records, newIds) && |newIds| == |body.cabinets|
    ensures Known(s.records, rows)
    ensures Replaced(s, usage, body, actor, rows, newIds).1.Reconciled? <==> CanReconcile(s, usage, body, rows)
  {
    hide *;
    ListsKnown(s.records, body.version, rows);
    ReplacedCases(s, usage, body, actor, rows, newIds);
    ReplacedChecks(s, usage, body, actor, rows, newIds);
    ReconcileParts(s, usage, body, rows);
    if Checked(s, body, rows) {
      CheckedParts(s, body, rows);
      ExpectedIsActive(s.records, body.version, rows, body.links);
      if Unlogged(s, body) {
        UnloggedParts(s, body);
        DropsAreUnlogged(s, body);
        ActivateFirstSucceeds(base, s, rows, body, actor, newIds, |body.cabinets|);
        ArchivingSucceeds(base, s, usage, body, actor, rows, newIds);
      } else if Replaced(s, usage, body, actor, rows, newIds).1.Reconciled? {
        ReplacedStage(base, s, usage, body, actor, rows, newIds);
        WasUnlogged(base, s, Replaced(s, usage, body, actor, rows, newIds).0, body, actor);
      }
    }
  }

  /** The checks before the first change. */
  ghost predicate Checked(s: Store, body: Body, rows: seq<Id>)
    requires body.Batch? && Known(s.records, rows)
  {
    WellFormed(body) && Offered(s.records, body.version, body.cabinets) && AsExpected(s.records, rows, body.links)
  }

  ghost predicate Unlogged(s: Store, body: Body)
    requires body.Batch?
  {
    forall op <- Intents(body) :: FindChange(s.changes, op).None?
  }

  lemma CheckedParts(s: Store, body: Body, rows: seq<Id>)
    requires body.Batch? && Known(s.records, rows) && Checked(s, body, rows)
    ensures Offered(s.records, body.version, body.cabinets) && AsExpected(s.records, rows, body.links)
    ensures Distinct(body.cabinets) && Distinct(LinkIds(body.links))
  {
    hide Offered, AsExpected, Distinct;
  }

  lemma ReconcileParts(s: Store, usage: Usage, body: Body, rows: seq<Id>)
    requires body.Batch? && Known(s.records, rows)
    ensures CanReconcile(s, usage, body, rows) <==>
              Checked(s, body, rows) && Unlogged(s, body) && NothingInUse(s.records, usage, body, rows)
  {
    hide WellFormed, Offered, AsExpected, Dropped, Intents, FindChange;
  }

  /** With unused ids nothing is taken for a replay. */
  lemma UnloggedParts(s: Store, body: Body)
    requires body.Batch? && Unlogged(s, body)
    ensures forall actor :: AllReplayed(s.changes, body, actor, Intents(body)) == Ok(Intents(body) == [])
    ensures forall c <- body.cabinets :: c !in LinkCabinets(body.links) ==>
        FindChange(s.changes, Derived(body.op, true, c)).None?
    ensures forall c <- LinkCabinets(body.links) :: c !in body.cabinets ==>
        FindChange(s.changes, Derived(body.op, false, c)).None?
  {
    forall c <- body.cabinets | c !in LinkCabinets(body.links)
      ensures FindChange(s.changes, Derived(body.op, true, c)).None?
    {
      IntentsAre(body, Derived(body.op, true, c));
    }
    forall c <- LinkCabinets(body.links) | c !in body.cabinets
      ensures FindChange(s.changes, Derived(body.op, false, c)).None?
    {
      IntentsAre(body, Derived(body.op, false, c));
    }
    hide Intents;
    assert Intents(body) != [] ==> Intents(body)[0] in Intents(body);
  }

  /** What `Replaced` does once its checks are passed. */
  lemma ReplacedChecks(s: Store, usage: Usage, body: Body, actor: Actor, rows: seq<Id>, newIds: seq<Id>)
    requires body.Batch? && Known(s.records, rows) && |newIds| == |body.cabinets|
    ensures Checked(s, body, rows) && AllReplayed(s.changes, body, actor, Intents(body)) == Ok(Intents(body) == []) ==>
              var first := ActivateFirst(Work(s, rows), body, actor, newIds, |body.cabinets|);
              first.Ok? ==>
                && Known(first.value.store.records, first.value.rows)
                && (Replaced(s, usage, body, actor, rows, newIds).1.Reconciled? <==>
                      ArchiveFirst(first.value.store, usage, body, actor, first.value.rows, |first.value.rows|).Ok?)
  {
    hide WellFormed, Offered, AsExpected, AllReplayed, Intents, ActivateFirst, ArchiveFirst, Known;
  }

  lemma ArchivingSucceeds(base: Records, s: Store, usage: Usage, body: Body, actor: Actor, rows: seq<Id>,
                          newIds: seq<Id>)
    requires body.Batch? && Inv(base, s) && Lists(s.records, body.version, rows) && Known(s.records, rows)
    requires Offered(s.records, body.version, body.cabinets) && Distinct(body.cabinets)
    requires NewIds(s.records, newIds) && |newIds| == |body.cabinets|
    requires ActivateFirst(Work(s, rows), body, actor, newIds, |body.cabinets|).Ok?
    requires ActiveCabinets(s.records, body.version) == Elements(LinkCabinets(body.links)) && Unlogged(s, body)
    ensures var w := ActivateFirst(Work(s, rows), body, actor, newIds, |body.cabinets|).value;
            && Known(w.store.records, w.rows)
            && (ArchiveFirst(w.store, usage, body, actor, w.rows, |w.rows|).Ok? <==>
                NothingInUse(s.records, usage, body, rows))
  {
    hide *;
    var w := ActivateFirst(Work(s, rows), body, actor, newIds, |body.cabinets|).value;
    var moved := Elements(body.cabinets[..|body.cabinets|]) - ActiveCabinets(s.records, body.version);
    ActivateFirstMoves(base, s, rows, body, actor, newIds, |body.cabinets|);
    MovedRequested(body.cabinets, ActiveCabinets(s.records, body.version));
    DropsAreUnlogged(s, body);
    ArchiveFirstSucceeds(base, s, w.store, usage, body, actor, moved, w.rows, |w.rows|);
    assert w.rows[..|w.rows|] == w.rows;
    DropsSame(base, s, rows, w, usage, body, actor, moved);
  }

  lemma MovedRequested(cabinets: seq<Id>, before: set<Id>)
    ensures Elements(cabinets[..|cabinets|]) - before <= Elements(cabinets)
  {
  }

  lemma DropsAreUnlogged(s: Store, body: Body)
    requires body.Batch? && Unlogged(s, body)
        && ActiveCabinets(s.records, body.version) == Elements(LinkCabinets(body.links))
    ensures DropsUnlogged(s, body)
    ensures forall c <- body.cabinets :: c !in ActiveCabinets(s.records, body.version) ==>
              FindChange(s.changes, Derived(body.op, true, c)).None?
  {
    UnloggedParts(s, body);
    hide Intents, FindChange, ActiveCabinets;
  }

  /** A batch that was carried out has used its derived ids, so they were unused before. */
  lemma WasUnlogged(base: Records, s: Store, t: Store, body: Body, actor: Actor)
    requires body.Batch? && Stage(base, s, t, body, actor, Difference(body))
    requires ActiveCabinets(s.records, body.version) == Elements(LinkCabinets(body.links))
    ensures Unlogged(s, body)
  {
    StageParts(base, s, t, body, actor, Difference(body));
    forall op <- Intents(body) ensures FindChange(s.changes, op).None? {
      IntentsAre(body, op);
    }
    hide Stage, Intents, Difference, FindChange, ActiveCabinets, Inv, Extends, Moved, AllRecorded;
  }

  // ---------------------------------------------------------------------------------------------
  // Runs
  // ---------------------------------------------------------------------------------------------

  /** One committed or refused request. The database supplies unused ids and lists rows in any order. */
  datatype Op =
    | OpMutate(usage: Usage, action: Action, body: Body, actor: Actor, newId: Id, seen: nat)
    | OpRevert(usage: Usage, body: Body, actor: Actor, seen: nat)
    | OpReplace(usage: Usage, body: Body, actor: Actor, rows: seq<Id>, newIds: seq<Id>)

  ghost predicate Possible(s: Store, op: Op) {
    Consistent(s.records) &&
    match op
    case OpMutate(_, action, body, _, newId, seen) =>
      && body.Single? && action != Revert && seen <= |s.changes|
      && (action == Create && body.entity.Some? ==> Key(body.entity.value, newId) !in s.records)
    case OpRevert(_, body, _, seen) => body.Single? && seen <= |s.changes|
    case OpReplace(_, body, _, rows, newIds) =>
      && body.Batch? && Lists(s.records, body.version, rows) && Known(s.records, rows)
      && NewIds(s.records, newIds) && |newIds| == |body.cabinets|
  }

  ghost function Step(s: Store, op: Op): Store {
    if !Possible(s, op) then s else
    match op
    case OpMutate(usage, action, body, actor, newId, seen) =>
      Mutated(s, usage, action, body, actor, newId, seen).0
    case OpRevert(usage, body, actor, seen) => RevertOf(s, usage, body, actor, seen).0
    case OpReplace(usage, body, actor, rows, newIds) => Replaced(s, usage, body, actor, rows, newIds).0
  }

  ghost function Run(s: Store, ops: seq<Op>): Store
    decreases |ops|
  {
    if ops == [] then s else Step(Run(s, ops[..|ops| - 1]), ops[|ops| - 1])
  }

  lemma InvStep(base: Records, s: Store, op: Op)
    requires Inv(base, s)
    ensures Inv(base, Step(s, op)) && Extends(s, Step(s, op))
  {
    SameLinksReflexive();
    if Possible(s, op) {
      match op {
        case OpMutate(usage, action, body, actor, newId, seen) =>
          MutatedKeeps(base, s, usage, action, body, actor, newId, seen);
        case OpRevert(usage, body, actor, seen) =>
          RevertOfKeeps(base, s, usage, body, actor, seen);
        case OpReplace(usage, body, actor, rows, newIds) =>
          ReplacedStage(base, s, usage, body, actor, rows, newIds);
      }
    }
  }

  lemma {:induction false} InvRun(base: Records, s: Store, ops: seq<Op>)
    requires Inv(base, s)
    ensures Inv(base, Run(s, ops)) && Extends(s, Run(s, ops))
    decreases |ops|
  {
    if ops == [] {
      SameLinksReflexive();
    } else {
      var t := Run(s, ops[..|ops| - 1]);
      InvRun(base, s, ops[..|ops| - 1]);
      InvStep(base, t, ops[|ops| - 1]);
      ExtendsTransitive(s, t, Run(s, ops));
    }
  }

  /** The catalog before the API took over: any sound one, with an empty changelog. */
  ghost predicate Initial(base: Records) {
    Sound(base) && UniqueLinks(base)
  }

  /** Whatever is asked for, in any order: an active record has only active parents, a compatibility those of one
      series, and two compatibilities never join the same version and cabinet. */
  lemma ActiveHaveActiveParents(base: Records, ops: seq<Op>, key: Key)
    requires Initial(base)
    ensures var v := Run(Store(base, []), ops);
            && (Active(v.records, key) ==> Restorable(v.records, v.records[key].fields))
            && (key in v.records ==> !Clashes(v.records, key, v.records[key]))
  {
    InvRun(base, Store(base, []), ops);
    var v := Run(Store(base, []), ops);
    if key in v.records {
      assert Anchored(v.records, v.records[key]);
    }
  }

  // ---------------------------------------------------------------------------------------------
  // The changelog tells the whole story
  // ---------------------------------------------------------------------------------------------

  /** The entries about one record, in order. */
  function EntriesOf(changes: seq<Change>, key: Key): seq<Change> {
    if changes == [] then []
    else
      var n := |changes| - 1;
      EntriesOf(changes[..n], key) + if changes[n].key == key then [changes[n]] else []
  }

  /** Each entry starts from what the one before left, and raises the revision by one. */
  ghost predicate Chained(h: seq<Change>, start: Option<Record>) {
    && (h != [] ==> h[0].before == start)
    && (forall i :: 0 < i < |h| ==> h[i].before == Some(h[i - 1].after))
    && (forall i :: 0 <= i < |h| ==> (h[i].before.None? <==> h[i].action == Create))
    && (forall i :: 0 <= i < |h| ==>
          h[i].after.revision == (if h[i].before.Some? then h[i].before.value.revision else 0) + 1)
  }

  lemma {:induction false} HistoryChained(base: Records, changes: seq<Change>, key: Key)
    requires History(base, changes)
    ensures var h := EntriesOf(changes, key);
            && Chained(h, Lookup(base, key))
            && Lookup(Replay(base, changes), key) == if h == [] then Lookup(base, key) else Some(h[|h| - 1].after)
    decreases |changes|
  {
    hide *;
    if changes == [] {
      NoEntries(base, key);
    } else {
      var n := |changes| - 1;
      var h, c := EntriesOf(changes[..n], key), changes[n];
      HistoryLast(base, changes);
      HistoryChained(base, changes[..n], key);
      EntriesLast(changes, key);
      LookupSet(Replay(base, changes[..n]), c.key, c.after, key);
      if c.key == key {
        ContinuesParts(Replay(base, changes[..n]), c);
        ChainGrows(h, c, Lookup(base, key));
      }
    }
  }

  lemma NoEntries(base: Records, key: Key)
    ensures EntriesOf([], key) == [] && Chained([], Lookup(base, key)) && Replay(base, []) == base
  {
  }

  lemma HistoryLast(base: Records, changes: seq<Change>)
    requires History(base, changes) && changes != []
    ensures var rest, c := changes[..|changes| - 1], changes[|changes| - 1];
            && History(base, rest) && Continues(Replay(base, rest), c)
            && Replay(base, changes) == Replay(base, rest)[c.key := c.after]
  {
    hide Continues;
  }

  lemma EntriesLast(changes: seq<Change>, key: Key)
    requires changes != []
    ensures var h, c := EntriesOf(changes[..|changes| - 1], key), changes[|changes| - 1];
            EntriesOf(changes, key) == if c.key == key then h + [c] else h
  {
  }

  lemma LookupSet(records: Records, k: Key, r: Record, key: Key)
    ensures Lookup(records[k := r], key) == if k == key then Some(r) else Lookup(records, key)
  {
  }

  lemma ContinuesParts(records: Records, c: Change)
    requires Continues(records, c)
    ensures c.before == Lookup(records, c.key) && (c.before.None? <==> c.action == Create)
    ensures c.after.revision == (if c.before.Some? then c.before.value.revision else 0) + 1
  {
  }

  lemma ChainGrows(h: seq<Change>, c: Change, start: Option<Record>)
    requires Chained(h, start) && c.before == if h == [] then start else Some(h[|h| - 1].after)
    requires c.before.None? <==> c.action == Create
    requires c.after.revision == (if c.before.Some? then c.before.value.revision else 0) + 1
    ensures Chained(h + [c], start)
  {
  }

  /** In every reachable state the entries of a record form an unbroken chain from its original (or from a create
      at revision 1) to the stored record; the revision of a record made by the API counts its entries. */
  lemma ChainIsUnbroken(base: Records, ops: seq<Op>, key: Key)
    requires Initial(base)
    ensures var v := Run(Store(base, []), ops);
            var h := EntriesOf(v.changes, key);
            && Chained(h, Lookup(base, key))
            && (h == [] ==> Lookup(v.records, key) == Lookup(base, key))
            && (h != [] ==> key in v.records && v.records[key] == h[|h| - 1].after)
            && (key in v.records && key !in base ==>
                  h != [] && h[0].action == Create && v.records[key].revision == |h|)
  {
    InvRun(base, Store(base, []), ops);
    var v := Run(Store(base, []), ops);
    HistoryChained(base, v.changes, key);
    if key in v.records && key !in base {
      RevisionCounts(EntriesOf(v.changes, key));
    }
  }

  lemma {:induction false} RevisionCounts(h: seq<Change>)
    requires Chained(h, None) && h != []
    ensures h[|h| - 1].after.revision == |h|
  {
    if |h| > 1 {
      RevisionCounts(h[..|h| - 1]);
    }
  }

  // ---------------------------------------------------------------------------------------------
  // Reverting
  // ---------------------------------------------------------------------------------------------

  /** What a caller can look up before asking to go back to `target`: valid fields, an active manufacturer for a
      series, active parents if the target is active, and no user of the record if the revert archives it. */
  ghost predicate CanReturnTo(records: Records, usage: Usage, key: Key, target: Record)
    requires key in records
  {
    && FieldsValid(target.fields)
    && (target.fields.SeriesFields? || !target.archived ==> forall p <- Parents(target.fields) :: Active(records, p))
    && (target.archived && !records[key].archived ==> !Blocked(records, usage, key))
  }

  /** The record after a revert to `target`. */
  function Returned(target: Record, revision: nat): Record {
    Record(target.fields, target.archived, if target.archived then target.archivedBy else "", revision)
  }

  /** Applying a snapshot of the record reproduces its fields, or is refused for one of the reasons listed. */
  lemma SnapshotApplies(records: Records, entity: Entity, f: Fields, target: Fields)
    requires Fits(entity, f) && SameLinks(f, target)
    ensures var r := Applied(records, entity, Some(f), Some(ValuesOf(entity, target)));
            && (r.Ok? <==>
                && FieldsValid(target)
                && (target.SeriesFields? ==> forall p <- Parents(target) :: Active(records, p)))
            && (r.Ok? ==> r.value == target)
  {
  }

  lemma SameSeriesKept(records: Records, f: Fields, g: Fields)
    requires SameLinks(f, g) && SameSeries(records, f)
    ensures SameSeries(records, g)
    ensures f.CompatibilityFields? ==> Parents(f) == Parents(g)
  {
  }

  lemma RevertedExactly(records: Records, usage: Usage, actor: Actor, key: Key, target: Record)
    requires Sound(records) && key in records && SameLinks(target.fields, records[key].fields)
    ensures Fits(key.entity, records[key].fields)
    ensures var r := Reverted(records, usage, actor, key, Some(target));
            && (r.Ok? <==> CanReturnTo(records, usage, key, target))
            && (r.Ok? ==> r.value == Returned(target, records[key].revision))
  {
    assert Anchored(records, records[key]);
    SnapshotApplies(records, key.entity, records[key].fields, target.fields);
    SameSeriesKept(records, records[key].fields, target.fields);
  }

  /** The body of a request to revert entry `n` under a new operation id. */
  ghost predicate RevertRequest(s: Store, body: Body, n: nat) {
    && body.Single? && body.change == Some(n) && n < |s.changes|
    && FindChange(s.changes, body.op).None?
    && s.changes[n].key in s.records && body.expected == s.records[s.changes[n].key].revision
  }

  /** A revert request that reaches its record is decided by it. */
  lemma RevertOfIs(s: Store, usage: Usage, body: Body, actor: Actor, n: nat)
    requires Consistent(s.records) && RevertRequest(s, body, n) && body.expected >= 1
    ensures n < |s.changes| && s.changes[n].key in s.records
    ensures var key := s.changes[n].key;
            && Fits(key.entity, s.records[key].fields)
            && RevertOf(s, usage, body, actor, |s.changes|) ==
               match Reverted(s.records, usage, actor, key, s.changes[n].before)
               case Fail(status) => (s, Refused(status))
               case Ok(r) => Answered(s, Logged(body, body.op, actor, Revert, key, Some(s.records[key]),
                                                r.(revision := r.revision + 1), Some(n)), 502)
  {
    assert s.changes[..|s.changes|] == s.changes;
    hide Reverted, Fits, Answered, Logged, FindChange;
  }

  lemma AnsweredIs(s: Store, c: Change, clash: nat)
    requires FindChange(s.changes, c.op).None? && !Clashes(s.records, c.key, c.after)
    ensures Answered(s, c, clash) == (Store(s.records[c.key := c.after], s.changes + [c]), Saved(c.after, c))
  {
  }

  lemma RequestParts(s: Store, body: Body, n: nat)
    requires RevertRequest(s, body, n)
    ensures body.Single? && n < |s.changes| && s.changes[n].key in s.records
    ensures body.expected == s.records[s.changes[n].key].revision && FindChange(s.changes, body.op).None?
  {
  }

  lemma TracedBefore(s: Store, n: nat)
    requires Traceable(s) && n < |s.changes| && s.changes[n].before.Some? && s.changes[n].key in s.records
    ensures SameLinks(s.changes[n].before.value.fields, s.records[s.changes[n].key].fields)
  {
    hide SameLinks;
    assert s.changes[n] in s.changes;
  }

  lemma RevisionPositive(base: Records, s: Store, n: nat)
    requires Inv(base, s) && n < |s.changes|
    ensures s.changes[n].key in s.records && s.records[s.changes[n].key].revision >= 1
  {
    var key := s.changes[n].key;
    assert s.changes[n] in s.changes;
    HistoryChained(base, s.changes, key);
    EntryListed(s.changes, n);
  }

  lemma {:induction false} EntryListed(changes: seq<Change>, n: nat)
    requires n < |changes|
    ensures changes[n] in EntriesOf(changes, changes[n].key)
  {
    if n < |changes| - 1 {
      EntryListed(changes[..|changes| - 1], n);
    }
  }

  /** In every reachable state, reverting a change that has a `before` succeeds exactly if the record can return
      to it, and then restores its fields and archived flag under the next revision. */
  lemma RevertRestores(base: Records, s: Store, usage: Usage, body: Body, actor: Actor, n: nat)
    requires Inv(base, s) && RevertRequest(s, body, n) && s.changes[n].before.Some?
    ensures var (t, answer) := RevertOf(s, usage, body, actor, |s.changes|);
            var key, target := s.changes[n].key, s.changes[n].before.value;
            && (answer.Saved? <==> CanReturnTo(s.records, usage, key, target))
            && (if answer.Saved? then
                  && t.records == s.records[key := Returned(target, s.records[key].revision + 1)]
                  && t.changes == s.changes + [answer.change]
                  && answer.change.key == key && answer.change.before == Some(s.records[key])
                else t == s)
  {
    hide *;
    RequestParts(s, body, n);
    var key, target := s.changes[n].key, s.changes[n].before.value;
    InvParts(base, s);
    TracedBefore(s, n);
    RevisionPositive(base, s, n);
    RevertedExactly(s.records, usage, actor, key, target);
    RevertOfIs(s, usage, body, actor, n);
    ReturnedNext(target, s.records[key].revision);
    var after := Returned(target, s.records[key].revision + 1);
    NoClash(s.records, key, after);
    RevertLogged(s, body, actor, key, after, n);
    AnsweredIs(s, Logged(body, body.op, actor, Revert, key, Some(s.records[key]), after, Some(n)), 502);
  }

  lemma ReturnedNext(target: Record, revision: nat)
    ensures Returned(target, revision).(revision := Returned(target, revision).revision + 1)
         == Returned(target, revision + 1)
    ensures Returned(target, revision + 1).fields == target.fields
  {
  }

  lemma RevertLogged(s: Store, body: Body, actor: Actor, key: Key, after: Record, n: nat)
    requires body.Single? && key in s.records
    ensures var c := Logged(body, body.op, actor, Revert, key, Some(s.records[key]), after, Some(n));
            c.op == body.op && c.key == key && c.before == Some(s.records[key]) && c.after == after
  {
  }

  lemma NoClash(records: Records, key: Key, r: Record)
    requires UniqueLinks(records) && key in records && SameLinks(r.fields, records[key].fields)
    ensures !Clashes(records, key, r)
  {
    assert !Clashes(records, key, records[key]);
  }

  /** Reverting entry `n` took the store from `s` to `t`. */
  ghost predicate RevertedTo(s: Store, usage: Usage, body: Body, actor: Actor, n: nat, t: Store) {
    && RevertRequest(s, body, n) && Consistent(s.records)
    && var (v, answer) := RevertOf(s, usage, body, actor, |s.changes|); answer.Saved? && v == t
  }

  /** The original record goes back in place without difficulty, apart from the three cases named. */
  ghost predicate OriginalFits(s: Store, t: Store, usage: Usage, key: Key)
    requires key in s.records && key in t.records
  {
    var original := s.records[key];
    && (original.fields.SeriesFields? ==> forall p <- Parents(original.fields) :: Active(s.records, p))
    && (original.archived && !t.records[key].archived ==> !InUse(t.records, usage, key))
    && DayFits(original.fields)
  }

  /** Reverting any change and then reverting that revert is a round trip: it brings the record back to what it
      was, two revisions later, and nothing else changes. It is refused exactly if the original record was a series
      of an archived manufacturer, or was archived and is in use outside the catalog by then, or was a version whose
      stored day is not as long as an entered one. */
  lemma RevertRoundTrip(base: Records, s: Store, usage: Usage, body: Body, actor: Actor, n: nat, t: Store,
                        usage2: Usage, body2: Body, actor2: Actor)
    requires Inv(base, s) && RevertedTo(s, usage, body, actor, n, t) && RevertRequest(t, body2, |s.changes|)
    ensures Consistent(t.records) && s.changes[n].key in s.records && s.changes[n].key in t.records
    ensures RevertOf(t, usage2, body2, actor2, |t.changes|).1.Saved? <==>
        OriginalFits(s, t, usage2, s.changes[n].key)
    ensures OriginalFits(s, t, usage2, s.changes[n].key) ==>
              RevertOf(t, usage2, body2, actor2, |t.changes|).0.records
              == s.records[s.changes[n].key := Returned(s.records[s.changes[n].key],
                  s.records[s.changes[n].key].revision + 2)]
  {
    hide *;
    RevertedParts(s, usage, body, actor, n, t);
    RequestParts(s, body, n);
    FirstRevert(base, s, usage, body, actor, n, t);
    OriginalValid(base, s, usage, body, actor, n, t);
    var key := s.changes[n].key;
    CanReturnHome(s, t, usage2, key);
    RevertRestores(base, t, usage2, body2, actor2, |s.changes|);
    SetTwice(s.records, key, t.records[key], Returned(s.records[key], s.records[key].revision + 2));
  }

  lemma SetTwice(records: Records, key: Key, r: Record, q: Record)
    ensures records[key := r][key := q] == records[key := q]
  {
  }

  /** A record that a revert was able to change had valid fields: the API created it, or the state it went back to
      was valid, and it has been valid ever since. */
  lemma OriginalValid(base: Records, s: Store, usage: Usage, body: Body, actor: Actor, n: nat, t: Store)
    requires Inv(base, s) && RevertedTo(s, usage, body, actor, n, t)
    ensures s.changes[n].key in s.records && EntryValid(s.records[s.changes[n].key].fields)
  {
    var c := s.changes[n];
    assert c in s.changes;
    if c.before.Some? {
      RevertRestores(base, s, usage, body, actor, n);
    }
    hide RevertOf;
  }

  lemma FirstRevert(base: Records, s: Store, usage: Usage, body: Body, actor: Actor, n: nat, t: Store)
    requires Inv(base, s) && RevertedTo(s, usage, body, actor, n, t)
    ensures var key := s.changes[n].key;
            && |t.changes| == |s.changes| + 1
            && t.changes[|s.changes|].key == key && t.changes[|s.changes|].before == Some(s.records[key])
            && key in s.records && key in t.records && t.records[key].revision == s.records[key].revision + 1
            && t.records == s.records[key := t.records[key]]
            && Fits(key.entity, t.records[key].fields) && Sound(s.records)
    ensures Inv(base, t) && Consistent(t.records)
  {
    hide *;
    RevertedParts(s, usage, body, actor, n, t);
    RequestParts(s, body, n);
    var key := s.changes[n].key;
    RevertOfKeeps(base, s, usage, body, actor, |s.changes|);
    InvParts(base, s);
    InvParts(base, t);
    RevisionPositive(base, s, n);
    RevertOfIs(s, usage, body, actor, n);
    RevertedRevision(s.records, usage, actor, key, s.changes[n].before);
    var r := Reverted(s.records, usage, actor, key, s.changes[n].before);
    if r.Ok? {
      var after := r.value.(revision := r.value.revision + 1);
      RevertLogged(s, body, actor, key, after, n);
      AnsweredSaved(s, Logged(body, body.op, actor, Revert, key, Some(s.records[key]), after, Some(n)), 502);
      ConsistentAt(t.records, key);
    }
  }

  lemma RevertedParts(s: Store, usage: Usage, body: Body, actor: Actor, n: nat, t: Store)
    requires RevertedTo(s, usage, body, actor, n, t)
    ensures RevertRequest(s, body, n) && body.Single? && Consistent(s.records)
    ensures var (v, answer) := RevertOf(s, usage, body, actor, |s.changes|); answer.Saved? && v == t
  {
    hide RevertOf, Consistent, FindChange;
  }

  lemma AnsweredSaved(s: Store, c: Change, clash: nat)
    ensures var (t, answer) := Answered(s, c, clash);
            answer.Saved? ==> t == Store(s.records[c.key := c.after], s.changes + [c])
  {
  }

  lemma ConsistentAt(records: Records, key: Key)
    requires Consistent(records) && key in records
    ensures Fits(key.entity, records[key].fields)
  {
  }

  lemma RevertedRevision(records: Records, usage: Usage, actor: Actor, key: Key, target: Option<Record>)
    requires key in records && Consistent(records)
    ensures var r := Reverted(records, usage, actor, key, target);
            r.Ok? ==> r.value.revision == records[key].revision
  {
  }

  lemma InvConsistent(base: Records, s: Store)
    requires Inv(base, s)
    ensures Sound(s.records) && Consistent(s.records)
  {
  }

  /** One record changed and its parents and children did not: the old version still fits in. */
  lemma CanReturnHome(s: Store, t: Store, usage: Usage, key: Key)
    requires Sound(s.records) && key in s.records && key in t.records && t.records == s.records[key := t.records[key]]
    requires Fits(key.entity, t.records[key].fields) && EntryValid(s.records[key].fields)
    ensures CanReturnTo(t.records, usage, key, s.records[key]) <==> OriginalFits(s, t, usage, key)
  {
    var original := s.records[key];
    assert Anchored(s.records, original) && Fits(key.entity, original.fields);
    assert key !in Parents(original.fields) && key !in Parents(t.records[key].fields);
    if original.archived {
      ChildrenArchived(s.records, key);
    }
  }

  // ---------------------------------------------------------------------------------------------
  // Round trips that are refused
  // ---------------------------------------------------------------------------------------------

  const MAKER := Key(Manufacturer, 0)
  const GAME := Key(Series, 0)
  const RELEASE := Key(Version, 0)
  const CABINET := Key(Cabinet, 0)
  const SHOWN := Names("A", "A", "A")
  const GAME_VALUES := NO_VALUES.(keys := {"en", "kr", "jp", "series_number", "manufacturer"}, names := SHOWN,
                                  number := Some(1), manufacturer := Some(0))
  const CABINET_VALUES := NO_VALUES.(keys := {"en", "kr", "jp", "series"}, names := SHOWN, series := Some(0))
  const FREE := Price("{}", true, true)
  const NEW_YEAR := Day("2026-01-01", "2026-01-01 00:00:00.000Z")
  const RELEASE_VALUES := CABINET_VALUES.(keys := {"en", "kr", "jp", "series", "released_on", "price_default"},
                                          releasedOn := NEW_YEAR, price := Some(FREE))

  /** Nothing is installed and no campaign runs; a game is installed that uses version 0 in cabinet 0. */
  const UNUSED := Usage({}, {})
  const INSTALLED := Usage({(0, 0)}, {})

  function CreateBody(n: string, entity: Entity, values: Values): Body {
    Single(Client(n), "", Some(entity), None, 0, Some(values), None)
  }

  function ArchiveBody(n: string, entity: Entity): Body {
    Single(Client(n), "", Some(entity), Some(0), 1, None, None)
  }

  function RevertBody(n: string, change: nat, expected: int): Body {
    Single(Client(n), "", None, None, expected, None, Some(change))
  }

  /** The records of the runs below, in their revisions. */
  function Maker(archived: bool, revision: nat): Record {
    Record(ManufacturerFields(SHOWN), archived, if archived then "a" else "", revision)
  }

  function Game(archived: bool, revision: nat): Record {
    Record(SeriesFields(1, SHOWN, NO_NAMES, Some(0), []), archived, if archived then "a" else "", revision)
  }

  function Unit(archived: bool, revision: nat): Record {
    Record(CabinetFields(0, SHOWN), archived, if archived then "a" else "", revision)
  }

  function Release(archived: bool, revision: nat): Record {
    Record(VersionFields(0, NEW_YEAR.stored, SHOWN, Some(FREE), []), archived, if archived then "a" else "", revision)
  }

  function Created(body: Body, key: Key, r: Record): Change
    requires body.Single?
  {
    Logged(body, body.op, "a", Create, key, None, r, None)
  }

  function Archived(body: Body, key: Key, before: Record, after: Record): Change
    requires body.Single?
  {
    Logged(body, body.op, "a", Archive, key, Some(before), after, None)
  }

  function CreateOp(n: string, entity: Entity, values: Values, seen: nat): Op {
    OpMutate(UNUSED, Create, CreateBody(n, entity, values), "a", 0, seen)
  }

  function ArchiveOp(n: string, entity: Entity, seen: nat): Op {
    OpMutate(UNUSED, Archive, ArchiveBody(n, entity), "a", 0, seen)
  }

  /** A manufacturer with a series. */
  const ACTIVE: Records := map[MAKER := Maker(false, 1), GAME := Game(false, 1)]

  /** A cabinet is created and archived. */
  const CABINET_OPS := [CreateOp("1", Cabinet, CABINET_VALUES, 0), ArchiveOp("2", Cabinet, 1)]

  /** A version is created. */
  const RELEASE_OPS := [CreateOp("1", Version, RELEASE_VALUES, 0)]

  /** A series is created for a manufacturer and archived, and then the manufacturer too. */
  const GAME_OPS := [CreateOp("1", Series, GAME_VALUES, 0), ArchiveOp("2", Series, 1), ArchiveOp("3", Manufacturer, 2)]

  lemma NotLogged(changes: seq<Change>, op: OpId)
    requires forall c <- changes :: c.op != op
    ensures FindChange(changes, op).None?
  {
    FindFacts(changes, op);
  }

  /** A create that is carried out. */
  lemma CreateSaves(s: Store, body: Body, entity: Entity, f: Fields)
    requires Consistent(s.records) && body.Single? && body.entity == Some(entity)
        && FindChange(s.changes, body.op).None?
    requires Applied(s.records, entity, None, body.values) == Ok(f) && !f.CompatibilityFields?
    ensures var r := Record(f, false, "", 1);
            var c := Created(body, Key(entity, 0), r);
            Mutated(s, UNUSED, Create, body, "a", 0, |s.changes|)
                == (Store(s.records[Key(entity, 0) := r], s.changes + [c]), Saved(r, c))
  {
    assert s.changes[..|s.changes|] == s.changes;
    hide Applied, Fits;
  }

  /** An archive that is carried out. */
  lemma ArchiveSaves(s: Store, body: Body, key: Key, r: Record)
    requires Consistent(s.records) && body.Single? && body.entity == Some(key.entity) && body.id == Some(key.id)
    requires FindChange(s.changes, body.op).None? && key in s.records && s.records[key] == r
        && !r.fields.CompatibilityFields?
    requires !r.archived && body.expected == r.revision >= 1 && !Blocked(s.records, UNUSED, key)
    ensures var after := Record(r.fields, true, "a", r.revision + 1);
            var c := Archived(body, key, r, after);
            Mutated(s, UNUSED, Archive, body, "a", 0, |s.changes|)
                == (Store(s.records[key := after], s.changes + [c]), Saved(after, c))
  {
    assert s.changes[..|s.changes|] == s.changes;
    hide Applied, Fits, Blocked;
  }

  lemma RunAppend(s: Store, ops: seq<Op>, op: Op)
    ensures Run(s, ops + [op]) == Step(Run(s, ops), op)
  {
    assert (ops + [op])[..|ops|] == ops;
  }

  /** The catalog after one, two and three of the steps. */
  function CabinetFirst(): Store {
    Store(ACTIVE[CABINET := Unit(false, 1)],
          [Created(CreateBody("1", Cabinet, CABINET_VALUES), CABINET, Unit(false, 1))])
  }

  function CabinetStore(): Store {
    Store(ACTIVE[CABINET := Unit(true, 2)],
          CabinetFirst().changes + [Archived(ArchiveBody("2", Cabinet), CABINET, Unit(false, 1), Unit(true, 2))])
  }

  function ReleaseStore(): Store {
    Store(ACTIVE[RELEASE := Release(false, 1)],
          [Created(CreateBody("1", Version, RELEASE_VALUES), RELEASE, Release(false, 1))])
  }

  function GameFirst(): Store {
    Store(map[MAKER := Maker(false, 1), GAME := Game(false, 1)],
          [Created(CreateBody("1", Series, GAME_VALUES), GAME, Game(false, 1))])
  }

  function GameSecond(): Store {
    Store(map[MAKER := Maker(false, 1), GAME := Game(true, 2)],
          GameFirst().changes + [Archived(ArchiveBody("2", Series), GAME, Game(false, 1), Game(true, 2))])
  }

  function GameStore(): Store {
    Store(map[MAKER := Maker(true, 2), GAME := Game(true, 2)],
          GameSecond().changes + [Archived(ArchiveBody("3", Manufacturer), MAKER, Maker(false, 1), Maker(true, 2))])
  }

  lemma CabinetRun()
    ensures Run(Store(ACTIVE, []), CABINET_OPS) == CabinetStore()
  {
    var start := Store(ACTIVE, []);
    CabinetCreated();
    CabinetArchived();
    hide Step, CabinetStore, CabinetFirst, CreateOp, ArchiveOp;
    RunAppend(start, [], CABINET_OPS[0]);
    RunAppend(start, [CABINET_OPS[0]], CABINET_OPS[1]);
    assert [] + [CABINET_OPS[0]] == [CABINET_OPS[0]] && [CABINET_OPS[0]] + [CABINET_OPS[1]] == CABINET_OPS;
  }

  lemma CabinetCreated()
    ensures Step(Store(ACTIVE, []), CreateOp("1", Cabinet, CABINET_VALUES, 0)) == CabinetFirst()
  {
    CreateSaves(Store(ACTIVE, []), CreateBody("1", Cabinet, CABINET_VALUES), Cabinet, Unit(false, 1).fields);
    hide Mutated, Logged, FindChange;
  }

  lemma CabinetArchived()
    ensures Step(CabinetFirst(), ArchiveOp("2", Cabinet, 1)) == CabinetStore()
  {
    NotLogged(CabinetFirst().changes, Client("2"));
    hide Mutated, Logged, FindChange;
    ArchiveSaves(CabinetFirst(), ArchiveBody("2", Cabinet), CABINET, Unit(false, 1));
  }

  lemma ReleaseRun()
    ensures Run(Store(ACTIVE, []), RELEASE_OPS) == ReleaseStore()
  {
    ReleaseCreated();
    hide Step, ReleaseStore, CreateOp;
    RunAppend(Store(ACTIVE, []), [], RELEASE_OPS[0]);
    assert [] + [RELEASE_OPS[0]] == RELEASE_OPS;
  }

  lemma ReleaseCreated()
    ensures Step(Store(ACTIVE, []), CreateOp("1", Version, RELEASE_VALUES, 0)) == ReleaseStore()
  {
    CreateSaves(Store(ACTIVE, []), CreateBody("1", Version, RELEASE_VALUES), Version, Release(false, 1).fields);
    hide Mutated, Logged, FindChange;
  }

  lemma GameRun()
    ensures Run(Store(map[MAKER := Maker(false, 1)], []), GAME_OPS) == GameStore()
  {
    var start := Store(map[MAKER := Maker(false, 1)], []);
    GameCreated();
    GameArchived();
    GameRetired();
    hide Step, GameFirst, GameSecond, GameStore, CreateOp, ArchiveOp;
    RunAppend(start, [], GAME_OPS[0]);
    RunAppend(start, [GAME_OPS[0]], GAME_OPS[1]);
    RunAppend(start, [GAME_OPS[0], GAME_OPS[1]], GAME_OPS[2]);
    assert [] + [GAME_OPS[0]] == [GAME_OPS[0]] && [GAME_OPS[0]] + [GAME_OPS[1]] == [GAME_OPS[0], GAME_OPS[1]];
    assert [GAME_OPS[0], GAME_OPS[1]] + [GAME_OPS[2]] == GAME_OPS;
  }

  lemma GameCreated()
    ensures Step(Store(map[MAKER := Maker(false, 1)], []), CreateOp("1", Series, GAME_VALUES, 0)) == GameFirst()
  {
    var start := Store(map[MAKER := Maker(false, 1)], []);
    CreateSaves(start, CreateBody("1", Series, GAME_VALUES), Series, Game(false, 1).fields);
    hide Mutated, Logged, FindChange;
  }

  lemma GameArchived()
    ensures Step(GameFirst(), ArchiveOp("2", Series, 1)) == GameSecond()
  {
    var archive := ArchiveBody("2", Series);
    FindFacts(GameFirst().changes, archive.op);
    ArchiveSaves(GameFirst(), archive, GAME, Game(false, 1));
    hide Mutated, Logged, FindChange;
  }

  lemma GameRetired()
    ensures Step(GameSecond(), ArchiveOp("3", Manufacturer, 2)) == GameStore()
  {
    GameSecondLog();
    NotLogged(GameSecond().changes, Client("3"));
    hide Mutated, Logged, FindChange;
    ArchiveSaves(GameSecond(), ArchiveBody("3", Manufacturer), MAKER, Maker(false, 1));
  }

  lemma GameSecondLog()
    ensures |GameSecond().changes| == 2 && Consistent(GameSecond().records)
    ensures forall c <- GameSecond().changes :: c.op != Client("3")
  {
    assert forall c <- GameSecond().changes :: c.op in {Client("1"), Client("2")};
  }

  /** A revert that is carried out. */
  lemma RevertSaves(s: Store, body: Body, n: nat, r: Record)
    requires Consistent(s.records) && RevertRequest(s, body, n) && body.expected >= 1 && !r.fields.CompatibilityFields?
    requires Reverted(s.records, UNUSED, "a", s.changes[n].key, s.changes[n].before) == Ok(r)
    ensures var key, after := s.changes[n].key, r.(revision := r.revision + 1);
            var c := Logged(body, body.op, "a", Revert, key, Some(s.records[key]), after, Some(n));
            RevertOf(s, UNUSED, body, "a", |s.changes|)
                == (Store(s.records[key := after], s.changes + [c]), Saved(after, c))
  {
    assert s.changes[..|s.changes|] == s.changes;
    hide Reverted, Fits;
  }

  /** A revert that its record refuses. */
  lemma RevertRefused(s: Store, usage: Usage, body: Body, n: nat, status: nat)
    requires Consistent(s.records) && RevertRequest(s, body, n) && body.expected >= 1
    requires Reverted(s.records, usage, "a", s.changes[n].key, s.changes[n].before) == Fail(status)
    ensures RevertOf(s, usage, body, "a", |s.changes|) == (s, Refused(status))
  {
    assert s.changes[..|s.changes|] == s.changes;
    hide Reverted, Fits;
  }

  /** The cabinet's archive reverted, the version's creation, and the series' creation. */
  function CabinetReverted(): Store {
    var body := RevertBody("3", 1, 2);
    Store(ACTIVE[CABINET := Unit(false, 3)],
          CabinetStore().changes + [Logged(body, body.op, "a", Revert, CABINET, Some(Unit(true, 2)), Unit(false, 3),
                                           Some(1))])
  }

  function ReleaseReverted(): Store {
    var body := RevertBody("2", 0, 1);
    Store(ACTIVE[RELEASE := Release(true, 2)],
          ReleaseStore().changes + [Logged(body, body.op, "a", Revert, RELEASE, Some(Release(false, 1)),
                                           Release(true, 2), Some(0))])
  }

  function GameReverted(): Store {
    var body := RevertBody("4", 0, 2);
    Store(map[MAKER := Maker(true, 2), GAME := Game(true, 3)],
          GameStore().changes + [Logged(body, body.op, "a", Revert, GAME, Some(Game(true, 2)), Game(true, 3), Some(0))])
  }

  lemma CabinetReverts()
    ensures RevertedTo(CabinetStore(), UNUSED, RevertBody("3", 1, 2), "a", 1, CabinetReverted())
  {
    CabinetStoreLog();
    NotLogged(CabinetStore().changes, Client("3"));
    CabinetReturns();
    hide FindChange, Logged, Consistent, Reverted, RevertOf;
    RevertSaves(CabinetStore(), RevertBody("3", 1, 2), 1, Unit(false, 2));
    hide CabinetStore;
  }

  lemma CabinetStoreLog()
    ensures |CabinetStore().changes| == 2
    ensures CabinetStore().changes[1].key == CABINET && CabinetStore().changes[1].before == Some(Unit(false, 1))
    ensures forall c <- CabinetStore().changes :: c.op != Client("3")
  {
    hide Unit, Maker, Game;
    assert forall c <- CabinetStore().changes :: c.op in {Client("1"), Client("2")};
  }

  lemma CabinetReturns()
    ensures Consistent(CabinetStore().records) && CABINET in CabinetStore().records
    ensures CabinetStore().records[CABINET] == Unit(true, 2)
    ensures CabinetStore().records[CABINET := Unit(false, 3)] == CabinetReverted().records
    ensures Reverted(CabinetStore().records, UNUSED, "a", CABINET, Some(Unit(false, 1))) == Ok(Unit(false, 2))
  {
    hide Logged;
  }

  lemma ReleaseReverts()
    ensures RevertedTo(ReleaseStore(), UNUSED, RevertBody("2", 0, 1), "a", 0, ReleaseReverted())
  {
    NotLogged(ReleaseStore().changes, Client("2"));
    ReleaseArchives();
    hide FindChange, Logged, Consistent, Reverted, RevertOf;
    RevertSaves(ReleaseStore(), RevertBody("2", 0, 1), 0, Release(true, 1));
    hide ReleaseStore;
  }

  lemma ReleaseArchives()
    ensures Consistent(ReleaseStore().records) && RELEASE in ReleaseStore().records
    ensures |ReleaseStore().changes| == 1 && ReleaseStore().changes[0].key == RELEASE
    ensures ReleaseStore().changes[0].before == None && ReleaseStore().records[RELEASE] == Release(false, 1)
    ensures ReleaseStore().records[RELEASE := Release(true, 2)] == ReleaseReverted().records
    ensures Reverted(ReleaseStore().records, UNUSED, "a", RELEASE, None) == Ok(Release(true, 1))
  {
  }

  lemma GameReverts()
    ensures RevertedTo(GameStore(), UNUSED, RevertBody("4", 0, 2), "a", 0, GameReverted())
  {
    GameStoreLog();
    NotLogged(GameStore().changes, Client("4"));
    GameArchives();
    hide FindChange, Logged, Consistent, Reverted, RevertOf;
    RevertSaves(GameStore(), RevertBody("4", 0, 2), 0, Game(true, 2));
    hide GameStore;
  }

  lemma GameStoreLog()
    ensures |GameStore().changes| == 3
    ensures GameStore().changes[0].key == GAME && GameStore().changes[0].before == None
    ensures forall c <- GameStore().changes :: c.op != Client("4")
  {
    hide Game, Maker;
    assert forall c <- GameStore().changes :: c.op in {Client("1"), Client("2"), Client("3")};
  }

  lemma GameArchives()
    ensures Consistent(GameStore().records) && GAME in GameStore().records
    ensures GameStore().records[GAME] == Game(true, 2)
    ensures GameStore().records[GAME := Game(true, 3)] == GameReverted().records
    ensures Reverted(GameStore().records, UNUSED, "a", GAME, None) == Ok(Game(true, 2))
  {
    hide Logged;
  }

  /** The archive of a cabinet is reverted. Once a game is installed in that cabinet, reverting the revert is
      refused. */
  lemma RefusedWhileInUse()
    ensures var s, t := Run(Store(ACTIVE, []), CABINET_OPS), CabinetReverted();
            && RevertedTo(s, UNUSED, RevertBody("3", 1, 2), "a", 1, t)
            && RevertRequest(t, RevertBody("4", 2, 3), |s.changes|) && Consistent(t.records)
            && RevertOf(t, INSTALLED, RevertBody("4", 2, 3), "a", |t.changes|) == (t, Refused(409))
  {
    CabinetRun();
    CabinetReverts();
    CabinetRefuses();
    hide *;
  }

  lemma CabinetRefuses()
    ensures |CabinetStore().changes| == 2 && |CabinetReverted().changes| == 3 && Consistent(CabinetReverted().records)
    ensures RevertRequest(CabinetReverted(), RevertBody("4", 2, 3), 2)
    ensures RevertOf(CabinetReverted(), INSTALLED, RevertBody("4", 2, 3), "a", 3) == (CabinetReverted(), Refused(409))
  {
    CabinetLog();
    NotLogged(CabinetReverted().changes, Client("4"));
    hide FindChange, Logged;
    CabinetRefusal();
    hide CabinetStore, CabinetReverted, Reverted, RevertOf, Consistent;
    RevertRefused(CabinetReverted(), INSTALLED, RevertBody("4", 2, 3), 2, 409);
  }

  lemma CabinetLog()
    ensures |CabinetStore().changes| == 2 && |CabinetReverted().changes| == 3
    ensures CabinetReverted().changes[2].key == CABINET && CabinetReverted().changes[2].before == Some(Unit(true, 2))
    ensures forall c <- CabinetReverted().changes :: c.op != Client("4")
  {
    hide Unit, Maker, Game;
    assert forall c <- CabinetReverted().changes :: c.op in {Client("1"), Client("2"), Client("3")};
  }

  lemma CabinetRefusal()
    ensures Consistent(CabinetReverted().records) && CABINET in CabinetReverted().records
    ensures CabinetReverted().records[CABINET].revision == 3
    ensures Reverted(CabinetReverted().records, INSTALLED, "a", CABINET, Some(Unit(true, 2))) == Fail(409)
  {
    assert (0, 0) in INSTALLED.installed;
  }

  /** The creation of a version is reverted. As the stored day reads back longer than an entered one, reverting the
      revert is refused by the validator. */
  lemma RefusedForDay()
    ensures var s, t := Run(Store(ACTIVE, []), RELEASE_OPS), ReleaseReverted();
            && RevertedTo(s, UNUSED, RevertBody("2", 0, 1), "a", 0, t)
            && RevertRequest(t, RevertBody("3", 1, 2), |s.changes|) && Consistent(t.records)
            && RevertOf(t, UNUSED, RevertBody("3", 1, 2), "a", |t.changes|) == (t, Refused(400))
  {
    ReleaseRun();
    ReleaseReverts();
    ReleaseRefuses();
    hide *;
  }

  lemma ReleaseRefuses()
    ensures |ReleaseStore().changes| == 1 && |ReleaseReverted().changes| == 2 && Consistent(ReleaseReverted().records)
    ensures RevertRequest(ReleaseReverted(), RevertBody("3", 1, 2), 1)
    ensures RevertOf(ReleaseReverted(), UNUSED, RevertBody("3", 1, 2), "a", 2) == (ReleaseReverted(), Refused(400))
  {
    ReleaseLog();
    NotLogged(ReleaseReverted().changes, Client("3"));
    hide FindChange, Logged;
    ReleaseRefusal();
    hide ReleaseStore, ReleaseReverted, Reverted, RevertOf, Consistent;
    RevertRefused(ReleaseReverted(), UNUSED, RevertBody("3", 1, 2), 1, 400);
  }

  lemma ReleaseLog()
    ensures |ReleaseStore().changes| == 1 && |ReleaseReverted().changes| == 2
    ensures ReleaseReverted().changes[1].key == RELEASE
    ensures ReleaseReverted().changes[1].before == Some(Release(false, 1))
    ensures forall c <- ReleaseReverted().changes :: c.op != Client("3")
  {
    hide Release, Maker, Game;
    assert forall c <- ReleaseReverted().changes :: c.op in {Client("1"), Client("2")};
  }

  lemma ReleaseRefusal()
    ensures Consistent(ReleaseReverted().records) && RELEASE in ReleaseReverted().records
    ensures ReleaseReverted().records[RELEASE].revision == 2
    ensures Reverted(ReleaseReverted().records, UNUSED, "a", RELEASE, Some(Release(false, 1))) == Fail(400)
  {
    assert |NEW_YEAR.stored| == 24;
  }

  /** The creation of an archived series is reverted, which leaves it archived. As its manufacturer is archived too,
      reverting the revert is refused. */
  lemma RefusedForManufacturer()
    ensures var s, t := Run(Store(map[MAKER := Maker(false, 1)], []), GAME_OPS), GameReverted();
            && RevertedTo(s, UNUSED, RevertBody("4", 0, 2), "a", 0, t)
            && RevertRequest(t, RevertBody("5", 3, 3), |s.changes|) && Consistent(t.records)
            && RevertOf(t, UNUSED, RevertBody("5", 3, 3), "a", |t.changes|) == (t, Refused(409))
  {
    GameRun();
    GameReverts();
    GameRefuses();
    hide *;
  }

  lemma GameRefuses()
    ensures |GameStore().changes| == 3 && |GameReverted().changes| == 4 && Consistent(GameReverted().records)
    ensures RevertRequest(GameReverted(), RevertBody("5", 3, 3), 3)
    ensures RevertOf(GameReverted(), UNUSED, RevertBody("5", 3, 3), "a", 4) == (GameReverted(), Refused(409))
  {
    GameLog();
    NotLogged(GameReverted().changes, Client("5"));
    hide FindChange, Logged;
    GameRefusal();
    hide GameStore, GameReverted, Reverted, RevertOf, Consistent;
    RevertRefused(GameReverted(), UNUSED, RevertBody("5", 3, 3), 3, 409);
  }

  lemma GameLog()
    ensures |GameStore().changes| == 3 && |GameReverted().changes| == 4
    ensures GameReverted().changes[3].key == GAME && GameReverted().changes[3].before == Some(Game(true, 2))
    ensures forall c <- GameReverted().changes :: c.op != Client("5")
  {
    hide Game, Maker;
    assert forall c <- GameReverted().changes :: c.op in {Client("1"), Client("2"), Client("3"), Client("4")};
  }

  lemma GameRefusal()
    ensures Consistent(GameReverted().records) && GAME in GameReverted().records
    ensures Reverted(GameReverted().records, UNUSED, "a", GAME, Some(Game(true, 2))) == Fail(409)
  {
  }

  // ---------------------------------------------------------------------------------------------
  // Every operation happens once
  // ---------------------------------------------------------------------------------------------

  lemma {:induction false} FindLogged(changes: seq<Change>, c: Change)
    requires UniqueOps(changes) && c in changes
    ensures FindChange(changes, c.op) == Some(c)
  {
    FindFacts(changes, c.op);
    var d := FindChange(changes, c.op).value;
    var i :| 0 <= i < |changes| && changes[i] == c;
    var j :| 0 <= j < |changes| && changes[j] == d;
  }

  /** Once an operation is logged, in every later state the same request by the same actor is answered from the log,
      any other request under its id is refused, and neither changes anything. */
  lemma OperationHappensOnce(base: Records, t: Store, ops: seq<Op>, c: Change, usage: Usage, action: Action,
                             body: Body, actor: Actor, newId: Id)
    requires Inv(base, t) && c in t.changes && body.Single? && body.op == c.op
    ensures var v := Run(t, ops);
            Consistent(v.records) &&
            var answer := if body == c.payload && actor == c.actor then Replayed(c.after, c) else Refused(409);
            && (body.entity.Some? ==> Mutated(v, usage, action, body, actor, newId, |v.changes|) == (v, answer))
            && (body.change.Some? ==> RevertOf(v, usage, body, actor, |v.changes|) == (v, answer))
  {
    InvRun(base, t, ops);
    var v := Run(t, ops);
    assert c in v.changes;
    FindLogged(v.changes, c);
    assert v.changes[..|v.changes|] == v.changes;
  }

  /** An id that was logged after the early check is still refused, by the unique index. */
  lemma LateDuplicateRefused(base: Records, v: Store, c: Change, usage: Usage, action: Action, body: Body,
                             actor: Actor, newId: Id, seen: nat)
    requires Inv(base, v) && c in v.changes && body.Single? && body.op == c.op && seen <= |v.changes|
    ensures Mutated(v, usage, action, body, actor, newId, seen).0 == v
    ensures RevertOf(v, usage, body, actor, seen).0 == v
  {
    hide *;
    InvParts(base, v);
    FindLogged(v.changes, c);
    NoEntity(v, usage, action, body, actor, newId, seen);
    if body.entity.Some? && Mutated(v, usage, action, body, actor, newId, seen).0 != v {
      if action == Create {
        CreateCommits(v, usage, body, actor, newId, seen);
        var f := Applied(v.records, body.entity.value, None, body.values).value;
        CommitFresh(v, body, actor, Create, Key(body.entity.value, newId), None, Record(f, false, "", 1), 409);
      } else {
        ChangeCommits(v, usage, action, body, actor, newId, seen);
        var key := Key(body.entity.value, body.id.value);
        CommitFresh(v, body, actor, action, key, Some(v.records[key]),
                    Changed(v.records, usage, action, body, actor, key).value, 409);
      }
    }
    RevertOfShape(v, usage, body, actor, seen);
    if RevertOf(v, usage, body, actor, seen).0 != v {
      RevertEntryOp(v, usage, body, actor);
      CommitNew(v, RevertEntry(v, usage, body, actor).value, 502);
    }
  }

  lemma CommitFresh(s: Store, body: Body, actor: Actor, action: Action, key: Key, before: Option<Record>,
                    after: Record, clash: nat)
    requires body.Single? && Commit(s, Logged(body, body.op, actor, action, key, before, after, None), clash).Ok?
    ensures FindChange(s.changes, body.op).None?
  {
  }

  lemma RevertEntryOp(s: Store, usage: Usage, body: Body, actor: Actor)
    requires body.Single? && Consistent(s.records) && body.change.Some? && body.change.value < |s.changes|
    requires s.changes[body.change.value].key in s.records
    ensures var r := RevertEntry(s, usage, body, actor); r.Ok? ==> r.value.op == body.op
  {
    hide Reverted;
  }

  lemma {:induction false} ActivationsAre(body: Body, cabinets: seq<Id>, op: OpId)
    requires body.Batch?
    ensures op in Activations(body, cabinets) <==>
              op.Derived? && op == Derived(body.op, true, op.cabinet) && op.cabinet in cabinets
                  && op.cabinet !in LinkCabinets(body.links)
  {
    if cabinets != [] {
      var n := |cabinets| - 1;
      ActivationsAre(body, cabinets[..n], op);
      assert cabinets == cabinets[..n] + [cabinets[n]];
    }
  }

  lemma {:induction false} ArchivalsAre(body: Body, cabinets: seq<Id>, op: OpId)
    requires body.Batch?
    ensures op in Archivals(body, cabinets) <==>
              op.Derived? && op == Derived(body.op, false, op.cabinet) && op.cabinet in cabinets
                  && op.cabinet !in body.cabinets
  {
    if cabinets != [] {
      var n := |cabinets| - 1;
      ArchivalsAre(body, cabinets[..n], op);
      assert cabinets == cabinets[..n] + [cabinets[n]];
    }
  }

  lemma {:induction false} AllReplayedAll(changes: seq<Change>, body: Body, actor: Actor, intents: seq<OpId>)
    requires forall op <- intents ::
        && FindReplay(changes, body, op, actor).Ok?
        && FindReplay(changes, body, op, actor).value.Some?
    ensures AllReplayed(changes, body, actor, intents) == Ok(true)
  {
    if intents != [] {
      assert intents[0] in intents;
      AllReplayedAll(changes, body, actor, intents[1..]);
    }
  }

  /** The intents of a batch are the derived ids of the cabinets on which request and expectation differ. */
  lemma IntentsAre(body: Body, op: OpId)
    requires body.Batch?
    ensures op in Intents(body) <==>
              op.Derived? && op.cabinet in Difference(body)
              && op == Derived(body.op, op.cabinet !in Elements(LinkCabinets(body.links)), op.cabinet)
  {
    ActivationsAre(body, body.cabinets, op);
    ArchivalsAre(body, LinkCabinets(body.links), op);
  }

  lemma LinksStayOffered(s: Store, v: Store, version: Id, cabinets: seq<Id>)
    requires Extends(s, v) && Offered(s.records, version, cabinets) && Consistent(s.records) && Consistent(v.records)
    requires Active(v.records, Key(Version, version)) && forall c <- cabinets :: Active(v.records, Key(Cabinet, c))
    ensures Offered(v.records, version, cabinets)
  {
    var k := Key(Version, version);
    forall c <- cabinets ensures SameSeries(v.records, CompatibilityFields(version, c, None)) {
      assert SameSeries(s.records, CompatibilityFields(version, c, None));
      assert SameLinks(s.records[k].fields, v.records[k].fields);
      assert SameLinks(s.records[Key(Cabinet, c)].fields, v.records[Key(Cabinet, c)].fields);
    }
  }

  /** After a batch that changed something, the same request by the same actor is recognised in every later state
      in which the version and the requested cabinets are active, and changes nothing. */
  lemma BatchHappensOnce(base: Records, s: Store, usage: Usage, body: Body, actor: Actor, rows: seq<Id>,
                         newIds: seq<Id>, ops: seq<Op>, usage2: Usage, rows2: seq<Id>, newIds2: seq<Id>)
    requires body.Batch? && Inv(base, s) && Lists(s.records, body.version, rows) && Known(s.records, rows)
    requires NewIds(s.records, newIds) && |newIds| == |body.cabinets| == |newIds2|
    requires var (t, answer) := Replaced(s, usage, body, actor, rows, newIds);
             && answer.Reconciled?
             && Known(Run(t, ops).records, rows2)
             && Active(Run(t, ops).records, Key(Version, body.version))
             && forall c <- body.cabinets :: Active(Run(t, ops).records, Key(Cabinet, c))
    requires Difference(body) != {}
    ensures var v := Run(Replaced(s, usage, body, actor, rows, newIds).0, ops);
            Replaced(v, usage2, body, actor, rows2, newIds2) == (v, BatchReplayed)
  {
    ReplacedStage(base, s, usage, body, actor, rows, newIds);
    var t := Replaced(s, usage, body, actor, rows, newIds).0;
    var v := Run(t, ops);
    var before := ActiveCabinets(s.records, body.version);
    InvRun(base, t, ops);
    ExtendsTransitive(s, t, v);
    LinksStayOffered(s, v, body.version, body.cabinets);
    RecordedExtends(t, v, body, actor, before, Difference(body));
    forall op <- Intents(body)
      ensures FindReplay(v.changes, body, op, actor).Ok? && FindReplay(v.changes, body, op, actor).value.Some?
    {
      IntentsAre(body, op);
      assert Recorded(v.changes, body, actor, before, op.cabinet);
    }
    AllReplayedAll(v.changes, body, actor, Intents(body));
    var c :| c in Difference(body);
    IntentsAre(body, Derived(body.op, c !in Elements(LinkCabinets(body.links)), c));
  }

  // ---------------------------------------------------------------------------------------------
  // The handlers
  // ---------------------------------------------------------------------------------------------

  method ValidateCabinets(records: Records, version: Id, cabinets: seq<Id>) returns (ok: bool)
    ensures ok <==> Offered(records, version, cabinets)
  {
    if !Active(records, Key(Version, version)) {
      return false;
    }
    for i := 0 to |cabinets|
      invariant forall c <- cabinets[..i] ::
                  Active(records, Key(Cabinet, c)) && SameSeries(records, CompatibilityFields(version, c, None))
    {
      assert cabinets[i] in cabinets && cabinets[..i + 1] == cabinets[..i] + [cabinets[i]];
      if !Active(records, Key(Cabinet, cabinets[i]))
          || !SameSeries(records, CompatibilityFields(version, cabinets[i], None)) {
        return false;
      }
    }
    assert cabinets[..|cabinets|] == cabinets;
    ok := true;
  }

  method EnsureExpected(records: Records, rows: seq<Id>, links: seq<Expected>) returns (ok: bool)
    requires Known(records, rows)
    ensures ok <==> AsExpected(records, rows, links)
  {
    var active: map<Id, Record> := map[];
    for i := 0 to |rows|
      invariant active.Keys == set id <- rows[..i] | !records[Key(Compatibility, id)].archived
      invariant forall id <- active ::
          Key(Compatibility, id) in records && active[id] == records[Key(Compatibility, id)]
    {
      var record := records[Key(Compatibility, rows[i])];
      if !record.archived {
        active := active[rows[i] := record];
      }
    }
    assert rows[..|rows|] == rows;
    assert active.Keys == ActiveRows(records, rows);
    if |active.Keys| != |links| {
      return false;
    }
    for i := 0 to |links|
      invariant forall e <- links[..i] ::
                  e.id in active && active[e.id].fields.cabinet == e.cabinet && active[e.id].revision == e.revision
    {
      assert links[i] in links && links[..i + 1] == links[..i] + [links[i]];
      if links[i].id !in active || active[links[i].id].fields.cabinet != links[i].cabinet
         || active[links[i].id].revision != links[i].revision {
        return false;
      }
    }
    assert links[..|links|] == links;
    ok := true;
  }

  lemma {:induction false} AllReplayedSplit(changes: seq<Change>, body: Body, actor: Actor, a: seq<OpId>, b: seq<OpId>)
    requires AllReplayed(changes, body, actor, a) == Ok(true)
    ensures AllReplayed(changes, body, actor, a + b) == AllReplayed(changes, body, actor, b)
  {
    if a == [] {
      assert a + b == b;
    } else {
      assert (a + b)[1..] == a[1..] + b;
      AllReplayedSplit(changes, body, actor, a[1..], b);
    }
  }

  lemma {:induction false} ActivationsSplit(body: Body, a: seq<Id>, b: seq<Id>)
    requires body.Batch?
    ensures Activations(body, a + b) == Activations(body, a) + Activations(body, b)
  {
    if b == [] {
      assert a + b == a;
    } else {
      var n := |b| - 1;
      assert (a + b)[..|a + b| - 1] == a + b[..n];
      ActivationsSplit(body, a, b[..n]);
    }
  }

  lemma {:induction false} ArchivalsSplit(body: Body, a: seq<Id>, b: seq<Id>)
    requires body.Batch?
    ensures Archivals(body, a + b) == Archivals(body, a) + Archivals(body, b)
  {
    if b == [] {
      assert a + b == a;
    } else {
      var n := |b| - 1;
      assert (a + b)[..|a + b| - 1] == a + b[..n];
      ArchivalsSplit(body, a, b[..n]);
    }
  }

  /** The first intent that is not a replay decides. */
  lemma Decided(changes: seq<Change>, body: Body, actor: Actor, done: seq<OpId>, op: OpId, rest: seq<OpId>)
    requires AllReplayed(changes, body, actor, done) == Ok(true)
    ensures var r := FindReplay(changes, body, op, actor);
            && (r.Fail? ==> AllReplayed(changes, body, actor, done + [op] + rest) == Fail(r.status))
            && (r == Ok(None) ==> AllReplayed(changes, body, actor, done + [op] + rest) == Ok(false))
            && (r.Ok? && r.value.Some? ==> AllReplayed(changes, body, actor, done + [op]) == Ok(true))
  {
    assert done + [op] + rest == done + ([op] + rest);
    AllReplayedSplit(changes, body, actor, done, [op] + rest);
    AllReplayedSplit(changes, body, actor, done, [op]);
    assert ([op] + rest)[0] == op && [op][1..] == [];
  }

  lemma OneActivation(body: Body, cabinet: Id)
    requires body.Batch?
    ensures Activations(body, [cabinet])
         == if cabinet in LinkCabinets(body.links) then [] else [Derived(body.op, true, cabinet)]
  {
    assert [cabinet][..0] == [];
    assert Activations(body, []) == [];
  }

  lemma OneArchival(body: Body, cabinet: Id)
    requires body.Batch?
    ensures Archivals(body, [cabinet]) == if cabinet in body.cabinets then [] else [Derived(body.op, false, cabinet)]
  {
    assert [cabinet][..0] == [];
    assert Archivals(body, []) == [];
  }

  /** The intents up to one cabinet, that cabinet's, and the rest. */
  lemma IntentsAtActivation(body: Body, i: nat) returns (rest: seq<OpId>)
    requires body.Batch? && i < |body.cabinets|
    ensures Intents(body) == Activations(body, body.cabinets[..i]) + Activations(body, [body.cabinets[i]]) + rest
    ensures Activations(body, body.cabinets[..i + 1])
         == Activations(body, body.cabinets[..i]) + Activations(body, [body.cabinets[i]])
  {
    hide Activations, Archivals, LinkCabinets;
    var c := body.cabinets;
    assert c[..i + 1] == c[..i] + [c[i]] && c == c[..i + 1] + c[i + 1..];
    ActivationsSplit(body, c[..i], [c[i]]);
    ActivationsSplit(body, c[..i + 1], c[i + 1..]);
    rest := Activations(body, c[i + 1..]) + Archivals(body, LinkCabinets(body.links));
  }

  lemma IntentsAtArchival(body: Body, i: nat) returns (rest: seq<OpId>)
    requires body.Batch? && i < |body.links|
    ensures var c := LinkCabinets(body.links);
            && Intents(body) == Activations(body, body.cabinets) + Archivals(body, c[..i]) + Archivals(body, [c[i]])
                + rest
            && Archivals(body, c[..i + 1]) == Archivals(body, c[..i]) + Archivals(body, [c[i]])
  {
    var c := LinkCabinets(body.links);
    assert c[..i + 1] == c[..i] + [c[i]] && c == c[..i + 1] + c[i + 1..];
    ArchivalsSplit(body, c[..i], [c[i]]);
    ArchivalsSplit(body, c[..i + 1], c[i + 1..]);
    rest := Archivals(body, c[i + 1..]);
  }

  /** What a replayed intent says about the whole request; `before` and `after` are the intents up to it, without and
      with it. */
  ghost predicate Decides(changes: seq<Change>, body: Body, actor: Actor, op: OpId, before: seq<OpId>, after: seq<OpId>)
    requires body.Batch?
  {
    var found := FindReplay(changes, body, op, actor);
    && |after| == |before| + 1
    && match found
       case Fail(status) => AllReplayed(changes, body, actor, Intents(body)) == Fail(status)
       case Ok(None) => AllReplayed(changes, body, actor, Intents(body)) == Ok(false)
       case Ok(Some(_)) => AllReplayed(changes, body, actor, after) == Ok(true)
  }

  lemma ActivationDecides(changes: seq<Change>, body: Body, actor: Actor, i: nat)
    requires body.Batch? && i < |body.cabinets|
    requires AllReplayed(changes, body, actor, Activations(body, body.cabinets[..i])) == Ok(true)
    ensures var before, after := Activations(body, body.cabinets[..i]), Activations(body, body.cabinets[..i + 1]);
            if body.cabinets[i] in LinkCabinets(body.links) then after == before
            else Decides(changes, body, actor, Derived(body.op, true, body.cabinets[i]), before, after)
  {
    hide Intents, AllReplayed, Activations, Archivals, FindReplay;
    var rest := IntentsAtActivation(body, i);
    OneActivation(body, body.cabinets[i]);
    var before := Activations(body, body.cabinets[..i]);
    assert before + [] == before;
    Decided(changes, body, actor, before, Derived(body.op, true, body.cabinets[i]), rest);
  }

  lemma ArchivalDecides(changes: seq<Change>, body: Body, actor: Actor, i: nat)
    requires body.Batch? && i < |LinkCabinets(body.links)|
    requires var done := Activations(body, body.cabinets) + Archivals(body, LinkCabinets(body.links)[..i]);
             AllReplayed(changes, body, actor, done) == Ok(true)
    ensures var first, expected := Activations(body, body.cabinets), LinkCabinets(body.links);
            var before, after := first + Archivals(body, expected[..i]), first + Archivals(body, expected[..i + 1]);
            if expected[i] in body.cabinets then after == before
            else Decides(changes, body, actor, Derived(body.op, false, expected[i]), before, after)
  {
    hide Intents, AllReplayed, Activations, Archivals, FindReplay;
    var first, expected := Activations(body, body.cabinets), LinkCabinets(body.links);
    var rest := IntentsAtArchival(body, i);
    OneArchival(body, expected[i]);
    var before := first + Archivals(body, expected[..i]);
    assert before + [] == before;
    assert first + Archivals(body, expected[..i + 1]) == before + Archivals(body, [expected[i]]);
    Decided(changes, body, actor, before, Derived(body.op, false, expected[i]), rest);
  }

  method CompatibilityReplay(changes: seq<Change>, body: Body, actor: Actor) returns (r: Result<bool>)
    requires body.Batch?
    ensures var all := AllReplayed(changes, body, actor, Intents(body));
            r == if all.Ok? then Ok(all.value && Intents(body) != []) else all
  {
    hide Intents, AllReplayed, Activations, Archivals, FindReplay, LinkCabinets;
    var expected := LinkCabinets(body.links);
    var intents := 0;
    NoIntents(changes, body, actor);
    for i := 0 to |body.cabinets|
      invariant intents == |Activations(body, body.cabinets[..i])|
      invariant AllReplayed(changes, body, actor, Activations(body, body.cabinets[..i])) == Ok(true)
    {
      ActivationDecides(changes, body, actor, i);
      if body.cabinets[i] !in expected {
        intents := intents + 1;
        var found := FindReplay(changes, body, Derived(body.op, true, body.cabinets[i]), actor);
        if found.Fail? {
          return Fail(found.status);
        }
        if found.value.None? {
          return Ok(false);
        }
      }
    }
    assert body.cabinets[..|body.cabinets|] == body.cabinets;
    ghost var first := Activations(body, body.cabinets);
    assert first + [] == first;
    for i := 0 to |expected|
      invariant intents == |first| + |Archivals(body, expected[..i])|
      invariant AllReplayed(changes, body, actor, first + Archivals(body, expected[..i])) == Ok(true)
    {
      ArchivalDecides(changes, body, actor, i);
      if expected[i] !in body.cabinets {
        intents := intents + 1;
        var found := FindReplay(changes, body, Derived(body.op, false, expected[i]), actor);
        if found.Fail? {
          return Fail(found.status);
        }
        if found.value.None? {
          return Ok(false);
        }
      }
    }
    assert expected[..|expected|] == expected;
    AllIntents(body);
    r := Ok(intents > 0);
  }

  lemma NoIntents(changes: seq<Change>, body: Body, actor: Actor)
    requires body.Batch?
    ensures Activations(body, body.cabinets[..0]) == [] && Archivals(body, LinkCabinets(body.links)[..0]) == []
    ensures AllReplayed(changes, body, actor, []) == Ok(true)
  {
  }

  lemma AllIntents(body: Body)
    requires body.Batch?
    ensures Intents(body) == Activations(body, body.cabinets) + Archivals(body, LinkCabinets(body.links))
  {
  }

  lemma {:induction false} RowForSame(first: Records, second: Records, rows: seq<Id>, cabinet: Id)
    requires Known(first, rows) && Known(second, rows)
    requires forall id <- rows :: second[Key(Compatibility, id)].fields == first[Key(Compatibility, id)].fields
    ensures RowFor(second, rows, cabinet) == RowFor(first, rows, cabinet)
  {
    if rows != [] {
      RowForSame(first, second, rows[..|rows| - 1], cabinet);
    }
  }

  lemma RowForAppend(records: Records, rows: seq<Id>, id: Id, cabinet: Id)
    requires Known(records, rows + [id])
    ensures Known(records, rows) && Known(records, [id])
    ensures RowFor(records, rows + [id], cabinet)
         == if records[Key(Compatibility, id)].fields.cabinet == cabinet then Some(id)
             else RowFor(records, rows, cabinet)
  {
    assert forall x <- rows :: x in rows + [id];
    assert id in rows + [id];
    assert (rows + [id])[..|rows|] == rows;
  }

  lemma {:induction false} ActivateFails(w: Work, body: Body, actor: Actor, newIds: seq<Id>, m: nat, n: nat)
    requires body.Batch? && Known(w.store.records, w.rows) && m <= n <= |body.cabinets| == |newIds|
    requires ActivateFirst(w, body, actor, newIds, m).Fail?
    ensures ActivateFirst(w, body, actor, newIds, n) == ActivateFirst(w, body, actor, newIds, m)
  {
    hide *;
    if m < n {
      ActivateFirstUnfolds(w, body, actor, newIds, n);
      ActivateFails(w, body, actor, newIds, m, n - 1);
    }
  }

  lemma ArchiveNone(s: Store, usage: Usage, body: Body, actor: Actor, rows: seq<Id>)
    requires body.Batch? && Known(s.records, rows)
    ensures ArchiveFirst(s, usage, body, actor, rows, 0) == Ok(s)
  {
  }

  lemma ArchiveNextRow(s: Store, usage: Usage, body: Body, actor: Actor, rows: seq<Id>, i: nat, t: Store)
    requires body.Batch? && Known(s.records, rows) && i < |rows|
    requires ArchiveFirst(s, usage, body, actor, rows, i) == Ok(t)
    ensures Known(t.records, rows) && Known(t.records, [rows[i]])
    ensures var key := Key(Compatibility, rows[i]);
            && key in t.records && t.records[key].fields.CompatibilityFields?
            && ArchiveFirst(s, usage, body, actor, rows, i + 1) ==
               if t.records[key].archived || t.records[key].fields.cabinet in body.cabinets then Ok(t)
               else if Blocked(t.records, usage, key) then Fail(409)
               else Commit(t, Archival(t.records, body, actor, rows[i]), 502)
  {
    hide Commit, Blocked, Archival, ArchiveOne;
    assert rows[i] in rows;
    ArchiveOneCases(t, usage, body, actor, rows[i]);
  }

  lemma {:induction false} ArchiveFails(s: Store, usage: Usage, body: Body, actor: Actor, rows: seq<Id>, m: nat,
                                        n: nat)
    requires body.Batch? && Known(s.records, rows) && m <= n <= |rows|
    requires ArchiveFirst(s, usage, body, actor, rows, m).Fail?
    ensures ArchiveFirst(s, usage, body, actor, rows, n) == ArchiveFirst(s, usage, body, actor, rows, m)
  {
    if m < n {
      ArchiveFails(s, usage, body, actor, rows, m, n - 1);
    }
  }

  /** `byCabinet` answers like the search through the rows. */
  ghost predicate Indexed(byCabinet: map<Id, Id>, records: Records, rows: seq<Id>)
    requires Known(records, rows)
  {
    forall c :: RowFor(records, rows, c) == if c in byCabinet then Some(byCabinet[c]) else None
  }

  lemma IndexedNext(byCabinet: map<Id, Id>, first: Records, second: Records, rows: seq<Id>, c: Change, row: Option<Id>)
    requires Known(first, rows) && Indexed(byCabinet, first, rows) && second == first[c.key := c.after]
    requires c.key.entity == Compatibility && c.after.fields.CompatibilityFields?
    requires row.Some? ==> c.key.id in rows && first[c.key].fields == c.after.fields
    requires row.None? ==> c.key !in first
    ensures Known(second, rows) && Known(second, rows + [c.key.id])
    ensures if row.Some? then Indexed(byCabinet, second, rows)
            else Indexed(byCabinet[c.after.fields.cabinet := c.key.id], second, rows + [c.key.id])
  {
    forall cabinet
      ensures RowFor(second, rows, cabinet) == RowFor(first, rows, cabinet)
      ensures RowFor(second, rows + [c.key.id], cabinet)
           == if c.after.fields.cabinet == cabinet then Some(c.key.id) else RowFor(first, rows, cabinet)
    {
      RowForSame(first, second, rows, cabinet);
      RowForAppend(second, rows, c.key.id, cabinet);
    }
  }

  method IndexRows(records: Records, rows: seq<Id>) returns (byCabinet: map<Id, Id>)
    requires Known(records, rows)
    ensures Indexed(byCabinet, records, rows)
  {
    byCabinet := map[];
    for i := 0 to |rows|
      invariant forall id <- rows[..i] :: id in rows
      invariant Indexed(byCabinet, records, rows[..i])
    {
      assert rows[..i + 1] == rows[..i] + [rows[i]] && rows[i] in rows;
      forall c ensures RowFor(records, rows[..i + 1], c)
                    == if records[Key(Compatibility, rows[i])].fields.cabinet == c then Some(rows[i])
                        else RowFor(records, rows[..i], c) {
        RowForAppend(records, rows[..i], rows[i], c);
      }
      byCabinet := byCabinet[records[Key(Compatibility, rows[i])].fields.cabinet := rows[i]];
    }
    assert rows[..|rows|] == rows;
  }

  class Catalog {
    var records: Records
    var changes: seq<Change>

    constructor (base: Records)
      ensures Contents() == Store(base, [])
    {
      records, changes := base, [];
    }

    ghost function Contents(): Store
      reads this
    {
      Store(records, changes)
    }

    /** Saves a record and its log entry, or neither. */
    method Save(c: Change, clash: nat) returns (failure: Option<nat>)
      modifies this
      ensures var r := Commit(old(Contents()), c, clash);
              if r.Ok? then failure == None && Contents() == r.value
              else failure == Some(r.status) && Contents() == old(Contents())
    {
      if Clashes(records, c.key, c.after) {
        return Some(clash);
      }
      var saved := records;
      records := records[c.key := c.after];
      if FindChange(changes, c.op).Some? {
        records := saved;
        return Some(502);
      }
      changes := changes + [c];
      failure := None;
    }

    /** Creates, updates, archives or restores a record. */
    method Mutate(usage: Usage, action: Action, body: Body, actor: Actor, newId: Id, seen: nat)
      returns (answer: Answer)
      requires body.Single? && seen <= |changes| && Consistent(records)
      modifies this
      ensures (Contents(), answer) == Mutated(old(Contents()), usage, action, body, actor, newId, seen)
    {
      if body.entity.None? {
        return Refused(400);
      }
      var replay := FindReplay(changes[..seen], body, body.op, actor);
      if replay.Fail? {
        return Refused(replay.status);
      }
      if replay.value.Some? {
        return Replayed(replay.value.value.after, replay.value.value);
      }
      var key, record, before;
      if action == Create {
        key, before := Key(body.entity.value, newId), None;
        var fields := Applied(records, key.entity, None, body.values);
        if fields.Fail? {
          return Refused(fields.status);
        }
        record := Record(fields.value, false, "", 1);
      } else {
        if body.id.None? {
          return Refused(400);
        }
        key := Key(body.entity.value, body.id.value);
        if key !in records {
          return Refused(404);
        }
        record := records[key];
        if body.expected < 1 || record.revision != body.expected {
          return Refused(409);
        }
        before := Some(record);
        if action == Archive {
          if record.archived || Blocked(records, usage, key) {
            return Refused(409);
          }
          record := record.(archived := true, archivedBy := actor);
        } else if action == Restore {
          if !record.archived || !Restorable(records, record.fields) {
            return Refused(409);
          }
          record := record.(archived := false, archivedBy := "");
        } else {
          var fields := Applied(records, key.entity, Some(record.fields), body.values);
          if fields.Fail? {
            return Refused(fields.status);
          }
          record := record.(fields := fields.value);
        }
        record := record.(revision := record.revision + 1);
      }
      var change := Logged(body, body.op, actor, action, key, before, record, None);
      var failure := Save(change, 409);
      answer := if failure.Some? then Refused(failure.value) else Saved(record, change);
    }

    /** Brings a record back to what it was before a logged change, or archives it if the change created it. */
    method RevertChange(usage: Usage, body: Body, actor: Actor, seen: nat) returns (answer: Answer)
      requires body.Single? && seen <= |changes| && Consistent(records)
      modifies this
      ensures (Contents(), answer) == RevertOf(old(Contents()), usage, body, actor, seen)
    {
      if body.change.None? {
        return Refused(400);
      }
      var replay := FindReplay(changes[..seen], body, body.op, actor);
      if replay.Fail? {
        return Refused(replay.status);
      }
      if replay.value.Some? {
        return Replayed(replay.value.value.after, replay.value.value);
      }
      if body.change.value >= |changes| || changes[body.change.value].key !in records {
        return Refused(404);
      }
      var key, target := changes[body.change.value].key, changes[body.change.value].before;
      var record := records[key];
      if body.expected < 1 || record.revision != body.expected {
        return Refused(409);
      }
      if target.None? {
        if Blocked(records, usage, key) {
          return Refused(409);
        }
        record := record.(archived := true, archivedBy := actor);
      } else {
        if target.value.archived && !record.archived && Blocked(records, usage, key) {
          return Refused(409);
        }
        var rewound := Rewound(records, key.entity, record, target.value);
        if rewound.Fail? {
          return Refused(rewound.status);
        }
        record := rewound.value;
      }
      record := record.(revision := record.revision + 1);
      var change := Logged(body, body.op, actor, Revert, key, Some(records[key]), record, body.change);
      var failure := Save(change, 502);
      answer := if failure.Some? then Refused(failure.value) else Saved(record, change);
    }

    /** Restores or creates the requested links, one after the other. */
    method ActivateRequested(body: Body, actor: Actor, rows: seq<Id>, newIds: seq<Id>) returns (r: Result<seq<Id>>)
      requires body.Batch? && Known(records, rows) && NewIds(records, newIds) && |newIds| == |body.cabinets|
      modifies this
      ensures var all := ActivateFirst(Work(old(Contents()), rows), body, actor, newIds, |body.cabinets|);
              if all.Ok? then r == Ok(all.value.rows) && Contents() == all.value.store else r == Fail(all.status)
    {
      ghost var start := Work(Contents(), rows);
      var list := rows;
      var byCabinet := IndexRows(records, rows);
      hide Commit, RowFor, FindChange, Clashes;
      for i := 0 to |body.cabinets|
        invariant Known(records, list)
        invariant forall k <- records :: k in start.store.records || k.id in newIds[..i]
        invariant ActivateFirst(start, body, actor, newIds, i) == Ok(Work(Contents(), list))
        invariant Indexed(byCabinet, records, list)
      {
        var cabinet := body.cabinets[i];
        NextId(start.store.records, records, newIds, i + 1);
        var row := if cabinet in byCabinet then Some(byCabinet[cabinet]) else None;
        assert row == RowFor(records, list, cabinet);
        if row.None? || records[Key(Compatibility, row.value)].archived {
          ghost var was := records;
          var change := Activation(records, body, actor, cabinet, row, newIds[i]);
          CommitIs(Contents(), change, 502);
          var failure := Save(change, 502);
          if failure.Some? {
            ActivateFails(start, body, actor, newIds, i + 1, |body.cabinets|);
            return Fail(failure.value);
          }
          IndexedNext(byCabinet, was, records, list, change, row);
          if row.None? {
            byCabinet := byCabinet[cabinet := newIds[i]];
            list := list + [newIds[i]];
          }
        }
      }
      r := Ok(list);
    }

    /** Archives every active link that was not requested. */
    method ArchiveOthers(usage: Usage, body: Body, actor: Actor, rows: seq<Id>) returns (failure: Option<nat>)
      requires body.Batch? && Known(records, rows)
      modifies this
      ensures var all := ArchiveFirst(old(Contents()), usage, body, actor, rows, |rows|);
              if all.Ok? then failure == None && Contents() == all.value else failure == Some(all.status)
    {
      ghost var start := Contents();
      ArchiveNone(start, usage, body, actor, rows);
      hide Commit, Blocked, Known, ArchiveFirst, ArchiveOne, Archival;
      for i := 0 to |rows|
        invariant Known(records, rows)
        invariant ArchiveFirst(start, usage, body, actor, rows, i) == Ok(Contents())
      {
        var id := rows[i];
        var key := Key(Compatibility, id);
        ArchiveNextRow(start, usage, body, actor, rows, i, Contents());
        if records[key].archived || records[key].fields.cabinet in body.cabinets {
          continue;
        }
        if Blocked(records, usage, key) {
          ArchiveFails(start, usage, body, actor, rows, i + 1, |rows|);
          return Some(409);
        }
        failure := Save(Archival(records, body, actor, id), 502);
        if failure.Some? {
          ArchiveFails(start, usage, body, actor, rows, i + 1, |rows|);
          return;
        }
      }
      failure := None;
    }

    /** Brings the links of a version to the requested set; on any failure everything is rolled back. */
    method ReplaceCompatibilities(usage: Usage, body: Body, actor: Actor, rows: seq<Id>, newIds: seq<Id>)
        returns (answer: BatchAnswer)
      requires body.Batch? && Known(records, rows) && NewIds(records, newIds) && |newIds| == |body.cabinets|
      modifies this
      ensures (Contents(), answer) == Replaced(old(Contents()), usage, body, actor, rows, newIds)
    {
      if !WellFormed(body) {
        return BatchRefused(400);
      }
      var ok := ValidateCabinets(records, body.version, body.cabinets);
      if !ok {
        return BatchRefused(409);
      }
      var replay := CompatibilityReplay(changes, body, actor);
      if replay.Fail? {
        return BatchRefused(replay.status);
      }
      if replay.value {
        return BatchReplayed;
      }
      ok := EnsureExpected(records, rows, body.links);
      if !ok {
        return BatchRefused(409);
      }
      var savedRecords, savedChanges := records, changes;
      hide ActivateFirst, ArchiveFirst, AllReplayed, Intents, Offered, AsExpected, WellFormed;
      var list := ActivateRequested(body, actor, rows, newIds);
      if list.Fail? {
        records, changes := savedRecords, savedChanges;
        return BatchRefused(list.status);
      }
      var failure := ArchiveOthers(usage, body, actor, list.value);
      if failure.Some? {
        records, changes := savedRecords, savedChanges;
        return BatchRefused(failure.value);
      }
      answer := Reconciled(changes[|savedChanges|..]);
    }
  }

  lemma CommitIs(s: Store, c: Change, clash: nat)
    ensures Commit(s, c, clash).Ok? ==> Commit(s, c, clash).value == Store(s.records[c.key := c.after], s.changes + [c])
  {
  }
}
