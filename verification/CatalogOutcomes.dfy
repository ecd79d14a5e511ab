/** What each accepted change of the game catalog leaves behind, field by field, and exactly when it is accepted
    (handlers/gamecatalog/management.go). */
module CatalogOutcomes {
  import opened Common
  import opened GameCatalog

  // ---------------------------------------------------------------------------------------------
  // References
  // ---------------------------------------------------------------------------------------------

  ghost predicate Live(records: Records, key: Key) {
    key in records && !records[key].archived
  }

  /** The fields refer to the record: a series to its manufacturer, versions and cabinets to their series,
      compatibilities to both. */
  ghost predicate RefersTo(f: Fields, key: Key) {
    match f
    case ManufacturerFields(_) => false
    case SeriesFields(_, _, _, manufacturer, _) => key.entity == Manufacturer && manufacturer == Some(key.id)
    case VersionFields(series, _, _, _, _) => key == Key(Series, series)
    case CabinetFields(series, _) => key == Key(Series, series)
    case CompatibilityFields(version, cabinet, _) => key == Key(Version, version) || key == Key(Cabinet, cabinet)
  }

  /** Installed games and running campaigns refer to the record. */
  ghost predicate UsedOutside(records: Records, usage: Usage, key: Key) {
    match key.entity
    case Manufacturer => false
    case Series =>
      exists v: Id ::
        && Key(Version, v) in records && records[Key(Version, v)].fields.VersionFields?
        && records[Key(Version, v)].fields.series == key.id
        && ((exists i <- usage.installed :: i.0 == v) || exists c <- usage.campaigns :: v in c.versions)
    case Version =>
      (exists i <- usage.installed :: i.0 == key.id) || exists c <- usage.campaigns :: key.id in c.versions
    case Cabinet =>
      || (exists i <- usage.installed :: i.1 == key.id)
      || exists c <- usage.campaigns :: c.everyCabinet || key.id in c.cabinets
    case Compatibility =>
      && key in records && records[key].fields.CompatibilityFields?
      && var f := records[key].fields;
         || (f.version, f.cabinet) in usage.installed
         || exists c <- usage.campaigns :: f.version in c.versions && (c.everyCabinet || f.cabinet in c.cabinets)
  }

  /** The record cannot be archived: an active record or something outside the catalog refers to it. */
  ghost predicate Needed(records: Records, usage: Usage, key: Key) {
    || (exists k <- records :: !records[k].archived && RefersTo(records[k].fields, key))
    || UsedOutside(records, usage, key)
  }

  /** Everything the fields refer to is active, and a compatibility joins one series. */
  ghost predicate Grounded(records: Records, f: Fields) {
    && (forall k :: RefersTo(f, k) ==> Live(records, k))
    && (f.CompatibilityFields? ==>
        var v, c := Key(Version, f.version), Key(Cabinet, f.cabinet);
        && v in records && records[v].fields.VersionFields? && c in records && records[c].fields.CabinetFields?
        && records[v].fields.series == records[c].fields.series)
  }

  lemma RefersIs(f: Fields, key: Key)
    ensures key in Parents(f) <==> RefersTo(f, key)
  {
  }

  lemma NeededIs(records: Records, usage: Usage, key: Key)
    ensures Blocked(records, usage, key) <==> Needed(records, usage, key)
  {
    UsedIs(records, usage, key);
    forall k <- records ensures key in Parents(records[k].fields) <==> RefersTo(records[k].fields, key) {
      RefersIs(records[k].fields, key);
    }
    hide Parents, RefersTo, InUse, UsedOutside;
  }

  lemma UsedIs(records: Records, usage: Usage, key: Key)
    ensures InUse(records, usage, key) <==> UsedOutside(records, usage, key)
  {
    if key.entity == Series {
      if InUse(records, usage, key) {
        var k :| k in records && k.entity == Version && records[k].fields.VersionFields?
                 && records[k].fields.series == key.id && usage.HasVersion(k.id);
        assert k == Key(Version, k.id);
      }
    }
  }

  lemma GroundedIs(records: Records, f: Fields)
    ensures Restorable(records, f) <==> Grounded(records, f)
  {
    forall k ensures k in Parents(f) <==> RefersTo(f, k) {
      RefersIs(f, k);
    }
    hide Parents, RefersTo;
  }

  // ---------------------------------------------------------------------------------------------
  // Values
  // ---------------------------------------------------------------------------------------------

  ghost predicate NamesOk(n: Names) {
    1 <= |n.en| <= 120 && 1 <= |n.kr| <= 120 && 1 <= |n.jp| <= 120
  }

  /** The values may be entered for a new record, or for one with the fields `current`. */
  ghost predicate Enterable(records: Records, entity: Entity, current: Option<Fields>, v: Values) {
    match entity
    case Manufacturer => v.keys <= {"en", "kr", "jp"} && NamesOk(v.names)
    case Series =>
      && v.keys <= {"series_number", "en", "kr", "jp", "en_short", "kr_short", "jp_short", "manufacturer", "hide_at"}
      && NamesOk(v.names) && |v.shorts.en| <= 60 && |v.shorts.kr| <= 60 && |v.shorts.jp| <= 60
      && v.number.Some? && v.number.value >= 1
      && (v.manufacturer.Some? ==> Live(records, Key(Manufacturer, v.manufacturer.value)))
    case Version =>
      && v.keys <= {"series", "released_on", "en", "kr", "jp", "price_default", "hide_at"}
      && NamesOk(v.names) && |v.releasedOn.text| == 10 && v.price.Some? && v.price.value.valid && v.price.value.isObject
      && (match current
          case None => v.series.Some? && Live(records, Key(Series, v.series.value))
          case Some(f) => f.VersionFields? && (v.series.Some? ==> v.series.value == f.series))
    case Cabinet =>
      && v.keys <= {"series", "en", "kr", "jp"} && NamesOk(v.names)
      && (match current
          case None => v.series.Some? && Live(records, Key(Series, v.series.value))
          case Some(f) => f.CabinetFields? && (v.series.Some? ==> v.series.value == f.series))
    case Compatibility =>
      && v.keys <= {"version", "cabinet", "price_default"} && (v.price.Some? ==> v.price.value.valid)
      && (match current
          case None =>
            && v.version.Some? && v.cabinet.Some?
            && Grounded(records, CompatibilityFields(v.version.value, v.cabinet.value, v.price))
          case Some(f) =>
            && f.CompatibilityFields? && (v.version.Some? ==> v.version.value == f.version)
            && (v.cabinet.Some? ==> v.cabinet.value == f.cabinet))
  }

  /** The fields hold the values; the links of an existing record stay. */
  ghost predicate Holds(f: Fields, entity: Entity, current: Option<Fields>, v: Values) {
    match entity
    case Manufacturer => f == ManufacturerFields(v.names)
    case Series => v.number.Some? && f == SeriesFields(v.number.value, v.names, v.shorts, v.manufacturer, v.hideAt)
    case Version =>
      && f.VersionFields? && f.names == v.names && f.releasedOn == v.releasedOn.stored && f.price == v.price
      && f.hideAt == v.hideAt
      && if current.None? then v.series == Some(f.series)
         else current.value.VersionFields? && f.series == current.value.series
    case Cabinet =>
      && f.CabinetFields? && f.names == v.names
      && if current.None? then v.series == Some(f.series)
         else current.value.CabinetFields? && f.series == current.value.series
    case Compatibility =>
      && f.CompatibilityFields? && f.price == v.price
      && if current.None? then v.version == Some(f.version) && v.cabinet == Some(f.cabinet)
         else current.value.CompatibilityFields? && f.version == current.value.version
              && f.cabinet == current.value.cabinet
  }

  lemma EnteredIs(records: Records, entity: Entity, current: Option<Fields>, values: Option<Values>)
    requires current.Some? ==> Fits(entity, current.value)
    ensures var r := Applied(records, entity, current, values);
            && (r.Ok? <==> values.Some? && Enterable(records, entity, current, values.value))
            && (r.Ok? ==> Holds(r.value, entity, current, values.value))
  {
    if entity == Compatibility && values.Some? && values.value.version.Some? && values.value.cabinet.Some? {
      GroundedIs(records, CompatibilityFields(values.value.version.value, values.value.cabinet.value,
                                              values.value.price));
    }
    hide Grounded;
  }

  // ---------------------------------------------------------------------------------------------
  // Requests for one record
  // ---------------------------------------------------------------------------------------------

  /** The request names a record in the revision that the caller saw, under an operation id of its own. */
  ghost predicate Addresses(s: Store, body: Body, key: Key) {
    && body.Single? && body.entity == Some(key.entity) && body.id == Some(key.id)
    && (forall c <- s.changes :: c.op != body.op)
    && key in s.records && body.expected >= 1 && s.records[key].revision == body.expected
  }

  /** The record is saved and logged with what it was before, and nothing else changes. */
  ghost predicate SavedAs(s: Store, t: Store, answer: Answer, body: Body, actor: Actor, action: Action, key: Key,
                          after: Record, reverts: Option<nat>)
    requires body.Single?
  {
    var before := if key in s.records then Some(s.records[key]) else None;
    var c := Change(body.op, body, actor, action, key, before, after,
                    if before.Some? then before.value.revision else 0, after.revision, reverts);
    answer == Saved(after, c) && t == Store(s.records[key := after], s.changes + [c])
  }

  /** A record is created exactly from acceptable values, under a new operation id, and if it is no second link of its
      version and cabinet. It holds the values and is active in revision 1. */
  lemma CreateOutcome(base: Records, s: Store, usage: Usage, body: Body, actor: Actor, newId: Id)
    requires Inv(base, s) && body.Single? && (body.entity.Some? ==> Key(body.entity.value, newId) !in s.records)
    ensures Consistent(s.records)
    ensures var (t, answer) := Mutated(s, usage, Create, body, actor, newId, |s.changes|);
            && (answer.Saved? <==>
                && body.entity.Some? && body.values.Some? && (forall c <- s.changes :: c.op != body.op)
                && Enterable(s.records, body.entity.value, None, body.values.value)
                && (body.entity == Some(Compatibility) ==>
                    forall k <- s.records :: s.records[k].fields.CompatibilityFields? ==>
                      Some(s.records[k].fields.version) != body.values.value.version
                      || Some(s.records[k].fields.cabinet) != body.values.value.cabinet))
            && (answer.Saved? ==>
                && Holds(answer.item.fields, body.entity.value, None, body.values.value)
                && answer.item == Record(answer.item.fields, false, "", 1)
                && SavedAs(s, t, answer, body, actor, Create, Key(body.entity.value, newId), answer.item, None))
            && (!answer.Saved? ==> t == s)
  {
    hide *;
    InvParts(base, s);
    ReplayNone(s, body, actor);
    if body.entity.Some? {
      var entity := body.entity.value;
      EnteredIs(s.records, entity, None, body.values);
      CreatedIs(s, usage, body, actor, newId);
      var r := Applied(s.records, entity, None, body.values);
      if r.Ok? {
        var after := Record(r.value, false, "", 1);
        CreatedLog(body, actor, Key(entity, newId), after);
        CommitExactly(s, Logged(body, body.op, actor, Create, Key(entity, newId), None, after, None), 409);
        ClashesIs(s.records, Key(entity, newId), after, entity, body.values.value);
        SavedIs(s, body, actor, Create, Key(entity, newId), after, None);
      }
    } else {
      NothingMutated(s, usage, Create, body, actor, newId);
    }
  }

  /** A log entry under the id exists exactly if the replay check finds one. */
  lemma ReplayNone(s: Store, body: Body, actor: Actor)
    requires body.Single?
    ensures FindReplay(s.changes, body, body.op, actor) == Ok(None) <==> forall c <- s.changes :: c.op != body.op
    ensures FindChange(s.changes, body.op).None? <==> forall c <- s.changes :: c.op != body.op
  {
    FindFacts(s.changes, body.op);
    hide FindChange;
  }

  lemma NothingMutated(s: Store, usage: Usage, action: Action, body: Body, actor: Actor, newId: Id)
    requires body.Single? && Consistent(s.records)
    ensures body.entity.None? || FindReplay(s.changes, body, body.op, actor) != Ok(None)
            || (action != Create && (body.id.None? || Key(body.entity.value, body.id.value) !in s.records
                                     || body.expected < 1
                                     || s.records[Key(body.entity.value, body.id.value)].revision != body.expected)) ==>
            Mutated(s, usage, action, body, actor, newId, |s.changes|).0 == s
            && !Mutated(s, usage, action, body, actor, newId, |s.changes|).1.Saved?
  {
    assert s.changes[..|s.changes|] == s.changes;
    hide FindReplay, Applied, Changed, Answered, Logged, Consistent;
  }

  lemma CreatedIs(s: Store, usage: Usage, body: Body, actor: Actor, newId: Id)
    requires body.Single? && body.entity.Some? && Consistent(s.records)
    ensures var (t, answer) := Mutated(s, usage, Create, body, actor, newId, |s.changes|);
            var r := Applied(s.records, body.entity.value, None, body.values);
            if FindReplay(s.changes, body, body.op, actor) == Ok(None) && r.Ok?
            then (t, answer) == Answered(s, Logged(body, body.op, actor, Create, Key(body.entity.value, newId), None,
                                                   Record(r.value, false, "", 1), None), 409)
            else t == s && !answer.Saved?
  {
    assert s.changes[..|s.changes|] == s.changes;
    hide FindReplay, Applied, Answered, Logged, Consistent;
  }

  lemma CommitExactly(s: Store, c: Change, clash: nat)
    ensures var (t, answer) := Answered(s, c, clash);
            if Clashes(s.records, c.key, c.after) || FindChange(s.changes, c.op).Some?
            then t == s && !answer.Saved?
            else (t, answer) == (Store(s.records[c.key := c.after], s.changes + [c]), Saved(c.after, c))
  {
    hide Clashes, FindChange;
  }

  lemma CreatedLog(body: Body, actor: Actor, key: Key, after: Record)
    requires body.Single?
    ensures Logged(body, body.op, actor, Create, key, None, after, None)
         == Change(body.op, body, actor, Create, key, None, after, 0, after.revision, None)
  {
  }

  lemma ClashesIs(records: Records, key: Key, after: Record, entity: Entity, v: Values)
    requires key !in records && Holds(after.fields, entity, None, v)
    ensures Clashes(records, key, after) <==>
            && entity == Compatibility
            && exists k <- records :: records[k].fields.CompatibilityFields?
                                      && Some(records[k].fields.version) == v.version
                                      && Some(records[k].fields.cabinet) == v.cabinet
  {
  }

  lemma SavedIs(s: Store, body: Body, actor: Actor, action: Action, key: Key, after: Record, reverts: Option<nat>)
    requires body.Single?
    ensures var before := if key in s.records then Some(s.records[key]) else None;
            var c := Logged(body, body.op, actor, action, key, before, after, reverts);
            SavedAs(s, Store(s.records[key := after], s.changes + [c]), Saved(after, c), body, actor, action, key,
                    after, reverts)
  {
  }

  /** What a request does to the stored record, if it is accepted. */
  ghost predicate ActsOn(s: Store, t: Store, answer: Answer, accepted: bool, body: Body, actor: Actor, action: Action,
                         key: Key, after: Record)
    requires body.Single?
  {
    && (answer.Saved? <==> accepted)
    && (if accepted then SavedAs(s, t, answer, body, actor, action, key, after, None) else t == s)
  }

  lemma ChangedIs(base: Records, s: Store, usage: Usage, action: Action, body: Body, actor: Actor, key: Key)
    requires Inv(base, s) && Addresses(s, body, key) && action != Create && action != Revert
    ensures Consistent(s.records) && Fits(key.entity, s.records[key].fields)
    ensures var (t, answer) := Mutated(s, usage, action, body, actor, 0, |s.changes|);
            var r := Changed(s.records, usage, action, body, actor, key);
            && (r.Ok? ==> SavedAs(s, t, answer, body, actor, action, key, r.value, None))
            && (r.Fail? ==> t == s && !answer.Saved?)
  {
    hide *;
    InvParts(base, s);
    AddressedParts(s, body, key);
    ConsistentAt(s.records, key);
    ReplayNone(s, body, actor);
    ChangedCases(s, usage, action, body, actor, key);
    var r := Changed(s.records, usage, action, body, actor, key);
    if r.Ok? {
      ChangedLinks(s.records, usage, action, body, actor, key);
      NoClash(s.records, key, r.value);
      ChangedLog(s, body, actor, action, key, r.value);
      CommitExactly(s, Logged(body, body.op, actor, action, key, Some(s.records[key]), r.value, None), 409);
      SavedIs(s, body, actor, action, key, r.value, None);
    }
  }

  lemma AddressedParts(s: Store, body: Body, key: Key)
    requires Addresses(s, body, key)
    ensures body.Single? && body.entity == Some(key.entity) && body.id == Some(key.id) && key in s.records
    ensures body.expected >= 1 && s.records[key].revision == body.expected && forall c <- s.changes :: c.op != body.op
  {
  }

  lemma ChangedCases(s: Store, usage: Usage, action: Action, body: Body, actor: Actor, key: Key)
    requires Consistent(s.records) && body.Single? && body.entity == Some(key.entity) && body.id == Some(key.id)
    requires key in s.records && body.expected >= 1 && s.records[key].revision == body.expected && action != Create
    requires FindReplay(s.changes, body, body.op, actor) == Ok(None)
    ensures Fits(key.entity, s.records[key].fields)
    ensures var (t, answer) := Mutated(s, usage, action, body, actor, 0, |s.changes|);
            match Changed(s.records, usage, action, body, actor, key)
            case Fail(_) => t == s && !answer.Saved?
            case Ok(after) =>
              var c := Logged(body, body.op, actor, action, key, Some(s.records[key]), after, None);
              (t, answer) == Answered(s, c, 409)
  {
    assert s.changes[..|s.changes|] == s.changes;
    hide FindReplay, Changed, Answered, Logged, Fits;
  }

  lemma ChangedLinks(records: Records, usage: Usage, action: Action, body: Body, actor: Actor, key: Key)
    requires body.Single? && key in records && Fits(key.entity, records[key].fields) && action != Create
    ensures var r := Changed(records, usage, action, body, actor, key);
            r.Ok? ==> SameLinks(r.value.fields, records[key].fields)
  {
    SameLinksReflexive();
    AppliedFacts(records, key.entity, Some(records[key].fields), body.values);
    hide Applied, Blocked, Restorable;
  }

  lemma ChangedLog(s: Store, body: Body, actor: Actor, action: Action, key: Key, after: Record)
    requires body.Single? && key in s.records
    ensures var c := Logged(body, body.op, actor, action, key, Some(s.records[key]), after, None);
            c.key == key && c.op == body.op && c.after == after
  {
  }

  /** An update replaces the fields by the entered values and keeps the archived flag and all links but a series'
      manufacturer. */
  lemma UpdateOutcome(base: Records, s: Store, usage: Usage, body: Body, actor: Actor, key: Key)
    requires Inv(base, s) && Addresses(s, body, key)
    ensures Consistent(s.records)
    ensures var (t, answer) := Mutated(s, usage, Update, body, actor, 0, |s.changes|);
            var r := s.records[key];
            && (answer.Saved? <==>
                body.values.Some? && Enterable(s.records, key.entity, Some(r.fields), body.values.value))
            && (answer.Saved? ==>
                && Holds(answer.item.fields, key.entity, Some(r.fields), body.values.value)
                && answer.item == r.(fields := answer.item.fields, revision := r.revision + 1)
                && SavedAs(s, t, answer, body, actor, Update, key, answer.item, None))
            && (!answer.Saved? ==> t == s)
  {
    hide *;
    AddressedParts(s, body, key);
    ChangedIs(base, s, usage, Update, body, actor, key);
    EnteredIs(s.records, key.entity, Some(s.records[key].fields), body.values);
    UpdatedIs(s.records, usage, body, actor, key);
    var (t, answer) := Mutated(s, usage, Update, body, actor, 0, |s.changes|);
    var r := Changed(s.records, usage, Update, body, actor, key);
    if r.Ok? {
      SavedItem(s, t, answer, body, actor, Update, key, r.value);
    }
  }

  lemma SavedItem(s: Store, t: Store, answer: Answer, body: Body, actor: Actor, action: Action, key: Key, after: Record)
    requires body.Single? && SavedAs(s, t, answer, body, actor, action, key, after, None)
    ensures answer.Saved? && answer.item == after
  {
  }

  lemma UpdatedIs(records: Records, usage: Usage, body: Body, actor: Actor, key: Key)
    requires body.Single? && key in records && Fits(key.entity, records[key].fields)
    ensures var r := Applied(records, key.entity, Some(records[key].fields), body.values);
            Changed(records, usage, Update, body, actor, key) ==
            match r
            case Fail(status) => Fail(status)
            case Ok(f) => Ok(records[key].(fields := f, revision := records[key].revision + 1))
  {
    hide Applied;
  }

  /** An active record that nobody needs is archived, with its fields as they are. */
  lemma ArchiveOutcome(base: Records, s: Store, usage: Usage, body: Body, actor: Actor, key: Key)
    requires Inv(base, s) && Addresses(s, body, key)
    ensures Consistent(s.records)
    ensures var (t, answer) := Mutated(s, usage, Archive, body, actor, 0, |s.changes|);
            var r := s.records[key];
            ActsOn(s, t, answer, !r.archived && !Needed(s.records, usage, key), body, actor, Archive, key,
                   r.(archived := true, archivedBy := actor, revision := r.revision + 1))
  {
    hide *;
    AddressedParts(s, body, key);
    ChangedIs(base, s, usage, Archive, body, actor, key);
    NeededIs(s.records, usage, key);
    ArchivedIs(s.records, usage, body, actor, key);
    var (t, answer) := Mutated(s, usage, Archive, body, actor, 0, |s.changes|);
    var r := s.records[key];
    ActsFrom(s, t, answer, !r.archived && !Needed(s.records, usage, key), body, actor, Archive, key,
             r.(archived := true, archivedBy := actor, revision := r.revision + 1));
  }

  lemma ActsFrom(s: Store, t: Store, answer: Answer, accepted: bool, body: Body, actor: Actor, action: Action, key: Key,
                 after: Record)
    requires body.Single?
    requires accepted ==> SavedAs(s, t, answer, body, actor, action, key, after, None)
    requires !accepted ==> t == s && !answer.Saved?
    ensures ActsOn(s, t, answer, accepted, body, actor, action, key, after)
  {
  }

  lemma ArchivedIs(records: Records, usage: Usage, body: Body, actor: Actor, key: Key)
    requires body.Single? && key in records && Fits(key.entity, records[key].fields)
    ensures var r := records[key];
            var after := Changed(records, usage, Archive, body, actor, key);
            if !r.archived && !Blocked(records, usage, key)
            then after == Ok(r.(archived := true, archivedBy := actor, revision := r.revision + 1))
            else after.Fail?
  {
    hide Blocked;
  }

  /** An archived record whose references are active is restored, with its fields as they are. */
  lemma RestoreOutcome(base: Records, s: Store, usage: Usage, body: Body, actor: Actor, key: Key)
    requires Inv(base, s) && Addresses(s, body, key)
    ensures Consistent(s.records)
    ensures var (t, answer) := Mutated(s, usage, Restore, body, actor, 0, |s.changes|);
            var r := s.records[key];
            ActsOn(s, t, answer, r.archived && Grounded(s.records, r.fields), body, actor, Restore, key,
                   r.(archived := false, archivedBy := "", revision := r.revision + 1))
  {
    hide *;
    AddressedParts(s, body, key);
    ChangedIs(base, s, usage, Restore, body, actor, key);
    GroundedIs(s.records, s.records[key].fields);
    RestoredIs(s.records, usage, body, actor, key);
    var (t, answer) := Mutated(s, usage, Restore, body, actor, 0, |s.changes|);
    var r := s.records[key];
    ActsFrom(s, t, answer, r.archived && Grounded(s.records, r.fields), body, actor, Restore, key,
             r.(archived := false, archivedBy := "", revision := r.revision + 1));
  }

  lemma RestoredIs(records: Records, usage: Usage, body: Body, actor: Actor, key: Key)
    requires body.Single? && key in records && Fits(key.entity, records[key].fields)
    ensures var r := records[key];
            var after := Changed(records, usage, Restore, body, actor, key);
            if r.archived && Restorable(records, r.fields)
            then after == Ok(r.(archived := false, archivedBy := "", revision := r.revision + 1))
            else after.Fail?
  {
    hide Restorable;
  }

  /** A request that names no stored record in its revision, or no operation of its own, changes nothing. */
  lemma OtherwiseUnchanged(base: Records, s: Store, usage: Usage, action: Action, body: Body, actor: Actor, newId: Id)
    requires Inv(base, s) && body.Single? && action != Create
    requires forall key :: !Addresses(s, body, key)
    ensures Consistent(s.records)
    ensures var (t, answer) := Mutated(s, usage, action, body, actor, newId, |s.changes|); t == s && !answer.Saved?
  {
    hide *;
    InvParts(base, s);
    ReplayNone(s, body, actor);
    NothingMutated(s, usage, action, body, actor, newId);
    if body.entity.Some? && body.id.Some? {
      NotAddressed(s, body, Key(body.entity.value, body.id.value));
    }
  }

  lemma NotAddressed(s: Store, body: Body, key: Key)
    requires body.Single? && body.entity == Some(key.entity) && body.id == Some(key.id) && !Addresses(s, body, key)
    ensures (exists c <- s.changes :: c.op == body.op) || key !in s.records || body.expected < 1
            || s.records[key].revision != body.expected
  {
  }

  /** Reverting a creation archives the record unless somebody needs it. */
  lemma UndoOutcome(base: Records, s: Store, usage: Usage, body: Body, actor: Actor, n: nat)
    requires Inv(base, s) && RevertRequest(s, body, n) && s.changes[n].before.None?
    ensures Consistent(s.records)
    ensures var (t, answer) := RevertOf(s, usage, body, actor, |s.changes|);
            var key := s.changes[n].key;
            var r := s.records[key];
            && (answer.Saved? <==> !Needed(s.records, usage, key))
            && (if answer.Saved?
                then SavedAs(s, t, answer, body, actor, Revert, key,
                             r.(archived := true, archivedBy := actor, revision := r.revision + 1), Some(n))
                else t == s)
  {
    hide *;
    InvParts(base, s);
    RequestParts(s, body, n);
    RevisionPositive(base, s, n);
    RevertOfIs(s, usage, body, actor, n);
    var key := s.changes[n].key;
    var r := s.records[key];
    NeededIs(s.records, usage, key);
    UndoneIs(s.records, usage, actor, key);
    var after := r.(archived := true, archivedBy := actor, revision := r.revision + 1);
    SameLinksReflexive();
    NoClash(s.records, key, after);
    RevertLogged(s, body, actor, key, after, n);
    CommitExactly(s, Logged(body, body.op, actor, Revert, key, Some(r), after, Some(n)), 502);
    SavedIs(s, body, actor, Revert, key, after, Some(n));
  }

  lemma UndoneIs(records: Records, usage: Usage, actor: Actor, key: Key)
    requires key in records && Fits(key.entity, records[key].fields)
    ensures Reverted(records, usage, actor, key, None) ==
            if Blocked(records, usage, key) then Fail(409)
            else Ok(records[key].(archived := true, archivedBy := actor))
  {
    hide Blocked;
  }

  // ---------------------------------------------------------------------------------------------
  // Batches
  // ---------------------------------------------------------------------------------------------

  /** The request names each cabinet once; the version is active, and so are the cabinets, all of its series. */
  ghost predicate Joins(records: Records, body: Body)
    requires body.Batch?
  {
    var version := Key(Version, body.version);
    && (forall i, j :: 0 <= i < j < |body.cabinets| ==> body.cabinets[i] != body.cabinets[j])
    && Live(records, version)
    && forall c <- body.cabinets ::
         var cabinet := Key(Cabinet, c);
         && Live(records, cabinet)
         && records[version].fields.VersionFields? && records[cabinet].fields.CabinetFields?
         && records[version].fields.series == records[cabinet].fields.series
  }

  /** The expected links are the active ones, one for one, in the revisions that the caller saw. */
  ghost predicate Expects(records: Records, body: Body)
    requires body.Batch?
  {
    && (forall e <- body.links ::
          var k := Key(Compatibility, e.id);
          && e.revision >= 1 && IsLink(records, k, body.version) && !records[k].archived
          && records[k].fields.cabinet == e.cabinet && records[k].revision == e.revision)
    && (forall k <- records :: IsLink(records, k, body.version) && !records[k].archived ==>
          exists e <- body.links :: k == Key(Compatibility, e.id))
    && (forall i, j :: 0 <= i < j < |body.links| ==>
          body.links[i].id != body.links[j].id && body.links[i].cabinet != body.links[j].cabinet)
  }

  /** No derived id of the batch was used before. */
  ghost predicate Unused(s: Store, body: Body)
    requires body.Batch?
  {
    forall c <- s.changes :: c.op.Derived? && c.op.base == body.op ==>
      var expected := exists e <- body.links :: e.cabinet == c.op.cabinet;
      if c.op.activate then c.op.cabinet !in body.cabinets || expected
      else c.op.cabinet in body.cabinets || !expected
  }

  /** An active link of the version that the request does not name. */
  ghost predicate Superfluous(records: Records, body: Body, k: Key)
    requires body.Batch?
  {
    IsLink(records, k, body.version) && !records[k].archived && records[k].fields.cabinet !in body.cabinets
  }

  /** A batch is carried out exactly if it joins active records, expects what there is, was not tried before, and drops
      no link that is in use outside the catalog. */
  lemma BatchOutcome(base: Records, s: Store, usage: Usage, body: Body, actor: Actor, rows: seq<Id>, newIds: seq<Id>)
    requires body.Batch? && Inv(base, s) && Lists(s.records, body.version, rows)
    requires NewIds(s.records, newIds) && |newIds| == |body.cabinets|
    ensures Known(s.records, rows)
    ensures Replaced(s, usage, body, actor, rows, newIds).1.Reconciled? <==>
            && Joins(s.records, body) && Expects(s.records, body) && Unused(s, body)
            && forall k <- s.records :: Superfluous(s.records, body, k) ==> !UsedOutside(s.records, usage, k)
  {
    hide *;
    ListsKnown(s.records, body.version, rows);
    InvParts(base, s);
    BatchSucceedsExactly(base, s, usage, body, actor, rows, newIds);
    ReconcileIs(s, usage, body, rows);
    WellFormedIs(body);
    JoinsIs(s.records, body);
    ExpectsIs(s.records, body, rows);
    UnusedIs(s, body);
    StuckIs(s.records, usage, body, rows);
  }

  lemma ReconcileIs(s: Store, usage: Usage, body: Body, rows: seq<Id>)
    requires body.Batch? && Known(s.records, rows)
    ensures CanReconcile(s, usage, body, rows) <==>
            && WellFormed(body) && Offered(s.records, body.version, body.cabinets)
            && AsExpected(s.records, rows, body.links)
            && (forall op <- Intents(body) :: FindChange(s.changes, op).None?)
            && forall id <- rows :: !Stuck(s.records, usage, body, id)
  {
    hide WellFormed, Offered, AsExpected, Intents, FindChange, Stuck;
  }

  lemma WellFormedIs(body: Body)
    requires body.Batch?
    ensures WellFormed(body) <==>
            && Distinct(body.cabinets) && Distinct(LinkIds(body.links)) && Distinct(LinkCabinets(body.links))
            && forall e <- body.links :: e.revision >= 1
  {
  }

  lemma JoinsIs(records: Records, body: Body)
    requires body.Batch?
    ensures Joins(records, body) <==> Distinct(body.cabinets) && Offered(records, body.version, body.cabinets)
  {
  }

  lemma ExpectsIs(records: Records, body: Body, rows: seq<Id>)
    requires body.Batch? && Lists(records, body.version, rows) && Known(records, rows)
    ensures Expects(records, body) <==>
            && AsExpected(records, rows, body.links) && Distinct(LinkIds(body.links))
            && Distinct(LinkCabinets(body.links)) && forall e <- body.links :: e.revision >= 1
  {
    var ids, cabinets := LinkIds(body.links), LinkCabinets(body.links);
    assert |ids| == |body.links| && forall i :: 0 <= i < |ids| ==> ids[i] == body.links[i].id;
    assert |cabinets| == |body.links| && forall i :: 0 <= i < |cabinets| ==> cabinets[i] == body.links[i].cabinet;
    hide ActiveRows, AsExpected, LinkIds, LinkCabinets;
    if Expects(records, body) {
      ExpectsAll(records, body, rows);
    } else if AsExpected(records, rows, body.links) && Distinct(ids) {
      ExpectedAll(records, body, rows);
    }
  }

  lemma ExpectsAll(records: Records, body: Body, rows: seq<Id>)
    requires body.Batch? && Lists(records, body.version, rows) && Known(records, rows) && Expects(records, body)
    ensures AsExpected(records, rows, body.links) && Distinct(LinkIds(body.links))
  {
    var ids := LinkIds(body.links);
    assert |ids| == |body.links| && forall i :: 0 <= i < |ids| ==> ids[i] == body.links[i].id;
    assert Distinct(ids);
    forall id <- ids ensures id in ActiveRows(records, rows) {
      var i :| 0 <= i < |ids| && ids[i] == id;
      assert body.links[i] in body.links;
      assert IsLink(records, Key(Compatibility, id), body.version);
    }
    forall id <- ActiveRows(records, rows) ensures id in ids {
      assert IsLink(records, Key(Compatibility, id), body.version);
      var e :| e in body.links && Key(Compatibility, id) == Key(Compatibility, e.id);
      var i :| 0 <= i < |body.links| && body.links[i] == e;
      assert ids[i] == id;
    }
    assert Elements(ids) == ActiveRows(records, rows);
    DistinctSize(ids);
  }

  lemma ExpectedAll(records: Records, body: Body, rows: seq<Id>)
    requires body.Batch? && Lists(records, body.version, rows) && Known(records, rows)
    requires AsExpected(records, rows, body.links) && Distinct(LinkIds(body.links))
    ensures forall e <- body.links ::
              var k := Key(Compatibility, e.id);
              && IsLink(records, k, body.version) && !records[k].archived
              && records[k].fields.cabinet == e.cabinet && records[k].revision == e.revision
    ensures forall k <- records :: IsLink(records, k, body.version) && !records[k].archived ==>
              exists e <- body.links :: k == Key(Compatibility, e.id)
  {
    var ids := LinkIds(body.links);
    forall e <- body.links ensures IsLink(records, Key(Compatibility, e.id), body.version) {
      assert e.id in rows;
    }
    forall id <- Elements(ids) ensures id in ActiveRows(records, rows) {
      var i :| 0 <= i < |ids| && ids[i] == id;
      assert body.links[i] in body.links;
    }
    DistinctSize(ids);
    SameSize(Elements(ids), ActiveRows(records, rows));
    forall k <- records | IsLink(records, k, body.version) && !records[k].archived
      ensures exists e <- body.links :: k == Key(Compatibility, e.id)
    {
      assert k.id in ActiveRows(records, rows) && k.id in Elements(ids);
      var i :| 0 <= i < |ids| && ids[i] == k.id;
      assert body.links[i] in body.links;
    }
  }

  lemma UnusedIs(s: Store, body: Body)
    requires body.Batch?
    ensures Unused(s, body) <==> forall op <- Intents(body) :: FindChange(s.changes, op).None?
  {
    forall cabinet ensures cabinet in LinkCabinets(body.links) <==> exists e <- body.links :: e.cabinet == cabinet {
      CabinetLinked(body.links, cabinet);
    }
    forall op ensures op in Intents(body) <==> Intended(body, op) {
      IntentsAre(body, op);
    }
    forall op ensures FindChange(s.changes, op).None? <==> forall c <- s.changes :: c.op != op {
      FindFacts(s.changes, op);
    }
    hide Intents, FindChange, LinkCabinets;
    assert Unused(s, body) <==> forall c <- s.changes :: !Intended(body, c.op);
  }

  ghost predicate Intended(body: Body, op: OpId)
    requires body.Batch?
  {
    && op.Derived? && op.base == body.op
    && if op.activate then op.cabinet in body.cabinets && op.cabinet !in LinkCabinets(body.links)
       else op.cabinet !in body.cabinets && op.cabinet in LinkCabinets(body.links)
  }

  lemma CabinetLinked(links: seq<Expected>, cabinet: Id)
    ensures cabinet in LinkCabinets(links) <==> exists e <- links :: e.cabinet == cabinet
  {
    var cabinets := LinkCabinets(links);
    if cabinet in cabinets {
      var i :| 0 <= i < |cabinets| && cabinets[i] == cabinet;
      assert links[i] in links;
    }
    if e :| e in links && e.cabinet == cabinet {
      var i :| 0 <= i < |links| && links[i] == e;
      assert cabinets[i] == cabinet;
    }
  }

  lemma StuckIs(records: Records, usage: Usage, body: Body, rows: seq<Id>)
    requires body.Batch? && Lists(records, body.version, rows)
    ensures (forall id <- rows :: !Stuck(records, usage, body, id)) <==>
            forall k <- records :: Superfluous(records, body, k) ==> !UsedOutside(records, usage, k)
  {
    forall k ensures InUse(records, usage, k) <==> UsedOutside(records, usage, k) {
      UsedIs(records, usage, k);
    }
    hide InUse, UsedOutside;
    forall k <- records | Superfluous(records, body, k) ensures k == Key(Compatibility, k.id) && k.id in rows {
    }
    forall id <- rows
      ensures Stuck(records, usage, body, id) <==>
              var k := Key(Compatibility, id); Superfluous(records, body, k) && UsedOutside(records, usage, k)
    {
      assert IsLink(records, Key(Compatibility, id), body.version);
    }
    hide Stuck, Superfluous, Lists;
  }

  // ---------------------------------------------------------------------------------------------
  // Reverting to a snapshot
  // ---------------------------------------------------------------------------------------------

  /** What the validator asks of the fields of a snapshot. */
  ghost predicate Presentable(f: Fields) {
    match f
    case ManufacturerFields(names) => NamesOk(names)
    case SeriesFields(number, names, shorts, _, _) =>
      NamesOk(names) && |shorts.en| <= 60 && |shorts.kr| <= 60 && |shorts.jp| <= 60 && number >= 1
    case VersionFields(_, releasedOn, names, price, _) =>
      NamesOk(names) && |releasedOn| == 10 && price.Some? && price.value.valid && price.value.isObject
    case CabinetFields(_, names) => NamesOk(names)
    case CompatibilityFields(_, _, price) => price.Some? ==> price.value.valid
  }

  lemma PresentableIs(f: Fields)
    ensures FieldsValid(f) <==> Presentable(f)
  {
  }

  /** Reverting a change that had a record before it puts this record back in the next revision, unless its fields do
      not pass the validator, what they refer to is archived, or the record is needed and would be archived. */
  lemma ReturnOutcome(base: Records, s: Store, usage: Usage, body: Body, actor: Actor, n: nat)
    requires Inv(base, s) && RevertRequest(s, body, n) && s.changes[n].before.Some?
    ensures Consistent(s.records)
    ensures var (t, answer) := RevertOf(s, usage, body, actor, |s.changes|);
            var key, target := s.changes[n].key, s.changes[n].before.value;
            var r := s.records[key];
            && (answer.Saved? <==>
                && Presentable(target.fields)
                && (target.fields.SeriesFields? || !target.archived ==>
                      forall k :: RefersTo(target.fields, k) ==> Live(s.records, k))
                && (target.archived && !r.archived ==> !Needed(s.records, usage, key)))
            && (if answer.Saved?
                then SavedAs(s, t, answer, body, actor, Revert, key,
                             Record(target.fields, target.archived, if target.archived then target.archivedBy else "",
                                    r.revision + 1), Some(n))
                else t == s)
  {
    hide *;
    InvParts(base, s);
    RequestParts(s, body, n);
    TracedBefore(s, n);
    RevisionPositive(base, s, n);
    RevertOfIs(s, usage, body, actor, n);
    var key, target := s.changes[n].key, s.changes[n].before.value;
    var r := s.records[key];
    RevertedExactly(s.records, usage, actor, key, target);
    ReturnsIs(s.records, usage, key, target);
    ReturnedNext(target, r.revision);
    ReturnedIs(target, r.revision + 1);
    var after := Returned(target, r.revision + 1);
    NoClash(s.records, key, after);
    RevertLogged(s, body, actor, key, after, n);
    CommitExactly(s, Logged(body, body.op, actor, Revert, key, Some(r), after, Some(n)), 502);
    SavedIs(s, body, actor, Revert, key, after, Some(n));
  }

  lemma ReturnsIs(records: Records, usage: Usage, key: Key, target: Record)
    requires key in records
    ensures CanReturnTo(records, usage, key, target) <==>
            && Presentable(target.fields)
            && (target.fields.SeriesFields? || !target.archived ==>
                  forall k :: RefersTo(target.fields, k) ==> Live(records, k))
            && (target.archived && !records[key].archived ==> !Needed(records, usage, key))
  {
    PresentableIs(target.fields);
    NeededIs(records, usage, key);
    forall k ensures k in Parents(target.fields) <==> RefersTo(target.fields, k) {
      RefersIs(target.fields, k);
    }
    hide FieldsValid, Presentable, Blocked, Needed, Parents, RefersTo;
  }

  lemma ReturnedIs(target: Record, revision: nat)
    ensures Returned(target, revision)
         == Record(target.fields, target.archived, if target.archived then target.archivedBy else "", revision)
  {
  }

  // ---------------------------------------------------------------------------------------------
  // Refusals
  // ---------------------------------------------------------------------------------------------

  /** An unnamed collection or record is answered with 400, an unknown one with 404, a stale revision with 409; and so
      is archiving what is archived or needed, and restoring what is active or lacks a parent. */
  lemma MutateRefusals(base: Records, s: Store, usage: Usage, action: Action, body: Body, actor: Actor)
    requires Inv(base, s) && body.Single? && (forall c <- s.changes :: c.op != body.op)
    requires action == Update || action == Archive || action == Restore
    ensures Consistent(s.records)
    ensures var answer := Mutated(s, usage, action, body, actor, 0, |s.changes|).1;
            if body.entity.None? || body.id.None? then answer == Refused(400)
            else
              var key := Key(body.entity.value, body.id.value);
              if key !in s.records then answer == Refused(404)
              else if body.expected < 1 || s.records[key].revision != body.expected then answer == Refused(409)
              else answer.Refused? && action != Update ==> answer == Refused(409)
  {
    hide *;
    InvParts(base, s);
    ReplayNone(s, body, actor);
    RefusedIs(s, usage, action, body, actor);
    if body.entity.Some? && body.id.Some? && Key(body.entity.value, body.id.value) in s.records {
      var key := Key(body.entity.value, body.id.value);
      ConsistentAt(s.records, key);
      if action != Update {
        ConflictIs(s.records, usage, action, body, actor, key);
      }
      if body.expected >= 1 && s.records[key].revision == body.expected {
        AddressesIs(s, body, key);
        ChangedIs(base, s, usage, action, body, actor, key);
        var (t, answer) := Mutated(s, usage, action, body, actor, 0, |s.changes|);
        var r := Changed(s.records, usage, action, body, actor, key);
        if r.Ok? {
          SavedItem(s, t, answer, body, actor, action, key, r.value);
        }
      }
    }
  }

  lemma AddressesIs(s: Store, body: Body, key: Key)
    requires body.Single? && body.entity == Some(key.entity) && body.id == Some(key.id) && key in s.records
    requires body.expected >= 1 && s.records[key].revision == body.expected && forall c <- s.changes :: c.op != body.op
    ensures Addresses(s, body, key)
  {
  }

  lemma RefusedIs(s: Store, usage: Usage, action: Action, body: Body, actor: Actor)
    requires body.Single? && Consistent(s.records) && FindReplay(s.changes, body, body.op, actor) == Ok(None)
    requires action != Create
    ensures var answer := Mutated(s, usage, action, body, actor, 0, |s.changes|).1;
            if body.entity.None? || body.id.None? then answer == Refused(400)
            else
              var key := Key(body.entity.value, body.id.value);
              if key !in s.records then answer == Refused(404)
              else if body.expected < 1 || s.records[key].revision != body.expected then answer == Refused(409)
              else
                && Fits(key.entity, s.records[key].fields)
                && var r := Changed(s.records, usage, action, body, actor, key);
                   r.Fail? ==> answer == Refused(r.status)
  {
    assert s.changes[..|s.changes|] == s.changes;
    hide FindReplay, Changed, Answered, Logged, Fits;
  }

  lemma ConflictIs(records: Records, usage: Usage, action: Action, body: Body, actor: Actor, key: Key)
    requires body.Single? && key in records && Fits(key.entity, records[key].fields)
    requires action == Archive || action == Restore
    ensures var r := Changed(records, usage, action, body, actor, key); r.Fail? ==> r.status == 409
  {
    hide Blocked, Restorable;
  }
}
