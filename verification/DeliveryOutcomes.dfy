/** Which devices a new inbox row is pushed to (service/usernotification/notifications.go and the insert parts of
    announcement.go and aime.go). */
module DeliveryOutcomes {
  import opened Inbox
  import Fanout = AnnouncementFanout
  import Recovery = AimeRecovery

  /** Deliveries belong to rows of the inbox. */
  ghost predicate Inside(mail: Mail) {
    forall i, d :: (i, d) in mail.deliveries ==> i < |mail.inbox|
  }

  /** Row `i` goes to the device: it belongs to the user of the row, and is set to a language that is offered. */
  ghost predicate Reaches(mail: Mail, i: nat, d: DeviceId, push: bool, locales: set<string>)
    requires i < |mail.inbox|
  {
    && push && d in mail.devices && mail.devices[d].user == mail.inbox[i].user
    && (if mail.devices[d].locale == "en" || mail.devices[d].locale == "ja" then mail.devices[d].locale else "ko")
       in locales
  }

  /** Rows were added, each with a delivery for just the devices that it goes to; deliveries of old rows stay. */
  ghost predicate Delivers(before: Mail, after: Mail, push: bool, locales: set<string>) {
    && before.inbox <= after.inbox && after.devices == before.devices
    && forall i: nat, d: DeviceId :: i < |after.inbox| ==>
         ((i, d) in after.deliveries <==>
          if i < |before.inbox| then (i, d) in before.deliveries else Reaches(after, i, d, push, locales))
  }

  lemma PostDelivers(mail: Mail, user: UserId, event: Event, push: bool, locales: set<string>)
    requires Inside(mail)
    ensures var after := Posted(mail, user, event, push, locales); Delivers(mail, after, push, locales) && Inside(after)
  {
  }

  lemma DeliversMore(a: Mail, b: Mail, c: Mail, push: bool, locales: set<string>)
    requires Delivers(a, b, push, locales) && Delivers(b, c, push, locales)
    ensures Delivers(a, c, push, locales)
  {
    forall i: nat, d: DeviceId | i < |c.inbox|
      ensures (i, d) in c.deliveries <==>
              if i < |a.inbox| then (i, d) in a.deliveries else Reaches(c, i, d, push, locales)
    {
      if i < |b.inbox| {
        assert (i, d) in c.deliveries <==> (i, d) in b.deliveries;
      }
    }
  }

  lemma DeliversNothing(mail: Mail, push: bool, locales: set<string>)
    ensures Delivers(mail, mail, push, locales)
  {
  }

  // ---------------------------------------------------------------------------------------------
  // Announcements
  // ---------------------------------------------------------------------------------------------

  lemma {:induction false} PostEachDelivers(mail: Mail, id: Fanout.PubId, p: Fanout.Publication, batch: seq<UserId>)
    requires Inside(mail)
    ensures var after := Fanout.PostEach(mail, id, p, batch);
            Delivers(mail, after, !p.suppressPush, p.locales) && Inside(after)
  {
    hide Delivers, Inside, Posted;
    if batch == [] {
      DeliversNothing(mail, !p.suppressPush, p.locales);
    } else {
      var n := |batch| - 1;
      var b := Fanout.PostEach(mail, id, p, batch[..n]);
      PostEachDelivers(mail, id, p, batch[..n]);
      PostDelivers(b, batch[n], AnnouncementEvent(id), !p.suppressPush, p.locales);
      DeliversMore(mail, b, Fanout.PostEach(mail, id, p, batch), !p.suppressPush, p.locales);
    }
  }

  lemma AnnouncementStep(w: Fanout.World, op: Fanout.Op)
    requires Inside(w.mail)
    ensures Inside(Fanout.Step(w, op).mail)
  {
    if op.OpBatch? && Fanout.IsNext(w.pubs, op.id) {
      PostEachDelivers(w.mail, op.id, w.pubs[op.id],
                       Lowest(Fanout.Eligible(w.mail.users, w.pubs[op.id]), Fanout.BATCH));
    }
    hide Fanout.PostEach, Lowest;
  }

  lemma {:induction false} AnnouncementRun(w: Fanout.World, ops: seq<Fanout.Op>)
    requires Inside(w.mail)
    ensures Inside(Fanout.Run(w, ops).mail)
    decreases |ops|
  {
    hide Inside, Fanout.Step;
    if ops != [] {
      AnnouncementRun(w, ops[..|ops| - 1]);
      AnnouncementStep(Fanout.Run(w, ops[..|ops| - 1]), ops[|ops| - 1]);
    }
  }

  /** In every reachable state, a batch pushes each new row to the devices of its own user in the languages of the
      announcement, and to none if pushing is suppressed. */
  lemma BatchDeliveries(w: Fanout.World, ops: seq<Fanout.Op>, id: Fanout.PubId)
    requires Inside(w.mail) && Fanout.IsNext(Fanout.Run(w, ops).pubs, id)
    ensures var v := Fanout.Run(w, ops);
            var mail := Fanout.Step(v, Fanout.OpBatch(id)).mail;
            var p := v.pubs[id];
            && v.mail.inbox <= mail.inbox && mail.devices == v.mail.devices
            && forall i: nat, d: DeviceId :: i < |mail.inbox| ==>
                 ((i, d) in mail.deliveries <==>
                  if i < |v.mail.inbox| then (i, d) in v.mail.deliveries
                  else !p.suppressPush && d in mail.devices && mail.devices[d].user == mail.inbox[i].user
                       && (if mail.devices[d].locale == "en" || mail.devices[d].locale == "ja"
                           then mail.devices[d].locale else "ko") in p.locales)
  {
    AnnouncementRun(w, ops);
    var v := Fanout.Run(w, ops);
    PostEachDelivers(v.mail, id, v.pubs[id], Lowest(Fanout.Eligible(v.mail.users, v.pubs[id]), Fanout.BATCH));
    hide Fanout.PostEach, Lowest, Fanout.Run, Fanout.Eligible, Inside;
  }

  // ---------------------------------------------------------------------------------------------
  // The recovery notice
  // ---------------------------------------------------------------------------------------------

  lemma {:induction false} DrainEachDelivers(d: Recovery.Drained, ids: seq<nat>)
    requires Recovery.Drainable(d, ids) && Inside(d.mail)
    ensures var after := Recovery.DrainEach(d, ids).mail;
            Delivers(d.mail, after, true, EVERY_LOCALE) && Inside(after)
  {
    hide Delivers, Inside, Posted;
    if ids == [] {
      DeliversNothing(d.mail, true, EVERY_LOCALE);
    } else {
      var n := |ids| - 1;
      var last := ids[n];
      assert ids == ids[..n] + [last];
      DrainEachDelivers(d, ids[..n]);
      var b := Recovery.DrainEach(d, ids[..n]).mail;
      var sub := d.subs[last];
      if !d.mail.users[sub.user].withdrawn {
        PostDelivers(b, sub.user, AimeEvent(sub.incident.value), true, EVERY_LOCALE);
        DeliversMore(d.mail, b, Posted(b, sub.user, AimeEvent(sub.incident.value), true, EVERY_LOCALE), true,
                     EVERY_LOCALE);
      }
    }
  }

  lemma DrainDrainable(w: Recovery.World)
    requires Recovery.Inv(w)
    ensures Recovery.Drainable(Recovery.Drained(w.subs, w.mail), Lowest(w.subs.Keys, Recovery.BATCH))
  {
    hide Lowest, Unique;
  }

  lemma RecoveryStep(w: Recovery.World, op: Recovery.Op)
    requires Recovery.Inv(w) && Inside(w.mail)
    ensures Inside(Recovery.Step(w, op).mail)
  {
    hide Inside, Recovery.DrainEach, Lowest, Recovery.StateStep, Recovery.Inv, Recovery.Drainable,
         Recovery.Subscribed, Recovery.WithoutUser;
    DrainDrainable(w);
    DrainEachDelivers(Recovery.Drained(w.subs, w.mail), Lowest(w.subs.Keys, Recovery.BATCH));
    SameInside(w.mail);
  }

  lemma SameInside(mail: Mail)
    requires Inside(mail)
    ensures forall users :: Inside(mail.(users := users))
    ensures forall devices :: Inside(mail.(devices := devices))
  {
  }

  lemma {:induction false} RecoveryRun(w: Recovery.World, ops: seq<Recovery.Op>)
    requires Recovery.Inv(w) && Inside(w.mail)
    ensures Inside(Recovery.Run(w, ops).mail)
  {
    hide Inside, Recovery.Step, Recovery.Inv;
    if ops != [] {
      RecoveryRun(w, ops[..|ops| - 1]);
      RecoveryStep(Recovery.Run(w, ops[..|ops| - 1]), ops[|ops| - 1]);
    }
  }

  /** In every reachable state, a drain pushes each new notice to all devices of its own user. */
  lemma DrainDeliveries(w: Recovery.World, ops: seq<Recovery.Op>)
    requires Recovery.Inv(w) && Inside(w.mail)
    ensures var v := Recovery.Run(w, ops);
            var mail := Recovery.Step(v, Recovery.OpDrain).mail;
            && v.mail.inbox <= mail.inbox && mail.devices == v.mail.devices
            && forall i: nat, d: DeviceId :: i < |mail.inbox| ==>
                 ((i, d) in mail.deliveries <==>
                  if i < |v.mail.inbox| then (i, d) in v.mail.deliveries
                  else d in mail.devices && mail.devices[d].user == mail.inbox[i].user)
  {
    RecoveryRun(w, ops);
    hide Recovery.Run, Inside, Recovery.Inv, Recovery.Step;
    var v := Recovery.Run(w, ops);
    DrainDelivers(v);
    DeliversEverywhere(v.mail, Recovery.Step(v, Recovery.OpDrain).mail);
  }

  lemma DrainDelivers(w: Recovery.World)
    requires Recovery.Inv(w) && Inside(w.mail)
    ensures Delivers(w.mail, Recovery.Step(w, Recovery.OpDrain).mail, true, EVERY_LOCALE)
  {
    hide Delivers, Inside, Recovery.DrainEach, Lowest, Recovery.Inv, Recovery.Drainable;
    DrainDrainable(w);
    DrainEachDelivers(Recovery.Drained(w.subs, w.mail), Lowest(w.subs.Keys, Recovery.BATCH));
    DeliversNothing(w.mail, true, EVERY_LOCALE);
  }

  lemma DeliversEverywhere(before: Mail, after: Mail)
    requires Delivers(before, after, true, EVERY_LOCALE)
    ensures before.inbox <= after.inbox && after.devices == before.devices
    ensures forall i: nat, d: DeviceId :: i < |after.inbox| ==>
              ((i, d) in after.deliveries <==>
               if i < |before.inbox| then (i, d) in before.deliveries
               else d in after.devices && after.devices[d].user == after.inbox[i].user)
  {
  }

  // ---------------------------------------------------------------------------------------------
  // Who gets a row
  // ---------------------------------------------------------------------------------------------

  /** The query's limit keeps the ids with fewer than `limit` others before them. */
  lemma {:induction false} LowestRanks(ids: set<nat>, limit: nat, x: nat)
    ensures x in Lowest(ids, limit) <==> x in ids && |set y | y in ids && y < x| < limit
    decreases limit
  {
    if limit > 0 && ids != {} {
      var m := Least(ids);
      LowestRanks(ids - {m}, limit - 1, x);
      LowestUnfolds(ids, limit, x);
      hide *;
      RankFalls(ids, m, x);
    }
  }

  lemma LowestUnfolds(ids: set<nat>, limit: nat, x: nat)
    requires limit > 0 && ids != {}
    ensures x in Lowest(ids, limit) <==> x == Least(ids) || x in Lowest(ids - {Least(ids)}, limit - 1)
  {
    hide Least;
  }

  lemma RankFalls(ids: set<nat>, m: nat, x: nat)
    requires m in ids && forall y <- ids :: m <= y
    ensures var before, after := set y | y in ids && y < x, set y | y in ids - {m} && y < x;
            x in ids ==> |before| == if x == m then 0 else |after| + 1
  {
    var before, after := set y | y in ids && y < x, set y | y in ids - {m} && y < x;
    if x == m {
      assert before == {};
    } else if x in ids {
      assert before == after + {m};
    }
  }

  /** In every reachable state, a batch gives a row to a user exactly if they had it or are among the hundred with the
      lowest ids who come after the cursor, existed when the announcement was published and have not withdrawn. */
  lemma BatchRecipients(w: Fanout.World, ops: seq<Fanout.Op>, id: Fanout.PubId, user: UserId)
    requires Fanout.IsNext(Fanout.Run(w, ops).pubs, id)
    ensures var v := Fanout.Run(w, ops);
            var p := v.pubs[id];
            var waiting := set u | u in v.mail.users && !v.mail.users[u].withdrawn && u > p.cursor
                                   && v.mail.users[u].created <= p.publishedAt;
            Notice(user, AnnouncementEvent(id)) in Fanout.Step(v, Fanout.OpBatch(id)).mail.inbox <==>
            || Notice(user, AnnouncementEvent(id)) in v.mail.inbox
            || (user in waiting && |set u | u in waiting && u < user| < 100)
  {
    var v := Fanout.Run(w, ops);
    var p := v.pubs[id];
    var waiting := set u | u in v.mail.users && !v.mail.users[u].withdrawn && u > p.cursor
                           && v.mail.users[u].created <= p.publishedAt;
    assert Fanout.Eligible(v.mail.users, p) == waiting;
    LowestRanks(waiting, 100, user);
    PostEachGives(v.mail, id, p, Lowest(waiting, 100), user);
    hide Fanout.PostEach, Lowest, Fanout.Run, Fanout.Eligible;
  }

  lemma {:induction false} PostEachGives(mail: Mail, id: Fanout.PubId, p: Fanout.Publication, batch: seq<UserId>,
                                         user: UserId)
    ensures Notice(user, AnnouncementEvent(id)) in Fanout.PostEach(mail, id, p, batch).inbox <==>
            Notice(user, AnnouncementEvent(id)) in mail.inbox || user in batch
  {
    if batch != [] {
      var n := |batch| - 1;
      assert batch == batch[..n] + [batch[n]];
      PostEachGives(mail, id, p, batch[..n], user);
    }
  }

  /** In every reachable state, a drain only adds notices of the incident, for subscribers who have not withdrawn. */
  lemma DrainRecipients(w: Recovery.World, ops: seq<Recovery.Op>, notice: Notice)
    requires Recovery.Inv(w)
    ensures var v := Recovery.Run(w, ops);
            notice in Recovery.Step(v, Recovery.OpDrain).mail.inbox && notice !in v.mail.inbox ==>
              && v.state.incident.Some? && notice.event == AimeEvent(v.state.incident.value)
              && notice.user in v.mail.users && !v.mail.users[notice.user].withdrawn
              && exists k <- v.subs :: v.subs[k].user == notice.user
  {
    hide Recovery.Run, Recovery.DrainEach, Lowest, Unique;
    var v := Recovery.Run(w, ops);
    DrainDrainable(v);
    var d := Recovery.Drained(v.subs, v.mail);
    DrainEachGives(d, Lowest(v.subs.Keys, Recovery.BATCH), notice);
  }

  lemma {:induction false} DrainEachGives(d: Recovery.Drained, ids: seq<nat>, notice: Notice)
    requires Recovery.Drainable(d, ids)
    ensures notice in Recovery.DrainEach(d, ids).mail.inbox && notice !in d.mail.inbox ==>
              exists k <- d.subs ::
                && d.subs[k].user == notice.user && d.subs[k].incident.Some? && notice.user in d.mail.users
                && notice.event == AimeEvent(d.subs[k].incident.value) && !d.mail.users[notice.user].withdrawn
  {
    if ids != [] {
      var n := |ids| - 1;
      assert ids == ids[..n] + [ids[n]];
      DrainEachGives(d, ids[..n], notice);
    }
  }
}
