/** The notification inbox that the recovery notice and the announcement fan-out write to
    (service/usernotification/notifications.go and the insert parts of aime.go and announcement.go).

    Record ids are ordered; they are modelled as natural numbers. An inbox row is identified by its position. */
module Inbox {
  type UserId = nat
  type DeviceId = nat

  datatype User = User(created: int, withdrawn: bool)
  datatype Device = Device(user: UserId, locale: string)
  datatype Event = AimeEvent(incident: int) | AnnouncementEvent(publication: nat)
  datatype Notice = Notice(user: UserId, event: Event)

  /** `deliveries` pairs an inbox row with a device. */
  datatype Mail = Mail(users: map<UserId, User>, devices: map<DeviceId, Device>, inbox: seq<Notice>,
                       deliveries: set<(nat, DeviceId)>)

  function Count(inbox: seq<Notice>, user: UserId, event: Event): nat {
    if inbox == [] then 0
    else Count(inbox[..|inbox| - 1], user, event) + if inbox[|inbox| - 1] == Notice(user, event) then 1 else 0
  }

  lemma {:induction false} CountZero(inbox: seq<Notice>, user: UserId, event: Event)
    ensures Count(inbox, user, event) == 0 <==> Notice(user, event) !in inbox
  {
    if inbox != [] {
      CountZero(inbox[..|inbox| - 1], user, event);
      assert inbox == inbox[..|inbox| - 1] + [inbox[|inbox| - 1]];
    }
  }

  /** No user has two rows for one event (the unique index on user and event key). */
  ghost predicate Unique(inbox: seq<Notice>) {
    forall u, e :: Count(inbox, u, e) <= 1
  }

  /** Locales other than English and Japanese receive Korean. */
  function PushLocale(locale: string): string {
    if locale == "en" || locale == "ja" then locale else "ko"
  }

  /** The devices a row is pushed to: those of its user, for announcements only in an offered locale. */
  function Targets(mail: Mail, user: UserId, locales: set<string>): set<DeviceId> {
    set d <- mail.devices | mail.devices[d].user == user && PushLocale(mail.devices[d].locale) in locales
  }

  const EVERY_LOCALE := {"ko", "en", "ja"}

  /** Inserts a row unless the user already has one for the event. */
  function Posted(mail: Mail, user: UserId, event: Event, push: bool, locales: set<string>): Mail {
    if Notice(user, event) in mail.inbox then mail
    else mail.(inbox := mail.inbox + [Notice(user, event)],
               deliveries := mail.deliveries + if push
                                               then set d <- Targets(mail, user, locales) :: (|mail.inbox|, d)
                                               else {})
  }

  lemma PostedCount(mail: Mail, user: UserId, event: Event, push: bool, locales: set<string>)
    ensures var after := Posted(mail, user, event, push, locales);
            && Count(after.inbox, user, event)
                == (if Count(mail.inbox, user, event) == 0 then 1 else Count(mail.inbox, user, event))
            && (forall u, e :: Notice(u, e) != Notice(user, event) ==>
                Count(after.inbox, u, e) == Count(mail.inbox, u, e))
  {
    CountZero(mail.inbox, user, event);
    var rows := mail.inbox + [Notice(user, event)];
    assert rows[..|rows| - 1] == mail.inbox;
  }

  lemma PostedUnique(mail: Mail, user: UserId, event: Event, push: bool, locales: set<string>)
    requires Unique(mail.inbox)
    ensures Unique(Posted(mail, user, event, push, locales).inbox)
  {
    PostedCount(mail, user, event, push, locales);
    var after := Posted(mail, user, event, push, locales).inbox;
    forall u, e ensures Count(after, u, e) <= 1 {
      if Notice(u, e) != Notice(user, event) {
        assert Count(after, u, e) == Count(mail.inbox, u, e);
      }
    }
  }

  class Mailbox {
    var users: map<UserId, User>
    var devices: map<DeviceId, Device>
    var inbox: seq<Notice>
    var deliveries: set<(nat, DeviceId)>

    constructor ()
      ensures Contents() == Mail(map[], map[], [], {})
    {
      users, devices, inbox, deliveries := map[], map[], [], {};
    }

    ghost function Contents(): Mail
      reads this
    {
      Mail(users, devices, inbox, deliveries)
    }

    /** The existence test, the insert and the call of `enqueueDevicesTx`. */
    method Post(user: UserId, event: Event, push: bool, locales: set<string>)
      modifies this
      ensures Contents() == Posted(old(Contents()), user, event, push, locales)
    {
      if Notice(user, event) in inbox {
        return;
      }
      var row := |inbox|;
      inbox := inbox + [Notice(user, event)];
      if push {
        EnqueueDevices(row, user, locales);
      }
    }

    method EnqueueDevices(row: nat, user: UserId, locales: set<string>)
      modifies this`deliveries
      ensures deliveries == old(deliveries) + set d <- Targets(Contents(), user, locales) :: (row, d)
    {
      var rest := set d <- devices | devices[d].user == user;
      ghost var done: set<DeviceId> := {};
      while rest != {}
        invariant rest + done == (set d <- devices | devices[d].user == user) && rest !! done
        invariant deliveries == old(deliveries)
                                + set d <- done | PushLocale(devices[d].locale) in locales :: (row, d)
        decreases rest
      {
        var device :| device in rest;
        rest := rest - {device};
        done := done + {device};
        if PushLocale(devices[device].locale) !in locales {
          continue;
        }
        deliveries := deliveries + {(row, device)};
      }
    }
  }

  // ---------------------------------------------------------------------------------------------
  // Batches in id order
  // ---------------------------------------------------------------------------------------------

  function Least(ids: set<nat>): (m: nat)
    requires ids != {}
    ensures m in ids && forall x <- ids :: m <= x
  {
    LeastExists(ids);
    var m :| IsLeast(m, ids);
    m
  }

  predicate IsLeast(m: nat, ids: set<nat>) {
    m in ids && forall x <- ids :: m <= x
  }

  lemma {:induction false} LeastExists(ids: set<nat>)
    requires ids != {}
    ensures exists m :: IsLeast(m, ids)
    decreases ids
  {
    var a :| a in ids;
    var rest := ids - {a};
    assert ids == rest + {a};
    if rest == {} {
      assert IsLeast(a, ids);
    } else {
      LeastExists(rest);
      var m :| IsLeast(m, rest);
      assert IsLeast(if a < m then a else m, ids);
    }
  }

  /** The first `limit` ids in ascending order: a query sorted by id with a limit. */
  function Lowest(ids: set<nat>, limit: nat): (batch: seq<nat>)
    ensures |batch| == if |ids| < limit then |ids| else limit
    ensures forall x <- batch :: x in ids
    ensures forall i, j :: 0 <= i < j < |batch| ==> batch[i] < batch[j]
    decreases limit
  {
    if limit == 0 || ids == {} then []
    else
      var m := Least(ids);
      assert |ids - {m}| == |ids| - 1;
      var tail := Lowest(ids - {m}, limit - 1);
      assert forall x <- tail :: x in ids - {m} && m < x;
      assert forall k :: 0 <= k < |tail| ==> tail[k] in tail;
      [m] + tail
  }

  function Ids(batch: seq<nat>): set<nat> {
    set id <- batch
  }

  lemma IdsAppend(batch: seq<nat>, last: nat)
    ensures Ids(batch + [last]) == Ids(batch) + {last}
  {
  }

  lemma {:induction false} IdsSize(batch: seq<nat>)
    requires forall i, j :: 0 <= i < j < |batch| ==> batch[i] < batch[j]
    ensures |Ids(batch)| == |batch|
  {
    if batch != [] {
      var rest, last := batch[..|batch| - 1], batch[|batch| - 1];
      IdsSize(rest);
      assert batch == rest + [last];
      assert last !in Ids(rest);
      assert Ids(batch) == Ids(rest) + {last};
    }
  }

  /** What the query left out comes after everything it returned; a short batch leaves nothing out. */
  lemma {:induction false} LowestRest(ids: set<nat>, limit: nat, x: nat)
    requires x in ids && x !in Lowest(ids, limit)
    ensures |Lowest(ids, limit)| == limit
    ensures forall y <- Lowest(ids, limit) :: y < x
    decreases limit
  {
    if limit > 0 {
      var m := Least(ids);
      var tail := Lowest(ids - {m}, limit - 1);
      assert Lowest(ids, limit) == [m] + tail;
      assert m in Lowest(ids, limit);
      LowestRest(ids - {m}, limit - 1, x);
      forall y <- Lowest(ids, limit) ensures y < x {
        assert y == m || y in tail;
      }
    }
  }
}
