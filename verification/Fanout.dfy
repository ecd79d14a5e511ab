/** Resumable fan-out of announcements (service/usernotification/announcement.go). */
module AnnouncementFanout {
  import opened Common
  import opened Inbox

  const BATCH := 100

  type PubId = nat

  /** `cursor` is the id of the last user handled; ids are positive, 0 stands for the empty cursor. */
  datatype Publication = Publication(published: bool, publishedAt: int, cursor: nat, done: bool,
                                     suppressPush: bool, locales: set<string>)

  datatype World = World(mail: Mail, pubs: map<PubId, Publication>)

  // ---------------------------------------------------------------------------------------------
  // One batch
  // ---------------------------------------------------------------------------------------------

  /** The users the next batch still has to look at. */
  function Eligible(users: map<UserId, User>, p: Publication): set<UserId> {
    set u <- users | !users[u].withdrawn && u > p.cursor && users[u].created <= p.publishedAt
  }

  predicate Open(p: Publication) {
    p.published && !p.done
  }

  /** The query for work: the open publication with the least (publishedAt, id). */
  ghost predicate IsNext(pubs: map<PubId, Publication>, id: PubId) {
    && id in pubs && Open(pubs[id])
    && forall q <- pubs :: Open(pubs[q]) ==>
         pubs[id].publishedAt < pubs[q].publishedAt || (pubs[id].publishedAt == pubs[q].publishedAt && id <= q)
  }

  function PostEach(mail: Mail, id: PubId, p: Publication, batch: seq<UserId>): (r: Mail)
    ensures r.users == mail.users && r.devices == mail.devices
  {
    if batch == [] then mail
    else Posted(PostEach(mail, id, p, batch[..|batch| - 1]), batch[|batch| - 1], AnnouncementEvent(id),
                !p.suppressPush, p.locales)
  }

  function Advanced(p: Publication, batch: seq<UserId>): Publication {
    p.(cursor := if batch == [] then p.cursor else batch[|batch| - 1], done := p.done || |batch| < BATCH)
  }

  function AfterBatch(w: World, id: PubId): World
    requires id in w.pubs
  {
    var p := w.pubs[id];
    var batch := Lowest(Eligible(w.mail.users, p), BATCH);
    World(PostEach(w.mail, id, p, batch), w.pubs[id := Advanced(p, batch)])
  }

  class Fanout {
    const mailbox: Mailbox
    var pubs: map<PubId, Publication>

    constructor (mailbox: Mailbox)
      ensures this.mailbox == mailbox && pubs == map[]
    {
      this.mailbox := mailbox;
      pubs := map[];
    }

    /** The loop of a batch: a notice for each user, and the cursor behind the last of them. */
    method PostBatch(id: PubId, publication: Publication, users: seq<UserId>) returns (cursor: nat)
      modifies mailbox
      ensures mailbox.Contents() == PostEach(old(mailbox.Contents()), id, publication, users)
      ensures cursor == if |users| == 0 then publication.cursor else users[|users| - 1]
    {
      hide *;
      ghost var start := mailbox.Contents();
      cursor := publication.cursor;
      NobodyPosted(start, id, publication, users);
      for k := 0 to |users|
        invariant mailbox.Contents() == PostEach(start, id, publication, users[..k])
        invariant cursor == if k == 0 then publication.cursor else users[k - 1]
      {
        PostNext(start, id, publication, users, k);
        mailbox.Post(users[k], AnnouncementEvent(id), !publication.suppressPush, publication.locales);
        cursor := users[k];
      }
      assert users[..|users|] == users;
    }

    /** One committed batch for the publication the query returned. */
    method FanoutBatch(id: PubId)
      requires IsNext(pubs, id)
      modifies this`pubs, mailbox
      ensures World(mailbox.Contents(), pubs) == AfterBatch(World(old(mailbox.Contents()), old(pubs)), id)
    {
      BatchIs(World(mailbox.Contents(), pubs), id);
      hide AfterBatch, IsNext, Advanced, PostEach, Lowest, Eligible;
      var publication := pubs[id];
      var users := Lowest(Eligible(mailbox.users, publication), BATCH);
      AdvancedIs(publication, users);
      var cursor := PostBatch(id, publication, users);
      publication := publication.(cursor := cursor);
      if |users| < BATCH {
        publication := publication.(done := true);
      }
      pubs := pubs[id := publication];
    }
  }

  lemma BatchIs(w: World, id: PubId)
    requires IsNext(w.pubs, id)
    ensures id in w.pubs && !w.pubs[id].done
    ensures var p := w.pubs[id];
            var batch := Lowest(Eligible(w.mail.users, p), BATCH);
            AfterBatch(w, id) == World(PostEach(w.mail, id, p, batch), w.pubs[id := Advanced(p, batch)])
  {
  }

  lemma AdvancedIs(p: Publication, batch: seq<UserId>)
    requires !p.done
    ensures Advanced(p, batch) ==
            p.(cursor := if |batch| == 0 then p.cursor else batch[|batch| - 1], done := |batch| < BATCH)
  {
  }

  lemma NobodyPosted(mail: Mail, id: PubId, p: Publication, users: seq<UserId>)
    ensures PostEach(mail, id, p, users[..0]) == mail
  {
  }

  lemma PostNext(mail: Mail, id: PubId, p: Publication, users: seq<UserId>, k: nat)
    requires k < |users|
    ensures PostEach(mail, id, p, users[..k + 1])
         == Posted(PostEach(mail, id, p, users[..k]), users[k], AnnouncementEvent(id), !p.suppressPush, p.locales)
  {
    hide Posted;
    assert users[..k + 1][..k] == users[..k];
  }

  // ---------------------------------------------------------------------------------------------
  // Runs
  // ---------------------------------------------------------------------------------------------

  /** Batches commit or roll back as a whole; users come, go and change their devices; an announcement can be
      published, taken down and put up again. */
  datatype Op =
    | OpBatch(id: PubId)
    | OpAborted(id: PubId)
    | OpPublish(id: PubId, now: int, suppressPush: bool, locales: set<string>)
    | OpShow(id: PubId, published: bool)
    | OpNewUser(user: UserId, created: int)
    | OpWithdraw(user: UserId)
    | OpDevices(devices: map<DeviceId, Device>)

  ghost function Step(w: World, op: Op): World {
    match op
    case OpBatch(id) => if IsNext(w.pubs, id) then AfterBatch(w, id) else w
    case OpAborted(id) => w
    case OpPublish(id, now, suppressPush, locales) =>
      if id in w.pubs then w
      else w.(pubs := w.pubs[id := Publication(true, now, 0, false, suppressPush, locales)])
    case OpShow(id, published) =>
      if id in w.pubs then w.(pubs := w.pubs[id := w.pubs[id].(published := published)]) else w
    case OpNewUser(user, created) =>
      if user in w.mail.users || user == 0 then w
      else w.(mail := w.mail.(users := w.mail.users[user := User(created, false)]))
    case OpWithdraw(user) =>
      if user !in w.mail.users then w
      else w.(mail := w.mail.(users := w.mail.users[user := w.mail.users[user].(withdrawn := true)]))
    case OpDevices(devices) => w.(mail := w.mail.(devices := devices))
  }

  ghost function Run(w: World, ops: seq<Op>): World
    decreases |ops|
  {
    if ops == [] then w else Step(Run(w, ops[..|ops| - 1]), ops[|ops| - 1])
  }

  const EMPTY := World(Mail(map[], map[], [], {}), map[])

  ghost predicate Inv(w: World) {
    && Unique(w.mail.inbox)
    && 0 !in w.mail.users
    && (forall n <- w.mail.inbox :: n.event.AnnouncementEvent? ==> n.event.publication in w.pubs)
  }

  lemma {:induction false} PostEachFacts(mail: Mail, id: PubId, p: Publication, batch: seq<UserId>)
    ensures var after := PostEach(mail, id, p, batch);
            && (Unique(mail.inbox) ==> Unique(after.inbox))
            && (forall u, e :: Count(after.inbox, u, e) >= Count(mail.inbox, u, e))
            && (forall u <- batch :: Count(after.inbox, u, AnnouncementEvent(id)) >= 1)
            && (forall n <- after.inbox :: n in mail.inbox || n.event == AnnouncementEvent(id))
  {
    if batch != [] {
      var rest, last := batch[..|batch| - 1], batch[|batch| - 1];
      assert batch == rest + [last];
      PostEachFacts(mail, id, p, rest);
      var before := PostEach(mail, id, p, rest);
      PostedCount(before, last, AnnouncementEvent(id), !p.suppressPush, p.locales);
      if Unique(mail.inbox) {
        PostedUnique(before, last, AnnouncementEvent(id), !p.suppressPush, p.locales);
      }
      hide Count, Unique;
      forall u <- batch ensures Count(PostEach(mail, id, p, batch).inbox, u, AnnouncementEvent(id)) >= 1 {
        assert u in rest || u == last;
      }
    }
  }

  lemma InvStep(w: World, op: Op)
    requires Inv(w)
    ensures Inv(Step(w, op))
  {
    if op.OpBatch? && IsNext(w.pubs, op.id) {
      PostEachFacts(w.mail, op.id, w.pubs[op.id], Lowest(Eligible(w.mail.users, w.pubs[op.id]), BATCH));
    }
  }

  lemma {:induction false} InvRun(w: World, ops: seq<Op>)
    requires Inv(w)
    ensures Inv(Run(w, ops))
    decreases |ops|
  {
    if ops != [] {
      InvRun(w, ops[..|ops| - 1]);
      InvStep(Run(w, ops[..|ops| - 1]), ops[|ops| - 1]);
    }
  }

  // ---------------------------------------------------------------------------------------------
  // Nobody twice, nobody forgotten
  // ---------------------------------------------------------------------------------------------

  /** In every reachable state no user has two rows for an announcement. */
  lemma NeverTwice(ops: seq<Op>, user: UserId, id: PubId)
    ensures Count(Run(EMPTY, ops).mail.inbox, user, AnnouncementEvent(id)) <= 1
  {
    InvRun(EMPTY, ops);
  }

  /** How a user who existed at publication stands: gone, still ahead of the cursor of an unfinished
      publication, or notified. */
  ghost predicate Accounted(w: World, id: PubId, user: UserId) {
    && id in w.pubs && user in w.mail.users
    && w.mail.users[user].created <= w.pubs[id].publishedAt
    && (|| w.mail.users[user].withdrawn
        || (user > w.pubs[id].cursor && !w.pubs[id].done)
        || Count(w.mail.inbox, user, AnnouncementEvent(id)) >= 1)
  }

  lemma BatchAccounts(w: World, b: PubId, id: PubId, user: UserId)
    requires b in w.pubs && Open(w.pubs[b]) && Accounted(w, id, user)
    ensures Accounted(AfterBatch(w, b), id, user)
  {
    var p := w.pubs[b];
    var eligible := Eligible(w.mail.users, p);
    var batch := Lowest(eligible, BATCH);
    PostEachFacts(w.mail, b, p, batch);
    hide PostEach, Count, Lowest;
    if b == id && user in eligible && user !in batch {
      LowestRest(eligible, BATCH, user);
      assert batch[|batch| - 1] in batch;
    }
  }

  lemma AccountedStep(w: World, op: Op, id: PubId, user: UserId)
    requires Accounted(w, id, user)
    ensures Accounted(Step(w, op), id, user)
  {
    if op.OpBatch? && IsNext(w.pubs, op.id) {
      BatchAccounts(w, op.id, id, user);
    }
  }

  lemma {:induction false} AccountedRun(w: World, ops: seq<Op>, id: PubId, user: UserId)
    requires Accounted(w, id, user)
    ensures Accounted(Run(w, ops), id, user)
    decreases |ops|
  {
    if ops != [] {
      AccountedRun(w, ops[..|ops| - 1], id, user);
      AccountedStep(Run(w, ops[..|ops| - 1]), ops[|ops| - 1], id, user);
    }
  }

  lemma {:induction false} RunSplit(w: World, before: seq<Op>, after: seq<Op>)
    ensures Run(w, before + after) == Run(Run(w, before), after)
    decreases |after|
  {
    if after == [] {
      assert before + after == before;
    } else {
      var all := before + after;
      assert all[..|all| - 1] == before + after[..|after| - 1];
      RunSplit(w, before, after[..|after| - 1]);
    }
  }

  /** Exactly once: when a publication is done, every user who existed when it was published and has not
      withdrawn has exactly one row for it, whatever happened before, in between and since. */
  lemma ExactlyOnce(before: seq<Op>, publish: Op, after: seq<Op>, user: UserId)
    requires publish.OpPublish? && publish.id !in Run(EMPTY, before).pubs
    requires var w := Run(EMPTY, before); user in w.mail.users && w.mail.users[user].created <= publish.now
    ensures var v := Run(EMPTY, before + [publish] + after);
            && publish.id in v.pubs && user in v.mail.users
            && (v.pubs[publish.id].done && !v.mail.users[user].withdrawn ==>
                  Count(v.mail.inbox, user, AnnouncementEvent(publish.id)) == 1)
  {
    var w := Run(EMPTY, before);
    InvRun(EMPTY, before);
    assert (before + [publish])[..|before|] == before;
    var published := Run(EMPTY, before + [publish]);
    assert published == Step(w, publish);
    assert user > 0;
    assert Accounted(published, publish.id, user);
    AccountedRun(published, after, publish.id, user);
    RunSplit(EMPTY, before + [publish], after);
    NeverTwice(before + [publish] + after, user, publish.id);
  }

  // ---------------------------------------------------------------------------------------------
  // It ends
  // ---------------------------------------------------------------------------------------------

  /** Users beyond the cursor. */
  function Remaining(w: World, id: PubId): nat
    requires id in w.pubs
  {
    |Eligible(w.mail.users, w.pubs[id])|
  }

  /** A committed batch finishes the publication or brings the cursor past a hundred users. */
  lemma BatchProgress(w: World, id: PubId)
    requires id in w.pubs && Open(w.pubs[id])
    ensures AfterBatch(w, id).pubs[id].done <==> Remaining(w, id) < BATCH
    ensures !AfterBatch(w, id).pubs[id].done ==> Remaining(AfterBatch(w, id), id) == Remaining(w, id) - BATCH
    ensures AfterBatch(w, id).pubs[id].done ==> Remaining(AfterBatch(w, id), id) == 0
  {
    var p := w.pubs[id];
    var batch := Lowest(Eligible(w.mail.users, p), BATCH);
    BatchRest(w.mail.users, p);
    IdsSize(batch);
    hide Lowest, Eligible;
    var before, after := Eligible(w.mail.users, p), Eligible(w.mail.users, Advanced(p, batch));
    assert before == after + Ids(batch);
  }

  /** What is left after a batch is what the batch did not return. */
  lemma BatchRest(users: map<UserId, User>, p: Publication)
    ensures var before := Eligible(users, p);
            var batch := Lowest(before, BATCH);
            Ids(batch) <= before && Eligible(users, Advanced(p, batch)) == before - Ids(batch)
  {
    var before := Eligible(users, p);
    var batch := Lowest(before, BATCH);
    var after := Eligible(users, Advanced(p, batch));
    if batch != [] {
      var last := batch[|batch| - 1];
      assert last in batch;
      forall u <- before ensures u > last <==> u !in batch {
        if u !in batch {
          LowestRest(before, BATCH, u);
        } else {
          var k :| 0 <= k < |batch| && batch[k] == u;
          assert k < |batch| - 1 ==> batch[k] < batch[|batch| - 1];
        }
      }
    }
  }

  /** Withdrawals, devices and batches of other publications never put users back in front of a cursor; new
      users do so only if they count as created before publication. */
  lemma RemainingNeverGrows(w: World, op: Op, id: PubId)
    requires id in w.pubs
    requires op.OpNewUser? ==> op.created > w.pubs[id].publishedAt
    ensures id in Step(w, op).pubs && Remaining(Step(w, op), id) <= Remaining(w, id)
    ensures w.pubs[id].done ==> Step(w, op).pubs[id].done
  {
    match op {
      case OpBatch(b) =>
        if IsNext(w.pubs, b) && b == id {
          BatchProgress(w, id);
        }
      case _ =>
        var v := Step(w, op);
        assert Eligible(v.mail.users, v.pubs[id]) <= Eligible(w.mail.users, w.pubs[id]);
        SubsetSize(Eligible(v.mail.users, v.pubs[id]), Eligible(w.mail.users, w.pubs[id]));
    }
  }

  /** How many batches of the publication are committed in a run. */
  ghost function Committed(w: World, ops: seq<Op>, id: PubId): nat
    decreases |ops|
  {
    if ops == [] then 0
    else
      var n := |ops| - 1;
      Committed(w, ops[..n], id) + if Commits(Run(w, ops[..n]), ops[n], id) then 1 else 0
  }

  ghost predicate Commits(w: World, op: Op, id: PubId) {
    op == OpBatch(id) && IsNext(w.pubs, id)
  }

  /** One step: done stays done; otherwise a committed batch brings the publication a hundred users further or
      finishes it, and no other step puts a user back in front of the cursor. */
  lemma FanoutAdvances(w: World, op: Op, id: PubId)
    requires id in w.pubs
    requires op.OpNewUser? ==> op.created > w.pubs[id].publishedAt
    ensures var v := Step(w, op);
            && id in v.pubs && v.pubs[id].publishedAt == w.pubs[id].publishedAt
            && (w.pubs[id].done ==> v.pubs[id].done)
            && (v.pubs[id].done || Remaining(v, id) + (if Commits(w, op, id) then BATCH else 0) <= Remaining(w, id))
  {
    RemainingNeverGrows(w, op, id);
    if Commits(w, op, id) {
      BatchProgress(w, id);
    }
    hide Remaining, PostEach, Lowest, Eligible;
  }

  /** With m users to go, m / 100 + 1 committed batches anywhere in a run finish an announcement, whatever else happens
      in between, as long as no user is created as of before its publication. */
  lemma {:induction false} FanoutEnds(w: World, ops: seq<Op>, id: PubId)
    requires id in w.pubs
    requires forall op <- ops :: op.OpNewUser? ==> op.created > w.pubs[id].publishedAt
    ensures var v := Run(w, ops);
            && id in v.pubs && v.pubs[id].publishedAt == w.pubs[id].publishedAt
            && (v.pubs[id].done || Remaining(v, id) + BATCH * Committed(w, ops, id) <= Remaining(w, id))
            && (BATCH * Committed(w, ops, id) > Remaining(w, id) ==> v.pubs[id].done)
    decreases |ops|
  {
    hide Remaining, Step, Commits;
    if ops != [] {
      var n := |ops| - 1;
      FanoutEnds(w, ops[..n], id);
      FanoutAdvances(Run(w, ops[..n]), ops[n], id);
    }
  }
}
