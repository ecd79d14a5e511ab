/** Recovery detection for the game network and its one-off notice (service/usernotification/aime.go).

    Times are milliseconds, the precision with which they are stored. */
module AimeRecovery {
  import opened Common
  import opened Inbox

  const MINUTE := 60_000
  const BATCH := 100

  datatype Observation = Available | Blocked | Unknown

  /** The stored status: written by the page check (prefix "web_") or by something older, or not at all. */
  datatype Stored = Legacy | Web(seen: Observation)

  datatype State = State(status: Stored, incident: Option<int>, recovered: bool, confirmations: nat,
                         confirmationAt: Option<int>, opsCandidateAt: Option<int>,
                         telegramSent: bool, discordSent: bool)

  datatype Subscription = Subscription(user: UserId, incident: Option<int>)

  type Subscriptions = map<nat, Subscription>

  // ---------------------------------------------------------------------------------------------
  // One probe
  // ---------------------------------------------------------------------------------------------

  function Reset(s: State, now: int): State {
    s.(confirmations := 0, confirmationAt := Some(now))
  }

  /** An available page while an incident is open. */
  function Candidate(s: State, previous: Stored, now: int): State
    requires !s.recovered
  {
    var first := s.opsCandidateAt.None?;
    var t := if first then s.(opsCandidateAt := Some(now)) else s;
    if first || previous != Web(Available) || s.confirmationAt.None? || now - s.confirmationAt.value > 10 * MINUTE
    then Reset(t, now)
    else if now < s.confirmationAt.value + 5 * MINUTE then t
    else
      var count := if s.confirmations + 1 < 3 then s.confirmations + 1 else 3;
      t.(confirmations := count, confirmationAt := Some(now),
         recovered := count >= 3 && s.telegramSent && s.discordSent)
  }

  function Probed(s: State, observed: Observation, now: int): State {
    var t := if s.recovered then s
             else
               var a := if s.status.Legacy? then Reset(s, now) else s;
               var b := if observed == Blocked && a.incident.None? then a.(incident := Some(now)) else a;
               if observed != Available then Reset(b, now)
               else if b.incident.Some? then Candidate(b, s.status, now)
               else b;
    t.(status := Web(observed))
  }

  // ---------------------------------------------------------------------------------------------
  // The monitor
  // ---------------------------------------------------------------------------------------------

  /** Draining works through subscriptions one by one. */
  datatype Drained = Drained(subs: Subscriptions, mail: Mail)

  ghost predicate Drainable(d: Drained, ids: seq<nat>) {
    && (forall id <- ids :: id in d.subs && d.subs[id].incident.Some? && d.subs[id].user in d.mail.users)
    && (forall i, j :: 0 <= i < j < |ids| ==> ids[i] < ids[j])
  }

  ghost function DrainEach(d: Drained, ids: seq<nat>): Drained
    requires Drainable(d, ids)
    ensures DrainEach(d, ids).subs == d.subs - Ids(ids)
    ensures DrainEach(d, ids).mail.users == d.mail.users
  {
    if ids == [] then d
    else
      var last := ids[|ids| - 1];
      assert ids == ids[..|ids| - 1] + [last];
      IdsAppend(ids[..|ids| - 1], last);
      DrainOne(d, DrainEach(d, ids[..|ids| - 1]), last)
  }

  function DrainOne(start: Drained, d: Drained, id: nat): (r: Drained)
    requires id in start.subs && start.subs[id].incident.Some? && start.subs[id].user in start.mail.users
    ensures r.subs == d.subs - {id} && r.mail.users == d.mail.users
  {
    var sub := start.subs[id];
    Drained(d.subs - {id},
            if start.mail.users[sub.user].withdrawn then d.mail
            else Posted(d.mail, sub.user, AimeEvent(sub.incident.value), true, EVERY_LOCALE))
  }

  class Monitor {
    const mailbox: Mailbox
    var state: State
    var subscriptions: Subscriptions

    constructor (mailbox: Mailbox)
      ensures this.mailbox == mailbox && subscriptions == map[]
      ensures state == State(Legacy, None, false, 0, None, None, false, false)
    {
      this.mailbox := mailbox;
      state := State(Legacy, None, false, 0, None, None, false, false);
      subscriptions := map[];
    }

    method RecordProbe(observed: Observation, now: int)
      modifies this`state
      ensures state == Probed(old(state), observed, now)
    {
      var row := state;
      if !row.recovered {
        if row.status.Legacy? {
          row := row.(confirmations := 0, confirmationAt := Some(now));
        }
        if observed == Blocked && row.incident.None? {
          row := row.(incident := Some(now));
        }
        if observed != Available {
          row := row.(confirmations := 0, confirmationAt := Some(now));
        } else if row.incident.Some? {
          var last := row.confirmationAt;
          var firstCandidate := row.opsCandidateAt.None?;
          if firstCandidate {
            row := row.(opsCandidateAt := Some(now));
          }
          if firstCandidate || row.status != Web(Available) || last.None? || now - last.value > 10 * MINUTE {
            row := row.(confirmations := 0, confirmationAt := Some(now));
          } else if !(now < last.value + 5 * MINUTE) {
            var count := if row.confirmations + 1 < 3 then row.confirmations + 1 else 3;
            row := row.(confirmations := count, confirmationAt := Some(now));
            if count >= 3 && row.telegramSent && row.discordSent {
              row := row.(recovered := true);
            }
          }
        }
      }
      state := row.(status := Web(observed));
    }

    /** `id` is the id a new row would get. */
    method SetSubscription(id: nat, user: UserId, enabled: bool) returns (ok: bool)
      requires id !in subscriptions && OnePerUser(subscriptions)
      modifies this`subscriptions
      ensures ok <==> !enabled || Subscribable(state)
      ensures subscriptions == if !enabled then WithoutUser(old(subscriptions), user)
                               else if ok then Subscribed(old(subscriptions), state, id, user)
                               else old(subscriptions)
    {
      var rows := set k | k in subscriptions && subscriptions[k].user == user;
      if !enabled {
        if rows != {} {
          var row :| row in rows;
          RowOfUser(subscriptions, state, id, user, row);
          subscriptions := subscriptions - {row};
        } else {
          assert forall k <- subscriptions :: k !in rows;
          assert WithoutUser(subscriptions, user) == subscriptions;
        }
        return true;
      }
      if state.incident.None? || state.recovered {
        return false;
      }
      var row := id;
      if rows != {} {
        row :| row in rows;
        RowOfUser(subscriptions, state, id, user, row);
      } else {
        assert forall k <- subscriptions :: k !in rows;
      }
      subscriptions := subscriptions[row := Subscription(user, state.incident)];
      return true;
    }

    /** One transaction over the hundred oldest subscription ids. */
    method DrainRecoveries()
      requires forall k <- subscriptions :: subscriptions[k].incident.Some? && subscriptions[k].user in mailbox.users
      modifies this`subscriptions, mailbox
      ensures Drained(subscriptions, mailbox.Contents()) ==
              if !state.recovered then Drained(old(subscriptions), old(mailbox.Contents()))
              else DrainEach(Drained(old(subscriptions), old(mailbox.Contents())),
                  Lowest(old(subscriptions).Keys, BATCH))
    {
      if !state.recovered {
        return;
      }
      var rows := Lowest(subscriptions.Keys, BATCH);
      ghost var start := Drained(subscriptions, mailbox.Contents());
      hide *;
      DrainStart(start, rows);
      for k := 0 to |rows|
        invariant Drainable(start, rows[..k])
        invariant Drained(subscriptions, mailbox.Contents()) == DrainEach(start, rows[..k])
      {
        DrainStep(start, rows, k);
        DrainRow(start, rows[k]);
      }
      assert rows[..|rows|] == rows;
    }

    /** The loop body for one subscription row. */
    method DrainRow(ghost start: Drained, row: nat)
      requires row in start.subs && row in subscriptions && subscriptions[row] == start.subs[row]
      requires start.subs[row].incident.Some? && start.subs[row].user in start.mail.users
      requires mailbox.users == start.mail.users
      modifies this`subscriptions, mailbox
      ensures Drained(subscriptions, mailbox.Contents()) ==
              DrainOne(start, Drained(old(subscriptions), old(mailbox.Contents())), row)
    {
      var sub := subscriptions[row];
      if !mailbox.users[sub.user].withdrawn {
        mailbox.Post(sub.user, AimeEvent(sub.incident.value), true, EVERY_LOCALE);
      }
      subscriptions := subscriptions - {row};
    }
  }

  lemma DrainStart(start: Drained, rows: seq<nat>)
    ensures Drainable(start, rows[..0]) && DrainEach(start, rows[..0]) == start
  {
  }

  lemma DrainStep(start: Drained, rows: seq<nat>, k: nat)
    requires Drainable(start, rows) && k < |rows| && Drainable(start, rows[..k])
    ensures Drainable(start, rows[..k + 1])
    ensures rows[k] in start.subs && start.subs[rows[k]].incident.Some? && start.subs[rows[k]].user in start.mail.users
    ensures var d := DrainEach(start, rows[..k]);
            && rows[k] in d.subs && d.subs[rows[k]] == start.subs[rows[k]] && d.mail.users == start.mail.users
            && DrainEach(start, rows[..k + 1]) == DrainOne(start, d, rows[k])
  {
    assert rows[k] in rows && rows[k] !in rows[..k];
    assert rows[..k + 1][..k] == rows[..k];
  }

  lemma RowOfUser(subs: Subscriptions, s: State, id: nat, user: UserId, row: nat)
    requires OnePerUser(subs) && id !in subs && row in subs && subs[row].user == user
    ensures subs - {row} == WithoutUser(subs, user)
    ensures subs[row := Subscription(user, s.incident)] == Subscribed(subs, s, id, user)
  {
    forall k <- subs ensures subs[k].user == user <==> k == row {
    }
  }

  predicate Subscribable(s: State) {
    s.incident.Some? && !s.recovered
  }

  ghost predicate OnePerUser(subs: Subscriptions) {
    forall a, b :: a in subs && b in subs && subs[a].user == subs[b].user ==> a == b
  }

  function WithoutUser(subs: Subscriptions, user: UserId): Subscriptions {
    map k <- subs | subs[k].user != user :: subs[k]
  }

  predicate HasUser(subs: Subscriptions, user: UserId) {
    exists k <- subs :: subs[k].user == user
  }

  function Subscribed(subs: Subscriptions, s: State, id: nat, user: UserId): Subscriptions
    requires id !in subs
  {
    if HasUser(subs, user)
    then map k <- subs :: if subs[k].user == user then Subscription(user, s.incident) else subs[k]
    else subs[id := Subscription(user, s.incident)]
  }

  // ---------------------------------------------------------------------------------------------
  // Runs
  // ---------------------------------------------------------------------------------------------

  datatype World = World(state: State, subs: Subscriptions, mail: Mail)

  /** Probes, the two operational channels, subscribers, drains, and account changes around them. */
  datatype Op =
    | OpProbe(observed: Observation, now: int)
    | OpTelegramSent
    | OpDiscordSent
    | OpSubscribe(id: nat, user: UserId)
    | OpUnsubscribe(user: UserId)
    | OpDrain
    | OpNewUser(user: UserId, created: int)
    | OpWithdraw(user: UserId)
    | OpDevices(devices: map<DeviceId, Device>)

  function StateStep(s: State, op: Op): State {
    match op
    case OpProbe(observed, now) => Probed(s, observed, now)
    case OpTelegramSent => s.(telegramSent := true)
    case OpDiscordSent => s.(discordSent := true)
    case _ => s
  }

  ghost function Step(w: World, op: Op): (v: World)
    requires Inv(w)
    ensures v.state == StateStep(w.state, op)
  {
    match op
    case OpProbe(_, _) | OpTelegramSent | OpDiscordSent => w.(state := StateStep(w.state, op))
    case OpSubscribe(id, user) =>
      if id !in w.subs && user in w.mail.users && Subscribable(w.state)
      then w.(subs := Subscribed(w.subs, w.state, id, user)) else w
    case OpUnsubscribe(user) => w.(subs := WithoutUser(w.subs, user))
    case OpDrain =>
      if !w.state.recovered then w
      else
        var d := DrainEach(Drained(w.subs, w.mail), Lowest(w.subs.Keys, BATCH));
        World(w.state, d.subs, d.mail)
    case OpNewUser(user, created) =>
      if user in w.mail.users then w
      else w.(mail := w.mail.(users := w.mail.users[user := User(created, false)]))
    case OpWithdraw(user) =>
      if user !in w.mail.users then w
      else w.(mail := w.mail.(users := w.mail.users[user := w.mail.users[user].(withdrawn := true)]))
    case OpDevices(devices) => w.(mail := w.mail.(devices := devices))
  }

  /** Every subscription belongs to the open incident, and every notice names that incident. */
  ghost predicate Inv(w: World) {
    && OnePerUser(w.subs)
    && (forall k <- w.subs :: w.subs[k].user in w.mail.users && w.subs[k].incident == w.state.incident
                              && w.state.incident.Some?)
    && Unique(w.mail.inbox)
    && (forall n <- w.mail.inbox :: n.event.AimeEvent? ==> w.state.incident == Some(n.event.incident))
  }

  lemma {:induction false} DrainedMail(d: Drained, ids: seq<nat>, incident: int)
    requires Drainable(d, ids) && forall id <- ids :: d.subs[id].incident == Some(incident)
    requires Unique(d.mail.inbox)
    ensures Unique(DrainEach(d, ids).mail.inbox)
    ensures forall n <- DrainEach(d, ids).mail.inbox :: n in d.mail.inbox || n.event == AimeEvent(incident)
    ensures forall u, e :: Count(DrainEach(d, ids).mail.inbox, u, e) >= Count(d.mail.inbox, u, e)
    ensures forall id <- ids :: !d.mail.users[d.subs[id].user].withdrawn ==>
                                Count(DrainEach(d, ids).mail.inbox, d.subs[id].user, AimeEvent(incident)) == 1
  {
    if ids != [] {
      var last := ids[|ids| - 1];
      var rest := ids[..|ids| - 1];
      assert ids == rest + [last];
      DrainedMail(d, rest, incident);
      var before := DrainEach(d, rest).mail;
      var sub := d.subs[last];
      assert last in ids;
      if !d.mail.users[sub.user].withdrawn {
        PostedCount(before, sub.user, AimeEvent(incident), true, EVERY_LOCALE);
        PostedUnique(before, sub.user, AimeEvent(incident), true, EVERY_LOCALE);
        hide Posted, Count;
        forall id <- ids | !d.mail.users[d.subs[id].user].withdrawn
          ensures Count(DrainEach(d, ids).mail.inbox, d.subs[id].user, AimeEvent(incident)) == 1
        {
          assert id in rest || id == last;
        }
      }
    }
  }

  lemma InvStep(w: World, op: Op)
    requires Inv(w)
    ensures Inv(Step(w, op))
  {
    hide Count;
    if op.OpDrain? {
      DrainKeeps(w);
    } else {
      StateKeeps(w.state, op);
      hide Probed, StateStep, DrainEach, Lowest;
      assert Inv(Step(w, op));
    }
  }

  lemma DrainKeeps(w: World)
    requires Inv(w)
    ensures Inv(Step(w, OpDrain))
  {
    hide Count, Probed;
    if w.state.recovered && w.state.incident.Some? {
      DrainedMail(Drained(w.subs, w.mail), Lowest(w.subs.Keys, BATCH), w.state.incident.value);
    }
  }

  /** Runs grow at their end, so that a run's prefixes are the states it went through. */
  ghost function Run(w: World, ops: seq<Op>): (v: World)
    requires Inv(w)
    ensures Inv(v)
  {
    if ops == [] then w
    else
      var u := Run(w, ops[..|ops| - 1]);
      InvStep(u, ops[|ops| - 1]);
      Step(u, ops[|ops| - 1])
  }

  lemma RunLast(w: World, ops: seq<Op>)
    requires Inv(w)
    ensures if ops == [] then Run(w, ops) == w
            else Run(w, ops).state == StateStep(Run(w, ops[..|ops| - 1]).state, ops[|ops| - 1])
  {
    hide StateStep;
  }

  // ---------------------------------------------------------------------------------------------
  // When recovery is declared
  // ---------------------------------------------------------------------------------------------

  ghost predicate AllAvailable(ops: seq<Op>, from: nat, to: nat)
    requires to <= |ops|
  {
    forall k :: from <= k < to && ops[k].OpProbe? ==> ops[k].observed == Available
  }

  /** A chain of available probes, each five to ten minutes after the previous one, with no other finding in
      between or up to the end. */
  ghost predicate Window(ops: seq<Op>, chain: seq<nat>) {
    && chain != []
    && (forall j :: 0 <= j < |chain| ==> chain[j] < |ops| && ops[chain[j]].OpProbe?)
    && (forall j :: 0 <= j < |chain| - 1 ==> chain[j] < chain[j + 1])
    && (forall j :: 0 <= j < |chain| - 1 ==>
          5 * MINUTE <= ops[chain[j + 1]].now - ops[chain[j]].now <= 10 * MINUTE)
    && AllAvailable(ops, chain[0], |ops|)
  }

  /** The first candidate was recorded by probe `i` or before it. */
  ghost predicate CandidateBy(w: World, ops: seq<Op>, candidate: Option<int>, i: nat)
    requires i <= |ops|
  {
    candidate.Some? && (w.state.opsCandidateAt == candidate
                        || exists c: nat :: c < i && ops[c] == OpProbe(Available, candidate.value))
  }

  /** A monitor that has not seen the page-content check yet. */
  ghost predicate Fresh(w: World) {
    Inv(w) && w.state.status.Legacy? && !w.state.recovered
  }

  /** What no step takes back. */
  lemma StateKeeps(s: State, op: Op)
    ensures var t := StateStep(s, op);
            && (s.incident.Some? ==> t.incident == s.incident)
            && (s.recovered ==> t.recovered && t.incident == s.incident)
            && (s.opsCandidateAt.Some? ==> t.opsCandidateAt == s.opsCandidateAt)
            && (s.opsCandidateAt.None? && t.opsCandidateAt.Some? ==> op == OpProbe(Available, t.opsCandidateAt.value))
  {
  }

  lemma {:induction false} CandidateRecorded(w: World, ops: seq<Op>)
    requires Fresh(w)
    ensures var s := Run(w, ops).state;
            s.opsCandidateAt.Some? ==> CandidateBy(w, ops, s.opsCandidateAt, |ops|)
  {
    hide Inv, Run, Step;
    RunLast(w, ops);
    if ops != [] {
      var n := |ops| - 1;
      CandidateRecorded(w, ops[..n]);
      var before, after := Run(w, ops[..n]).state, Run(w, ops).state;
      StateKeeps(before, ops[n]);
      hide StateStep;
      if before.opsCandidateAt.Some? {
        CandidateStays(w, ops, before.opsCandidateAt);
      } else if after.opsCandidateAt.Some? {
        assert ops[n] == OpProbe(Available, after.opsCandidateAt.value);
      }
    }
  }

  lemma CandidateStays(w: World, ops: seq<Op>, candidate: Option<int>)
    requires ops != [] && CandidateBy(w, ops[..|ops| - 1], candidate, |ops| - 1)
    ensures CandidateBy(w, ops, candidate, |ops| - 1) && CandidateBy(w, ops, candidate, |ops|)
  {
    if w.state.opsCandidateAt != candidate {
      var c: nat :| c < |ops| - 1 && ops[..|ops| - 1][c] == OpProbe(Available, candidate.value);
      assert ops[c] == OpProbe(Available, candidate.value);
    }
  }

  /** The state behind the counter: `confirmations` steps of a window that ends at `confirmationAt`. */
  ghost predicate Explains(w: World, ops: seq<Op>, s: State, chain: seq<nat>) {
    && Window(ops, chain)
    && |chain| > s.confirmations
    && s.confirmationAt == Some(ops[chain[|chain| - 1]].now)
    && CandidateBy(w, ops, s.opsCandidateAt, chain[0] + 1)
  }

  lemma WindowGrows(w: World, ops: seq<Op>, s: State, chain: seq<nat>, op: Op)
    requires Explains(w, ops, s, chain) && (op.OpProbe? ==> op.observed == Available)
    ensures Explains(w, ops + [op], s, chain)
  {
    var longer := ops + [op];
    assert forall k :: 0 <= k < |ops| ==> longer[k] == ops[k];
    if w.state.opsCandidateAt != s.opsCandidateAt {
      var c: nat :| c < chain[0] + 1 && ops[c] == OpProbe(Available, s.opsCandidateAt.value);
      assert longer[c] == ops[c];
    }
  }

  lemma WindowConfirms(w: World, ops: seq<Op>, s: State, chain: seq<nat>, now: int, t: State)
    requires Explains(w, ops, s, chain)
    requires 5 * MINUTE <= now - s.confirmationAt.value <= 10 * MINUTE
    requires t.confirmations <= s.confirmations + 1 && t.confirmationAt == Some(now)
        && t.opsCandidateAt == s.opsCandidateAt
    ensures Explains(w, ops + [OpProbe(Available, now)], t, chain + [|ops|])
  {
    WindowGrows(w, ops, s, chain, OpProbe(Available, now));
  }

  lemma WindowStarts(w: World, ops: seq<Op>, now: int, t: State)
    requires t.confirmations == 0 && t.confirmationAt == Some(now)
    requires CandidateBy(w, ops, t.opsCandidateAt, |ops|) || t.opsCandidateAt == Some(now)
    ensures Explains(w, ops + [OpProbe(Available, now)], t, [|ops|])
  {
    var longer := ops + [OpProbe(Available, now)];
    if t.opsCandidateAt == Some(now) {
      assert longer[|ops|] == OpProbe(Available, now);
    } else if w.state.opsCandidateAt != t.opsCandidateAt {
      var c: nat :| c < |ops| && ops[c] == OpProbe(Available, t.opsCandidateAt.value);
      assert longer[c] == ops[c];
    }
  }

  lemma StateFacts(s: State, op: Op)
    ensures var t := StateStep(s, op);
            && (s.recovered ==> t.recovered)
            && (t.status == Web(Available) && t.incident.Some? && !t.recovered ==>
                  && s.incident.Some?
                  && (op.OpProbe? ==> op.observed == Available)
                  && (!op.OpProbe? ==> t == s.(telegramSent := t.telegramSent, discordSent := t.discordSent)))
            && (t.recovered && !s.recovered ==>
                  op.OpProbe? && op.observed == Available && s.incident.Some? && s.telegramSent && s.discordSent)
  {
  }

  /** While an incident is open and pages are available, the counter counts along a window. */
  lemma {:induction false} CounterExplained(w: World, ops: seq<Op>) returns (chain: seq<nat>)
    requires Fresh(w) && !Run(w, ops).state.recovered
    ensures var s := Run(w, ops).state;
            s.status == Web(Available) && s.incident.Some? ==> Explains(w, ops, s, chain)
  {
    hide Inv, Run, Step, Explains, CandidateBy;
    RunLast(w, ops);
    chain := [];
    if ops != [] {
      var n := |ops| - 1;
      var prefix, op := ops[..n], ops[n];
      assert ops == prefix + [op];
      var before, after := Run(w, prefix).state, Run(w, ops).state;
      StateFacts(before, op);
      var earlier := CounterExplained(w, prefix);
      CandidateRecorded(w, prefix);
      hide Probed, Window;
      if after.status == Web(Available) && after.incident.Some? {
        if op.OpProbe? {
          chain := ProbeExplained(w, prefix, before, earlier, op.now);
        } else {
          WindowGrows(w, prefix, before, earlier, op);
          chain := earlier;
          SameExplanation(w, ops, before, after, chain);
        }
      }
    }
  }

  lemma SameExplanation(w: World, ops: seq<Op>, s: State, t: State, chain: seq<nat>)
    requires Explains(w, ops, s, chain) && t == s.(telegramSent := t.telegramSent, discordSent := t.discordSent)
    ensures Explains(w, ops, t, chain)
  {
  }

  lemma ProbeExplained(w: World, ops: seq<Op>, s: State, earlier: seq<nat>, now: int) returns (chain: seq<nat>)
    requires !s.recovered && s.incident.Some?
    requires s.status == Web(Available) ==> Explains(w, ops, s, earlier)
    requires s.opsCandidateAt.Some? ==> CandidateBy(w, ops, s.opsCandidateAt, |ops|)
    ensures Explains(w, ops + [OpProbe(Available, now)], Probed(s, Available, now), chain)
    ensures Probed(s, Available, now).recovered ==> |chain| >= 4 && chain[|chain| - 1] == |ops|
  {
    var t := Probed(s, Available, now);
    var op := OpProbe(Available, now);
    if s.status != Web(Available) || s.opsCandidateAt.None? || s.confirmationAt.None?
       || now - s.confirmationAt.value > 10 * MINUTE {
      chain := [|ops|];
      WindowStarts(w, ops, now, t);
    } else if now < s.confirmationAt.value + 5 * MINUTE {
      chain := earlier;
      WindowGrows(w, ops, s, earlier, op);
    } else {
      chain := earlier + [|ops|];
      WindowConfirms(w, ops, s, earlier, now, t);
    }
  }

  lemma {:induction false} WindowSpan(ops: seq<Op>, chain: seq<nat>, k: nat)
    requires Window(ops, chain) && k < |chain|
    ensures ops[chain[k]].now - ops[chain[0]].now >= 300_000 * k
    ensures chain[0] + k <= chain[k]
  {
    if k > 0 {
      WindowSpan(ops, chain, k - 1);
    }
  }

  /** The findings behind a recovery declared by probe `n`: at least fifteen minutes of available pages, begun
      no earlier than the first operations candidate. */
  ghost predicate Earned(w: World, ops: seq<Op>, candidate: Option<int>, n: nat, chain: seq<nat>) {
    && n < |ops| && ops[n].OpProbe?
    && Window(ops[..n + 1], chain) && |chain| >= 4 && chain[|chain| - 1] == n && chain[0] < n
    && ops[n].now - ops[chain[0]].now >= 15 * MINUTE
    && AllAvailable(ops, chain[0], n + 1)
    && CandidateBy(w, ops, candidate, chain[0] + 1)
  }

  /** Operation `n` is the one that declared recovery, and both operational channels had been told by then. */
  ghost predicate Declared(w: World, ops: seq<Op>, n: nat, chain: seq<nat>)
    requires Inv(w)
  {
    && Earned(w, ops, Run(w, ops).state.opsCandidateAt, n, chain) && n < |ops|
    && !Run(w, ops[..n]).state.recovered && Run(w, ops[..n + 1]).state.recovered
    && Run(w, ops[..n]).state.telegramSent && Run(w, ops[..n]).state.discordSent
  }

  /** Recovery is declared by such a probe, after both operational channels were told. */
  lemma {:induction false} RecoveryIsEarned(w: World, ops: seq<Op>) returns (n: nat, chain: seq<nat>)
    requires Fresh(w) && Run(w, ops).state.recovered
    ensures n < |ops| && Earned(w, ops, Run(w, ops).state.opsCandidateAt, n, chain)
    ensures !Run(w, ops[..n]).state.recovered && Run(w, ops[..n + 1]).state.recovered
    ensures Run(w, ops[..n]).state.telegramSent && Run(w, ops[..n]).state.discordSent
  {
    n, chain := RecoveryDeclared(w, ops);
    hide Inv, Run, Earned;
  }

  lemma {:induction false} RecoveryDeclared(w: World, ops: seq<Op>) returns (n: nat, chain: seq<nat>)
    requires Fresh(w) && Run(w, ops).state.recovered
    ensures Declared(w, ops, n, chain)
  {
    hide Inv, Run, Step, StateStep, Earned, Declared;
    RunLast(w, ops);
    var last := |ops| - 1;
    var prefix := ops[..last];
    assert ops == prefix + [ops[last]];
    if Run(w, prefix).state.recovered {
      n, chain := RecoveryDeclared(w, prefix);
      DeclaredBefore(w, prefix, ops[last], n, chain);
    } else {
      n := last;
      chain := DeclaredNow(w, prefix, ops[last]);
    }
  }

  lemma DeclaredBefore(w: World, prefix: seq<Op>, op: Op, n: nat, chain: seq<nat>)
    requires Inv(w) && Declared(w, prefix, n, chain) && Run(w, prefix).state.recovered
    ensures Declared(w, prefix + [op], n, chain)
  {
    hide Inv, Run, Step, StateStep, Earned;
    var ops := prefix + [op];
    assert ops[..|ops| - 1] == prefix && ops[|ops| - 1] == op;
    assert prefix[..n] == ops[..n] && prefix[..n + 1] == ops[..n + 1];
    RunLast(w, ops);
    var s := Run(w, prefix).state;
    CandidateFinal(s, op);
    EarnedLater(w, prefix, op, s.opsCandidateAt, n, chain);
  }

  lemma DeclaredNow(w: World, prefix: seq<Op>, op: Op) returns (chain: seq<nat>)
    requires Fresh(w) && !Run(w, prefix).state.recovered && Run(w, prefix + [op]).state.recovered
    ensures Declared(w, prefix + [op], |prefix|, chain)
  {
    hide Inv, Run, Step, Earned;
    var ops := prefix + [op];
    assert ops[..|ops| - 1] == prefix && ops[|ops| - 1] == op && ops[..|ops|] == ops;
    RunLast(w, ops);
    StateFacts(Run(w, prefix).state, op);
    hide StateStep;
    chain := FirstRecovery(w, prefix, op);
  }

  lemma EarnedLater(w: World, prefix: seq<Op>, op: Op, candidate: Option<int>, n: nat, chain: seq<nat>)
    requires Earned(w, prefix, candidate, n, chain)
    ensures Earned(w, prefix + [op], candidate, n, chain)
  {
    var ops := prefix + [op];
    assert prefix[..n + 1] == ops[..n + 1];
    assert prefix[n] == ops[n] && prefix[chain[0]] == ops[chain[0]];
    SameFindings(prefix, ops, chain[0], n + 1);
    CandidateFrom(w, prefix, ops, candidate, chain[0] + 1);
  }

  lemma CandidateFinal(s: State, op: Op)
    ensures s.opsCandidateAt.Some? || s.recovered ==> StateStep(s, op).opsCandidateAt == s.opsCandidateAt
  {
  }

  lemma SameFindings(prefix: seq<Op>, ops: seq<Op>, from: nat, to: nat)
    requires prefix <= ops && to <= |prefix| && AllAvailable(prefix, from, to)
    ensures AllAvailable(ops, from, to)
  {
    assert forall k :: from <= k < to ==> ops[k] == prefix[k];
  }

  lemma FirstRecovery(w: World, prefix: seq<Op>, op: Op) returns (chain: seq<nat>)
    requires Fresh(w) && !Run(w, prefix).state.recovered
    requires op.OpProbe? && op.observed == Available && Run(w, prefix).state.incident.Some?
    requires StateStep(Run(w, prefix).state, op).recovered
    ensures Earned(w, prefix + [op], StateStep(Run(w, prefix).state, op).opsCandidateAt, |prefix|, chain)
  {
    hide Inv, Run, Step;
    var s := Run(w, prefix).state;
    var earlier := CounterExplained(w, prefix);
    CandidateRecorded(w, prefix);
    assert op == OpProbe(Available, op.now);
    chain := ProbeExplained(w, prefix, s, earlier, op.now);
    ExplainedRecovery(w, prefix + [op], StateStep(s, op), chain);
  }

  lemma ExplainedRecovery(w: World, ops: seq<Op>, s: State, chain: seq<nat>)
    requires Explains(w, ops, s, chain) && |chain| >= 4 && chain[|chain| - 1] == |ops| - 1
    ensures Earned(w, ops, s.opsCandidateAt, |ops| - 1, chain)
  {
    WindowSpan(ops, chain, |chain| - 1);
    assert ops[..|ops|] == ops;
  }

  lemma CandidateFrom(w: World, prefix: seq<Op>, ops: seq<Op>, candidate: Option<int>, i: nat)
    requires prefix <= ops && i <= |prefix| && CandidateBy(w, prefix, candidate, i)
    ensures CandidateBy(w, ops, candidate, i)
  {
    if w.state.opsCandidateAt != candidate {
      var c: nat :| c < i && prefix[c] == OpProbe(Available, candidate.value);
      assert ops[c] == prefix[c];
    }
  }

  /** With clocks that do not go back, neighbouring probes of the window are at most ten minutes apart. */
  lemma NoGapInWindow(ops: seq<Op>, chain: seq<nat>, i: nat, j: nat)
    requires Window(ops, chain) && chain[0] <= i < j <= chain[|chain| - 1]
    requires forall a, b :: 0 <= a < b < |ops| && ops[a].OpProbe? && ops[b].OpProbe? ==> ops[a].now <= ops[b].now
    requires ops[i].OpProbe? && ops[j].OpProbe? && forall k :: i < k < j ==> !ops[k].OpProbe?
    ensures ops[j].now - ops[i].now <= 10 * MINUTE
  {
    var m := LinkAround(ops, chain, i, 0);
    assert chain[m + 1] >= j;
  }

  lemma LinkAround(ops: seq<Op>, chain: seq<nat>, i: nat, from: nat) returns (m: nat)
    requires Window(ops, chain) && from < |chain| && chain[from] <= i < chain[|chain| - 1]
    ensures m + 1 < |chain| && chain[m] <= i < chain[m + 1]
    decreases |chain| - from
  {
    if i < chain[from + 1] {
      m := from;
    } else {
      m := LinkAround(ops, chain, i, from + 1);
    }
  }

  // ---------------------------------------------------------------------------------------------
  // What stays
  // ---------------------------------------------------------------------------------------------

  /** An open incident keeps its identity, and recovery is final whatever is observed later. */
  lemma {:induction false} IncidentAndRecoveryAreFinal(w: World, ops: seq<Op>)
    requires Inv(w)
    ensures w.state.incident.Some? ==> Run(w, ops).state.incident == w.state.incident
    ensures w.state.recovered ==> Run(w, ops).state.recovered && Run(w, ops).state.incident == w.state.incident
    ensures w.state.opsCandidateAt.Some? ==> Run(w, ops).state.opsCandidateAt == w.state.opsCandidateAt
  {
    hide Inv, Run, Step;
    RunLast(w, ops);
    if ops != [] {
      IncidentAndRecoveryAreFinal(w, ops[..|ops| - 1]);
      StateKeeps(Run(w, ops[..|ops| - 1]).state, ops[|ops| - 1]);
      hide StateStep;
    }
  }

  // ---------------------------------------------------------------------------------------------
  // Every subscriber hears of it once
  // ---------------------------------------------------------------------------------------------

  function Drains(ops: seq<Op>): nat {
    if ops == [] then 0 else Drains(ops[..|ops| - 1]) + if ops[|ops| - 1].OpDrain? then 1 else 0
  }

  lemma SubsShrink(w: World, op: Op)
    requires Inv(w) && w.state.recovered
    ensures Step(w, op).subs.Keys <= w.subs.Keys
    ensures |Step(w, op).subs| <= |w.subs|
    ensures op.OpDrain? ==> |Step(w, op).subs| <= if |w.subs| < BATCH then 0 else |w.subs| - BATCH
  {
    hide *;
    if op.OpDrain? {
      DrainSubs(w);
      DrainShrinks(w.subs, Lowest(w.subs.Keys, BATCH));
    } else {
      NoNewSubs(w, op);
      KeysSize(Step(w, op).subs, w.subs);
    }
  }

  lemma DrainSubs(w: World)
    requires Inv(w) && w.state.recovered
    ensures Step(w, OpDrain).subs == w.subs - Ids(Lowest(w.subs.Keys, BATCH))
  {
  }

  lemma NoNewSubs(w: World, op: Op)
    requires Inv(w) && w.state.recovered && !op.OpDrain?
    ensures Step(w, op).subs.Keys <= w.subs.Keys
  {
    hide StateStep;
  }

  lemma DrainShrinks(subs: Subscriptions, ids: seq<nat>)
    requires forall id <- ids :: id in subs
    requires forall i, j :: 0 <= i < j < |ids| ==> ids[i] < ids[j]
    ensures |subs - Ids(ids)| == |subs| - |ids|
  {
    IdsSize(ids);
    var gone := Ids(ids);
    assert gone <= subs.Keys;
    hide Ids;
    var left := subs - gone;
    assert left.Keys == subs.Keys - gone;
    assert subs.Keys == left.Keys + gone;
  }

  lemma KeysSize(a: Subscriptions, b: Subscriptions)
    requires a.Keys <= b.Keys
    ensures |a| <= |b|
  {
    assert b.Keys == a.Keys + (b.Keys - a.Keys);
  }

  /** After recovery no subscription is added, and enough drains leave none. */
  lemma {:induction false} SubscriptionsRunOut(w: World, ops: seq<Op>)
    requires Inv(w) && w.state.recovered
    ensures |Run(w, ops).subs| <= |w.subs|
    ensures BATCH * Drains(ops) >= |w.subs| ==> Run(w, ops).subs == map[]
    ensures |Run(w, ops).subs| <= if |w.subs| < BATCH * Drains(ops) then 0 else |w.subs| - BATCH * Drains(ops)
  {
    if ops != [] {
      var prefix := ops[..|ops| - 1];
      SubscriptionsRunOut(w, prefix);
      IncidentAndRecoveryAreFinal(w, prefix);
      SubsShrink(Run(w, prefix), ops[|ops| - 1]);
    }
  }

  ghost predicate IsSubscribed(w: World, user: UserId) {
    exists k :: k in w.subs && w.subs[k].user == user
  }

  /** One step after recovery: a subscriber stays subscribed, leaves, withdraws, or is told. */
  lemma SubscriberStep(w: World, op: Op, user: UserId)
    requires Inv(w) && w.state.recovered && w.state.incident.Some? && op != OpUnsubscribe(user)
    requires user in w.mail.users
    ensures user in Step(w, op).mail.users
    ensures w.mail.users[user].withdrawn ==> Step(w, op).mail.users[user].withdrawn
    ensures IsSubscribed(w, user) ==> var v := Step(w, op);
              || IsSubscribed(v, user) || v.mail.users[user].withdrawn
              || Count(v.mail.inbox, user, AimeEvent(w.state.incident.value)) == 1
    ensures Count(w.mail.inbox, user, AimeEvent(w.state.incident.value)) == 1 ==>
              Count(Step(w, op).mail.inbox, user, AimeEvent(w.state.incident.value)) == 1
  {
    if op.OpDrain? {
      SubscriberDrained(w, user);
    } else if IsSubscribed(w, user) {
      var k :| k in w.subs && w.subs[k].user == user;
      assert k in Step(w, op).subs && Step(w, op).subs[k] == w.subs[k];
    }
  }

  lemma SubscriberDrained(w: World, user: UserId)
    requires Inv(w) && w.state.recovered && w.state.incident.Some? && user in w.mail.users
    ensures Step(w, OpDrain).mail.users == w.mail.users
    ensures IsSubscribed(w, user) && !w.mail.users[user].withdrawn && !IsSubscribed(Step(w, OpDrain), user) ==>
              Count(Step(w, OpDrain).mail.inbox, user, AimeEvent(w.state.incident.value)) == 1
    ensures Count(w.mail.inbox, user, AimeEvent(w.state.incident.value)) == 1 ==>
              Count(Step(w, OpDrain).mail.inbox, user, AimeEvent(w.state.incident.value)) == 1
  {
    var ids := Lowest(w.subs.Keys, BATCH);
    var d := Drained(w.subs, w.mail);
    var event := AimeEvent(w.state.incident.value);
    DrainedMail(d, ids, w.state.incident.value);
    var after := DrainEach(d, ids);
    assert Step(w, OpDrain) == World(w.state, after.subs, after.mail);
    hide DrainEach, Lowest, Count, Step, Drainable;
    assert Count(after.mail.inbox, user, event) <= 1
        && Count(after.mail.inbox, user, event) >= Count(w.mail.inbox, user, event);
    if IsSubscribed(w, user) {
      var k :| k in w.subs && w.subs[k].user == user;
      if k !in ids {
        assert k in after.subs && after.subs[k] == w.subs[k];
      }
    }
  }

  ghost predicate Told(w: World, user: UserId) {
    w.state.incident.Some? && Count(w.mail.inbox, user, AimeEvent(w.state.incident.value)) == 1
  }

  lemma {:induction false} SubscriberAccounted(w: World, ops: seq<Op>, user: UserId)
    requires Inv(w) && w.state.recovered && IsSubscribed(w, user)
    requires OpUnsubscribe(user) !in ops
    ensures var v := Run(w, ops);
            && v.state.recovered && v.state.incident.Some? && user in v.mail.users
            && (IsSubscribed(v, user) || v.mail.users[user].withdrawn || Told(v, user))
  {
    if ops == [] {
      assert Run(w, ops) == w;
    } else {
      var prefix, op := ops[..|ops| - 1], ops[|ops| - 1];
      assert ops == prefix + [op];
      SubscriberAccounted(w, prefix, user);
      var u := Run(w, prefix);
      StateFacts(u.state, op);
      IncidentKept(u.state, op);
      SubscriberStep(u, op, user);
      hide Step, StateStep, Inv, Count, IsSubscribed;
      assert Run(w, ops) == Step(u, op);
    }
  }

  lemma IncidentKept(s: State, op: Op)
    ensures s.incident.Some? ==> StateStep(s, op).incident == s.incident
  {
  }

  /** From recovery on, over any run in which the user does not unsubscribe: once there were enough drains, every
      former subscriber who has not withdrawn has exactly one notice for the incident. */
  lemma SubscribersAreTold(w: World, ops: seq<Op>, user: UserId)
    requires Inv(w) && w.state.recovered && IsSubscribed(w, user)
    requires OpUnsubscribe(user) !in ops && BATCH * Drains(ops) >= |w.subs|
    ensures var v := Run(w, ops);
            && v.subs == map[] && user in v.mail.users
            && (v.mail.users[user].withdrawn || Told(v, user))
  {
    SubscriptionsRunOut(w, ops);
    SubscriberAccounted(w, ops, user);
  }

  /** Never two notices for one incident, and never a notice for another one. */
  lemma NoticesAreUnique(w: World, ops: seq<Op>, user: UserId, incident: int)
    requires Inv(w)
    ensures Count(Run(w, ops).mail.inbox, user, AimeEvent(incident)) <= 1
    ensures Count(Run(w, ops).mail.inbox, user, AimeEvent(incident)) == 1 ==>
        Run(w, ops).state.incident == Some(incident)
  {
    CountZero(Run(w, ops).mail.inbox, user, AimeEvent(incident));
  }
}
