/** When the recovery of the game network is declared, read off the trace of probes alone
    (service/usernotification/aime.go). */
module RecoveryOutcomes {
  import opened Common
  import opened Inbox
  import opened AimeRecovery

  /** The available probes that count since the last other finding: the first one, and then always the next that comes
      at least five minutes after the last. */
  function Counted(ops: seq<Op>): seq<nat> {
    if ops == [] then []
    else
      var n := |ops| - 1;
      var rest := Counted(ops[..n]);
      match ops[n]
      case OpProbe(Available, now) =>
        if rest == [] || TimeOf(ops, rest[|rest| - 1]) + 300_000 <= now then rest + [n] else rest
      case OpProbe(_, _) => []
      case _ => rest
  }

  function TimeOf(ops: seq<Op>, i: nat): int {
    if i < |ops| && ops[i].OpProbe? then ops[i].now else 0
  }

  predicate Sees(ops: seq<Op>, i: int, available: bool) {
    0 <= i < |ops| && ops[i].OpProbe? && (ops[i].observed == Available) == available
  }

  function End(ops: seq<Op>, c: seq<nat>, k: nat): nat {
    if k + 1 < |c| then c[k + 1] else |ops|
  }

  /** Counted probes are available, one after the other, and at least five minutes apart. */
  ghost predicate Apart(ops: seq<Op>, c: seq<nat>) {
    && (forall k :: 0 <= k < |c| ==> Sees(ops, c[k], true))
    && (forall k :: 0 < k < |c| ==> c[k - 1] < c[k] && TimeOf(ops, c[k - 1]) + 300_000 <= TimeOf(ops, c[k]))
  }

  /** Up to the next counted probe, only available ones come within five minutes. */
  ghost predicate First(ops: seq<Op>, c: seq<nat>) {
    forall k: nat, i: nat :: k < |c| && c[k] < i < End(ops, c, k) && i < |ops| && ops[i].OpProbe? ==>
      Sees(ops, i, true) && TimeOf(ops, i) < TimeOf(ops, c[k]) + 300_000
  }

  /** Whatever was available before the first counted probe, another finding came in between. */
  ghost predicate Whole(ops: seq<Op>, c: seq<nat>) {
    forall i: nat :: i < (if c == [] then |ops| else c[0]) && Sees(ops, i, true) ==>
      exists j: nat :: i < j < (if c == [] then |ops| else c[0]) && Sees(ops, j, false)
  }

  /** `Counted` picks out just these. */
  lemma {:induction false} CountedPicks(ops: seq<Op>)
    ensures Apart(ops, Counted(ops)) && First(ops, Counted(ops)) && Whole(ops, Counted(ops))
  {
    if ops != [] {
      var rest, op := ops[..|ops| - 1], ops[|ops| - 1];
      var c := Counted(rest);
      assert ops == rest + [op];
      CountedPicks(rest);
      CountedNext(rest, op);
      hide Counted, Apart, First, Whole;
      if op.OpProbe? && op.observed != Available {
        PicksNone(rest, op);
      } else if op.OpProbe? && (c == [] || TimeOf(ops, c[|c| - 1]) + 300_000 <= op.now) {
        PicksOne(rest, op, c);
      } else {
        PicksSame(rest, op, c);
      }
    } else {
      hide Apart, First, Whole;
      NothingPicked();
    }
  }

  lemma NothingPicked()
    ensures Apart([], []) && First([], []) && Whole([], []) && Counted([]) == []
  {
  }

  lemma PicksNone(rest: seq<Op>, op: Op)
    requires op.OpProbe? && op.observed != Available
    ensures Apart(rest + [op], []) && First(rest + [op], []) && Whole(rest + [op], [])
  {
    assert Sees(rest + [op], |rest|, false);
  }

  lemma Longer(rest: seq<Op>, op: Op)
    ensures forall i, b :: i < |rest| ==> Sees(rest + [op], i, b) == Sees(rest, i, b)
    ensures forall i: nat :: i < |rest| ==> TimeOf(rest + [op], i) == TimeOf(rest, i)
  {
  }

  lemma PicksSame(rest: seq<Op>, op: Op, c: seq<nat>)
    requires Apart(rest, c) && First(rest, c) && Whole(rest, c)
    requires op.OpProbe? ==>
               && op.observed == Available && c != []
               && !(TimeOf(rest + [op], c[|c| - 1]) + 300_000 <= op.now)
    ensures Apart(rest + [op], c) && First(rest + [op], c) && Whole(rest + [op], c)
  {
    var ops := rest + [op];
    Longer(rest, op);
    ApartNext(rest, op, c);
    FirstSame(rest, op, c);
    hide Apart, First, TimeOf;
    assert op.OpProbe? ==> c != [];
    WholeSame(rest, op, c);
  }

  lemma ApartNext(rest: seq<Op>, op: Op, c: seq<nat>)
    requires Apart(rest, c)
    ensures Apart(rest + [op], c) && forall k :: 0 <= k < |c| ==> c[k] < |rest|
  {
    Longer(rest, op);
    assert forall k :: 0 <= k < |c| ==> Sees(rest, c[k], true);
  }

  lemma FirstSame(rest: seq<Op>, op: Op, c: seq<nat>)
    requires Apart(rest, c) && First(rest, c)
    requires op.OpProbe? ==>
               && op.observed == Available && c != []
               && !(TimeOf(rest + [op], c[|c| - 1]) + 300_000 <= op.now)
    ensures First(rest + [op], c)
  {
    var ops := rest + [op];
    Longer(rest, op);
    ApartNext(rest, op, c);
    forall k: nat, i: nat | k < |c| && c[k] < i < End(ops, c, k) && i < |ops| && ops[i].OpProbe?
      ensures Sees(ops, i, true) && TimeOf(ops, i) < TimeOf(ops, c[k]) + 300_000
    {
      if i < |rest| {
        assert i < End(rest, c, k) && rest[i].OpProbe?;
        assert Sees(rest, i, true) && TimeOf(rest, i) < TimeOf(rest, c[k]) + 300_000;
      } else {
        assert k == |c| - 1;
      }
    }
  }

  lemma WholeSame(rest: seq<Op>, op: Op, c: seq<nat>)
    requires Apart(rest, c) && Whole(rest, c) && (op.OpProbe? ==> c != [])
    ensures Whole(rest + [op], c)
  {
    var ops := rest + [op];
    Longer(rest, op);
    ApartNext(rest, op, c);
    forall i: nat | i < (if c == [] then |ops| else c[0]) && Sees(ops, i, true)
      ensures exists j: nat :: i < j < (if c == [] then |ops| else c[0]) && Sees(ops, j, false)
    {
      assert i < |rest| && Sees(rest, i, true);
      var j: nat :| i < j < (if c == [] then |rest| else c[0]) && Sees(rest, j, false);
      assert Sees(ops, j, false);
    }
  }

  lemma PicksOne(rest: seq<Op>, op: Op, c: seq<nat>)
    requires Apart(rest, c) && First(rest, c) && Whole(rest, c) && op.OpProbe? && op.observed == Available
    requires c == [] || TimeOf(rest + [op], c[|c| - 1]) + 300_000 <= op.now
    ensures Apart(rest + [op], c + [|rest|]) && First(rest + [op], c + [|rest|]) && Whole(rest + [op], c + [|rest|])
  {
    ApartOne(rest, op, c);
    FirstOne(rest, op, c);
    WholeOne(rest, op, c);
  }

  lemma ApartOne(rest: seq<Op>, op: Op, c: seq<nat>)
    requires Apart(rest, c) && op.OpProbe? && op.observed == Available
    requires c == [] || TimeOf(rest + [op], c[|c| - 1]) + 300_000 <= op.now
    ensures Apart(rest + [op], c + [|rest|])
  {
    var ops, d := rest + [op], c + [|rest|];
    ApartNext(rest, op, c);
    assert Sees(ops, |rest|, true) && TimeOf(ops, |rest|) == op.now;
    hide Sees, TimeOf;
    forall k | 0 < k < |d| ensures d[k - 1] < d[k] && TimeOf(ops, d[k - 1]) + 300_000 <= TimeOf(ops, d[k]) {
      if k < |c| {
        assert c[k - 1] < c[k] && TimeOf(ops, c[k - 1]) + 300_000 <= TimeOf(ops, c[k]);
      }
    }
  }

  lemma FirstOne(rest: seq<Op>, op: Op, c: seq<nat>)
    requires Apart(rest, c) && First(rest, c)
    ensures First(rest + [op], c + [|rest|])
  {
    var ops, d := rest + [op], c + [|rest|];
    Longer(rest, op);
    ApartNext(rest, op, c);
    hide Apart, TimeOf;
    forall k: nat, i: nat | k < |d| && d[k] < i < End(ops, d, k) && i < |ops| && ops[i].OpProbe?
      ensures Sees(ops, i, true) && TimeOf(ops, i) < TimeOf(ops, d[k]) + 300_000
    {
      assert k < |c| && i < End(rest, c, k) && rest[i].OpProbe?;
      assert Sees(rest, i, true) && TimeOf(rest, i) < TimeOf(rest, c[k]) + 300_000;
    }
  }

  lemma WholeOne(rest: seq<Op>, op: Op, c: seq<nat>)
    requires Apart(rest, c) && Whole(rest, c)
    ensures Whole(rest + [op], c + [|rest|])
  {
    var ops, d := rest + [op], c + [|rest|];
    Longer(rest, op);
    ApartNext(rest, op, c);
    hide Apart;
    assert d[0] == if c == [] then |rest| else c[0];
    forall i: nat | i < d[0] && Sees(ops, i, true) ensures exists j: nat :: i < j < d[0] && Sees(ops, j, false) {
      assert Sees(rest, i, true);
      var j: nat :| i < j < d[0] && Sees(rest, j, false);
      assert Sees(ops, j, false);
    }
  }

  // ---------------------------------------------------------------------------------------------
  // The counter
  // ---------------------------------------------------------------------------------------------

  /** How many of the last steps between counted probes took at most ten minutes. */
  function Streak(ops: seq<Op>, c: seq<nat>): nat {
    var n := |c|;
    if n < 2 || TimeOf(ops, c[n - 1]) - TimeOf(ops, c[n - 2]) > 600_000 then 0 else Streak(ops, c[..n - 1]) + 1
  }

  ghost predicate Saw(ops: seq<Op>, observed: Observation) {
    exists i :: 0 <= i < |ops| && ops[i].OpProbe? && ops[i].observed == observed
  }

  /** What the stored state says about the trace so far, as long as recovery is not declared. */
  ghost predicate Mirrors(w: World, s: State, ops: seq<Op>) {
    && (s.incident.Some? <==> w.state.incident.Some? || Saw(ops, Blocked))
    && (s.telegramSent <==> w.state.telegramSent || OpTelegramSent in ops)
    && (s.discordSent <==> w.state.discordSent || OpDiscordSent in ops)
    && Tallies(s, ops, Counted(ops))
  }

  ghost predicate Tallies(s: State, ops: seq<Op>, c: seq<nat>) {
    && (s.status == Web(Available) <==> c != [])
    && (s.incident.Some? && c != [] ==>
        && s.opsCandidateAt.Some? && s.confirmationAt == Some(TimeOf(ops, c[|c| - 1]))
        && s.confirmations == if Streak(ops, c) < 3 then Streak(ops, c) else 3)
  }

  /** The last four counted probes end with `n` and follow each other within ten minutes. */
  ghost predicate Steady(ops: seq<Op>, c: seq<nat>, n: nat) {
    && |c| >= 4 && c[|c| - 1] == n
    && forall k :: |c| - 4 <= k < |c| - 1 ==> TimeOf(ops, c[k + 1]) - TimeOf(ops, c[k]) <= 600_000
  }

  /** Operation `n` ends a window of recovery: an available probe that counts, after three others that count, no two of
      them more than ten minutes apart, in an open incident of which both operational channels were told. */
  ghost predicate Confirms(w: World, ops: seq<Op>, n: nat) {
    && n < |ops| && ops[n].OpProbe? && Steady(ops, Counted(ops[..n + 1]), n)
    && (w.state.incident.Some? || Saw(ops[..n], Blocked))
    && (w.state.telegramSent || OpTelegramSent in ops[..n]) && (w.state.discordSent || OpDiscordSent in ops[..n])
  }

  lemma {:induction false} CountedInside(ops: seq<Op>)
    ensures forall i <- Counted(ops) :: i < |ops| && ops[i].OpProbe?
  {
    if ops != [] {
      CountedInside(ops[..|ops| - 1]);
    }
  }

  lemma {:induction false} StreakSame(ops: seq<Op>, longer: seq<Op>, c: seq<nat>)
    requires ops <= longer && forall k :: 0 <= k < |c| ==> c[k] < |ops|
    ensures Streak(longer, c) == Streak(ops, c)
  {
    if |c| >= 2 {
      StreakSame(ops, longer, c[..|c| - 1]);
    }
  }

  lemma StreakOfThree(ops: seq<Op>, c: seq<nat>)
    requires c != []
    ensures Streak(ops, c) >= 3 <==> Steady(ops, c, c[|c| - 1])
  {
    hide Streak, TimeOf;
    var n := |c|;
    if n >= 4 {
      assert c[..n - 1][..n - 2] == c[..n - 2] && c[..n - 2][..n - 3] == c[..n - 3];
      StreakUnfolds(ops, c);
      StreakUnfolds(ops, c[..n - 1]);
      StreakUnfolds(ops, c[..n - 2]);
    } else {
      StreakShort(ops, c);
    }
  }

  lemma StreakUnfolds(ops: seq<Op>, c: seq<nat>)
    requires |c| >= 2
    ensures Streak(ops, c) == if TimeOf(ops, c[|c| - 1]) - TimeOf(ops, c[|c| - 2]) > 600_000 then 0
                              else Streak(ops, c[..|c| - 1]) + 1
  {
  }

  lemma {:induction false} StreakShort(ops: seq<Op>, c: seq<nat>)
    ensures Streak(ops, c) <= |c| && (c != [] ==> Streak(ops, c) < |c|)
  {
    if |c| >= 2 {
      StreakShort(ops, c[..|c| - 1]);
    }
  }

  /** One more operation. */
  lemma TallyNext(w: World, s: State, rest: seq<Op>, op: Op)
    requires !s.recovered && Mirrors(w, s, rest)
    ensures var t, ops := StateStep(s, op), rest + [op];
            && (!t.recovered ==> Mirrors(w, t, ops))
            && (t.recovered <==> Confirms(w, ops, |rest|))
  {
    hide *;
    var t, ops := StateStep(s, op), rest + [op];
    var c, d := Counted(rest), Counted(ops);
    MirrorsIs(w, s, rest);
    MirrorsIs(w, t, ops);
    SawNext(rest, op, Blocked);
    SentNext(rest, op);
    CountedInside(rest);
    CountedNext(rest, op);
    FlagsNext(s, op);
    assert forall k :: 0 <= k < |c| ==> c[k] in c;
    if op.OpProbe? && op.observed == Available {
      assert op == OpProbe(Available, op.now);
      if s.incident.Some? {
        AvailableNext(s, rest, op.now, c);
      } else {
        QuietNext(s, rest, op.now, c, d);
      }
    } else {
      OtherNext(s, rest, op, c);
    }
    assert ops[..|rest|] == rest;
    ConfirmsIs(w, ops);
  }

  lemma MirrorsIs(w: World, s: State, ops: seq<Op>)
    ensures Mirrors(w, s, ops) <==>
            && (s.incident.Some? <==> w.state.incident.Some? || Saw(ops, Blocked))
            && (s.telegramSent <==> w.state.telegramSent || OpTelegramSent in ops)
            && (s.discordSent <==> w.state.discordSent || OpDiscordSent in ops)
            && Tallies(s, ops, Counted(ops))
  {
    hide Saw, Tallies, Counted;
  }

  /** What every operation does to the incident and the channels. */
  lemma FlagsNext(s: State, op: Op)
    requires !s.recovered
    ensures var t := StateStep(s, op);
            && (t.incident.Some? <==> s.incident.Some? || (op.OpProbe? && op.observed == Blocked))
            && (t.telegramSent <==> s.telegramSent || op == OpTelegramSent)
            && (t.discordSent <==> s.discordSent || op == OpDiscordSent)
  {
  }

  /** An available probe while no incident is open. */
  lemma QuietNext(s: State, rest: seq<Op>, now: int, c: seq<nat>, d: seq<nat>)
    requires !s.recovered && s.incident.None? && Tallies(s, rest, c) && d != []
    ensures var t := StateStep(s, OpProbe(Available, now));
            Tallies(t, rest + [OpProbe(Available, now)], d) && !t.recovered
  {
    hide Streak, TimeOf;
  }

  /** Any other operation. */
  lemma OtherNext(s: State, rest: seq<Op>, op: Op, c: seq<nat>)
    requires !s.recovered && Tallies(s, rest, c)
    requires forall k :: 0 <= k < |c| ==> c[k] < |rest| && rest[c[k]].OpProbe?
    requires op.OpProbe? ==> op.observed != Available
    ensures var t, d := StateStep(s, op), if op.OpProbe? then [] else c;
            Tallies(t, rest + [op], d) && !t.recovered && !Steady(rest + [op], d, |rest|)
  {
    StreakSame(rest, rest + [op], c);
    if c != [] {
      assert c[|c| - 1] in c && TimeOf(rest + [op], c[|c| - 1]) == TimeOf(rest, c[|c| - 1]);
    }
    hide Streak, TimeOf;
  }

  lemma CountedNext(rest: seq<Op>, op: Op)
    ensures var c := Counted(rest);
            Counted(rest + [op]) ==
            match op
            case OpProbe(Available, now) =>
              if c == [] || TimeOf(rest + [op], c[|c| - 1]) + 300_000 <= now then c + [|rest|] else c
            case OpProbe(_, _) => []
            case _ => c
  {
    assert (rest + [op])[..|rest|] == rest;
  }

  lemma SawNext(rest: seq<Op>, op: Op, observed: Observation)
    ensures Saw(rest + [op], observed) <==> Saw(rest, observed) || (op.OpProbe? && op.observed == observed)
  {
    var ops := rest + [op];
    assert ops[|rest|] == op && forall i :: 0 <= i < |rest| ==> ops[i] == rest[i];
  }

  lemma SentNext(rest: seq<Op>, op: Op)
    ensures OpTelegramSent in rest + [op] <==> OpTelegramSent in rest || op == OpTelegramSent
    ensures OpDiscordSent in rest + [op] <==> OpDiscordSent in rest || op == OpDiscordSent
  {
  }

  lemma ConfirmsIs(w: World, ops: seq<Op>)
    requires ops != []
    ensures var n, c := |ops| - 1, Counted(ops);
            Confirms(w, ops, n) <==>
            && ops[n].OpProbe? && Steady(ops, c, n) && (w.state.incident.Some? || Saw(ops[..n], Blocked))
            && (w.state.telegramSent || OpTelegramSent in ops[..n])
            && (w.state.discordSent || OpDiscordSent in ops[..n])
  {
    assert ops[..|ops|] == ops;
    hide Saw, Counted, Steady;
  }

  /** An available probe in an open incident. */
  lemma AvailableNext(s: State, rest: seq<Op>, now: int, c: seq<nat>)
    requires !s.recovered && s.incident.Some? && Tallies(s, rest, c)
    requires forall k :: 0 <= k < |c| ==> c[k] < |rest| && rest[c[k]].OpProbe?
    ensures var t, ops := StateStep(s, OpProbe(Available, now)), rest + [OpProbe(Available, now)];
            var d := if c == [] || TimeOf(ops, c[|c| - 1]) + 300_000 <= now then c + [|rest|] else c;
            && Tallies(t, ops, d)
            && (t.recovered <==> Steady(ops, d, |rest|) && s.telegramSent && s.discordSent)
  {
    var ops := rest + [OpProbe(Available, now)];
    var d := c + [|rest|];
    StreakSame(rest, ops, c);
    AvailableCases(s, now);
    assert d[..|d| - 1] == c && TimeOf(ops, |rest|) == now;
    StreakOfThree(ops, d);
    if c != [] {
      assert c[|c| - 1] in c && TimeOf(ops, c[|c| - 1]) == TimeOf(rest, c[|c| - 1]);
      StreakUnfolds(ops, d);
      NotSteady(ops, c, |rest|);
    } else {
      StreakShort(ops, d);
    }
    hide Streak, TimeOf, StateStep, Steady;
  }

  lemma NotSteady(ops: seq<Op>, c: seq<nat>, n: nat)
    requires c != [] && c[|c| - 1] < n
    ensures !Steady(ops, c, n)
  {
  }

  /** The three cases of an available probe in an open incident: a fresh start, too early, or counted. */
  lemma AvailableCases(s: State, now: int)
    requires !s.recovered && s.incident.Some?
    ensures var t := StateStep(s, OpProbe(Available, now));
            && t.status == Web(Available) && t.incident == s.incident && t.opsCandidateAt.Some?
            && if s.status != Web(Available) || s.opsCandidateAt.None? || s.confirmationAt.None?
                  || now - s.confirmationAt.value > 600_000
               then t.confirmations == 0 && t.confirmationAt == Some(now) && !t.recovered
               else if now < s.confirmationAt.value + 300_000
               then t.confirmations == s.confirmations && t.confirmationAt == s.confirmationAt && !t.recovered
               else t.confirmations == (if s.confirmations + 1 < 3 then s.confirmations + 1 else 3)
                    && t.confirmationAt == Some(now)
                    && (t.recovered <==> s.confirmations + 1 >= 3 && s.telegramSent && s.discordSent)
  {
  }

  /** In every run of a monitor that starts without verified pages, recovery is declared exactly at the first operation
      that ends such a window, and never before or after another. */
  lemma {:induction false} RecoveredExactly(w: World, ops: seq<Op>)
    requires Fresh(w)
    ensures Run(w, ops).state.recovered <==> exists n: nat :: Confirms(w, ops, n)
    ensures !Run(w, ops).state.recovered ==> Mirrors(w, Run(w, ops).state, ops)
  {
    hide *;
    FreshParts(w);
    RunLast(w, ops);
    if ops == [] {
      NothingConfirmed(w);
    } else {
      var rest, op := ops[..|ops| - 1], ops[|ops| - 1];
      assert ops == rest + [op];
      RecoveredExactly(w, rest);
      ConfirmsBefore(w, rest, op);
      var s := Run(w, rest).state;
      StaysRecovered(s, op);
      if !s.recovered {
        TallyNext(w, s, rest, op);
      }
    }
  }

  lemma FreshParts(w: World)
    requires Fresh(w)
    ensures Inv(w) && !w.state.recovered && w.state.status.Legacy?
  {
  }

  lemma NothingConfirmed(w: World)
    requires w.state.status.Legacy?
    ensures Mirrors(w, w.state, []) && forall n: nat :: !Confirms(w, [], n)
  {
  }

  lemma StaysRecovered(s: State, op: Op)
    ensures s.recovered ==> StateStep(s, op).recovered
  {
  }

  lemma ConfirmsBefore(w: World, rest: seq<Op>, op: Op)
    ensures forall n: nat :: n < |rest| ==> (Confirms(w, rest + [op], n) <==> Confirms(w, rest, n))
    ensures forall n: nat :: Confirms(w, rest, n) ==> n < |rest|
    ensures forall n: nat :: Confirms(w, rest + [op], n) ==> n <= |rest|
  {
    hide Counted, Saw, TimeOf, Steady;
    forall n: nat | n < |rest| {
      ConfirmsSame(w, rest, op, n);
    }
  }

  lemma ConfirmsSame(w: World, rest: seq<Op>, op: Op, n: nat)
    requires n < |rest|
    ensures Confirms(w, rest + [op], n) <==> Confirms(w, rest, n)
  {
    var ops, c := rest + [op], Counted(rest[..n + 1]);
    assert ops[..n + 1] == rest[..n + 1] && ops[..n] == rest[..n] && ops[n] == rest[n];
    CountedInside(rest[..n + 1]);
    forall k | 0 <= k < |c| ensures TimeOf(ops, c[k]) == TimeOf(rest, c[k]) {
      assert c[k] in c;
    }
    hide Counted, Saw, TimeOf;
  }

  // ---------------------------------------------------------------------------------------------
  // The incident and its subscribers
  // ---------------------------------------------------------------------------------------------

  /** The time of the first blocked probe. */
  function FirstBlocked(ops: seq<Op>): Option<int> {
    if ops == [] then None
    else
      var n := |ops| - 1;
      match FirstBlocked(ops[..n])
      case Some(at) => Some(at)
      case None => if ops[n].OpProbe? && ops[n].observed == Blocked then Some(ops[n].now) else None
  }

  /** The incident is the first time pages were found blocked, and never changes. */
  lemma {:induction false} IncidentIs(w: World, ops: seq<Op>)
    requires Fresh(w)
    ensures var s := Run(w, ops).state;
            && s.incident == (if w.state.incident.Some? then w.state.incident else FirstBlocked(ops))
            && (s.recovered ==> s.incident.Some?)
  {
    hide Inv, Run, Step;
    RunLast(w, ops);
    if ops != [] {
      IncidentIs(w, ops[..|ops| - 1]);
      IncidentStep(Run(w, ops[..|ops| - 1]).state, ops[|ops| - 1]);
      hide StateStep;
    }
  }

  lemma IncidentStep(s: State, op: Op)
    requires s.recovered ==> s.incident.Some?
    ensures var t := StateStep(s, op);
            && t.incident == (if s.incident.None? && op.OpProbe? && op.observed == Blocked then Some(op.now)
                              else s.incident)
            && (t.recovered ==> t.incident.Some?)
  {
  }

  /** A user can subscribe while an incident is open and not recovered, and then has one subscription, for this
      incident. Unsubscribing takes it back. Neither touches another user's. */
  lemma SubscriptionOutcome(w: World, id: nat, user: UserId)
    requires Inv(w)
    ensures Step(w, OpUnsubscribe(user)) == w.(subs := map k <- w.subs | w.subs[k].user != user :: w.subs[k])
    ensures var row := Subscription(user, w.state.incident);
            Step(w, OpSubscribe(id, user)) ==
            if id in w.subs || user !in w.mail.users || w.state.incident.None? || w.state.recovered then w
            else if exists k <- w.subs :: w.subs[k].user == user
            then w.(subs := map k <- w.subs :: if w.subs[k].user == user then row else w.subs[k])
            else w.(subs := w.subs[id := row])
  {
    hide Unique;
  }
}
