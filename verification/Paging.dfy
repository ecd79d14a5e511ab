/** Paging through a conversation that goes on in the meantime (service/messaging/query.go): each page is fetched in
    whatever state the log has reached by then. */
module MessagePaging {
  import opened Common
  import opened Conversations
  import opened Messaging
  import opened MessageHistory

  /** The messages as a viewer gets to see them. */
  function Seen(messages: seq<Message>, internal: bool): (r: seq<Message>)
    ensures |r| == |messages|
  {
    seq(|messages|, i requires 0 <= i < |messages| => ItemOf(messages[i], internal, false).message)
  }

  function MessagesOf(items: seq<Item>): seq<Message> {
    seq(|items|, i requires 0 <= i < |items| => items[i].message)
  }

  lemma MessagesOfStretch(s: seq<Message>, i: int, j: int, internal: bool, restart: Option<nat>)
    requires 0 <= i <= j <= |s|
    ensures MessagesOf(Stretch(s, i, j, internal, restart)) == Seen(s[i..j], internal)
  {
  }

  lemma SeenJoin(s: seq<Message>, i: nat, j: nat, k: nat, internal: bool)
    requires i <= j <= k <= |s|
    ensures Seen(s[i..j], internal) + Seen(s[j..k], internal) == Seen(s[i..k], internal)
  {
    hide ItemOf;
  }

  // ---------------------------------------------------------------------------------------------
  // Growing logs
  // ---------------------------------------------------------------------------------------------

  /** The same conversation at successive times, for a viewer who has access. */
  ghost predicate Fetchable(cs: seq<Conversation>, p: Participant, env: Env) {
    && (forall c <- cs :: Pageable(c, env) && Access(p, c, env))
    && (forall i, j :: 0 <= i < j < |cs| ==> Follows(cs[i], cs[j], env))
  }

  ghost predicate Follows(c: Conversation, d: Conversation, env: Env) {
    c.thread.log <= d.thread.log && SeesAll(d, env) == SeesAll(c, env)
  }

  lemma FetchableParts(cs: seq<Conversation>, p: Participant, env: Env)
    requires Fetchable(cs, p, env) && cs != []
    ensures Pageable(cs[0], env) && Access(p, cs[0], env) && Fetchable(cs[1..], p, env)
    ensures forall c <- cs :: Follows(cs[0], c, env)
  {
    hide Pageable, Access;
    assert Follows(cs[0], cs[0], env);
  }

  lemma {:induction false} VisiblePrefix(log: seq<Message>, longer: seq<Message>, internal: bool)
    requires log <= longer
    ensures Visible(log, internal) <= Visible(longer, internal)
  {
    if |log| < |longer| {
      VisiblePrefix(log, longer[..|longer| - 1], internal);
      VisibleLast(longer, internal);
    } else {
      assert log == longer;
    }
  }

  /** Later messages do not change how many visible ones have a sequence up to `n`. */
  lemma {:induction false} CountStays(log: seq<Message>, longer: seq<Message>, internal: bool, n: int)
    requires log <= longer && Ordered(longer) && n <= |log|
    ensures CountTo(Visible(longer, internal), n) == CountTo(Visible(log, internal), n)
  {
    hide *;
    if |log| < |longer| {
      OrderedPrefix(longer);
      CountStays(log, longer[..|longer| - 1], internal, n);
      VisibleLast(longer, internal);
      CountBeyond(Visible(longer[..|longer| - 1], internal), longer[|longer| - 1], n);
    } else {
      assert log == longer;
    }
  }

  lemma OrderedPrefix(log: seq<Message>)
    requires Ordered(log) && log != []
    ensures Ordered(log[..|log| - 1]) && log[|log| - 1].sequence == |log|
  {
  }

  lemma CountBeyond(s: seq<Message>, m: Message, n: int)
    requires m.sequence > n
    ensures CountTo(s + [m], n) == CountTo(s, n)
  {
    assert (s + [m])[..|s|] == s;
  }

  /** What one state's cursors say about a later state. */
  lemma Carried(c: Conversation, d: Conversation, env: Env, n: int)
    requires Follows(c, d, env) && Pageable(d, env) && n <= |c.thread.log|
    ensures var s, t := Visible(c.thread.log, SeesAll(c, env)), Visible(d.thread.log, SeesAll(c, env));
            s <= t && CountTo(t, n) == CountTo(s, n)
  {
    PageableOrdered(d, env);
    hide Visible, Pageable, CountTo, SeesAll, Ordered;
    VisiblePrefix(c.thread.log, d.thread.log, SeesAll(c, env));
    CountStays(c.thread.log, d.thread.log, SeesAll(c, env), n);
  }

  // ---------------------------------------------------------------------------------------------
  // Walks
  // ---------------------------------------------------------------------------------------------

  /** What a walk over pages has shown, the cursor it would go on with, and the state of its last page. */
  datatype Walk = Walk(shown: seq<Message>, next: Option<nat>, at: Conversation)

  /** One page in each state, each asked for with the `nextAfter` of the one before, as long as there is one. */
  ghost function ForwardWalk(cs: seq<Conversation>, p: Participant, after: int, limit: int, env: Env): Walk
    requires Fetchable(cs, p, env) && cs != [] && PageOk(0, after, limit) && after >= 0
    decreases |cs|
  {
    FetchableParts(cs, p, env);
    PageAfterIs(cs[0], p, after, limit, env);
    var page := HistoryPage(cs[0], p, 0, after, limit, env).value;
    if page.nextAfter.None? || |cs| == 1 then Walk(MessagesOf(page.items), page.nextAfter, cs[0])
    else
      var rest := ForwardWalk(cs[1..], p, page.nextAfter.value, limit, env);
      rest.(shown := MessagesOf(page.items) + rest.shown)
  }

  /** The same with `nextBefore`; earlier messages come in front. */
  ghost function BackwardWalk(cs: seq<Conversation>, p: Participant, before: int, limit: int, env: Env): Walk
    requires Fetchable(cs, p, env) && cs != [] && PageOk(before, -1, limit)
    decreases |cs|
  {
    FetchableParts(cs, p, env);
    PageBeforeIs(cs[0], p, before, limit, env);
    var page := HistoryPage(cs[0], p, before, -1, limit, env).value;
    if page.nextBefore.None? || |cs| == 1 then Walk(MessagesOf(page.items), page.nextBefore, cs[0])
    else
      var rest := BackwardWalk(cs[1..], p, page.nextBefore.value, limit, env);
      rest.(shown := rest.shown + MessagesOf(page.items))
  }

  /** A forward walk has shown the visible messages of the last state it saw from `after` up to its cursor, or all of
      them if there is none. */
  ghost predicate ForwardShown(r: Walk, after: int, limit: nat, pages: nat, internal: bool) {
    var s := Visible(r.at.thread.log, internal);
    var lo := CountTo(s, after);
    && lo <= HighEnd(r.next, s) <= |s| && r.shown == Seen(s[lo..HighEnd(r.next, s)], internal)
    && (r.next.Some? ==> |r.shown| == limit * pages && r.next.value <= |r.at.thread.log| && HighEnd(r.next, s) < |s|)
  }

  function HighEnd(next: Option<nat>, s: seq<Message>): nat {
    if next.None? then |s| else CountTo(s, next.value)
  }

  lemma {:induction false} ForwardWalkIs(cs: seq<Conversation>, p: Participant, after: int, limit: int, env: Env)
    requires Fetchable(cs, p, env) && cs != [] && PageOk(0, after, limit) && 0 <= after <= |cs[0].thread.log|
    ensures var r := ForwardWalk(cs, p, after, limit, env);
            r.at in cs && limit >= 1 && ForwardShown(r, after, limit, |cs|, SeesAll(cs[0], env))
    decreases |cs|
  {
    hide *;
    var c, internal := cs[0], SeesAll(cs[0], env);
    FetchableParts(cs, p, env);
    ForwardQuery(c, after, limit);
    PageAfterIs(c, p, after, limit, env);
    var page := HistoryPage(c, p, 0, after, limit, env).value;
    ForwardUnfolds(cs, p, after, limit, env);
    if page.nextAfter.None? || |cs| == 1 {
      LastForward(c, page, after, limit, |cs|, internal, RestartAt(c));
    } else {
      var next := page.nextAfter.value;
      ForwardNext(page, Visible(c.thread.log, internal), |c.thread.log|, after, limit, internal, RestartAt(c));
      FollowsFirst(cs, env);
      ForwardWalkIs(cs[1..], p, next, limit, env);
      var rest := ForwardWalk(cs[1..], p, next, limit, env);
      FetchedIn(cs, p, env, rest.at);
      Carried(c, rest.at, env, after);
      Carried(c, rest.at, env, next);
      ForwardJoin(page, rest, Visible(c.thread.log, internal), |c.thread.log|, after, limit, |cs| - 1, internal,
                  RestartAt(c));
    }
  }

  lemma ForwardUnfolds(cs: seq<Conversation>, p: Participant, after: int, limit: int, env: Env)
    requires Fetchable(cs, p, env) && cs != [] && PageOk(0, after, limit) && after >= 0
    ensures HistoryPage(cs[0], p, 0, after, limit, env).Some?
    ensures var page := HistoryPage(cs[0], p, 0, after, limit, env).value;
            if page.nextAfter.None? || |cs| == 1
            then ForwardWalk(cs, p, after, limit, env) == Walk(MessagesOf(page.items), page.nextAfter, cs[0])
            else Fetchable(cs[1..], p, env) && PageOk(0, page.nextAfter.value, limit) &&
                 var rest := ForwardWalk(cs[1..], p, page.nextAfter.value, limit, env);
                 ForwardWalk(cs, p, after, limit, env) == rest.(shown := MessagesOf(page.items) + rest.shown)
  {
    FetchableParts(cs, p, env);
    PageAfterIs(cs[0], p, after, limit, env);
    hide Fetchable, HistoryPage, MessagesOf, ForwardPage, Access, Pageable;
  }

  lemma FetchedIn(cs: seq<Conversation>, p: Participant, env: Env, c: Conversation)
    requires Fetchable(cs, p, env) && cs != [] && c in cs[1..]
    ensures Follows(cs[0], c, env) && Pageable(c, env) && c in cs
  {
    hide Pageable, Access, Follows;
    assert c in cs;
    FetchableParts(cs, p, env);
  }

  lemma FollowsFirst(cs: seq<Conversation>, env: Env)
    requires |cs| > 1 && forall c <- cs :: Follows(cs[0], c, env)
    ensures |cs[0].thread.log| <= |cs[1].thread.log| && SeesAll(cs[1], env) == SeesAll(cs[0], env)
  {
    assert cs[1] in cs;
  }

  lemma LastForward(c: Conversation, page: Page, after: int, limit: nat, pages: nat, internal: bool,
                    restart: Option<nat>)
    requires page.nextAfter.None? || pages == 1
    requires ForwardPage(page, Visible(c.thread.log, internal), |c.thread.log|, after, limit, internal, restart)
    ensures ForwardShown(Walk(MessagesOf(page.items), page.nextAfter, c), after, limit, pages, internal)
  {
    ForwardPageParts(page, Visible(c.thread.log, internal), |c.thread.log|, after, limit, internal, restart);
    hide Visible, CountTo, MessagesOf, Stretch, Seen, HighEnd, ForwardPage;
  }

  lemma ForwardPageParts(page: Page, s: seq<Message>, size: nat, after: int, limit: nat, internal: bool,
                         restart: Option<nat>)
    requires ForwardPage(page, s, size, after, limit, internal, restart)
    ensures var lo, hi := CountTo(s, after), HighEnd(page.nextAfter, s);
            && lo <= hi <= |s| && MessagesOf(page.items) == Seen(s[lo..hi], internal)
            && (page.nextAfter.Some? ==>
                  after < page.nextAfter.value <= size && hi < |s| && |MessagesOf(page.items)| == limit)
  {
    hide CountTo, MessagesOf, Stretch, Seen;
    MessagesOfStretch(s, CountTo(s, after), HighEnd(page.nextAfter, s), internal, restart);
  }

  lemma ForwardNext(page: Page, s: seq<Message>, size: nat, after: int, limit: nat, internal: bool,
                    restart: Option<nat>)
    requires ForwardPage(page, s, size, after, limit, internal, restart) && page.nextAfter.Some?
    ensures after < page.nextAfter.value <= size
  {
  }

  lemma ForwardJoin(page: Page, rest: Walk, s: seq<Message>, size: nat, after: int, limit: nat, pages: nat,
                    internal: bool, restart: Option<nat>)
    requires ForwardPage(page, s, size, after, limit, internal, restart) && page.nextAfter.Some?
    requires ForwardShown(rest, page.nextAfter.value, limit, pages, internal)
    requires var t := Visible(rest.at.thread.log, internal);
             s <= t && CountTo(t, after) == CountTo(s, after)
             && CountTo(t, page.nextAfter.value) == CountTo(s, page.nextAfter.value)
    ensures ForwardShown(rest.(shown := MessagesOf(page.items) + rest.shown), after, limit, pages + 1, internal)
  {
    var t := Visible(rest.at.thread.log, internal);
    ForwardPageParts(page, s, size, after, limit, internal, restart);
    hide Visible, CountTo, MessagesOf, Stretch, Seen, ForwardPage;
    var lo, mid := CountTo(s, after), CountTo(s, page.nextAfter.value);
    SameCut(s, t, lo, mid);
    SeenJoin(t, lo, mid, HighEnd(rest.next, t), internal);
    OneMore(limit, pages);
  }

  lemma OneMore(limit: nat, pages: nat)
    ensures limit * (pages + 1) == limit + limit * pages
  {
  }

  /** A backward walk has shown the visible messages that the first state had below `before`, down to its cursor, or all
      of them if there is none. */
  ghost predicate BackwardShown(r: Walk, c: Conversation, upper: int, limit: nat, pages: nat, internal: bool) {
    var s := Visible(c.thread.log, internal);
    var hi := CountTo(s, upper - 1);
    && LowEnd(r.next, s) <= hi <= |s| && r.shown == Seen(s[LowEnd(r.next, s)..hi], internal)
    && (r.next.Some? ==> |r.shown| == limit * pages && 1 <= r.next.value < upper)
  }

  function LowEnd(next: Option<nat>, s: seq<Message>): nat {
    if next.None? then 0 else CountTo(s, next.value - 1)
  }

  lemma {:induction false} BackwardWalkIs(cs: seq<Conversation>, p: Participant, before: int, limit: int, env: Env)
    requires Fetchable(cs, p, env) && cs != [] && PageOk(before, -1, limit) && before <= |cs[0].thread.log| + 1
    ensures var r := BackwardWalk(cs, p, before, limit, env);
            limit >= 1 && BackwardShown(r, cs[0], Upper(cs[0], before), limit, |cs|, SeesAll(cs[0], env))
    decreases |cs|
  {
    hide *;
    var c, internal := cs[0], SeesAll(cs[0], env);
    FetchableParts(cs, p, env);
    BackwardQuery(before, limit);
    PageBeforeIs(c, p, before, limit, env);
    UpperFits(c, before);
    var page := HistoryPage(c, p, before, -1, limit, env).value;
    BackwardUnfolds(cs, p, before, limit, env);
    if page.nextBefore.None? || |cs| == 1 {
      LastBackward(c, page, Upper(c, before), limit, |cs|, internal, RestartAt(c));
    } else {
      var next := page.nextBefore.value;
      BackwardNext(page, Visible(c.thread.log, internal), Upper(c, before), limit, internal, RestartAt(c));
      FollowsFirst(cs, env);
      UpperOf(cs[1], next);
      BackwardWalkIs(cs[1..], p, next, limit, env);
      var rest := BackwardWalk(cs[1..], p, next, limit, env);
      FetchedIn(cs, p, env, cs[1]);
      Carried(c, cs[1], env, next - 1);
      if rest.next.Some? {
        BackwardCursorDown(rest, cs[1], next, limit, |cs| - 1, internal);
        Carried(c, cs[1], env, rest.next.value - 1);
      }
      BackwardJoin(page, rest, c, cs[1], Upper(c, before), limit, |cs| - 1, internal, RestartAt(c));
    }
  }

  lemma UpperFits(c: Conversation, before: int)
    requires 0 <= before <= |c.thread.log| + 1
    ensures Upper(c, before) <= |c.thread.log| + 1
  {
  }

  lemma BackwardUnfolds(cs: seq<Conversation>, p: Participant, before: int, limit: int, env: Env)
    requires Fetchable(cs, p, env) && cs != [] && PageOk(before, -1, limit)
    ensures HistoryPage(cs[0], p, before, -1, limit, env).Some?
    ensures var page := HistoryPage(cs[0], p, before, -1, limit, env).value;
            if page.nextBefore.None? || |cs| == 1
            then BackwardWalk(cs, p, before, limit, env) == Walk(MessagesOf(page.items), page.nextBefore, cs[0])
            else Fetchable(cs[1..], p, env) && PageOk(page.nextBefore.value, -1, limit) &&
                 var rest := BackwardWalk(cs[1..], p, page.nextBefore.value, limit, env);
                 BackwardWalk(cs, p, before, limit, env) == rest.(shown := rest.shown + MessagesOf(page.items))
  {
    FetchableParts(cs, p, env);
    PageBeforeIs(cs[0], p, before, limit, env);
    hide Fetchable, HistoryPage, MessagesOf, BackwardPage, Access, Pageable;
  }

  lemma LastBackward(c: Conversation, page: Page, upper: int, limit: nat, pages: nat, internal: bool,
                     restart: Option<nat>)
    requires page.nextBefore.None? || pages == 1
    requires BackwardPage(page, Visible(c.thread.log, internal), upper, limit, internal, restart)
    ensures BackwardShown(Walk(MessagesOf(page.items), page.nextBefore, c), c, upper, limit, pages, internal)
  {
    BackwardPageParts(page, Visible(c.thread.log, internal), upper, limit, internal, restart);
    hide Visible, CountTo, MessagesOf, Stretch, Seen, LowEnd, BackwardPage;
  }

  lemma BackwardPageParts(page: Page, s: seq<Message>, upper: int, limit: nat, internal: bool, restart: Option<nat>)
    requires BackwardPage(page, s, upper, limit, internal, restart)
    ensures var lo, hi := LowEnd(page.nextBefore, s), CountTo(s, upper - 1);
            && lo <= hi <= |s| && MessagesOf(page.items) == Seen(s[lo..hi], internal)
            && (page.nextBefore.Some? ==> 1 <= page.nextBefore.value < upper && |MessagesOf(page.items)| == limit)
  {
    hide CountTo, MessagesOf, Stretch, Seen;
    MessagesOfStretch(s, LowEnd(page.nextBefore, s), CountTo(s, upper - 1), internal, restart);
  }

  lemma BackwardNext(page: Page, s: seq<Message>, upper: int, limit: nat, internal: bool, restart: Option<nat>)
    requires BackwardPage(page, s, upper, limit, internal, restart) && page.nextBefore.Some?
    ensures 1 <= page.nextBefore.value < upper
  {
  }

  lemma BackwardCursorDown(r: Walk, c: Conversation, upper: int, limit: nat, pages: nat, internal: bool)
    requires BackwardShown(r, c, upper, limit, pages, internal) && r.next.Some?
    ensures 1 <= r.next.value < upper
  {
  }

  lemma BackwardJoin(page: Page, rest: Walk, c: Conversation, d: Conversation, upper: int, limit: nat, pages: nat,
                     internal: bool, restart: Option<nat>)
    requires BackwardPage(page, Visible(c.thread.log, internal), upper, limit, internal, restart)
    requires page.nextBefore.Some? && BackwardShown(rest, d, page.nextBefore.value, limit, pages, internal)
    requires var s, t := Visible(c.thread.log, internal), Visible(d.thread.log, internal);
             && s <= t && CountTo(t, page.nextBefore.value - 1) == CountTo(s, page.nextBefore.value - 1)
             && (rest.next.Some? ==> CountTo(t, rest.next.value - 1) == CountTo(s, rest.next.value - 1))
    ensures BackwardShown(rest.(shown := rest.shown + MessagesOf(page.items)), c, upper, limit, pages + 1, internal)
  {
    hide *;
    var s, t := Visible(c.thread.log, internal), Visible(d.thread.log, internal);
    var lo, mid, hi := LowEnd(rest.next, t), LowEnd(page.nextBefore, s), CountTo(s, upper - 1);
    BackwardPageParts(page, s, upper, limit, internal, restart);
    BackwardShownParts(rest, d, page.nextBefore.value, limit, pages, internal);
    LowEndIs(page.nextBefore, s);
    LowEndIs(rest.next, s);
    LowEndIs(rest.next, t);
    SameCut(s, t, lo, mid);
    SeenJoin(s, lo, mid, hi, internal);
    OneMore(limit, pages);
    BackwardShownFrom(rest.(shown := rest.shown + MessagesOf(page.items)), c, upper, limit, pages + 1, internal);
  }

  lemma LowEndIs(next: Option<nat>, s: seq<Message>)
    ensures LowEnd(next, s) == if next.None? then 0 else CountTo(s, next.value - 1)
  {
  }

  lemma BackwardShownParts(r: Walk, c: Conversation, upper: int, limit: nat, pages: nat, internal: bool)
    requires BackwardShown(r, c, upper, limit, pages, internal)
    ensures var s := Visible(c.thread.log, internal);
            var lo, hi := LowEnd(r.next, s), CountTo(s, upper - 1);
            && lo <= hi <= |s| && r.shown == Seen(s[lo..hi], internal)
            && (r.next.Some? ==> |r.shown| == limit * pages && 1 <= r.next.value < upper)
  {
    hide Visible, CountTo, Seen, LowEnd;
  }

  lemma BackwardShownFrom(r: Walk, c: Conversation, upper: int, limit: nat, pages: nat, internal: bool)
    requires var s := Visible(c.thread.log, internal);
             var lo, hi := LowEnd(r.next, s), CountTo(s, upper - 1);
             && lo <= hi <= |s| && r.shown == Seen(s[lo..hi], internal)
             && (r.next.Some? ==> |r.shown| == limit * pages && 1 <= r.next.value < upper)
    ensures BackwardShown(r, c, upper, limit, pages, internal)
  {
    hide Visible, CountTo, Seen, LowEnd;
  }

  lemma SameCut(s: seq<Message>, t: seq<Message>, i: nat, j: nat)
    requires s <= t && i <= j <= |s|
    ensures s[i..j] == t[i..j]
  {
  }

  // ---------------------------------------------------------------------------------------------
  // In every run
  // ---------------------------------------------------------------------------------------------

  /** The conversation at each visit; `visits` are the operations before each of them. */
  ghost function States(w: World, visits: seq<seq<Op>>, cid: string): seq<Conversation>
    requires WorldInv(w) && (visits != [] ==> cid in Run(w, visits[0]))
    decreases |visits|
  {
    hide *;
    if visits == [] then []
    else
      NextVisit(w, visits, cid);
      [Run(w, visits[0])[cid]] + States(Run(w, visits[0]), visits[1..], cid)
  }

  lemma NextVisit(w: World, visits: seq<seq<Op>>, cid: string)
    requires WorldInv(w) && visits != [] && cid in Run(w, visits[0])
    ensures WorldInv(Run(w, visits[0])) && (visits[1..] != [] ==> cid in Run(Run(w, visits[0]), visits[1..][0]))
  {
    hide *;
    InvRun(w, visits[0]);
    StillThere(Run(w, visits[0]), visits[1..], cid);
  }

  lemma StillThere(w: World, visits: seq<seq<Op>>, cid: string)
    requires WorldInv(w) && cid in w
    ensures visits != [] ==> cid in Run(w, visits[0])
  {
    hide *;
    if visits != [] {
      InvRun(w, visits[0]);
      GrownFollows(w, Run(w, visits[0]), cid);
    }
  }

  lemma GrownFollows(w: World, v: World, cid: string)
    requires WorldInv(w) && WorldGrows(w, v) && cid in w
    ensures cid in v && forall env :: Follows(w[cid], v[cid], env)
    ensures forall p, env :: Access(p, w[cid], env) ==> Access(p, v[cid], env)
  {
    assert Good(w[cid], cid);
  }

  lemma GoodPageable(w: World, cid: string, env: Env)
    requires WorldInv(w) && cid in w
    ensures Pageable(w[cid], env)
  {
    var c := w[cid];
    assert Good(c, cid);
    if !SeesAll(c, env) {
      LastShownIs(c.thread.log);
      FirstShown(c.thread.log);
    }
  }

  lemma {:induction false} StatesFetchable(w: World, visits: seq<seq<Op>>, cid: string, p: Participant, env: Env)
    requires WorldInv(w) && cid in w && Access(p, w[cid], env)
    ensures visits != [] ==> cid in Run(w, visits[0])
    ensures Fetchable(States(w, visits, cid), p, env)
    ensures forall c <- States(w, visits, cid) :: Follows(w[cid], c, env)
    decreases |visits|
  {
    hide *;
    StillThere(w, visits, cid);
    if visits == [] {
      NoStates(w, cid, p, env);
    } else {
      var v := Run(w, visits[0]);
      InvRun(w, visits[0]);
      GrownFollows(w, v, cid);
      GoodPageable(v, cid, env);
      StatesFetchable(v, visits[1..], cid, p, env);
      StatesUnfold(w, visits, cid);
      FetchableMore(w[cid], v[cid], States(v, visits[1..], cid), p, env);
    }
  }

  lemma NoStates(w: World, cid: string, p: Participant, env: Env)
    requires WorldInv(w)
    ensures States(w, [], cid) == [] && Fetchable([], p, env)
  {
  }

  lemma StatesUnfold(w: World, visits: seq<seq<Op>>, cid: string)
    requires WorldInv(w) && visits != [] && cid in Run(w, visits[0])
    ensures var v := Run(w, visits[0]);
            && WorldInv(v) && (visits[1..] != [] ==> cid in Run(v, visits[1..][0]))
            && States(w, visits, cid) == [v[cid]] + States(v, visits[1..], cid)
  {
    hide WorldInv, Run;
    NextVisit(w, visits, cid);
  }

  lemma FetchableMore(b: Conversation, c: Conversation, cs: seq<Conversation>, p: Participant, env: Env)
    requires Pageable(c, env) && Access(p, c, env) && Fetchable(cs, p, env) && Follows(b, c, env)
    requires forall d <- cs :: Follows(c, d, env)
    ensures Fetchable([c] + cs, p, env) && forall d <- [c] + cs :: Follows(b, d, env)
  {
    hide Pageable, Access, SeesAll;
    forall d <- cs ensures Follows(b, d, env) {
      assert Follows(c, d, env);
    }
  }

  /** While the conversation goes on, a walk forward by `nextAfter` shows every visible message up to its cursor once
      and in order, and if it ends, all those of the state in which it ends. A walk backward by `nextBefore` does the
      same with the messages that were visible when it began. A walk that has not ended has shown full pages only. */
  lemma PagingWhileGrowing(visits: seq<seq<Op>>, cid: string, p: Participant, limit: int, env: Env)
    requires visits != [] && cid in Run(map[], visits[0]) && Access(p, Run(map[], visits[0])[cid], env)
    ensures WorldInv(map[])
    ensures var cs := States(map[], visits, cid);
            && |cs| == |visits| && Fetchable(cs, p, env)
            && var internal := SeesAll(cs[0], env);
               && (1 <= limit <= 200 ==>
                     var r := ForwardWalk(cs, p, 0, limit, env);
                     var s := Visible(r.at.thread.log, internal);
                     && r.at in cs
                     && match r.next
                        case None => r.shown == Seen(s, internal)
                        case Some(n) =>
                          |r.shown| == limit * |cs| < |s| && r.shown == Seen(s[..|r.shown|], internal))
               && (1 <= limit <= 100 ==>
                     var r := BackwardWalk(cs, p, 0, limit, env);
                     var s := Visible(cs[0].thread.log, internal);
                     match r.next
                     case None => r.shown == Seen(s, internal)
                     case Some(n) =>
                       |r.shown| == limit * |cs| <= |s| && r.shown == Seen(s[|s| - |r.shown|..], internal))
  {
    hide *;
    EmptyWorld();
    VisitsFetchable(visits, cid, p, env);
    var cs := States(map[], visits, cid);
    var c, internal := cs[0], SeesAll(cs[0], env);
    FetchableParts(cs, p, env);
    LimitsOk(limit);
    PageableEnds(c, env);
    if 1 <= limit <= 200 {
      ForwardWalkIs(cs, p, 0, limit, env);
      var r := ForwardWalk(cs, p, 0, limit, env);
      FetchedAny(cs, p, env, r.at);
      PageableEnds(r.at, env);
      FromStart(r, limit, |cs|, internal);
    }
    if 1 <= limit <= 100 {
      UpperFits(c, 0);
      BackwardWalkIs(cs, p, 0, limit, env);
      FromEnd(BackwardWalk(cs, p, 0, limit, env), c, Upper(c, 0), limit, |cs|, internal);
    }
  }

  lemma VisitsFetchable(visits: seq<seq<Op>>, cid: string, p: Participant, env: Env)
    requires WorldInv(map[])
    requires visits != [] && cid in Run(map[], visits[0]) && Access(p, Run(map[], visits[0])[cid], env)
    ensures Fetchable(States(map[], visits, cid), p, env) && |States(map[], visits, cid)| == |visits|
  {
    hide *;
    var v := Run(map[], visits[0]);
    InvRun(map[], visits[0]);
    GoodPageable(v, cid, env);
    StatesFetchable(v, visits[1..], cid, p, env);
    StatesUnfold(map[], visits, cid);
    FollowsSelf(v[cid], env);
    FetchableMore(v[cid], v[cid], States(v, visits[1..], cid), p, env);
    StatesSize(v, visits[1..], cid);
  }

  lemma {:induction false} StatesSize(w: World, visits: seq<seq<Op>>, cid: string)
    requires WorldInv(w) && (visits != [] ==> cid in Run(w, visits[0]))
    ensures |States(w, visits, cid)| == |visits|
    decreases |visits|
  {
    hide WorldInv, Run;
    if visits != [] {
      StatesUnfold(w, visits, cid);
      StatesSize(Run(w, visits[0]), visits[1..], cid);
    }
  }

  lemma FollowsSelf(c: Conversation, env: Env)
    ensures Follows(c, c, env)
  {
  }

  lemma FetchedAny(cs: seq<Conversation>, p: Participant, env: Env, c: Conversation)
    requires Fetchable(cs, p, env) && cs != [] && c in cs
    ensures Pageable(c, env) && SeesAll(c, env) == SeesAll(cs[0], env)
  {
    hide Pageable, Access, SeesAll;
    FetchableParts(cs, p, env);
    assert Follows(cs[0], c, env);
  }

  lemma FromStart(r: Walk, limit: nat, pages: nat, internal: bool)
    requires ForwardShown(r, 0, limit, pages, internal) && CountTo(Visible(r.at.thread.log, internal), 0) == 0
    ensures var s := Visible(r.at.thread.log, internal);
            match r.next
            case None => r.shown == Seen(s, internal)
            case Some(n) => |r.shown| == limit * pages < |s| && r.shown == Seen(s[..|r.shown|], internal)
  {
    hide Visible, CountTo;
    var s := Visible(r.at.thread.log, internal);
    assert s[0..] == s;
    if r.next.Some? {
      assert s[0..CountTo(s, r.next.value)] == s[..CountTo(s, r.next.value)];
    }
  }

  lemma FromEnd(r: Walk, c: Conversation, upper: int, limit: nat, pages: nat, internal: bool)
    requires BackwardShown(r, c, upper, limit, pages, internal)
    requires CountTo(Visible(c.thread.log, internal), upper - 1) == |Visible(c.thread.log, internal)|
    ensures var s := Visible(c.thread.log, internal);
            match r.next
            case None => r.shown == Seen(s, internal)
            case Some(n) => |r.shown| == limit * pages <= |s| && r.shown == Seen(s[|s| - |r.shown|..], internal)
  {
    hide Visible, CountTo;
    var s := Visible(c.thread.log, internal);
    assert s[0..|s|] == s && s[LowEnd(r.next, s)..|s|] == s[LowEnd(r.next, s)..];
  }
}
