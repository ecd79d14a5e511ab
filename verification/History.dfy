/** What a viewer sees of a conversation's log, page by page (service/messaging/query.go). */
module MessageHistory {
  import opened Common
  import opened ReplyScript
  import opened Conversations
  import opened Messaging

  /** `restart` marks the message from which the requester can return to the start of the script. */
  datatype Item = Item(message: Message, restart: bool)

  datatype Page = Page(items: seq<Item>, latestSequence: nat, nextBefore: Option<nat>, nextAfter: Option<nat>)

  /** The query's filter: who does not answer for the inbox does not get entries without content. */
  predicate Selected(m: Message, internal: bool, after: int, before: int) {
    (internal || m.text != "" || m.photos != []) && after < m.sequence < before
  }

  function Select(log: seq<Message>, internal: bool, after: int, before: int): seq<Message> {
    if log == [] then []
    else
      var n := |log| - 1;
      Select(log[..n], internal, after, before) + if Selected(log[n], internal, after, before) then [log[n]] else []
  }

  function Reversed(s: seq<Message>): (r: seq<Message>)
    ensures |r| == |s|
  {
    if s == [] then [] else Reversed(s[1..]) + [s[0]]
  }

  lemma {:induction false} ReversedAt(s: seq<Message>, i: nat)
    requires i < |s|
    ensures Reversed(s)[i] == s[|s| - 1 - i]
  {
    if i < |s| - 1 {
      ReversedAt(s[1..], i);
    }
  }

  function Take(s: seq<Message>, n: nat): seq<Message> {
    if |s| <= n then s else s[..n]
  }

  /** The oldest or the newest `limit` of the selected messages, oldest first. */
  function Shown(selected: seq<Message>, forward: bool, limit: nat): seq<Message> {
    if |selected| <= limit then selected
    else if forward then selected[..limit]
    else selected[|selected| - limit..]
  }

  function ItemOf(m: Message, internal: bool, restart: bool): Item {
    Item(if internal then m else m.(change := None), restart)
  }

  function ItemsOf(rows: seq<Message>, internal: bool, restart: Option<nat>): seq<Item> {
    seq(|rows|, i requires 0 <= i < |rows| => ItemOf(rows[i], internal, restart == Some(rows[i].sequence)))
  }

  predicate PageOk(before: int, after: int, limit: int) {
    && before >= 0 && after >= -1 && (before == 0 || after == -1)
    && 1 <= limit <= 200 && (after < 0 ==> limit <= 100)
  }

  predicate SeesAll(c: Conversation, env: Env) {
    c.kind.Case? ==> env.responder
  }

  /** The upper end of the query. */
  function Upper(c: Conversation, before: int): int {
    if before > 0 then before else |c.thread.log| + 1
  }

  function RestartAt(c: Conversation): Option<nat> {
    if CanRestart(c) then Some(c.thread.latest) else None
  }

  /** What `HistoryFor` returns. */
  ghost function HistoryPage(c: Conversation, p: Participant, before: int, after: int, limit: int, env: Env)
    : Option<Page>
  {
    if !Access(p, c, env) || !PageOk(before, after, limit) then None
    else
      var internal := SeesAll(c, env);
      var selected := Select(c.thread.log, internal, after, Upper(c, before));
      var rows := Shown(selected, after >= 0, limit);
      if !internal && !(1 <= c.thread.latest <= |c.thread.log|) then None
      else
        var more := |selected| > limit;
        Some(Page(ItemsOf(rows, internal, RestartAt(c)),
                  if internal then c.thread.lastSequence else c.thread.log[c.thread.latest - 1].sequence,
                  if more && after < 0 then Some(rows[0].sequence) else None,
                  if more && after >= 0 then Some(rows[|rows| - 1].sequence) else None))
  }

  // ---------------------------------------------------------------------------------------------
  // The query and the loop
  // ---------------------------------------------------------------------------------------------

  /** Turns the rows around in place. */
  method ReverseRows(a: array<Message>)
    modifies a
    ensures a[..] == Reversed(old(a[..]))
  {
    hide *;
    var i, j := 0, a.Length - 1;
    while i < j
      invariant 0 <= i && j == a.Length - 1 - i && i <= j + 1
      invariant forall k :: 0 <= k < i ==> a[k] == old(a[a.Length - 1 - k]) && a[a.Length - 1 - k] == old(a[k])
      invariant forall k :: i <= k <= j ==> a[k] == old(a[k])
    {
      a[i], a[j] := a[j], a[i];
      i, j := i + 1, j - 1;
    }
    SameRows(a[..], old(a[..]));
  }

  lemma SameRows(s: seq<Message>, rows: seq<Message>)
    requires |s| == |rows| && forall k :: 0 <= k < |s| ==> s[k] == rows[|s| - 1 - k]
    ensures s == Reversed(rows)
  {
    hide Reversed;
    forall k | 0 <= k < |s| ensures s[k] == Reversed(rows)[k] {
      ReversedAt(rows, k);
    }
  }

  /** Fetches one row more than the limit in the direction of paging, drops it again and restores the order. */
  method Rows(selected: seq<Message>, forward: bool, limit: nat) returns (rows: seq<Message>, more: bool)
    ensures rows == Shown(selected, forward, limit)
    ensures more <==> |selected| > limit
  {
    rows := Take(if forward then selected else Reversed(selected), limit + 1);
    more := |rows| > limit;
    if more {
      rows := rows[..limit];
    }
    if !forward {
      ReversedNewest(selected, limit);
      rows := ReversedRows(rows);
    }
  }

  method ReversedRows(rows: seq<Message>) returns (r: seq<Message>)
    ensures r == Reversed(rows)
  {
    var buffer := new Message[|rows|](i requires 0 <= i < |rows| => rows[i]);
    assert buffer[..] == rows;
    ReverseRows(buffer);
    r := buffer[..];
  }

  /** The newest rows, newest first, turned around. */
  lemma ReversedNewest(selected: seq<Message>, limit: nat)
    ensures Reversed(Take(Reversed(selected), limit)) == Shown(selected, false, limit)
    ensures |Reversed(selected)| > limit ==> Reversed(selected)[..limit + 1][..limit] == Reversed(selected)[..limit]
  {
    hide Reversed;
    if |selected| > limit {
      ReversedEnd(selected, limit);
      ReversedTwice(selected[|selected| - limit..]);
    } else {
      ReversedTwice(selected);
    }
  }

  lemma {:induction false} ReversedAppend(s: seq<Message>, m: Message)
    ensures Reversed(s + [m]) == [m] + Reversed(s)
  {
    if s != [] {
      assert (s + [m])[1..] == s[1..] + [m];
      ReversedAppend(s[1..], m);
    }
  }

  lemma {:induction false} ReversedTwice(s: seq<Message>)
    ensures Reversed(Reversed(s)) == s
  {
    if s != [] {
      ReversedAppend(Reversed(s[1..]), s[0]);
      ReversedTwice(s[1..]);
    }
  }

  lemma {:induction false} ReversedEnd(s: seq<Message>, n: nat)
    requires n < |s|
    ensures Reversed(s)[..n] == Reversed(s[|s| - n..]) && Reversed(s)[..n + 1][..n] == Reversed(s)[..n]
  {
    assert Reversed(s)[..n] == Reversed(s[1..])[..n];
    if n < |s| - 1 {
      ReversedEnd(s[1..], n);
      assert s[1..][|s| - 1 - n..] == s[|s| - n..];
    } else {
      assert s[1..] == s[|s| - n..];
    }
  }

  method ShowRows(rows: seq<Message>, internal: bool, restart: Option<nat>) returns (items: seq<Item>)
    ensures items == ItemsOf(rows, internal, restart)
  {
    items := [];
    for i := 0 to |rows|
      invariant items == ItemsOf(rows[..i], internal, restart)
    {
      items := items + [ItemOf(rows[i], internal, restart == Some(rows[i].sequence))];
    }
    assert rows[..|rows|] == rows;
  }

  method History(c: Conversation, p: Participant, before: int, after: int, limit: int, env: Env)
    returns (page: Option<Page>)
    ensures page == HistoryPage(c, p, before, after, limit, env)
  {
    hide *;
    HistoryRefused(c, p, before, after, limit, env);
    if !Access(p, c, env) || !PageOk(before, after, limit) {
      return None;
    }
    ViewerIs(c, env);
    var internal, restart := true, None;
    if c.kind.Case? {
      internal := env.responder;
      if CanRestart(c) {
        restart := Some(c.thread.latest);
      }
    }
    LimitPositive(before, after, limit);
    var rows, more := Rows(Select(c.thread.log, internal, after, Upper(c, before)), after >= 0, limit);
    var items := ShowRows(rows, internal, restart);
    HistoryPageIs(c, p, before, after, limit, env, rows, more);
    var latest := c.thread.lastSequence;
    if !internal {
      if !(1 <= c.thread.latest <= |c.thread.log|) {
        return None;
      }
      latest := c.thread.log[c.thread.latest - 1].sequence;
    }
    var nextBefore, nextAfter := None, None;
    if more && |rows| > 0 {
      if after >= 0 {
        nextAfter := Some(rows[|rows| - 1].sequence);
      } else {
        nextBefore := Some(rows[0].sequence);
      }
    }
    page := Some(Page(items, latest, nextBefore, nextAfter));
  }

  lemma HistoryRefused(c: Conversation, p: Participant, before: int, after: int, limit: int, env: Env)
    ensures !Access(p, c, env) || !PageOk(before, after, limit) ==>
        HistoryPage(c, p, before, after, limit, env) == None
  {
    hide Access, PageOk, Select;
  }

  lemma ViewerIs(c: Conversation, env: Env)
    ensures SeesAll(c, env) == if c.kind.Case? then env.responder else true
    ensures RestartAt(c) == if c.kind.Case? && CanRestart(c) then Some(c.thread.latest) else None
  {
  }

  lemma LimitPositive(before: int, after: int, limit: int)
    requires PageOk(before, after, limit)
    ensures limit >= 1
  {
  }

  /** The page around given rows. */
  lemma HistoryPageIs(c: Conversation, p: Participant, before: int, after: int, limit: int, env: Env,
                      rows: seq<Message>, more: bool)
    requires Access(p, c, env) && PageOk(before, after, limit) && limit >= 1
    requires var selected := Select(c.thread.log, SeesAll(c, env), after, Upper(c, before));
             rows == Shown(selected, after >= 0, limit) && (more <==> |selected| > limit)
    ensures more ==> rows != []
    ensures HistoryPage(c, p, before, after, limit, env) ==
            if !SeesAll(c, env) && !(1 <= c.thread.latest <= |c.thread.log|) then None
            else Some(Page(ItemsOf(rows, SeesAll(c, env), RestartAt(c)),
                           if SeesAll(c, env) then c.thread.lastSequence
                           else c.thread.log[c.thread.latest - 1].sequence,
                           if more && after < 0 then Some(rows[0].sequence) else None,
                           if more && after >= 0 then Some(rows[|rows| - 1].sequence) else None))
  {
    hide Access, PageOk, SeesAll, Select, Upper, ItemsOf, RestartAt;
  }

  // ---------------------------------------------------------------------------------------------
  // What every viewer can rely on
  // ---------------------------------------------------------------------------------------------

  function WithoutStatus(log: seq<Message>): seq<Message> {
    if log == [] then []
    else
      var n := |log| - 1;
      WithoutStatus(log[..n]) + if Dedicated(log[n]) then [] else [log[n]]
  }

  /** The latest sequence an outsider is told is that of the last message they can see. */
  lemma {:induction false} LastSeen(log: seq<Message>)
    requires forall i :: 0 <= i < |log| ==> log[i].sequence == i + 1
    ensures var seen := WithoutStatus(log);
            if seen == [] then LastShown(log) == 0 else seen[|seen| - 1].sequence == LastShown(log)
  {
    if log != [] {
      LastSeen(log[..|log| - 1]);
    }
  }

  /** What a viewer may see: everything, or the log without its status entries. */
  function Visible(log: seq<Message>, internal: bool): seq<Message> {
    if internal then log else WithoutStatus(log)
  }

  /** How many of the messages have a sequence up to `n`. */
  function CountTo(s: seq<Message>, n: int): nat {
    if s == [] then 0 else CountTo(s[..|s| - 1], n) + if s[|s| - 1].sequence <= n then 1 else 0
  }

  ghost predicate Ordered(log: seq<Message>) {
    forall i :: 0 <= i < |log| ==> log[i].sequence == i + 1
  }

  ghost predicate Increasing(s: seq<Message>) {
    forall i, j :: 0 <= i < j < |s| ==> s[i].sequence < s[j].sequence
  }

  lemma {:induction false} VisibleIncreasing(log: seq<Message>, internal: bool)
    requires Ordered(log)
    ensures Increasing(Visible(log, internal))
    ensures forall m <- Visible(log, internal) :: 1 <= m.sequence <= |log|
  {
    if !internal && log != [] {
      VisibleIncreasing(log[..|log| - 1], false);
    }
  }

  lemma {:induction false} CountToIs(s: seq<Message>, n: int)
    requires Increasing(s)
    ensures CountTo(s, n) <= |s|
    ensures forall i :: 0 <= i < |s| ==> (i < CountTo(s, n) <==> s[i].sequence <= n)
  {
    if s != [] {
      CountToIs(s[..|s| - 1], n);
    }
  }

  function Between(s: seq<Message>, after: int, before: int): seq<Message> {
    if s == [] then []
    else
      var n := |s| - 1;
      Between(s[..n], after, before) + if after < s[n].sequence < before then [s[n]] else []
  }

  /** The query selects from the visible messages by sequence alone. */
  lemma {:induction false} SelectIsBetween(log: seq<Message>, internal: bool, after: int, before: int)
    requires HidesStatus(log)
    ensures Select(log, internal, after, before) == Between(Visible(log, internal), after, before)
  {
    if log != [] {
      hide *;
      HidesLast(log);
      SelectIsBetween(log[..|log| - 1], internal, after, before);
      SelectLast(log, internal, after, before);
      VisibleLast(log, internal);
      BetweenLast(Visible(log[..|log| - 1], internal) + [log[|log| - 1]], after, before);
    }
  }

  lemma HidesLast(log: seq<Message>)
    requires log != [] && HidesStatus(log)
    ensures HidesStatus(log[..|log| - 1]) && (Hidden(log[|log| - 1]) <==> Dedicated(log[|log| - 1]))
  {
    hide Hidden, Dedicated;
    assert log[|log| - 1] in log;
  }

  lemma SelectLast(log: seq<Message>, internal: bool, after: int, before: int)
    requires log != []
    ensures var last := log[|log| - 1];
            Select(log, internal, after, before) == Select(log[..|log| - 1], internal, after, before)
              + if (internal || !Hidden(last)) && after < last.sequence < before then [last] else []
  {
  }

  lemma VisibleLast(log: seq<Message>, internal: bool)
    requires log != []
    ensures var rest, last := Visible(log[..|log| - 1], internal), log[|log| - 1];
            && Visible(log, internal) == (if internal || !Dedicated(last) then rest + [last] else rest)
            && (rest + [last])[..|rest|] == rest
  {
    hide Dedicated;
    assert log == log[..|log| - 1] + [log[|log| - 1]];
  }

  lemma {:induction false} BetweenIsStretch(s: seq<Message>, after: int, before: int)
    requires Increasing(s) && CountTo(s, after) <= CountTo(s, before - 1) <= |s|
    ensures Between(s, after, before) == s[CountTo(s, after)..CountTo(s, before - 1)]
  {
    if s != [] {
      CountLast(s, after);
      CountLast(s, before - 1);
      hide *;
      var rest := s[..|s| - 1];
      BetweenIsStretch(rest, after, before);
      BetweenLast(s, after, before);
      SliceLast(s, CountTo(rest, after), CountTo(rest, before - 1));
    } else {
      BetweenNone(after, before);
    }
  }

  lemma BetweenNone(after: int, before: int)
    ensures Between([], after, before) == []
  {
  }

  lemma BetweenLast(s: seq<Message>, after: int, before: int)
    requires s != []
    ensures Between(s, after, before) == Between(s[..|s| - 1], after, before)
              + if after < s[|s| - 1].sequence < before then [s[|s| - 1]] else []
  {
  }

  lemma SliceLast(s: seq<Message>, i: nat, j: nat)
    requires s != [] && i <= j <= |s| - 1
    ensures s[..|s| - 1][i..j] == s[i..j]
    ensures j == |s| - 1 ==> s[i..|s|] == s[i..j] + [s[j]]
    ensures s[i..j] + [] == s[i..j] && s[j..j] == s[|s|..|s|] == []
  {
  }

  /** The last of the messages counts only if all do. */
  lemma CountLast(s: seq<Message>, n: int)
    requires Increasing(s) && s != []
    ensures var rest := s[..|s| - 1];
            && Increasing(rest) && CountTo(rest, n) <= |rest|
            && if s[|s| - 1].sequence <= n then CountTo(rest, n) == |rest| && CountTo(s, n) == |s|
               else CountTo(s, n) == CountTo(rest, n)
  {
    var rest := s[..|s| - 1];
    CountToIs(rest, n);
    assert CountTo(rest, n) < |rest| ==> rest[CountTo(rest, n)].sequence > n;
  }

  // ---------------------------------------------------------------------------------------------
  // What a page holds
  // ---------------------------------------------------------------------------------------------

  /** What reachable conversations offer to every viewer. */
  ghost predicate Pageable(c: Conversation, env: Env) {
    && Ordered(c.thread.log) && HidesStatus(c.thread.log) && c.thread.lastSequence == |c.thread.log|
    && (!SeesAll(c, env) ==> 1 <= c.thread.latest <= |c.thread.log|)
  }

  /** Of the visible messages after `after` and before `before`, the page holds the stretch from `First` to `Last`:
      the oldest ones when paging forward, the newest ones when paging backward. */
  function First(s: seq<Message>, upper: int, after: int, limit: nat): int {
    var lo, hi := CountTo(s, after), CountTo(s, upper - 1);
    if after >= 0 || hi - lo <= limit then lo else hi - limit
  }

  function Last(s: seq<Message>, upper: int, after: int, limit: nat): int {
    var lo, hi := CountTo(s, after), CountTo(s, upper - 1);
    if after < 0 || hi - lo <= limit then hi else lo + limit
  }

  predicate More(s: seq<Message>, upper: int, after: int, limit: nat) {
    CountTo(s, upper - 1) - CountTo(s, after) > limit
  }

  /** The items of the messages from `i` to `j`. */
  function Stretch(s: seq<Message>, i: int, j: int, internal: bool, restart: Option<nat>): seq<Item> {
    if 0 <= i <= j <= |s| then ItemsOf(s[i..j], internal, restart) else []
  }

  function SequenceAt(s: seq<Message>, k: int): nat {
    if 0 <= k < |s| then s[k].sequence else 0
  }

  /** The two ends of the query in a list of visible messages. */
  lemma Ends(c: Conversation, internal: bool, before: int, after: int)
    requires Ordered(c.thread.log) && before >= 0 && after >= -1 && (before == 0 || after == -1)
    ensures var s := Visible(c.thread.log, internal);
            && Increasing(s)
            && CountTo(s, after) <= CountTo(s, Upper(c, before) - 1) <= |s|
            && (after <= 0 ==> CountTo(s, after) == 0)
            && (before == 0 ==> CountTo(s, Upper(c, before) - 1) == |s|)
  {
    var s := Visible(c.thread.log, internal);
    VisibleIncreasing(c.thread.log, internal);
    CountToIs(s, after);
    CountToIs(s, Upper(c, before) - 1);
    assert s != [] ==> s[0] in s && s[|s| - 1] in s;
  }

  /** The rows of a page, by their place among the visible messages. */
  lemma RowsAre(c: Conversation, before: int, after: int, limit: int, env: Env)
    requires Pageable(c, env) && PageOk(before, after, limit)
    ensures var internal := SeesAll(c, env);
            var s, upper := Visible(c.thread.log, internal), Upper(c, before);
            var i, j := First(s, upper, after, limit), Last(s, upper, after, limit);
            var selected := Select(c.thread.log, internal, after, upper);
            && 0 <= i <= j <= |s| && (More(s, upper, after, limit) ==> i < j)
            && (|selected| > limit <==> More(s, upper, after, limit))
            && Shown(selected, after >= 0, limit) == s[i..j]
  {
    var internal := SeesAll(c, env);
    var s, upper := Visible(c.thread.log, internal), Upper(c, before);
    Ends(c, internal, before, after);
    SelectIsBetween(c.thread.log, internal, after, upper);
    BetweenIsStretch(s, after, upper);
    hide *;
    ShownAre(s, upper, after, limit);
  }

  lemma ShownAre(s: seq<Message>, upper: int, after: int, limit: nat)
    requires CountTo(s, after) <= CountTo(s, upper - 1) <= |s| && limit >= 1
    ensures var selected := s[CountTo(s, after)..CountTo(s, upper - 1)];
            var i, j := First(s, upper, after, limit), Last(s, upper, after, limit);
            && 0 <= i <= j <= |s| && (More(s, upper, after, limit) ==> i < j)
            && (|selected| > limit <==> More(s, upper, after, limit))
            && Shown(selected, after >= 0, limit) == s[i..j]
  {
    hide CountTo;
    ShownIs(s, CountTo(s, after), CountTo(s, upper - 1), after >= 0, limit);
  }

  /** A page in terms of the visible messages `s`: a stretch of them, with the sequence at the end where paging goes on
      as its cursor, given exactly if there is more. */
  function PageOf(s: seq<Message>, upper: int, after: int, limit: nat, internal: bool, restart: Option<nat>,
                  latest: nat)
    : Page
  {
    var i, j, more := First(s, upper, after, limit), Last(s, upper, after, limit), More(s, upper, after, limit);
    Page(Stretch(s, i, j, internal, restart), latest,
         if more && after < 0 then Some(SequenceAt(s, i)) else None,
         if more && after >= 0 then Some(SequenceAt(s, j - 1)) else None)
  }

  function LatestFor(c: Conversation, env: Env): nat {
    if SeesAll(c, env) then |c.thread.log| else c.thread.latest
  }

  lemma PageIs(c: Conversation, p: Participant, before: int, after: int, limit: int, env: Env)
    requires Pageable(c, env) && Access(p, c, env) && PageOk(before, after, limit)
    ensures var internal := SeesAll(c, env);
            HistoryPage(c, p, before, after, limit, env) ==
              Some(PageOf(Visible(c.thread.log, internal), Upper(c, before), after, limit, internal, RestartAt(c),
                  LatestFor(c, env)))
  {
    hide *;
    var internal := SeesAll(c, env);
    var s, upper := Visible(c.thread.log, internal), Upper(c, before);
    LimitPositive(before, after, limit);
    var i, j := First(s, upper, after, limit), Last(s, upper, after, limit);
    RowsAre(c, before, after, limit, env);
    LatestIs(c, env);
    PageHolds(c, p, before, after, limit, env, s[i..j], More(s, upper, after, limit));
    PageOfIs(s, upper, after, limit, internal, RestartAt(c), LatestFor(c, env), i, j);
  }

  lemma PageHolds(c: Conversation, p: Participant, before: int, after: int, limit: int, env: Env,
                  rows: seq<Message>, more: bool)
    requires Access(p, c, env) && PageOk(before, after, limit)
    requires var selected := Select(c.thread.log, SeesAll(c, env), after, Upper(c, before));
             && limit >= 1 && rows == Shown(selected, after >= 0, limit) && (more <==> |selected| > limit)
    requires c.thread.lastSequence == |c.thread.log|
    requires !SeesAll(c, env) ==>
        1 <= c.thread.latest <= |c.thread.log| && c.thread.log[c.thread.latest - 1].sequence == c.thread.latest
    ensures HistoryPage(c, p, before, after, limit, env) ==
            Some(Page(ItemsOf(rows, SeesAll(c, env), RestartAt(c)), LatestFor(c, env),
                      if more && after < 0 then Some(SequenceAt(rows, 0)) else None,
                      if more && after >= 0 then Some(SequenceAt(rows, |rows| - 1)) else None))
  {
    hide Access, PageOk, SeesAll, Select, Upper, Shown, ItemsOf, RestartAt, HistoryPage;
    HistoryPageIs(c, p, before, after, limit, env, rows, more);
  }

  lemma PageOfIs(s: seq<Message>, upper: int, after: int, limit: nat, internal: bool, restart: Option<nat>,
                 latest: nat, i: int, j: int)
    requires i == First(s, upper, after, limit) && j == Last(s, upper, after, limit) && 0 <= i <= j <= |s|
    requires More(s, upper, after, limit) ==> i < j
    ensures var rows, more := s[i..j], More(s, upper, after, limit);
            PageOf(s, upper, after, limit, internal, restart, latest) ==
            Page(ItemsOf(rows, internal, restart), latest,
                 if more && after < 0 then Some(SequenceAt(rows, 0)) else None,
                 if more && after >= 0 then Some(SequenceAt(rows, |rows| - 1)) else None)
  {
    hide First, Last, More, ItemsOf;
  }

  lemma LatestIs(c: Conversation, env: Env)
    requires Pageable(c, env)
    ensures c.thread.lastSequence == |c.thread.log|
    ensures !SeesAll(c, env) ==>
        1 <= c.thread.latest <= |c.thread.log| && c.thread.log[c.thread.latest - 1].sequence == c.thread.latest
  {
  }

  lemma ShownIs(s: seq<Message>, lo: nat, hi: nat, forward: bool, limit: nat)
    requires lo <= hi <= |s|
    ensures Shown(s[lo..hi], forward, limit)
         == if hi - lo <= limit then s[lo..hi] else if forward then s[lo..lo + limit] else s[hi - limit..hi]
  {
  }

  // ---------------------------------------------------------------------------------------------
  // Paging visits everything once
  // ---------------------------------------------------------------------------------------------

  /** Counting up to the sequence of the k-th visible message. */
  lemma CountAt(log: seq<Message>, internal: bool, n: int, k: nat)
    requires Ordered(log) && k < |Visible(log, internal)|
    ensures var s := Visible(log, internal);
            && CountTo(s, s[k].sequence) == k + 1 && CountTo(s, s[k].sequence - 1) == k
            && 1 <= s[k].sequence <= |log|
            && (k < CountTo(s, n) <==> s[k].sequence <= n) && SequenceAt(s, k) == s[k].sequence
  {
    hide *;
    var s := Visible(log, internal);
    VisibleIncreasing(log, internal);
    assert s[k] in s;
    CountToIs(s, n);
    CountOwn(s, k);
  }

  lemma CountOwn(s: seq<Message>, k: nat)
    requires Increasing(s) && k < |s|
    ensures CountTo(s, s[k].sequence) == k + 1 && CountTo(s, s[k].sequence - 1) == k
    ensures SequenceAt(s, k) == s[k].sequence
  {
    hide CountTo;
    CountExactly(s, s[k].sequence, k + 1);
    CountExactly(s, s[k].sequence - 1, k);
  }

  lemma CountExactly(s: seq<Message>, n: int, k: nat)
    requires Increasing(s) && k <= |s|
    requires forall i :: 0 <= i < |s| ==> (i < k <==> s[i].sequence <= n)
    ensures CountTo(s, n) == k
  {
    CountToIs(s, n);
    assert CountTo(s, n) < |s| ==> s[CountTo(s, n)].sequence > n;
    assert k < |s| ==> s[k].sequence > n;
  }

  /** The message before which forward paging goes on. */
  lemma ForwardCursor(log: seq<Message>, internal: bool, after: int, limit: nat)
    requires Ordered(log) && limit >= 1 && after >= 0
    requires CountTo(Visible(log, internal), |log|) <= |Visible(log, internal)|
    ensures var s := Visible(log, internal);
            var lo, j := CountTo(s, after), Last(s, |log| + 1, after, limit);
            && First(s, |log| + 1, after, limit) == lo
            && if More(s, |log| + 1, after, limit)
               then j == lo + limit < |s| && after < SequenceAt(s, j - 1) <= |log|
                   && CountTo(s, SequenceAt(s, j - 1)) == j
               else j == CountTo(s, |log|)
  {
    hide CountTo, Visible, Ordered;
    if More(Visible(log, internal), |log| + 1, after, limit) {
      CountAt(log, internal, after, CountTo(Visible(log, internal), after) + limit - 1);
    }
  }

  /** The message at which backward paging stopped. */
  lemma BackwardCursor(log: seq<Message>, internal: bool, upper: int, after: int, limit: nat)
    requires Ordered(log) && limit >= 1 && after < 0
    requires CountTo(Visible(log, internal), after) == 0
    requires CountTo(Visible(log, internal), upper - 1) <= |Visible(log, internal)|
    ensures var s := Visible(log, internal);
            var hi, i := CountTo(s, upper - 1), First(s, upper, after, limit);
            && Last(s, upper, after, limit) == hi
            && if More(s, upper, after, limit)
               then 0 < i == hi - limit && 1 <= SequenceAt(s, i) < upper && CountTo(s, SequenceAt(s, i) - 1) == i
               else i == 0
  {
    hide CountTo, Visible, Ordered;
    if More(Visible(log, internal), upper, after, limit) {
      CountAt(log, internal, upper - 1, CountTo(Visible(log, internal), upper - 1) - limit);
    }
  }

  /** A forward page: the visible messages after `after`, all of them or the first `limit` with a cursor that moves on
      and counts them. */
  ghost predicate ForwardPage(page: Page, s: seq<Message>, size: nat, after: int, limit: nat, internal: bool,
                              restart: Option<nat>) {
    var lo := CountTo(s, after);
    && lo <= |s|
    && match page.nextAfter
       case None => page.items == Stretch(s, lo, |s|, internal, restart)
       case Some(next) =>
         && page.items == Stretch(s, lo, lo + limit, internal, restart)
         && after < next <= size && CountTo(s, next) == lo + limit < |s|
  }

  /** A backward page: the visible messages before `upper`, all of them or the last `limit` with a cursor that moves
      down and leaves out just those. */
  ghost predicate BackwardPage(page: Page, s: seq<Message>, upper: int, limit: nat, internal: bool,
                               restart: Option<nat>) {
    var hi := CountTo(s, upper - 1);
    && hi <= |s|
    && match page.nextBefore
       case None => page.items == Stretch(s, 0, hi, internal, restart)
       case Some(next) =>
         && page.items == Stretch(s, hi - limit, hi, internal, restart)
         && 1 <= next < upper && CountTo(s, next - 1) == hi - limit
  }

  lemma ForwardPageIs(log: seq<Message>, internal: bool, after: int, limit: nat, restart: Option<nat>, latest: nat)
    requires Ordered(log) && limit >= 1 && after >= 0
    requires CountTo(Visible(log, internal), after) <= CountTo(Visible(log, internal), |log|)
        == |Visible(log, internal)|
    ensures var s := Visible(log, internal);
            ForwardPage(PageOf(s, |log| + 1, after, limit, internal, restart, latest), s, |log|, after, limit,
                internal, restart)
  {
    ForwardCursor(log, internal, after, limit);
    hide CountTo, Visible, Ordered, First, Last, More, SequenceAt, Stretch;
  }

  lemma BackwardPageIs(log: seq<Message>, internal: bool, upper: int, after: int, limit: nat, restart: Option<nat>,
                       latest: nat)
    requires Ordered(log) && limit >= 1 && after < 0
    requires CountTo(Visible(log, internal), after) == 0
    requires CountTo(Visible(log, internal), upper - 1) <= |Visible(log, internal)|
    ensures var s := Visible(log, internal);
            BackwardPage(PageOf(s, upper, after, limit, internal, restart, latest), s, upper, limit, internal, restart)
  {
    BackwardCursor(log, internal, upper, after, limit);
    hide CountTo, Visible, Ordered, First, Last, More, SequenceAt, Stretch;
  }

  lemma PageAfterIs(c: Conversation, p: Participant, after: int, limit: int, env: Env)
    requires Pageable(c, env) && Access(p, c, env) && PageOk(0, after, limit) && after >= 0
    ensures var page, internal := HistoryPage(c, p, 0, after, limit, env), SeesAll(c, env);
            page.Some? && ForwardPage(page.value, Visible(c.thread.log, internal), |c.thread.log|, after, limit,
                internal, RestartAt(c))
  {
    hide *;
    ForwardQuery(c, after, limit);
    PageableOrdered(c, env);
    Ends(c, SeesAll(c, env), 0, after);
    PageIs(c, p, 0, after, limit, env);
    ForwardPageIs(c.thread.log, SeesAll(c, env), after, limit, RestartAt(c), LatestFor(c, env));
  }

  lemma ForwardQuery(c: Conversation, after: int, limit: int)
    requires PageOk(0, after, limit)
    ensures limit >= 1 && Upper(c, 0) == |c.thread.log| + 1
  {
  }

  lemma PageBeforeIs(c: Conversation, p: Participant, before: int, limit: int, env: Env)
    requires Pageable(c, env) && Access(p, c, env) && PageOk(before, -1, limit)
    ensures var page, internal := HistoryPage(c, p, before, -1, limit, env), SeesAll(c, env);
            page.Some? && BackwardPage(page.value, Visible(c.thread.log, internal), Upper(c, before), limit, internal,
                RestartAt(c))
  {
    hide *;
    BackwardQuery(before, limit);
    PageableOrdered(c, env);
    Ends(c, SeesAll(c, env), before, -1);
    BackwardPageIs(c.thread.log, SeesAll(c, env), Upper(c, before), -1, limit, RestartAt(c), LatestFor(c, env));
    PageIs(c, p, before, -1, limit, env);
  }

  lemma BackwardQuery(before: int, limit: int)
    requires PageOk(before, -1, limit)
    ensures before >= 0 && limit >= 1
  {
  }

  lemma PageableOrdered(c: Conversation, env: Env)
    requires Pageable(c, env)
    ensures Ordered(c.thread.log)
  {
  }

  /** All items from `after` on: each page is asked for with the `nextAfter` of the one before. */
  ghost function PagesAfter(c: Conversation, p: Participant, after: int, limit: int, env: Env): seq<Item>
    requires Pageable(c, env) && Access(p, c, env) && PageOk(0, after, limit) && after >= 0
    decreases if after <= |c.thread.log| then |c.thread.log| - after else 0
  {
    PageAfterIs(c, p, after, limit, env);
    var page := HistoryPage(c, p, 0, after, limit, env).value;
    match page.nextAfter
    case None => page.items
    case Some(next) => page.items + PagesAfter(c, p, next, limit, env)
  }

  /** All items before `before`, or up to the end for 0: each page is asked for with the `nextBefore` of the one
      after it. */
  ghost function PagesBefore(c: Conversation, p: Participant, before: int, limit: int, env: Env): seq<Item>
    requires Pageable(c, env) && Access(p, c, env) && PageOk(before, -1, limit)
    decreases Upper(c, before)
  {
    PageBeforeIs(c, p, before, limit, env);
    var page := HistoryPage(c, p, before, -1, limit, env).value;
    match page.nextBefore
    case None => page.items
    case Some(next) =>
      UpperOf(c, next);
      PagesBefore(c, p, next, limit, env) + page.items
  }

  lemma UpperOf(c: Conversation, before: nat)
    ensures before > 0 ==> Upper(c, before) == before
  {
  }

  lemma StretchJoin(s: seq<Message>, i: nat, j: nat, k: nat, internal: bool, restart: Option<nat>)
    requires i <= j <= k <= |s|
    ensures Stretch(s, i, j, internal, restart) + Stretch(s, j, k, internal, restart)
        == Stretch(s, i, k, internal, restart)
  {
    hide ItemsOf;
    assert s[i..j] + s[j..k] == s[i..k];
    ItemsJoin(s[i..j], s[j..k], internal, restart);
  }

  lemma ItemsJoin(a: seq<Message>, b: seq<Message>, internal: bool, restart: Option<nat>)
    ensures ItemsOf(a + b, internal, restart) == ItemsOf(a, internal, restart) + ItemsOf(b, internal, restart)
  {
    hide ItemOf;
  }

  lemma {:induction false} PagesAfterAre(c: Conversation, p: Participant, after: int, limit: int, env: Env)
    requires Pageable(c, env) && Access(p, c, env) && PageOk(0, after, limit) && after >= 0
    ensures var s := Visible(c.thread.log, SeesAll(c, env));
            PagesAfter(c, p, after, limit, env) == Stretch(s, CountTo(s, after), |s|, SeesAll(c, env), RestartAt(c))
    decreases if after <= |c.thread.log| then |c.thread.log| - after else 0
  {
    hide CountTo, HistoryPage, Stretch, Visible, Pageable, Access, SeesAll, RestartAt;
    PageAfterIs(c, p, after, limit, env);
    var page := HistoryPage(c, p, 0, after, limit, env).value;
    if page.nextAfter.Some? {
      var s := Visible(c.thread.log, SeesAll(c, env));
      PagesAfterAre(c, p, page.nextAfter.value, limit, env);
      StretchJoin(s, CountTo(s, after), CountTo(s, after) + limit, |s|, SeesAll(c, env), RestartAt(c));
    }
  }

  lemma {:induction false} PagesBeforeAre(c: Conversation, p: Participant, before: int, limit: int, env: Env)
    requires Pageable(c, env) && Access(p, c, env) && PageOk(before, -1, limit)
    ensures var s := Visible(c.thread.log, SeesAll(c, env));
            PagesBefore(c, p, before, limit, env)
            == Stretch(s, 0, CountTo(s, Upper(c, before) - 1), SeesAll(c, env), RestartAt(c))
    decreases Upper(c, before)
  {
    hide CountTo, HistoryPage, Stretch, Visible, Pageable, Access, SeesAll, RestartAt, Upper;
    PageBeforeIs(c, p, before, limit, env);
    var page := HistoryPage(c, p, before, -1, limit, env).value;
    if page.nextBefore.Some? {
      var s := Visible(c.thread.log, SeesAll(c, env));
      UpperOf(c, page.nextBefore.value);
      PagesBeforeAre(c, p, page.nextBefore.value, limit, env);
      var hi := CountTo(s, Upper(c, before) - 1);
      StretchJoin(s, 0, hi - limit, hi, SeesAll(c, env), RestartAt(c));
    }
  }

  lemma ReachablePageable(ops: seq<Op>, cid: string, env: Env)
    requires cid in Run(map[], ops)
    ensures Pageable(Run(map[], ops)[cid], env)
  {
    var c := Run(map[], ops)[cid];
    InvRun(map[], ops);
    assert Good(c, cid);
    if !SeesAll(c, env) {
      LastShownIs(c.thread.log);
      FirstShown(c.thread.log);
    }
  }

  /** In every reachable state and for any page size, whoever has access and follows `nextAfter` from the start, or
      `nextBefore` from the end, until there is none gets every message they may see exactly once and in order. */
  lemma PagingIsComplete(ops: seq<Op>, cid: string, p: Participant, limit: int, env: Env)
    requires cid in Run(map[], ops) && Access(p, Run(map[], ops)[cid], env)
    ensures var c := Run(map[], ops)[cid];
            var all := ItemsOf(Visible(c.thread.log, SeesAll(c, env)), SeesAll(c, env), RestartAt(c));
            && Pageable(c, env)
            && (1 <= limit <= 200 ==> PagesAfter(c, p, 0, limit, env) == all)
            && (1 <= limit <= 100 ==> PagesBefore(c, p, 0, limit, env) == all)
  {
    hide *;
    var c := Run(map[], ops)[cid];
    ReachablePageable(ops, cid, env);
    var s := Visible(c.thread.log, SeesAll(c, env));
    PageableEnds(c, env);
    WholeStretch(s, SeesAll(c, env), RestartAt(c));
    LimitsOk(limit);
    if 1 <= limit <= 200 {
      PagesAfterAre(c, p, 0, limit, env);
    }
    if 1 <= limit <= 100 {
      PagesBeforeAre(c, p, 0, limit, env);
    }
  }

  lemma WholeStretch(s: seq<Message>, internal: bool, restart: Option<nat>)
    ensures Stretch(s, 0, |s|, internal, restart) == ItemsOf(s, internal, restart)
  {
    hide ItemsOf;
    assert s[0..|s|] == s;
  }

  lemma LimitsOk(limit: int)
    ensures 1 <= limit <= 200 ==> PageOk(0, 0, limit)
    ensures 1 <= limit <= 100 ==> PageOk(0, -1, limit)
  {
  }

  lemma PageableEnds(c: Conversation, env: Env)
    requires Pageable(c, env)
    ensures var s := Visible(c.thread.log, SeesAll(c, env)); CountTo(s, 0) == 0 && CountTo(s, Upper(c, 0) - 1) == |s|
  {
    Ends(c, SeesAll(c, env), 0, 0);
  }

  /** In every reachable state, whoever does not answer for the inbox gets a stretch of the log without its status
      entries, is told the sequence of the last message they can see, and never sees a status change. */
  lemma OutsiderHistory(ops: seq<Op>, cid: string, p: Participant, before: int, after: int, limit: int, env: Env)
    requires cid in Run(map[], ops)
    requires Run(map[], ops)[cid].kind.Case? && !env.responder && PageOk(before, after, limit)
    requires Requests(p, Run(map[], ops)[cid])
    ensures var c := Run(map[], ops)[cid];
            var page := HistoryPage(c, p, before, after, limit, env);
            var shown, upper := WithoutStatus(c.thread.log), Upper(c, before);
            var i, j := First(shown, upper, after, limit), Last(shown, upper, after, limit);
            && shown != [] && 0 <= i <= j <= |shown|
            && page.Some? && page.value.items == ItemsOf(shown[i..j], false, RestartAt(c))
            && page.value.latestSequence == shown[|shown| - 1].sequence
            && forall item <- page.value.items :: item.message.change.None?
  {
    var c := Run(map[], ops)[cid];
    CaseLog(ops, cid);
    ReachablePageable(ops, cid, env);
    hide *;
    LastSeenStored(c.thread);
    OutsiderPage(c, p, before, after, limit, env);
  }

  lemma CaseLog(ops: seq<Op>, cid: string)
    requires cid in Run(map[], ops) && Run(map[], ops)[cid].kind.Case?
    ensures var t := Run(map[], ops)[cid].thread;
            Numbered(t) && t.log != [] && !Dedicated(t.log[0])
  {
    InvRun(map[], ops);
    assert Good(Run(map[], ops)[cid], cid);
  }

  lemma LastSeenStored(t: Thread)
    requires Numbered(t) && t.log != [] && !Dedicated(t.log[0])
    ensures var shown := WithoutStatus(t.log); shown != [] && t.latest == shown[|shown| - 1].sequence
  {
    LastSeen(t.log);
    FirstShown(t.log);
  }

  lemma OutsiderPage(c: Conversation, p: Participant, before: int, after: int, limit: int, env: Env)
    requires c.kind.Case? && Requests(p, c) && !env.responder && PageOk(before, after, limit) && Pageable(c, env)
    ensures var page := HistoryPage(c, p, before, after, limit, env);
            var shown, upper := WithoutStatus(c.thread.log), Upper(c, before);
            var i, j := First(shown, upper, after, limit), Last(shown, upper, after, limit);
            && 0 <= i <= j <= |shown|
            && page.Some? && page.value.items == ItemsOf(shown[i..j], false, RestartAt(c))
            && page.value.latestSequence == c.thread.latest
            && forall item <- page.value.items :: item.message.change.None?
  {
    PageIs(c, p, before, after, limit, env);
    RowsAre(c, before, after, limit, env);
    hide HistoryPage, CountTo, First, Last, Upper, Pageable, WithoutStatus, More, SequenceAt, Select, Shown;
  }

  /** A log that does not start with a status entry shows something. */
  lemma {:induction false} FirstShown(log: seq<Message>)
    requires log != [] && !Dedicated(log[0])
    ensures LastShown(log) > 0
  {
    if |log| > 1 {
      FirstShown(log[..|log| - 1]);
    }
  }

  /** A page is given exactly to a participant for a well-formed query. Each of its items is a message of the log,
      without its status change for whoever does not answer for the inbox, and marked as a restart exactly if it is the
      last message, the script spoke last, and there is a way back to a start that offers choices. */
  lemma PageOutcome(ops: seq<Op>, cid: string, p: Participant, before: int, after: int, limit: int, env: Env)
    requires cid in Run(map[], ops)
    ensures var c := Run(map[], ops)[cid];
            var page := HistoryPage(c, p, before, after, limit, env);
            && (page.Some? <==>
                && before >= 0 && after >= -1 && (before == 0 || after == -1)
                && 1 <= limit <= (if after < 0 then 100 else 200)
                && match c.kind
                   case Dm(first, second) => p == UserParty(first) || p == UserParty(second)
                   case Case(q) => p == q.requester || env.responder)
            && (page.Some? ==>
                && page.value.latestSequence
                   == (if c.kind.Dm? || env.responder then |c.thread.log| else c.thread.latest)
                && forall item <- page.value.items :: Shows(c, item, c.kind.Dm? || env.responder))
  {
    hide *;
    var c := Run(map[], ops)[cid];
    ReachablePageable(ops, cid, env);
    QueryOk(c, p, before, after, limit, env);
    HistoryRefused(c, p, before, after, limit, env);
    if Access(p, c, env) && PageOk(before, after, limit) {
      PageIs(c, p, before, after, limit, env);
      PageShows(c, Upper(c, before), after, limit, env);
    }
  }

  ghost predicate Shows(c: Conversation, item: Item, all: bool) {
    && (exists m <- c.thread.log ::
          item.message == (if all then m else m.(change := None)) && m.sequence == item.message.sequence)
    && (item.restart <==>
        && item.message.sequence == c.thread.latest && c.kind.Case? && c.kind.inquiry.bot.Some?
        && var b := c.kind.inquiry.bot.value;
           && b.message != 0 && b.message == c.thread.latest && b.node != b.config.start
           && ChoicesOf(b.config, b.config.start) != [])
  }

  lemma QueryOk(c: Conversation, p: Participant, before: int, after: int, limit: int, env: Env)
    ensures PageOk(before, after, limit) <==>
            && before >= 0 && after >= -1 && (before == 0 || after == -1)
            && 1 <= limit <= (if after < 0 then 100 else 200)
    ensures Access(p, c, env) <==>
            match c.kind
            case Dm(first, second) => p == UserParty(first) || p == UserParty(second)
            case Case(q) => p == q.requester || env.responder
    ensures SeesAll(c, env) <==> c.kind.Dm? || env.responder
  {
  }

  lemma PageShows(c: Conversation, upper: int, after: int, limit: nat, env: Env)
    ensures var all := SeesAll(c, env);
            var page := PageOf(Visible(c.thread.log, all), upper, after, limit, all, RestartAt(c), LatestFor(c, env));
            && page.latestSequence == (if all then |c.thread.log| else c.thread.latest)
            && forall item <- page.items :: Shows(c, item, all)
  {
    var all := SeesAll(c, env);
    var s := Visible(c.thread.log, all);
    hide SeesAll, First, Last, More, SequenceAt, ChoicesOf;
    forall m <- s ensures m in c.thread.log {
      VisibleInLog(c.thread.log, all, m);
    }
    hide Visible;
  }

  lemma {:induction false} VisibleInLog(log: seq<Message>, internal: bool, m: Message)
    requires m in Visible(log, internal)
    ensures m in log
  {
    if log != [] && !internal && m in WithoutStatus(log[..|log| - 1]) {
      VisibleInLog(log[..|log| - 1], internal, m);
    }
  }
}
