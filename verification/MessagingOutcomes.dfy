/** What each accepted messaging request leaves behind, and which status an inquiry has in every run
    (service/messaging/write.go, status.go, bot.go and notification.go). */
module MessagingOutcomes {
  import opened Common
  import opened ReplyScript
  import opened Conversations
  import opened Messaging

  // ---------------------------------------------------------------------------------------------
  // The status of an inquiry
  // ---------------------------------------------------------------------------------------------

  /** The last entry that somebody wrote. */
  ghost predicate LastWord(log: seq<Message>, n: nat) {
    && n < |log| && !log[n].automated
    && forall i :: n < i < |log| ==> log[i].automated
  }

  /** A status request sets the status it names; a message sets waiting if a person wrote it for themselves, and
      recognised if somebody answered for the inbox. */
  ghost predicate StatusOf(m: Message, status: Status) {
    if m.payload.None? then m.change.Some? && status == m.change.value.to
    else status == if m.acting.kind == "user" || m.acting.kind == "guest" then Waiting else Recognised
  }

  ghost predicate Told(c: Conversation) {
    c.kind.Case? ==> exists n: nat :: LastWord(c.thread.log, n) && StatusOf(c.thread.log[n], c.kind.inquiry.status)
  }

  lemma LastWordAppended(log: seq<Message>, m: Message)
    ensures !m.automated ==> LastWord(log + [m], |log|)
    ensures m.automated ==> forall n: nat :: LastWord(log, n) ==> LastWord(log + [m], n)
  {
  }

  lemma PostedTold(c: Conversation, p: Participant, input: Input, acting: Identity, payload: Payload, env: Env)
    ensures Told(Posted(c, p, input, acting, payload, env))
  {
    var d := Posted(c, p, input, acting, payload, env);
    var m := UserMessage(c, p, input, acting, payload);
    assert d.thread.log == c.thread.log + [m];
    LastWordAppended(c.thread.log, m);
    hide LastWord, Recipients;
    if c.kind.Case? {
      assert d.thread.log[|c.thread.log|] == m;
    }
  }

  lemma RepliedTold(c: Conversation, config: Config, node: Node, key: ClientKey, payload: Option<Payload>)
    requires c.kind.Case? && Told(c)
    ensures Told(Replied(c, config, node, key, payload))
  {
    var d := Replied(c, config, node, key, payload);
    LastWordAppended(c.thread.log, BotMessage(c, node, key, payload));
    var n: nat :| LastWord(c.thread.log, n) && StatusOf(c.thread.log[n], c.kind.inquiry.status);
    hide LastWord;
    assert n < |c.thread.log| by { WordInside(c.thread.log, n); }
    assert d.thread.log[n] == c.thread.log[n];
  }

  lemma WordInside(log: seq<Message>, n: nat)
    requires LastWord(log, n)
    ensures n < |log|
  {
  }

  lemma AnsweredTold(c: Conversation, move: Move)
    requires Told(c)
    ensures Told(Answered(c, move))
  {
    hide Told, Replied, FindNode;
    if move.Go? && c.kind.Case? && c.kind.inquiry.bot.Some? {
      var config := c.kind.inquiry.bot.value.config;
      var node := FindNode(config.nodes, move.node);
      if node.Some? {
        RepliedTold(c, config, node.value, NextReplyKey(c), None);
      }
    } else {
      SameTold(c, Silenced(c));
    }
  }

  lemma SameTold(c: Conversation, d: Conversation)
    requires Told(c) && d.thread.log == c.thread.log && d.kind.Case? == c.kind.Case?
    requires c.kind.Case? ==> d.kind.inquiry.status == c.kind.inquiry.status
    ensures Told(d)
  {
    hide LastWord, StatusOf;
  }

  lemma StatusSettingTold(c: Conversation, p: Participant, status: Status, env: Env)
    requires Told(c)
    ensures Told(StatusSetting(c, p, status, env).0)
  {
    var d := StatusSetting(c, p, status, env).0;
    if d != c {
      var m := StatusEntry(c, p, status);
      assert d.thread.log == c.thread.log + [m];
      LastWordAppended(c.thread.log, m);
      hide LastWord, Prior;
      assert d.thread.log[|c.thread.log|] == m;
    }
  }

  lemma SendingTold(c: Conversation, p: Participant, input: Input, actingAs: Option<Identity>, env: Env)
    requires Told(c)
    ensures Told(Sending(c, p, input, actingAs, env).0)
  {
    hide Told, Posted, Answered, Transition, Prior, Actor, Access;
    var (d, answer) := Sending(c, p, input, actingAs, env);
    if answer.Sent? {
      var acting := Actor(p, c, actingAs, env).value;
      PostedTold(c, p, input, acting, PayloadOf(input, None), env);
      AnsweredTold(Posted(c, p, input, acting, PayloadOf(input, None), env),
                   if c.kind.Case? then Transition(c, p, input) else Stay);
    }
  }

  lemma OpenedTold(id: string, p: Participant, inbox: Identity, input: Input, opening: Opening,
                   stored: Option<Config>, env: Env)
    ensures var r := Opened(id, p, inbox, input, opening, stored, env); r.Ok? ==> Told(r.value)
  {
    hide *;
    OpenedCases(id, p, inbox, input, opening, stored, env);
    if Opened(id, p, inbox, input, opening, stored, env).Ok? {
      var config, payload := InquiryBot(inbox, opening.context, stored).value, OpeningPayload(input, opening);
      if config.enabled {
        var greeted := Greeted(id, p, inbox, input, payload, config);
        PostedTold(greeted, p, input, Own(p), payload, env);
        AnsweredTold(Posted(greeted, p, input, Own(p), payload, env),
                     OpeningMove(greeted, p, input, opening.choice));
      } else {
        PostedTold(EmptyCase(id, p, inbox), p, input, Own(p), payload, env);
      }
    }
  }

  ghost predicate AllTold(w: World) {
    forall cid <- w :: Told(w[cid])
  }

  lemma ReadingTold(c: Conversation, p: Participant, through: int, env: Env)
    requires Told(c)
    ensures Told(Reading(c, p, through, env).0)
  {
    hide Told, Acknowledged, Access;
    SameTold(c, Reading(c, p, through, env).0);
  }

  lemma CreatingTold(w: World, p: Participant, inbox: Identity, input: Input, opening: Opening,
                     stored: Option<Config>, env: Env, id: string)
    requires AllTold(w)
    ensures AllTold(Creating(w, p, inbox, input, opening, stored, env, id).0)
  {
    hide Told, Opened, PriorCase, ArcadeRefusal, Matches;
    OpenedTold(id, p, inbox, input, opening, stored, env);
  }

  lemma CreatingDmTold(w: World, p: Participant, peer: UserId, env: Env, id: string)
    requires AllTold(w)
    ensures AllTold(CreatingDm(w, p, peer, env, id).0)
  {
    hide PriorDm, LastWord, StatusOf;
  }

  lemma StepTold(w: World, op: Op)
    requires AllTold(w)
    ensures AllTold(Step(w, op))
  {
    hide Told, Sending, StatusSetting, Reading, Creating, CreatingDm;
    match op {
      case OpInquiry(p, inbox, input, opening, stored, env, id) =>
        CreatingTold(w, p, inbox, input, opening, stored, env, id);
      case OpDm(p, peer, env, id) =>
        CreatingDmTold(w, p, peer, env, id);
      case OpSend(cid, p, input, actingAs, env) =>
        if cid in w {
          SendingTold(w[cid], p, input, actingAs, env);
        }
      case OpStatus(cid, p, status, env) =>
        if cid in w {
          StatusSettingTold(w[cid], p, status, env);
        }
      case OpRead(cid, p, through, env) =>
        if cid in w {
          ReadingTold(w[cid], p, through, env);
        }
      case OpSeen(cid, index) =>
        if cid in w {
          SameTold(w[cid], Seen(w[cid], index));
        }
    }
  }

  lemma {:induction false} RunTold(ops: seq<Op>)
    ensures AllTold(Run(map[], ops))
    decreases |ops|
  {
    hide AllTold, Step;
    if ops == [] {
      NothingTold();
    } else {
      RunTold(ops[..|ops| - 1]);
      StepTold(Run(map[], ops[..|ops| - 1]), ops[|ops| - 1]);
    }
  }

  lemma NothingTold()
    ensures AllTold(map[])
  {
  }

  /** In every reachable inquiry somebody has written, and the status is what the last entry that is no automatic reply
      leads to. */
  lemma StatusFollowsLastWord(ops: seq<Op>, cid: string) returns (n: nat)
    requires cid in Run(map[], ops) && Run(map[], ops)[cid].kind.Case?
    ensures var c := Run(map[], ops)[cid];
            var log := c.thread.log;
            && n < |log| && !log[n].automated && (forall i :: n < i < |log| ==> log[i].automated)
            && if log[n].payload.None?
               then log[n].change.Some? && c.kind.inquiry.status == log[n].change.value.to
               else c.kind.inquiry.status
                    == if log[n].acting.kind == "user" || log[n].acting.kind == "guest" then Waiting else Recognised
  {
    RunTold(ops);
    hide Run;
    var c := Run(map[], ops)[cid];
    assert Told(c);
    n :| LastWord(c.thread.log, n) && StatusOf(c.thread.log[n], c.kind.inquiry.status);
  }

  // ---------------------------------------------------------------------------------------------
  // Sending
  // ---------------------------------------------------------------------------------------------

  function Person(p: Participant): Identity {
    match p
    case UserParty(id) => Identity("user", id)
    case GuestParty(id) => Identity("guest", id)
  }

  /** The message somebody sent, as it was sent. */
  ghost predicate Wrote(m: Message, sequence: nat, p: Participant, input: Input, opening: Option<Opening>) {
    && m.sequence == sequence && m.sender == Some(p) && m.key == input.key
    && m.text == input.text && m.photos == input.photos && m.mention == input.mention
    && !m.automated && m.choices == []
    && m.payload == Some(Payload(input.text, input.photos, input.mention, input.choice, opening))
  }

  /** Whoever asked writes for themselves, whoever answers for the inbox. Who could do both has to say which. */
  ghost predicate MayActAs(acting: Identity, c: Conversation, p: Participant, actingAs: Option<Identity>, env: Env) {
    && (actingAs.Some? ==> acting == actingAs.value)
    && match c.kind
       case Dm(_, _) => acting == Person(p) && env.available
       case Case(q) =>
         && ((q.requester == p && acting == Person(p)) || (env.responder && acting == q.inbox))
         && (actingAs.None? ==> q.requester != p || !env.responder)
  }

  /** Whom a message is announced to: the peer; the requester of an answer; the team or the official accounts of a
      question; and the staff of an arcade if they are mentioned. */
  ghost predicate Concerned(user: UserId, kind: Kind, m: Message, env: Env) {
    && m.sender != Some(UserParty(user))
    && match kind
       case Dm(_, _) => true
       case Case(q) =>
         || (m.acting.kind in {"user", "guest"} && UserParty(user) != q.requester
             && (q.inbox.kind == "team" || user in env.officials))
         || (m.acting.kind !in {"user", "guest"} && UserParty(user) == q.requester)
         || (q.inbox.kind == "arcade" && m.mention && user in env.staff)
  }

  /** Everybody concerned in the audience who has an account. */
  ghost predicate Hears(user: UserId, kind: Kind, m: Message, env: Env) {
    user in env.audience && user in env.accounts && Concerned(user, kind, m, env)
  }

  /** The script's node that a reply choice leads to. */
  ghost predicate LeadsOn(b: BotState, input: Input, s: Selection, node: string) {
    if s.choice == RESTART then node == b.config.start
    else exists ch <- ChoicesOf(b.config, b.node) ::
      ch.id == s.choice && Trim(ch.caption) == input.text && node == ch.next
  }

  /** What a message does to the script: a choice moves it on and is answered, anything else ends the open prompt. */
  ghost predicate ScriptMoved(c: Conversation, d: Conversation, input: Input) {
    var n := |c.thread.log|;
    match input.choice
    case None =>
      && |d.thread.log| == n + 1
      && (c.kind.Case? ==>
            && d.kind.Case?
            && d.kind.inquiry.bot == if c.kind.inquiry.bot.None? then None
                                     else Some(c.kind.inquiry.bot.value.(active := false)))
    case Some(s) =>
      && |d.thread.log| == n + 2 && c.kind.Case? && d.kind.Case?
      && c.kind.inquiry.bot.Some? && d.kind.inquiry.bot.Some?
      && var b, after := c.kind.inquiry.bot.value, d.kind.inquiry.bot.value;
         && LeadsOn(b, input, s, after.node) && FindNode(b.config.nodes, after.node).Some?
         && var node := FindNode(b.config.nodes, after.node).value;
            && after == BotState(b.config, node.id, n + 2, node.choices != [])
            && d.thread.log[n + 1] == Message(n + 2, None, c.kind.inquiry.inbox, ReplyKey(c.id, n + 2), None,
                                              node.text, [], false, true, node.choices, None)
  }

  lemma RecipientConcerned(user: UserId, kind: Kind, m: Message, env: Env)
    ensures Recipient(user, kind, m, env) <==> Concerned(user, kind, m, env)
  {
  }

  lemma {:induction false} RecipientsHear(audience: seq<UserId>, kind: Kind, m: Message, env: Env, user: UserId)
    ensures user in Recipients(audience, kind, m, env) <==>
            user in audience && user in env.accounts && Concerned(user, kind, m, env)
  {
    RecipientConcerned(user, kind, m, env);
    hide Recipient, Concerned;
    if audience != [] {
      var n := |audience| - 1;
      assert audience == audience[..n] + [audience[n]];
      RecipientsHear(audience[..n], kind, m, env, user);
    }
  }

  ghost predicate Distinct(users: seq<UserId>) {
    forall i, j :: 0 <= i < j < |users| ==> users[i] != users[j]
  }

  lemma {:induction false} RecipientsDistinct(audience: seq<UserId>, kind: Kind, m: Message, env: Env)
    ensures Distinct(Recipients(audience, kind, m, env))
  {
    hide Recipient, Distinct;
    if audience == [] {
      NobodyDistinct();
    } else {
      var n := |audience| - 1;
      RecipientsDistinct(audience[..n], kind, m, env);
      DistinctAppended(Recipients(audience[..n], kind, m, env), audience[n]);
    }
  }

  lemma NobodyDistinct()
    ensures Distinct([])
  {
  }

  lemma DistinctAppended(users: seq<UserId>, user: UserId)
    requires Distinct(users)
    ensures user !in users ==> Distinct(users + [user])
  {
    assert forall i :: 0 <= i < |users| ==> users[i] in users;
  }

  lemma FirstChosenLeads(choices: seq<Choice>, input: Input, s: Selection)
    ensures var move := FirstChosen(choices, input, s);
            && !move.Stay?
            && (move.Go? ==> exists ch <- choices ::
                  ch.id == s.choice && Trim(ch.caption) == input.text && move.node == ch.next)
            && (move.Go? <==>
                && input.photos == []
                && exists ch <- choices :: ch.id == s.choice && Trim(ch.caption) == input.text)
    decreases |choices|
  {
    hide Trim;
    if choices != [] {
      FirstChosenLeads(choices[1..], input, s);
      assert choices == [choices[0]] + choices[1..];
      assert choices[0] in choices && forall ch <- choices[1..] :: ch in choices;
    }
  }

  /** A sent message is the next entry, exactly as it was sent, under an identity its sender may use. It sets the
      status, is announced to those concerned, and moves the script. Nothing else changes. */
  lemma SendOutcome(c: Conversation, p: Participant, input: Input, actingAs: Option<Identity>, env: Env)
    requires Inv(c) && Sending(c, p, input, actingAs, env).1.Sent?
    ensures var (d, answer) := Sending(c, p, input, actingAs, env);
            var n := |c.thread.log|;
            && answer.sequence == n + 1 && n < |d.thread.log| && d.thread.log[..n] == c.thread.log
            && d.thread.lastSequence == d.thread.latest == |d.thread.log| && d.id == c.id && d.cursors == c.cursors
            && Wrote(d.thread.log[n], n + 1, p, input, None)
            && MayActAs(d.thread.log[n].acting, c, p, actingAs, env)
            && (c.kind.Dm? ==> d.kind == c.kind)
            && (c.kind.Case? ==>
                  && d.kind.Case? && d.kind.inquiry.requester == c.kind.inquiry.requester
                  && d.kind.inquiry.inbox == c.kind.inquiry.inbox
                  && StatusOf(d.thread.log[n], d.kind.inquiry.status))
            && ScriptMoved(c, d, input)
            && Announced(c, d, d.thread.log[n], env)
  {
    hide *;
    SendingCases(c, p, input, actingAs, env);
    InvNumbered(c);
    var acting := Actor(p, c, actingAs, env).value;
    var payload := PayloadOf(input, None);
    PayloadIs(input, None);
    var move := if c.kind.Case? then Transition(c, p, input) else Stay;
    var e := Posted(c, p, input, acting, payload, env);
    PostedOutcome(c, p, input, acting, payload, env);
    ActorActs(p, c, actingAs, env);
    if c.kind.Case? {
      TransitionMoves(c, p, input);
      TransitionFinds(c, p, input);
    }
    AnsweredOutcome(c, e, input, move);
    SameAnnounced(c, e, Answered(e, move), e.thread.log[|c.thread.log|], env);
  }

  lemma PayloadIs(input: Input, opening: Option<Opening>)
    ensures PayloadOf(input, opening) == Payload(input.text, input.photos, input.mention, input.choice, opening)
  {
  }

  lemma InvNumbered(c: Conversation)
    requires Inv(c)
    ensures c.thread.lastSequence == |c.thread.log|
  {
  }

  /** The notices of a message: one for each of those concerned, unread. */
  ghost predicate Announced(c: Conversation, d: Conversation, m: Message, env: Env) {
    && c.notices <= d.notices
    && (forall i :: |c.notices| <= i < |d.notices| ==>
          d.notices[i].sequence == m.sequence && !d.notices[i].read && Hears(d.notices[i].user, c.kind, m, env))
    && (forall u :: Hears(u, c.kind, m, env) ==>
          exists i :: |c.notices| <= i < |d.notices| && d.notices[i].user == u)
    && (forall i, j :: |c.notices| <= i < j < |d.notices| ==> d.notices[i].user != d.notices[j].user)
  }

  lemma SameAnnounced(c: Conversation, d: Conversation, e: Conversation, m: Message, env: Env)
    requires Announced(c, d, m, env) && e.notices == d.notices
    ensures Announced(c, e, m, env)
  {
    hide Hears;
  }

  lemma SendingCases(c: Conversation, p: Participant, input: Input, actingAs: Option<Identity>, env: Env)
    ensures var (d, answer) := Sending(c, p, input, actingAs, env);
            if answer.Sent? then
              && Actor(p, c, actingAs, env).Ok? && (input.choice.Some? ==> c.kind.Case?)
              && answer.sequence == c.thread.lastSequence + 1
              && var move := if c.kind.Case? then Transition(c, p, input) else Stay;
                 !move.Invalid? && d == Answered(Posted(c, p, input, Actor(p, c, actingAs, env).value,
                                                        PayloadOf(input, None), env), move)
            else d == c
  {
    hide InputOk, Access, MentionOk, Prior, SameRequest, Actor, Personal, Transition, Posted, Answered, PayloadOf;
  }

  lemma ActorActs(p: Participant, c: Conversation, actingAs: Option<Identity>, env: Env)
    ensures var r := Actor(p, c, actingAs, env);
            && (r.Ok? ==> MayActAs(r.value, c, p, actingAs, env))
            && (forall i :: MayActAs(i, c, p, actingAs, env) ==> r == Ok(i))
  {
  }

  lemma PostedOutcome(c: Conversation, p: Participant, input: Input, acting: Identity, payload: Payload, env: Env)
    requires c.thread.lastSequence == |c.thread.log|
    requires payload.text == input.text && payload.photos == input.photos && payload.mention == input.mention
             && payload.choice == input.choice
    ensures var d, n := Posted(c, p, input, acting, payload, env), |c.thread.log|;
            && |d.thread.log| == n + 1 && d.thread.log[..n] == c.thread.log
            && d.thread.lastSequence == d.thread.latest == n + 1 && d.id == c.id && d.cursors == c.cursors
            && Wrote(d.thread.log[n], n + 1, p, input, payload.opening) && d.thread.log[n].acting == acting
            && (c.kind.Dm? ==> d.kind == c.kind)
            && (c.kind.Case? ==>
                  && d.kind.Case? && d.kind.inquiry == c.kind.inquiry.(status := d.kind.inquiry.status)
                  && StatusOf(d.thread.log[n], d.kind.inquiry.status))
            && Announced(c, d, d.thread.log[n], env)
  {
    var d := Posted(c, p, input, acting, payload, env);
    var m := UserMessage(c, p, input, acting, payload);
    assert d.thread.log == c.thread.log + [m];
    AnnouncedTo(c, d, m, env);
    hide Recipients, Announced;
  }

  lemma AnnouncedTo(c: Conversation, d: Conversation, m: Message, env: Env)
    requires d.notices == c.notices + NoticesFor(Recipients(env.audience, c.kind, m, env), m.sequence)
    ensures Announced(c, d, m, env)
  {
    var users := Recipients(env.audience, c.kind, m, env);
    forall u ensures u in users <==> Hears(u, c.kind, m, env) {
      RecipientsHear(env.audience, c.kind, m, env, u);
    }
    RecipientsDistinct(env.audience, c.kind, m, env);
    hide Recipients, Hears;
    NoticesAnnounce(c, d, users, m, env);
  }

  lemma NoticesAnnounce(c: Conversation, d: Conversation, users: seq<UserId>, m: Message, env: Env)
    requires d.notices == c.notices + NoticesFor(users, m.sequence)
    requires forall u :: u in users <==> Hears(u, c.kind, m, env)
    requires Distinct(users)
    ensures Announced(c, d, m, env)
  {
    hide Hears;
    var k := |c.notices|;
    forall i | k <= i < |d.notices| ensures d.notices[i] == Notice(users[i - k], m.sequence, false) {
      assert users[i - k] in users;
    }
    forall u | Hears(u, c.kind, m, env) ensures exists i :: k <= i < |d.notices| && d.notices[i].user == u {
      var i :| 0 <= i < |users| && users[i] == u;
      assert d.notices[k + i].user == u;
    }
  }

  /** A choice is accepted exactly if it answers the open prompt of the requester's own inquiry, or asks to go back to
      the start while that is offered. */
  ghost predicate Selects(c: Conversation, p: Participant, input: Input, s: Selection) {
    && c.kind.Case? && c.kind.inquiry.bot.Some? && c.kind.inquiry.requester == p && input.photos == []
    && var b := c.kind.inquiry.bot.value;
    && b.message == s.message
    && if s.choice == RESTART
       then && b.message != 0 && c.thread.latest == b.message && b.node != b.config.start
            && ChoicesOf(b.config, b.config.start) != []
            && input.text in {"처음으로 돌아가기", "Back to the start", "最初に戻る"}
       else b.active && exists ch <- ChoicesOf(b.config, b.node) :: ch.id == s.choice && Trim(ch.caption) == input.text
  }

  lemma TransitionMoves(c: Conversation, p: Participant, input: Input)
    requires c.kind.Case?
    ensures var move := Transition(c, p, input);
            && (move.Stay? <==> input.choice.None?)
            && (move.Go? <==> input.choice.Some? && Selects(c, p, input, input.choice.value))
            && (move.Go? ==> c.kind.inquiry.bot.Some?
                             && LeadsOn(c.kind.inquiry.bot.value, input, input.choice.value, move.node))
  {
    hide Trim, ChoicesOf, FirstChosen;
    if input.choice.Some? && c.kind.inquiry.bot.Some? {
      var b := c.kind.inquiry.bot.value;
      FirstChosenLeads(ChoicesOf(b.config, b.node), input, input.choice.value);
    }
  }

  /** In a validated script the choice leads to a node. */
  lemma TransitionFinds(c: Conversation, p: Participant, input: Input)
    requires Inv(c) && c.kind.Case?
    ensures var move := Transition(c, p, input);
            move.Go? ==> c.kind.inquiry.bot.Some?
                         && FindNode(c.kind.inquiry.bot.value.config.nodes, move.node).Some?
                         && FindNode(c.kind.inquiry.bot.value.config.nodes, move.node).value.id == move.node
  {
    TransitionLeads(c, p, input);
    hide Transition, Numbered, HidesStatus, StatusLinked, KeysUnique, Marked, Prompting, Walked;
    if Transition(c, p, input).Go? {
      var b := c.kind.inquiry.bot.value;
      LeadsToNode(b.config, b.node, Transition(c, p, input).node);
    }
  }

  lemma AnsweredOutcome(c: Conversation, e: Conversation, input: Input, move: Move)
    requires |e.thread.log| == |c.thread.log| + 1 && e.thread.lastSequence == e.thread.latest == |e.thread.log|
    requires e.id == c.id && e.kind.Case? == c.kind.Case?
    requires c.kind.Case? ==> e.kind.inquiry.bot == c.kind.inquiry.bot && e.kind.inquiry.inbox == c.kind.inquiry.inbox
    requires !move.Invalid? && (move.Stay? <==> input.choice.None?)
    requires move.Go? ==>
               && c.kind.Case? && c.kind.inquiry.bot.Some?
               && LeadsOn(c.kind.inquiry.bot.value, input, input.choice.value, move.node)
               && FindNode(c.kind.inquiry.bot.value.config.nodes, move.node).Some?
               && FindNode(c.kind.inquiry.bot.value.config.nodes, move.node).value.id == move.node
    ensures var d := Answered(e, move);
            && ScriptMoved(c, d, input)
            && e.thread.log <= d.thread.log && d.id == e.id && d.cursors == e.cursors && d.notices == e.notices
            && d.thread.lastSequence == d.thread.latest == |d.thread.log|
            && (e.kind.Dm? ==> d.kind == e.kind)
            && (e.kind.Case? ==> d.kind.Case? && d.kind.inquiry == e.kind.inquiry.(bot := d.kind.inquiry.bot))
  {
    hide LeadsOn, FindNode;
  }

  /** A message is sent exactly if it is well formed, new, and from someone who takes part, may use the identity they
      write under, and is within the limits. A refused one changes nothing. */
  lemma SendExactly(c: Conversation, p: Participant, input: Input, actingAs: Option<Identity>, env: Env)
    requires Inv(c)
    ensures var (d, answer) := Sending(c, p, input, actingAs, env);
            && (!answer.Sent? ==> d == c)
            && (answer.Sent? <==>
                && (input.key.Plain? ==> 1 <= |input.key.text| <= 100)
                && |input.text| <= 4000 && |input.photos| <= 3 && (input.text != "" || input.photos != [])
                && (match c.kind
                    case Dm(first, second) => p == UserParty(first) || p == UserParty(second)
                    case Case(q) => p == q.requester || env.responder)
                && (input.mention ==> c.kind.Case? && c.kind.inquiry.inbox.kind == "arcade")
                && (forall m <- c.thread.log :: !(m.sender == Some(p) && m.key == input.key))
                && (exists i :: MayActAs(i, c, p, actingAs, env)
                                && (input.choice.Some? ==> i.kind == "user" || i.kind == "guest"))
                && !env.limited
                && (input.choice.Some? ==> Selects(c, p, input, input.choice.value)))
  {
    hide *;
    SendingCases(c, p, input, actingAs, env);
    SendingAccepts(c, p, input, actingAs, env);
    ActorActs(p, c, actingAs, env);
    PriorNone(c.thread.log, p, input.key);
    if c.kind.Case? {
      TransitionMoves(c, p, input);
    }
    GuardsAre(c, p, input, env);
  }

  lemma SendingAccepts(c: Conversation, p: Participant, input: Input, actingAs: Option<Identity>, env: Env)
    ensures Sending(c, p, input, actingAs, env).1.Sent? <==>
            && InputOk(input) && Access(p, c, env) && MentionOk(c.kind, input)
            && Prior(c.thread.log, p, input.key).None? && Actor(p, c, actingAs, env).Ok? && !env.limited
            && (input.choice.Some? ==>
                c.kind.Case? && Personal(Actor(p, c, actingAs, env).value) && !Transition(c, p, input).Invalid?)
  {
    if c.kind.Case? {
      TransitionMoves(c, p, input);
    }
    hide InputOk, Access, MentionOk, Prior, SameRequest, Actor, Personal, Transition, Posted, Answered, PayloadOf,
         Selects, LeadsOn;
  }

  lemma PriorNone(log: seq<Message>, p: Participant, key: ClientKey)
    ensures Prior(log, p, key).None? <==> forall m <- log :: !(m.sender == Some(p) && m.key == key)
  {
    hide Prior;
  }

  lemma GuardsAre(c: Conversation, p: Participant, input: Input, env: Env)
    ensures InputOk(input) <==>
            && (input.key.Plain? ==> 1 <= |input.key.text| <= 100)
            && |input.text| <= 4000 && |input.photos| <= 3 && (input.text != "" || input.photos != [])
    ensures Access(p, c, env) <==>
            match c.kind
            case Dm(first, second) => p == UserParty(first) || p == UserParty(second)
            case Case(q) => p == q.requester || env.responder
    ensures MentionOk(c.kind, input) <==> (input.mention ==> c.kind.Case? && c.kind.inquiry.inbox.kind == "arcade")
    ensures forall i :: Personal(i) <==> i.kind == "user" || i.kind == "guest"
    ensures forall s :: Selects(c, p, input, s) ==> c.kind.Case?
  {
  }

  // ---------------------------------------------------------------------------------------------
  // Status, reading and creation
  // ---------------------------------------------------------------------------------------------

  /** Whoever answers for the inbox sets any status. A new one is recorded in an entry of its own, which leaves the last
      message alone; a key that is taken refuses it. */
  lemma StatusOutcome(c: Conversation, p: Participant, status: Status, env: Env)
    requires Inv(c)
    ensures var (d, ok) := StatusSetting(c, p, status, env);
            var n := |c.thread.log| + 1;
            var key := StatusKey(c.id, n);
            && (ok <==>
                && c.kind.Case? && env.responder
                && (c.kind.inquiry.status != status ==>
                    forall m <- c.thread.log :: !(m.sender == Some(p) && m.key == key)))
            && d == if !ok || c.kind.inquiry.status == status then c
                    else
                      var entry := Message(n, Some(p), c.kind.inquiry.inbox, key, None, "", [], false, false, [],
                                           Some(Change(c.kind.inquiry.status, status)));
                      c.(kind := Case(c.kind.inquiry.(status := status)),
                         thread := Thread(c.thread.log + [entry], n, c.thread.latest))
  {
    InvNumbered(c);
    PriorNone(c.thread.log, p, StatusKey(c.id, |c.thread.log| + 1));
    hide Inv, Prior;
  }

  /** A participant reads up to a sequence of the log: the cursor moves there unless it is further on, exactly the
      reader's notices up to the cursor become read, and nothing else changes. */
  lemma ReadOutcome(c: Conversation, p: Participant, through: int, env: Env)
    requires Inv(c)
    ensures var (d, last) := Reading(c, p, through, env);
            var before := if p in c.cursors then c.cursors[p] else 0;
            && (last.Some? <==>
                && 0 <= through <= |c.thread.log|
                && match c.kind
                   case Dm(first, second) => p == UserParty(first) || p == UserParty(second)
                   case Case(q) => p == q.requester || env.responder)
            && (last.None? ==> d == c)
            && (last.Some? ==>
                && last.value == (if before > through then before else through)
                && d == c.(cursors := c.cursors[p := last.value], notices := d.notices)
                && |d.notices| == |c.notices|
                && forall i :: 0 <= i < |c.notices| ==>
                     d.notices[i] == c.notices[i].(read := c.notices[i].read
                       || (UserParty(c.notices[i].user) == p && c.notices[i].sequence <= last.value)))
  {
    InvNumbered(c);
    GuardsAre(c, p, Input(Plain(""), "", [], false, None), env);
    hide Inv, Access, Acknowledged;
    var last := Reading(c, p, through, env).1;
    if last.Some? {
      AcknowledgedNotices(c.notices, p, last.value);
    }
  }

  lemma {:induction false} AcknowledgedNotices(notices: seq<Notice>, p: Participant, through: nat)
    ensures var r := Acknowledged(notices, p, through);
            && |r| == |notices|
            && forall i :: 0 <= i < |r| ==>
                 r[i] == notices[i].(read := notices[i].read
                   || (UserParty(notices[i].user) == p && notices[i].sequence <= through))
  {
    if notices != [] {
      AcknowledgedNotices(notices[..|notices| - 1], p, through);
    }
  }

  /** The inquiry before its first message: empty, or with the greeting of a script. */
  function Before(id: string, p: Participant, inbox: Identity, input: Input, opening: Opening, script: Option<Config>)
    : Conversation
    requires script.Some? ==> FindNode(script.value.nodes, script.value.start).Some?
  {
    if script.None? then Conversation(id, Case(Inquiry(p, inbox, Waiting, None)), Thread([], 0, 0), map[], [])
    else
      var greeting := FindNode(script.value.nodes, script.value.start).value;
      var payload := Payload(input.text, input.photos, input.mention, input.choice, Some(opening));
      Conversation(id, Case(Inquiry(p, inbox, Waiting,
                                    Some(BotState(script.value, greeting.id, 1, greeting.choices != [])))),
                   Thread([Message(1, None, inbox, RequestKey(p, input.key), Some(payload), greeting.text, [], false,
                                   true, greeting.choices, None)], 1, 1), map[], [])
  }

  /** A new inquiry is what comes before it, the first message, and the answer to a choice made at once. */
  ghost predicate Begun(c: Conversation, id: string, p: Participant, inbox: Identity, input: Input, opening: Opening,
                        stored: Option<Config>, env: Env) {
    var script := if opening.context == "" then None else stored;
    && (opening.context == "" <==> script.None?)
    && (script.Some? ==> FindNode(script.value.nodes, script.value.start).Some?)
    && (script.None? ==> opening.choice == "")
    && var before := Before(id, p, inbox, input, opening, script);
       var n := |before.thread.log|;
       && n < |c.thread.log| && c.thread.log[..n] == before.thread.log && c.id == id && c.cursors == map[]
       && c.thread.lastSequence == c.thread.latest == |c.thread.log|
       && Wrote(c.thread.log[n], n + 1, p, input, if opening.context == "" then None else Some(opening))
       && c.thread.log[n].acting == Person(p)
       && c.kind.Case? && c.kind.inquiry == Inquiry(p, inbox, Waiting, c.kind.inquiry.bot)
       && Announced(before, c, c.thread.log[n], env)
       && ScriptMoved(before, c, input.(choice := if opening.choice == "" then None
                                                  else Some(Selection(1, opening.choice))))
  }

  /** An inquiry that is opened begins as asked, with a script exactly if a context names one that is enabled. */
  lemma OpenedOutcome(id: string, p: Participant, inbox: Identity, input: Input, opening: Opening,
                      stored: Option<Config>, env: Env)
    requires input.text != "" || input.photos != []
    ensures var r := Opened(id, p, inbox, input, opening, stored, env);
            r.Ok? ==> Begun(r.value, id, p, inbox, input, opening, stored, env)
  {
    hide *;
    OpenedCases(id, p, inbox, input, opening, stored, env);
    var r := Opened(id, p, inbox, input, opening, stored, env);
    if r.Ok? {
      var config, payload := InquiryBot(inbox, opening.context, stored).value, OpeningPayload(input, opening);
      OpeningPayloadIs(input, opening);
      ScriptIs(inbox, opening, stored);
      OpenedWithout(id, p, inbox, input, opening, stored, env);
      EmptyIs(id, p, inbox, input, opening);
      var before := if config.enabled then Greeted(id, p, inbox, input, payload, config) else EmptyCase(id, p, inbox);
      var move := if config.enabled then OpeningMove(before, p, input, opening.choice) else Stay;
      var e := Posted(before, p, input, Own(p), payload, env);
      if config.enabled {
        GreetedIs(id, p, inbox, input, opening, config);
        OpeningMoveIs(before, p, input, opening.choice);
        OpeningFinds(id, p, inbox, input, payload, config, opening.choice);
      }
      PostedOutcome(before, p, input, Own(p), payload, env);
      if !config.enabled {
        NoAnswer(e);
      }
      AnsweredOutcome(before, e, input.(choice := if opening.choice == "" then None
                                                  else Some(Selection(1, opening.choice))), move);
      SameAnnounced(before, e, r.value, e.thread.log[|before.thread.log|], env);
      WaitingFor(e.thread.log[|before.thread.log|], |before.thread.log| + 1, p, input, payload.opening,
                 e.kind.inquiry.status);
      BegunFrom(before, e, r.value, id, p, inbox, input, opening, stored, env);
    }
  }

  /** Without a script there is nothing to answer. */
  lemma NoAnswer(c: Conversation)
    requires c.kind.Case? ==> c.kind.inquiry.bot.None?
    ensures Answered(c, Stay) == c
  {
  }

  lemma WaitingFor(m: Message, n: nat, p: Participant, input: Input, opening: Option<Opening>, status: Status)
    requires StatusOf(m, status) && Wrote(m, n, p, input, opening) && m.acting == Person(p)
    ensures status == Waiting
  {
  }

  lemma OpeningPayloadIs(input: Input, opening: Opening)
    ensures OpeningPayload(input, opening) == Payload(input.text, input.photos, input.mention, input.choice,
                                                      if opening.context == "" then None else Some(opening))
  {
  }

  lemma ScriptIs(inbox: Identity, opening: Opening, stored: Option<Config>)
    ensures var r := InquiryBot(inbox, opening.context, stored);
            r.Some? ==> if opening.context == "" then !r.value.enabled
                        else r.value.enabled && stored == Some(r.value)
  {
    hide Valid;
  }

  lemma OpenedWithout(id: string, p: Participant, inbox: Identity, input: Input, opening: Opening,
                      stored: Option<Config>, env: Env)
    ensures Opened(id, p, inbox, input, opening, stored, env).Ok? && opening.context == "" ==> opening.choice == ""
  {
    hide Valid, Posted, Answered, OpeningMove, Greeted;
  }

  lemma EmptyIs(id: string, p: Participant, inbox: Identity, input: Input, opening: Opening)
    ensures EmptyCase(id, p, inbox) == Before(id, p, inbox, input, opening, None)
    ensures EmptyCase(id, p, inbox)
         == Conversation(id, Case(Inquiry(p, inbox, Waiting, None)), Thread([], 0, 0), map[], [])
    ensures Own(p) == Person(p)
  {
  }

  lemma GreetedIs(id: string, p: Participant, inbox: Identity, input: Input, opening: Opening, config: Config)
    requires Valid(config) && config.enabled
    ensures FindNode(config.nodes, config.start).Some?
    ensures var payload := Payload(input.text, input.photos, input.mention, input.choice, Some(opening));
            var c := Greeted(id, p, inbox, input, payload, config);
            && c == Before(id, p, inbox, input, opening, Some(config))
            && |c.thread.log| == c.thread.lastSequence == c.thread.latest == 1 && c.id == id && c.cursors == map[]
            && c.kind.Case? && c.kind.inquiry == Inquiry(p, inbox, Waiting, c.kind.inquiry.bot)
            && c.kind.inquiry.bot.Some? && c.kind.inquiry.bot.value.config == config
  {
    hide FindNode;
  }

  lemma OpeningMoveIs(greeted: Conversation, p: Participant, input: Input, choice: string)
    requires greeted.kind.Case? && greeted.thread.latest == 1
    ensures var move := OpeningMove(greeted, p, input, choice);
            && (move.Stay? <==> choice == "")
            && (move.Go? ==> greeted.kind.inquiry.bot.Some?
                             && LeadsOn(greeted.kind.inquiry.bot.value,
                                        input.(choice := Some(Selection(1, choice))), Selection(1, choice), move.node))
  {
    TransitionMoves(greeted, p, input.(choice := Some(Selection(1, choice))));
    hide Transition, Selects, LeadsOn;
  }

  lemma GreetedScript(id: string, p: Participant, inbox: Identity, input: Input, payload: Payload, config: Config)
    requires Valid(config) && config.enabled
    ensures var c := Greeted(id, p, inbox, input, payload, config);
            c.kind.Case? && c.kind.inquiry.bot.Some? && c.kind.inquiry.bot.value.config == config
  {
    hide FindNode;
  }

  /** The choice made at once leads to a node. */
  lemma OpeningFinds(id: string, p: Participant, inbox: Identity, input: Input, payload: Payload, config: Config,
                     choice: string)
    requires Valid(config) && config.enabled
    ensures var greeted := Greeted(id, p, inbox, input, payload, config);
            greeted.kind.Case? &&
            var move := OpeningMove(greeted, p, input, choice);
            move.Go? ==> FindNode(config.nodes, move.node).Some?
                         && FindNode(config.nodes, move.node).value.id == move.node
  {
    hide *;
    var greeted := Greeted(id, p, inbox, input, payload, config);
    GreetedScript(id, p, inbox, input, payload, config);
    OpeningMoveLeads(greeted, p, input, choice);
    if OpeningMove(greeted, p, input, choice).Go? {
      LeadsToNode(config, greeted.kind.inquiry.bot.value.node, OpeningMove(greeted, p, input, choice).node);
    }
  }

  lemma BegunFrom(before: Conversation, e: Conversation, d: Conversation, id: string, p: Participant, inbox: Identity,
                  input: Input, opening: Opening, stored: Option<Config>, env: Env)
    requires opening.context != "" ==> stored.Some?
    requires opening.context == "" ==> opening.choice == ""
    requires var script := if opening.context == "" then None else stored;
             && (script.Some? ==> FindNode(script.value.nodes, script.value.start).Some?)
             && before == Before(id, p, inbox, input, opening, script)
    requires var n := |before.thread.log|;
             && |e.thread.log| == n + 1 && e.thread.log[..n] == before.thread.log && e.thread.log <= d.thread.log
             && Wrote(e.thread.log[n], n + 1, p, input, if opening.context == "" then None else Some(opening))
             && e.thread.log[n].acting == Person(p) && Announced(before, d, e.thread.log[n], env)
    requires d.id == id && d.cursors == map[] && d.thread.lastSequence == d.thread.latest == |d.thread.log|
    requires d.kind.Case? && d.kind.inquiry == Inquiry(p, inbox, Waiting, d.kind.inquiry.bot)
    requires ScriptMoved(before, d, input.(choice := if opening.choice == "" then None
                                                     else Some(Selection(1, opening.choice))))
    ensures Begun(d, id, p, inbox, input, opening, stored, env)
  {
    hide FindNode, Before, Announced, ScriptMoved, Wrote;
    assert d.thread.log[..|before.thread.log|] == e.thread.log[..|before.thread.log|];
  }

  /** When an inquiry can be opened: without a context only plainly, with one if its script is enabled, valid and the
      one the requester saw, and a choice made at once is offered by its greeting. */
  ghost predicate MayOpen(id: string, p: Participant, inbox: Identity, input: Input, opening: Opening,
                          stored: Option<Config>) {
    if opening.context == "" then
      opening.choice == "" && (opening.revision.Some? ==> opening.revision.value == Config(false, "", []))
    else
      && (if opening.context == "arcade" then inbox.kind == "arcade" else inbox == Identity("team", "musecat"))
      && stored.Some? && stored.value.enabled && Valid(stored.value)
      && FindNode(stored.value.nodes, stored.value.start).Some?
      && (opening.revision.Some? ==> opening.revision == stored)
      && (opening.choice == "" ||
          (opening.choice != RESTART &&
           Selects(Before(id, p, inbox, input, opening, stored), p,
                   input.(choice := Some(Selection(1, opening.choice))), Selection(1, opening.choice))))
  }

  lemma OpensExactly(id: string, p: Participant, inbox: Identity, input: Input, opening: Opening,
                     stored: Option<Config>, env: Env)
    ensures Opened(id, p, inbox, input, opening, stored, env).Ok? <==> MayOpen(id, p, inbox, input, opening, stored)
  {
    hide *;
    OpeningPayloadIs(input, opening);
    if opening.context == "" {
      OpensPlainly(id, p, inbox, input, opening, stored, env);
    } else {
      OpensScripted(id, p, inbox, input, opening, stored, env);
    }
  }

  lemma OpensPlainly(id: string, p: Participant, inbox: Identity, input: Input, opening: Opening,
                     stored: Option<Config>, env: Env)
    requires opening.context == ""
    ensures Opened(id, p, inbox, input, opening, stored, env).Ok? <==> MayOpen(id, p, inbox, input, opening, stored)
  {
    hide Posted, Answered, OpeningMove, Greeted, Before, Selects;
  }

  lemma OpensScripted(id: string, p: Participant, inbox: Identity, input: Input, opening: Opening,
                      stored: Option<Config>, env: Env)
    requires opening.context != ""
    requires OpeningPayload(input, opening)
          == Payload(input.text, input.photos, input.mention, input.choice, Some(opening))
    ensures Opened(id, p, inbox, input, opening, stored, env).Ok? <==> MayOpen(id, p, inbox, input, opening, stored)
  {
    if stored.Some? && stored.value.enabled && Valid(stored.value) {
      GreetedIs(id, p, inbox, input, opening, stored.value);
      var before := Before(id, p, inbox, input, opening, stored);
      OpeningMoveExactly(before, p, input, opening.choice);
    }
    hide Posted, Answered, OpeningMove, Greeted, Before, Selects, Valid, OpeningPayload, FindNode;
  }

  lemma OpeningMoveExactly(greeted: Conversation, p: Participant, input: Input, choice: string)
    requires greeted.kind.Case? && greeted.thread.latest == 1
    ensures !OpeningMove(greeted, p, input, choice).Invalid? <==>
            || choice == ""
            || (choice != RESTART && Selects(greeted, p, input.(choice := Some(Selection(1, choice))),
                                             Selection(1, choice)))
  {
    TransitionMoves(greeted, p, input.(choice := Some(Selection(1, choice))));
    hide Transition, Selects, LeadsOn;
  }

  /** An inquiry is created exactly for a well-formed first message to an inbox that takes it, unless its key has opened
      one before; nothing else in the store changes. */
  lemma CreateExactly(w: World, p: Participant, inbox: Identity, input: Input, opening: Opening,
                      stored: Option<Config>, env: Env, id: string)
    ensures var (v, answer) := Creating(w, p, inbox, input, opening, stored, env, id);
            && (answer.Created? <==>
                && (input.key.Plain? ==> 1 <= |input.key.text| <= 100)
                && |input.text| <= 4000 && |input.photos| <= 3 && (input.text != "" || input.photos != [])
                && input.choice.None? && (input.mention ==> inbox.kind == "arcade")
                && (inbox.kind == "arcade" || inbox == Identity("team", "musecat"))
                && (forall cid <- w :: !Opens(w[cid], p, input.key))
                && (inbox.kind == "arcade" ==>
                      && env.arcade.Some?
                      && var a := env.arcade.value;
                         && (a.public || p == UserParty(a.creator) || (p.UserParty? && p.id in a.managers))
                         && (a.official ==> a.mode == Internal && !(a.loginRequired && p.GuestParty?)))
                && !env.limited && MayOpen(id, p, inbox, input, opening, stored))
            && (answer.Created? ==> answer.id == id && Opened(id, p, inbox, input, opening, stored, env).Ok?)
            && v == if answer.Created? then w[id := Opened(id, p, inbox, input, opening, stored, env).value] else w
  {
    OpensExactly(id, p, inbox, input, opening, stored, env);
    hide Opened, MayOpen, Opens, Matches, OpeningPayload;
  }

  /** Creating a direct conversation gives an empty one between the two, and is refused to guests, to oneself, for a
      peer who does not accept messages and beyond the limits. Both find the one there is. */
  lemma DmOutcome(w: World, p: Participant, peer: UserId, env: Env, id: string)
    ensures var (v, answer) := CreatingDm(w, p, peer, env, id);
            && (answer.Declined? <==>
                || p.GuestParty? || p.id == peer
                || ((!env.available || env.limited) && forall cid <- w :: !SamePair(w[cid], p.id, peer)))
            && (answer.Recreated? ==> answer.id in w && p.UserParty? && SamePair(w[answer.id], p.id, peer))
            && v == if answer.Created? then w[id := Conversation(id, Dm(p.id, peer), Thread([], 0, 0), map[], [])]
                    else w
  {
    hide SamePair;
  }

  /** How a message is answered that is not sent: a malformed one with 400, one to a conversation of others with 404,
      one under a used key with the message it repeats or with 409, one under an identity that is not the sender's with
      403 or, if they did not say which, 400, one beyond the limits with 429, and a choice not offered with 400. */
  lemma SendRefusals(c: Conversation, p: Participant, input: Input, actingAs: Option<Identity>, env: Env)
    ensures var answer := Sending(c, p, input, actingAs, env).1;
            var known := Prior(c.thread.log, p, input.key);
            answer ==
            if !InputOk(input) then Refused(400)
            else if !Access(p, c, env) then Refused(404)
            else if input.mention && !(c.kind.Case? && c.kind.inquiry.inbox.kind == "arcade") then Refused(400)
            else if known.Some? then
              if known.value.payload == Some(Payload(input.text, input.photos, input.mention, input.choice, None))
                 && (actingAs.Some? ==> known.value.acting == actingAs.value)
              then Resent(known.value.sequence) else Refused(409)
            else if !exists i :: MayActAs(i, c, p, actingAs, env) then
              Refused(if c.kind.Case? && actingAs.None? && c.kind.inquiry.requester == p && env.responder then 400
                      else 403)
            else if env.limited then Refused(429)
            else if answer.Sent? then Sent(c.thread.lastSequence + 1)
            else Refused(400)
  {
    ActorActs(p, c, actingAs, env);
    ActorRefuses(p, c, actingAs, env);
    hide InputOk, Access, Prior, Actor, Transition, Posted, Answered, Personal;
    if r: Identity :| Actor(p, c, actingAs, env) == Ok(r) {
      assert MayActAs(r, c, p, actingAs, env);
    }
    hide MayActAs;
  }

  lemma ActorRefuses(p: Participant, c: Conversation, actingAs: Option<Identity>, env: Env)
    ensures var r := Actor(p, c, actingAs, env);
            r.Fail? ==> r.status == if c.kind.Case? && actingAs.None? && c.kind.inquiry.requester == p && env.responder
                                    then 400 else 403
  {
  }
}
