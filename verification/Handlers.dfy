/** The messaging transactions as they run (service/messaging/write.go, status.go, bot.go and notification.go): a
    room is loaded, its fields are updated one after the other, and it is stored when all steps succeeded. */
module MessagingHandlers {
  import opened Common
  import opened ReplyScript
  import opened Conversations
  import opened Messaging

  lemma {:induction false} RecipientsSame(audience: seq<UserId>, first: Kind, second: Kind, m: Message, env: Env,
                                          change: Option<Change>)
    requires first.Dm? ==> second == first
    requires first.Case? ==>
        && second.Case?
        && second.inquiry.requester == first.inquiry.requester
        && second.inquiry.inbox == first.inquiry.inbox
    ensures Recipients(audience, second, m.(change := change), env) == Recipients(audience, first, m, env)
  {
    if audience != [] {
      RecipientsSame(audience[..|audience| - 1], first, second, m, env, change);
    }
  }

  /** The rows of one conversation inside a transaction. */
  class Room {
    const id: string
    var kind: Kind
    var log: seq<Message>
    var lastSequence: nat
    var latest: nat
    var cursors: map<Participant, nat>
    var notices: seq<Notice>

    constructor (c: Conversation)
      ensures Value() == c
    {
      id, kind, log, lastSequence, latest := c.id, c.kind, c.thread.log, c.thread.lastSequence, c.thread.latest;
      cursors, notices := c.cursors, c.notices;
    }

    function Value(): Conversation
      reads this
    {
      Conversation(id, kind, Thread(log, lastSequence, latest), cursors, notices)
    }

    /** Records the transition on `message` or, without one, on an entry of its own. */
    method ChangeInquiryStatus(p: Participant, status: Status, message: Option<nat>)
      requires kind.Case?
      requires message.Some? ==> message.value < |log| && log[message.value].change == None
      modifies this`kind, this`log, this`lastSequence
      ensures message.None? ==>
                Value() == if old(kind).inquiry.status == status then old(Value())
                           else StatusChanged(old(Value()), p, status)
      ensures message.Some? ==>
                && lastSequence == old(lastSequence) && kind == WithStatus(old(kind), status)
                && log == old(log)[message.value := old(log)[message.value].(change := ChangeTo(old(kind), status))]
    {
      var previous := kind.inquiry.status;
      if previous == status {
        assert message.Some? ==> log[message.value := log[message.value].(change := None)] == log;
        return;
      }
      var index;
      if message.Some? {
        index := message.value;
      } else {
        var sequence := lastSequence + 1;
        index := |log|;
        log := log + [Message(sequence, Some(p), kind.inquiry.inbox, StatusKey(id, sequence), None,
                              "", [], false, false, [], None)];
        lastSequence := sequence;
      }
      log := log[index := log[index].(change := Some(Change(previous, status)))];
      kind := Case(kind.inquiry.(status := status));
      assert message.None? ==> log == old(log) + [StatusEntry(old(Value()), p, status)];
    }

    method NotifyMessage(m: Message, env: Env)
      modifies this`notices
      ensures notices == old(notices) + NoticesFor(Recipients(env.audience, kind, m, env), m.sequence)
    {
      var recipients: seq<UserId> := [];
      for i := 0 to |env.audience|
        invariant recipients == Recipients(env.audience[..i], kind, m, env)
        invariant notices == old(notices)
      {
        var user := env.audience[i];
        assert env.audience[..i + 1][..i] == env.audience[..i];
        if user !in env.accounts || user in recipients {
          continue;
        }
        if Recipient(user, kind, m, env) {
          recipients := recipients + [user];
        }
      }
      assert env.audience[..|env.audience|] == env.audience;
      for i := 0 to |recipients|
        invariant notices == old(notices) + NoticesFor(recipients[..i], m.sequence)
      {
        assert NoticesFor(recipients[..i + 1], m.sequence)
            == NoticesFor(recipients[..i], m.sequence) + [Notice(recipients[i], m.sequence, false)];
        notices := notices + [Notice(recipients[i], m.sequence, false)];
      }
      assert recipients[..|recipients|] == recipients;
    }

    method SaveMessage(p: Participant, input: Input, acting: Identity, payload: Payload, env: Env)
      modifies this
      ensures Value() == Posted(old(Value()), p, input, acting, payload, env)
    {
      var sequence := lastSequence + 1;
      var m := Message(sequence, Some(p), acting, input.key, Some(payload),
                       input.text, input.photos, input.mention, false, [], None);
      log := log + [m];
      lastSequence := sequence;
      latest := sequence;
      if kind.Case? {
        var status := Recognised;
        if acting.kind == "user" || acting.kind == "guest" {
          status := Waiting;
        }
        ChangeInquiryStatus(p, status, Some(|log| - 1));
      }
      RecipientsSame(env.audience, old(kind), kind, m, env, ChangeTo(old(kind), StatusAfter(acting)));
      RecipientsSame(env.audience, old(kind), old(kind), m, env, ChangeTo(old(kind), StatusAfter(acting)));
      assert UserMessage(old(Value()), p, input, acting, payload)
          == m.(change := ChangeTo(old(kind), StatusAfter(acting)));
      hide Recipients, Recipient;
      NotifyMessage(log[|log| - 1], env);
      assert log == old(log) + [UserMessage(old(Value()), p, input, acting, payload)];
    }

    method AppendBotReply(config: Config, nodeId: string, key: Option<ClientKey>, payload: Option<Payload>)
      returns (ok: bool)
      requires kind.Case?
      modifies this
      ensures var node := FindNode(config.nodes, nodeId);
              && (ok <==> node.Some?)
              && Value() == if node.None? then old(Value())
                            else Replied(old(Value()), config, node.value,
                                         if key.Some? then key.value else NextReplyKey(old(Value())), payload)
    {
      var node := FindNode(config.nodes, nodeId);
      if node.None? {
        return false;
      }
      var used := if key.Some? then key.value else ReplyKey(id, lastSequence + 1);
      var m := Message(lastSequence + 1, None, kind.inquiry.inbox, used, payload,
                       node.value.text, [], false, true, node.value.choices, None);
      log := log + [m];
      lastSequence := m.sequence;
      latest := m.sequence;
      kind := Case(kind.inquiry.(bot := Some(BotState(config, nodeId, m.sequence, |node.value.choices| > 0))));
      ok := true;
    }

    /** The part of `SendFor` and `CreateFor` after the message is saved. */
    method AnswerMessage(move: Move)
      requires !move.Invalid? && (move.Go? ==> kind.Case? && kind.inquiry.bot.Some?)
      modifies this
      ensures Value() == Answered(old(Value()), move)
    {
      if move.Go? {
        var config := kind.inquiry.bot.value.config;
        var _ := AppendBotReply(config, move.node, None, None);
      } else if kind.Case? && kind.inquiry.bot.Some? && kind.inquiry.bot.value.active {
        kind := Case(kind.inquiry.(bot := Some(kind.inquiry.bot.value.(active := false))));
      }
    }

    method Send(p: Participant, input: Input, actingAs: Option<Identity>, env: Env) returns (answer: Answer)
      modifies this
      ensures (Value(), answer) == Sending(old(Value()), p, input, actingAs, env)
    {
      hide InputOk, Access, MentionOk, PayloadOf, Prior, SameRequest, Actor, Personal, Transition, Posted, Answered;
      if !InputOk(input) {
        return Refused(400);
      }
      if !Access(p, Value(), env) {
        return Refused(404);
      }
      if !MentionOk(kind, input) {
        return Refused(400);
      }
      var payload := PayloadOf(input, None);
      var prior := Prior(log, p, input.key);
      if prior.Some? {
        return if SameRequest(prior.value, payload, actingAs) then Resent(prior.value.sequence) else Refused(409);
      }
      var acting := Actor(p, Value(), actingAs, env);
      if acting.Fail? {
        return Refused(acting.status);
      }
      if env.limited {
        return Refused(429);
      }
      if input.choice.Some? && !Personal(acting.value) {
        return Refused(400);
      }
      var move := Stay;
      if kind.Case? {
        move := Transition(Value(), p, input);
        if move.Invalid? {
          return Refused(400);
        }
      } else if input.choice.Some? {
        return Refused(400);
      }
      ghost var before := Value();
      if kind.Case? {
        TransitionLeads(before, p, input);
      }
      PostedKind(before, p, input, acting.value, payload, env);
      answer := Sent(lastSequence + 1);
      SaveMessage(p, input, acting.value, payload, env);
      AnswerMessage(move);
    }

    method SetStatus(p: Participant, status: Status, env: Env) returns (ok: bool)
      modifies this
      ensures (Value(), ok) == StatusSetting(old(Value()), p, status, env)
    {
      if !Access(p, Value(), env) || kind.Dm? || !env.responder {
        return false;
      }
      if kind.inquiry.status == status {
        return true;
      }
      if Prior(log, p, StatusKey(id, lastSequence + 1)).Some? {
        return false;
      }
      ChangeInquiryStatus(p, status, None);
      ok := true;
    }

    method SetRead(p: Participant, through: int, env: Env) returns (last: Option<nat>)
      modifies this
      ensures (Value(), last) == Reading(old(Value()), p, through, env)
    {
      if !Access(p, Value(), env) || through < 0 || through > lastSequence {
        return None;
      }
      if p !in cursors || through > cursors[p] {
        cursors := cursors[p := through];
      }
      assert cursors == old(cursors)[p := cursors[p]];
      AcknowledgeNotices(p, cursors[p]);
      last := Some(cursors[p]);
    }

    method AcknowledgeNotices(p: Participant, through: nat)
      modifies this`notices
      ensures notices == Acknowledged(old(notices), p, through)
    {
      var rows := notices;
      for i := 0 to |rows|
        invariant |notices| == |rows| && notices[i..] == rows[i..]
        invariant notices[..i] == Acknowledged(rows[..i], p, through)
      {
        assert rows[..i + 1][..i] == rows[..i] && notices[i] == rows[i..][0];
        if UserParty(notices[i].user) == p && !notices[i].read && notices[i].sequence <= through {
          notices := notices[i := notices[i].(read := true)];
        }
      }
      assert rows[..|rows|] == rows;
      assert notices[..|notices|] == notices;
    }
  }

  lemma PostedKind(c: Conversation, p: Participant, input: Input, acting: Identity, payload: Payload, env: Env)
    ensures var d := Posted(c, p, input, acting, payload, env);
            && d.kind.Case? == c.kind.Case?
            && (c.kind.Case? ==> d.kind.inquiry.bot == c.kind.inquiry.bot)
  {
  }

  class MessagingStore {
    var conversations: World

    constructor ()
      ensures conversations == map[]
    {
      conversations := map[];
    }

    /** Opens an inquiry with its first message, or finds the one this request opened before. */
    method CreateInquiry(p: Participant, inbox: Identity, input: Input, opening: Opening, stored: Option<Config>,
                         env: Env, id: string)
        returns (answer: Created)
      requires OneEach(conversations)
      modifies this
      ensures (conversations, answer) == Creating(old(conversations), p, inbox, input, opening, stored, env, id)
    {
      if input.choice.Some? || (input.mention && inbox.kind != "arcade") || !InputOk(input) || !InboxOk(inbox) {
        return Declined(400);
      }
      var payload := OpeningPayload(input, opening);
      if cid :| cid in conversations && Opens(conversations[cid], p, input.key) {
        return if Matches(conversations[cid], p, inbox, payload) then Recreated(cid) else Declined(409);
      }
      var refusal := ArcadeRefusal(p, inbox, env.arcade);
      if refusal.Some? {
        return Declined(refusal.value);
      }
      if env.limited {
        return Declined(429);
      }
      hide OneEach, Posted, Answered, Replied, Transition, Opens, InputOk, Matches, OpeningPayload;
      var made := Open(id, p, inbox, input, opening, stored, payload, env);
      if made.Fail? {
        return Declined(made.status);
      }
      conversations := conversations[id := made.value];
      answer := Created(id);
    }

    /** Finds or creates the direct conversation of two users. */
    method CreateDm(p: Participant, peer: UserId, env: Env, id: string) returns (answer: Created)
      requires OneEach(conversations)
      modifies this
      ensures (conversations, answer) == CreatingDm(old(conversations), p, peer, env, id)
    {
      if p.GuestParty? {
        return Declined(403);
      }
      if p.id == peer {
        return Declined(400);
      }
      if cid :| cid in conversations && SamePair(conversations[cid], p.id, peer) {
        return Recreated(cid);
      }
      if !env.available {
        return Declined(403);
      }
      if env.limited {
        return Declined(429);
      }
      conversations := conversations[id := EmptyDm(id, p.id, peer)];
      answer := Created(id);
    }

    /** Runs a status request as one transaction on the stored conversation. */
    method SetStatus(cid: string, p: Participant, status: Status, env: Env) returns (ok: bool)
      requires cid in conversations
      modifies this
      ensures conversations == old(conversations)[cid := StatusSetting(old(conversations)[cid], p, status, env).0]
      ensures ok == StatusSetting(old(conversations)[cid], p, status, env).1
    {
      var room := new Room(conversations[cid]);
      ok := room.SetStatus(p, status, env);
      conversations := conversations[cid := room.Value()];
    }

    /** Runs a read request as one transaction on the stored conversation. */
    method SetRead(cid: string, p: Participant, through: int, env: Env) returns (last: Option<nat>)
      requires cid in conversations
      modifies this
      ensures conversations == old(conversations)[cid := Reading(old(conversations)[cid], p, through, env).0]
      ensures last == Reading(old(conversations)[cid], p, through, env).1
    {
      var room := new Room(conversations[cid]);
      last := room.SetRead(p, through, env);
      conversations := conversations[cid := room.Value()];
    }

    /** Runs a send as one transaction on the stored conversation. */
    method SendMessage(cid: string, p: Participant, input: Input, actingAs: Option<Identity>, env: Env)
      returns (answer: Answer)
      requires cid in conversations
      modifies this
      ensures conversations == old(conversations)[cid := Sending(old(conversations)[cid], p, input, actingAs, env).0]
      ensures answer == Sending(old(conversations)[cid], p, input, actingAs, env).1
    {
      var room := new Room(conversations[cid]);
      answer := room.Send(p, input, actingAs, env);
      conversations := conversations[cid := room.Value()];
    }
  }

  /** The records of a new inquiry, in the order in which `CreateFor` writes them. */
  method Open(id: string, p: Participant, inbox: Identity, input: Input, opening: Opening, stored: Option<Config>,
              payload: Payload, env: Env)
      returns (r: Result<Conversation>)
    requires payload == OpeningPayload(input, opening)
    ensures r == Opened(id, p, inbox, input, opening, stored, env)
  {
    hide Posted, Answered, Replied, Transition, OpeningPayload;
    var room := new Room(EmptyCase(id, p, inbox));
    var bot := FindBot(inbox, opening.context, stored);
    if bot.None? {
      return Fail(400);
    }
    if opening.revision.Some? && opening.revision.value != bot.value {
      return Fail(409);
    }
    hide Valid;
    if bot.value.enabled {
      var _ := room.AppendBotReply(bot.value, bot.value.start, Some(RequestKey(p, input.key)), Some(payload));
      assert room.Value() == Greeted(id, p, inbox, input, payload, bot.value);
      GreetedScript(id, p, inbox, input, payload, bot.value);
    }
    var move := Stay;
    if opening.choice != "" {
      if !bot.value.enabled || opening.choice == RESTART {
        return Fail(400);
      }
      move := Transition(room.Value(), p, input.(choice := Some(Selection(room.latest, opening.choice))));
      if move.Invalid? {
        return Fail(400);
      }
    }
    PostedKind(room.Value(), p, input, Own(p), payload, env);
    room.SaveMessage(p, input, Own(p), payload, env);
    if bot.value.enabled {
      room.AnswerMessage(move);
    }
    r := Ok(room.Value());
  }

  /** The script for a new inquiry, validated when it is read. */
  method FindBot(inbox: Identity, context: string, stored: Option<Config>) returns (bot: Option<Config>)
    ensures bot == InquiryBot(inbox, context, stored)
  {
    if context == "" {
      return Some(DISABLED);
    }
    if context == "arcade" {
      if inbox.kind != "arcade" {
        return None;
      }
    } else if inbox.kind != "team" || inbox.id != "musecat" {
      return None;
    }
    if stored.None? || !stored.value.enabled {
      return None;
    }
    var valid := Validate(stored.value);
    bot := if valid then stored else None;
  }

  lemma GreetedScript(id: string, p: Participant, inbox: Identity, input: Input, payload: Payload, config: Config)
    requires Valid(config) && config.enabled
    ensures var c := Greeted(id, p, inbox, input, payload, config); c.kind.Case? && c.kind.inquiry.bot.Some?
  {
  }
}
