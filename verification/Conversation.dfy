/** One conversation: its numbered log, the inquiry status recorded inside the log, the reply script, read cursors
    and notices (service/messaging/write.go, status.go, bot.go, notification.go, policy.go and principal.go).

    A message's record id stands for its conversation and sequence; the hash of a payload is the payload. The
    account of a user, the key of a guest and the identities derived from them are one value. What a request finds
    out from other tables is part of its environment. */
module Conversations {
  import opened Common
  import opened ReplyScript

  type UserId = string

  datatype Participant = UserParty(id: UserId) | GuestParty(id: string)
  datatype Identity = Identity(kind: string, id: string)
  datatype Status = Waiting | Recognised | Solved
  datatype Change = Change(from: Status, to: Status)

  /** Client keys are arbitrary texts, and so may equal one the server makes up. */
  datatype ClientKey =
    | Plain(text: string)
    | StatusKey(conversation: string, sequence: nat)
    | ReplyKey(conversation: string, sequence: nat)
    | RequestKey(requester: Participant, key: ClientKey)

  datatype Selection = Selection(message: nat, choice: string)

  /** How an inquiry was opened; an empty context opens it without a script. */
  datatype Opening = Opening(context: string, revision: Option<Config>, choice: string)

  /** `text` is trimmed; a photo stands for its content. */
  datatype Input = Input(key: ClientKey, text: string, photos: seq<string>, mention: bool, choice: Option<Selection>)

  datatype Payload = Payload(text: string, photos: seq<string>, mention: bool, choice: Option<Selection>,
      opening: Option<Opening>)

  datatype Message = Message(sequence: nat, sender: Option<Participant>, acting: Identity, key: ClientKey,
                             payload: Option<Payload>, text: string, photos: seq<string>, mention: bool,
                             automated: bool, choices: seq<Choice>, change: Option<Change>)

  datatype BotState = BotState(config: Config, node: string, message: nat, active: bool)

  datatype Inquiry = Inquiry(requester: Participant, inbox: Identity, status: Status, bot: Option<BotState>)

  datatype Kind = Dm(first: UserId, second: UserId) | Case(inquiry: Inquiry)

  /** `latest` is the sequence of the last message; 0 stands for none. */
  datatype Thread = Thread(log: seq<Message>, lastSequence: nat, latest: nat)

  datatype Notice = Notice(user: UserId, sequence: nat, read: bool)

  datatype Conversation = Conversation(id: string, kind: Kind, thread: Thread, cursors: map<Participant, nat>,
      notices: seq<Notice>)

  datatype InquiryMode = Internal | External | Closed

  datatype Arcade = Arcade(public: bool, creator: UserId, managers: set<UserId>, official: bool, mode: InquiryMode,
                           loginRequired: bool)

  /** What a request learns elsewhere: whether the participant may answer for the inbox, whether the peer accepts
      messages, the arcade of the inbox, whether a limit is exceeded, whom the audience query returns, and who is
      what. */
  datatype Env = Env(responder: bool, available: bool, arcade: Option<Arcade>, limited: bool, audience: seq<UserId>,
      accounts: set<UserId>,
                     officials: set<UserId>, staff: set<UserId>)

  datatype Answer = Sent(sequence: nat) | Resent(sequence: nat) | Refused(status: nat)

  // ---------------------------------------------------------------------------------------------
  // Who may do what
  // ---------------------------------------------------------------------------------------------

  function Own(p: Participant): Identity {
    match p
    case UserParty(id) => Identity("user", id)
    case GuestParty(id) => Identity("guest", id)
  }

  predicate Personal(i: Identity) {
    i.kind == "user" || i.kind == "guest"
  }

  predicate Requests(p: Participant, c: Conversation) {
    c.kind.Case? && c.kind.inquiry.requester == p
  }

  predicate Access(p: Participant, c: Conversation, env: Env) {
    match c.kind
    case Dm(first, second) => p == UserParty(first) || p == UserParty(second)
    case Case(q) => Requests(p, c) || env.responder
  }

  /** The identities `inquiryPolicy` offers. */
  function Identities(p: Participant, c: Conversation, env: Env): seq<Identity>
    requires c.kind.Case?
  {
    (if Requests(p, c) then [Own(p)] else []) + if env.responder then [c.kind.inquiry.inbox] else []
  }

  /** `actor`. */
  function Actor(p: Participant, c: Conversation, actingAs: Option<Identity>, env: Env): Result<Identity> {
    match c.kind
    case Dm(_, _) =>
      if (actingAs.Some? && actingAs.value != Own(p)) || !env.available then Fail(403) else Ok(Own(p))
    case Case(q) =>
      var identities := Identities(p, c, env);
      if actingAs.None? && |identities| > 1 then Fail(400)
      else if actingAs.None? && |identities| == 1 then Ok(identities[0])
      else if actingAs.Some? && actingAs.value in identities then Ok(actingAs.value)
      else Fail(403)
  }

  // ---------------------------------------------------------------------------------------------
  // Notices
  // ---------------------------------------------------------------------------------------------

  /** `notificationRecipient`. */
  predicate Recipient(user: UserId, kind: Kind, m: Message, env: Env) {
    && m.sender != Some(UserParty(user))
    && match kind
       case Dm(_, _) => true
       case Case(q) =>
         || (if !Personal(m.acting) then UserParty(user) == q.requester
             else UserParty(user) != q.requester && (q.inbox.kind == "team" || user in env.officials))
         || (q.inbox.kind == "arcade" && m.mention && user in env.staff)
  }

  /** The recipients among the audience, each once. */
  function Recipients(audience: seq<UserId>, kind: Kind, m: Message, env: Env): seq<UserId> {
    if audience == [] then []
    else
      var n := |audience| - 1;
      var rest := Recipients(audience[..n], kind, m, env);
      if audience[n] in env.accounts && audience[n] !in rest && Recipient(audience[n], kind, m, env)
      then rest + [audience[n]] else rest
  }

  function NoticesFor(users: seq<UserId>, sequence: nat): seq<Notice> {
    seq(|users|, i requires 0 <= i < |users| => Notice(users[i], sequence, false))
  }

  // ---------------------------------------------------------------------------------------------
  // Appending to the log
  // ---------------------------------------------------------------------------------------------

  function Appended(t: Thread, m: Message): Thread {
    Thread(t.log + [m], m.sequence, m.sequence)
  }

  /** The status a message leads to. */
  function StatusAfter(acting: Identity): Status {
    if Personal(acting) then Waiting else Recognised
  }

  function ChangeTo(kind: Kind, status: Status): Option<Change> {
    if kind.Case? && kind.inquiry.status != status then Some(Change(kind.inquiry.status, status)) else None
  }

  function WithStatus(kind: Kind, status: Status): Kind {
    if kind.Case? then Case(kind.inquiry.(status := status)) else kind
  }

  function WithBot(kind: Kind, bot: BotState): Kind {
    if kind.Case? then Case(kind.inquiry.(bot := Some(bot))) else kind
  }

  function UserMessage(c: Conversation, p: Participant, input: Input, acting: Identity, payload: Payload): Message {
    Message(c.thread.lastSequence + 1, Some(p), acting, input.key, Some(payload),
            input.text, input.photos, input.mention, false, [], ChangeTo(c.kind, StatusAfter(acting)))
  }

  /** `saveMessage`: the message with the status change it causes, and its notices. */
  function Posted(c: Conversation, p: Participant, input: Input, acting: Identity, payload: Payload, env: Env)
    : Conversation
  {
    var m := UserMessage(c, p, input, acting, payload);
    c.(thread := Appended(c.thread, m),
       kind := WithStatus(c.kind, StatusAfter(acting)),
       notices := c.notices + NoticesFor(Recipients(env.audience, c.kind, m, env), m.sequence))
  }

  function BotMessage(c: Conversation, node: Node, key: ClientKey, payload: Option<Payload>): Message
    requires c.kind.Case?
  {
    Message(c.thread.lastSequence + 1, None, c.kind.inquiry.inbox, key, payload,
            node.text, [], false, true, node.choices, None)
  }

  /** `appendBotReply`. */
  function Replied(c: Conversation, config: Config, node: Node, key: ClientKey, payload: Option<Payload>): Conversation
    requires c.kind.Case?
  {
    var m := BotMessage(c, node, key, payload);
    c.(thread := Appended(c.thread, m),
       kind := WithBot(c.kind, BotState(config, node.id, m.sequence, node.choices != [])))
  }

  function NextReplyKey(c: Conversation): ClientKey {
    ReplyKey(c.id, c.thread.lastSequence + 1)
  }

  function StatusEntry(c: Conversation, p: Participant, status: Status): Message
    requires c.kind.Case?
  {
    var n := c.thread.lastSequence + 1;
    Message(n, Some(p), c.kind.inquiry.inbox, StatusKey(c.id, n), None,
            "", [], false, false, [], ChangeTo(c.kind, status))
  }

  /** `changeInquiryStatus` with an entry of its own: the last message stays the last message. */
  function StatusChanged(c: Conversation, p: Participant, status: Status): Conversation
    requires c.kind.Case?
  {
    var m := StatusEntry(c, p, status);
    c.(thread := Thread(c.thread.log + [m], m.sequence, c.thread.latest), kind := WithStatus(c.kind, status))
  }

  /** A message that is no choice ends the prompt. */
  function Silenced(c: Conversation): Conversation {
    if c.kind.Case? && c.kind.inquiry.bot.Some?
    then c.(kind := WithBot(c.kind, c.kind.inquiry.bot.value.(active := false)))
    else c
  }

  // ---------------------------------------------------------------------------------------------
  // Scripted replies
  // ---------------------------------------------------------------------------------------------

  /** `Stay` when no reply was chosen. */
  datatype Move = Stay | Go(node: string) | Invalid

  predicate RestartText(text: string) {
    text == "처음으로 돌아가기" || text == "Back to the start" || text == "最初に戻る"
  }

  /** `canRestartBot`. */
  predicate CanRestart(c: Conversation) {
    && c.kind.Case? && c.kind.inquiry.bot.Some?
    && var b := c.kind.inquiry.bot.value;
    && b.message != 0 && c.thread.latest == b.message && b.node != b.config.start
    && ChoicesOf(b.config, b.config.start) != []
  }

  predicate Chosen(choice: Choice, input: Input, s: Selection) {
    choice.id == s.choice && Trim(choice.caption) == input.text && input.photos == []
  }

  function FirstChosen(choices: seq<Choice>, input: Input, s: Selection): Move {
    if choices == [] then Invalid
    else if Chosen(choices[0], input, s) then Go(choices[0].next)
    else FirstChosen(choices[1..], input, s)
  }

  /** `botTransition`. */
  function Transition(c: Conversation, p: Participant, input: Input): Move
    requires c.kind.Case?
  {
    var bot := c.kind.inquiry.bot;
    match input.choice
    case None => Stay
    case Some(s) =>
      if bot.None? || !Requests(p, c) || bot.value.message != s.message then Invalid
      else if s.choice == RESTART then
        if !CanRestart(c) || !RestartText(input.text) || input.photos != [] then Invalid
        else Go(bot.value.config.start)
      else if !bot.value.active then Invalid
      else FirstChosen(ChoicesOf(bot.value.config, bot.value.node), input, s)
  }

  /** The script's answer to a message that was just posted. */
  function Answered(c: Conversation, move: Move): Conversation {
    if move.Go? && c.kind.Case? && c.kind.inquiry.bot.Some? then
      var config := c.kind.inquiry.bot.value.config;
      var node := FindNode(config.nodes, move.node);
      if node.Some? then Replied(c, config, node.value, NextReplyKey(c), None) else c
    else Silenced(c)
  }

  // ---------------------------------------------------------------------------------------------
  // Requests
  // ---------------------------------------------------------------------------------------------

  /** `inputHash` accepts the message. */
  predicate InputOk(input: Input) {
    && (input.key.Plain? ==> 1 <= |input.key.text| <= 100)
    && |input.text| <= 4000 && |input.photos| <= 3
    && (input.text != "" || input.photos != [])
  }

  function PayloadOf(input: Input, opening: Option<Opening>): Payload {
    Payload(input.text, input.photos, input.mention, input.choice, opening)
  }

  predicate MentionOk(kind: Kind, input: Input) {
    input.mention ==> kind.Case? && kind.inquiry.inbox.kind == "arcade"
  }

  /** `existingRetry`. */
  function Prior(log: seq<Message>, p: Participant, key: ClientKey): (r: Option<Message>)
    ensures r.Some? ==> r.value in log && r.value.sender == Some(p) && r.value.key == key
    ensures r.None? ==> forall m <- log :: m.sender != Some(p) || m.key != key
  {
    if log == [] then None
    else
      var n := |log| - 1;
      assert log == log[..n] + [log[n]];
      match Prior(log[..n], p, key)
      case Some(m) => Some(m)
      case None => if log[n].sender == Some(p) && log[n].key == key then Some(log[n]) else None
  }

  predicate SameRequest(m: Message, payload: Payload, actingAs: Option<Identity>) {
    m.payload == Some(payload) && (actingAs.Some? ==> m.acting == actingAs.value)
  }

  /** `SendFor`. */
  function Sending(c: Conversation, p: Participant, input: Input, actingAs: Option<Identity>, env: Env)
    : (Conversation, Answer)
  {
    if !InputOk(input) then (c, Refused(400))
    else if !Access(p, c, env) then (c, Refused(404))
    else if !MentionOk(c.kind, input) then (c, Refused(400))
    else
      var payload := PayloadOf(input, None);
      match Prior(c.thread.log, p, input.key)
      case Some(m) => if SameRequest(m, payload, actingAs) then (c, Resent(m.sequence)) else (c, Refused(409))
      case None =>
        match Actor(p, c, actingAs, env)
        case Fail(status) => (c, Refused(status))
        case Ok(acting) =>
          if env.limited then (c, Refused(429))
          else if input.choice.Some? && (c.kind.Dm? || !Personal(acting)) then (c, Refused(400))
          else
            var move := if c.kind.Case? then Transition(c, p, input) else Stay;
            if move.Invalid? then (c, Refused(400))
            else (Answered(Posted(c, p, input, acting, payload, env), move), Sent(c.thread.lastSequence + 1))
  }

  /** `SetStatusFor`. */
  function StatusSetting(c: Conversation, p: Participant, status: Status, env: Env): (Conversation, bool) {
    if !Access(p, c, env) || c.kind.Dm? || !env.responder then (c, false)
    else if c.kind.inquiry.status == status then (c, true)
    else if Prior(c.thread.log, p, StatusKey(c.id, c.thread.lastSequence + 1)).Some? then (c, false)
    else (StatusChanged(c, p, status), true)
  }

  function Cursor(c: Conversation, p: Participant): nat {
    if p in c.cursors then c.cursors[p] else 0
  }

  function Acknowledged(notices: seq<Notice>, p: Participant, through: nat): seq<Notice> {
    if notices == [] then []
    else
      var n := |notices| - 1;
      Acknowledged(notices[..n], p, through) +
      [if UserParty(notices[n].user) == p && notices[n].sequence <= through then notices[n].(read := true)
          else notices[n]]
  }

  /** `SetReadFor`. */
  function Reading(c: Conversation, p: Participant, through: int, env: Env): (Conversation, Option<nat>) {
    if !Access(p, c, env) || through < 0 || through > c.thread.lastSequence then (c, None)
    else
      var last := if p in c.cursors && through <= c.cursors[p] then c.cursors[p] else through;
      (c.(cursors := c.cursors[p := last], notices := Acknowledged(c.notices, p, last)), Some(last))
  }

  function EmptyCase(id: string, p: Participant, inbox: Identity): Conversation {
    Conversation(id, Case(Inquiry(p, inbox, Waiting, None)), Thread([], 0, 0), map[], [])
  }

  /** The payload a new inquiry is recognised by: it covers the opening if there is a context. */
  function OpeningPayload(input: Input, opening: Opening): Payload {
    PayloadOf(input, if opening.context == "" then None else Some(opening))
  }

  /** The new inquiry with the script's first message. */
  function Greeted(id: string, p: Participant, inbox: Identity, input: Input, payload: Payload, config: Config)
    : Conversation
    requires Valid(config) && config.enabled
  {
    Replied(EmptyCase(id, p, inbox), config, FindNode(config.nodes, config.start).value, RequestKey(p, input.key),
        Some(payload))
  }

  /** The initial reply choice, if there is one. */
  function OpeningMove(greeted: Conversation, p: Participant, input: Input, choice: string): Move
    requires greeted.kind.Case?
  {
    if choice == "" then Stay
    else if choice == RESTART then Invalid
    else Transition(greeted, p, input.(choice := Some(Selection(greeted.thread.latest, choice))))
  }

  /** `inquiryBot`: no script without a context; otherwise the one stored for the arcade, or kept for a verification
      with the team, which has to be enabled and valid. `None` is a refusal. */
  function InquiryBot(inbox: Identity, context: string, stored: Option<Config>): (r: Option<Config>)
    ensures r.Some? && r.value.enabled ==> Valid(r.value)
  {
    if context == "" then Some(DISABLED)
    else if (if context == "arcade" then inbox.kind != "arcade" else inbox != Identity("team", "musecat")) then None
    else if stored.None? || !stored.value.enabled || !Valid(stored.value) then None
    else stored
  }

  /** The status with which an arcade refuses inquiries of a participant. */
  function ArcadeRefusal(p: Participant, inbox: Identity, arcade: Option<Arcade>): Option<nat> {
    if inbox.kind != "arcade" then None
    else
      match arcade
      case None => Some(404)
      case Some(a) =>
        if !a.public && p != UserParty(a.creator) && !(p.UserParty? && p.id in a.managers) then Some(404)
        else if a.official && a.mode != Internal then Some(409)
        else if a.official && a.loginRequired && p.GuestParty? then Some(401)
        else None
  }

  /** What `CreateFor` writes for a new inquiry; `stored` is the script kept for its context, if any. */
  function Opened(id: string, p: Participant, inbox: Identity, input: Input, opening: Opening,
                  stored: Option<Config>, env: Env)
    : Result<Conversation>
  {
    var bot := InquiryBot(inbox, opening.context, stored);
    if bot.None? then Fail(400)
    else
      var config := bot.value;
      var payload := OpeningPayload(input, opening);
      if opening.revision.Some? && opening.revision.value != config then Fail(409)
      else if !config.enabled then
        if opening.choice != "" then Fail(400) else Ok(Posted(EmptyCase(id, p, inbox), p, input, Own(p), payload, env))
      else
        var greeted := Greeted(id, p, inbox, input, payload, config);
        var move := OpeningMove(greeted, p, input, opening.choice);
        if move.Invalid? then Fail(400) else Ok(Answered(Posted(greeted, p, input, Own(p), payload, env), move))
  }

  // ---------------------------------------------------------------------------------------------
  // What the log of a conversation always looks like
  // ---------------------------------------------------------------------------------------------

  /** Neither text nor photos: the entries `HistoryFor` hides from everyone who does not answer for the inbox. */
  predicate Hidden(m: Message) {
    m.text == "" && m.photos == []
  }

  /** An entry written only to record a status: nobody's message and no automatic reply. */
  predicate Dedicated(m: Message) {
    m.payload.None? && !m.automated
  }

  /** The sequence of the last message that is not a dedicated status entry; 0 if there is none. */
  function LastShown(log: seq<Message>): nat {
    if log == [] then 0
    else
      var n := |log| - 1;
      if Dedicated(log[n]) then LastShown(log[..n]) else n + 1
  }

  /** The log is numbered from 1 without gaps; the stored counters are those of the log. */
  ghost predicate Numbered(t: Thread) {
    && t.lastSequence == |t.log|
    && (forall i :: 0 <= i < |t.log| ==> t.log[i].sequence == i + 1)
    && t.latest == LastShown(t.log)
  }

  /** Exactly the dedicated entries are hidden; each records a change. */
  ghost predicate HidesStatus(log: seq<Message>) {
    forall m <- log :: (Hidden(m) <==> Dedicated(m)) && (Dedicated(m) ==> m.change.Some?)
  }

  /** The status the recorded changes lead to; `None` if one of them does not start where the previous ended. */
  function Folded(log: seq<Message>): Option<Status> {
    if log == [] then Some(Waiting)
    else
      var n := |log| - 1;
      match log[n].change
      case None => Folded(log[..n])
      case Some(change) =>
        if Folded(log[..n]) == Some(change.from) && change.from != change.to then Some(change.to) else None
  }

  ghost predicate StatusLinked(c: Conversation) {
    match c.kind
    case Dm(_, _) => forall m <- c.thread.log :: m.change.None?
    case Case(q) => Folded(c.thread.log) == Some(q.status)
  }

  /** A sender uses a client key once. */
  ghost predicate KeysUnique(log: seq<Message>) {
    forall i, j :: 0 <= i < j < |log| && log[i].sender.Some? && log[i].sender == log[j].sender ==>
        log[i].key != log[j].key
  }

  /** Cursors stay within the log, and a notice at or below its user's cursor is read. */
  ghost predicate Marked(c: Conversation) {
    && (forall p <- c.cursors :: c.cursors[p] <= c.thread.lastSequence)
    && (forall n <- c.notices :: 1 <= n.sequence <= c.thread.lastSequence
                                 && (n.sequence <= Cursor(c, UserParty(n.user)) ==> n.read))
  }

  function Automated(log: seq<Message>): seq<Message> {
    if log == [] then []
    else
      var n := |log| - 1;
      Automated(log[..n]) + if log[n].automated then [log[n]] else []
  }

  /** The messages are what the script says at the nodes of `path`, which starts at the start and follows choices
      or returns to the start. */
  ghost predicate IsWalk(config: Config, messages: seq<Message>, path: seq<string>) {
    && |path| == |messages|
    && (forall i :: 0 <= i < |path| ==> Says(config, path[i], messages[i]))
    && (path != [] ==> path[0] == config.start)
    && (forall i :: 0 < i < |path| ==> Leads(config, path[i - 1], path[i]))
  }

  predicate Says(config: Config, node: string, m: Message) {
    var n := FindNode(config.nodes, node);
    n.Some? && m.text == n.value.text && m.choices == n.value.choices
  }

  /** The automatic messages walk through the snapshot of the script, up to the stored node. */
  ghost predicate Scripted(c: Conversation) {
    if c.kind.Dm? || c.kind.inquiry.bot.None? then Automated(c.thread.log) == []
    else
      var b := c.kind.inquiry.bot.value;
      Valid(b.config) && b.config.enabled && Walked(b.config, Automated(c.thread.log), b.node, b.message)
  }

  /** Some walk for these messages ends at `node`; the last of them has sequence `last`. */
  ghost predicate Walked(config: Config, messages: seq<Message>, node: string, last: nat) {
    && (exists path :: path != [] && path[|path| - 1] == node && IsWalk(config, messages, path))
    && messages[|messages| - 1].sequence == last
  }

  /** An open prompt is the last message and offers a choice. */
  ghost predicate Prompting(c: Conversation) {
    c.kind.Case? && c.kind.inquiry.bot.Some? && c.kind.inquiry.bot.value.active ==>
      && c.kind.inquiry.bot.value.message == c.thread.latest
      && ChoicesOf(c.kind.inquiry.bot.value.config, c.kind.inquiry.bot.value.node) != []
  }

  ghost predicate Inv(c: Conversation) {
    && Numbered(c.thread) && HidesStatus(c.thread.log) && StatusLinked(c) && KeysUnique(c.thread.log)
    && Marked(c) && Scripted(c) && Prompting(c)
  }

  /** What later steps never take back: the log so far, the parties and the script, and how far anyone has read. */
  ghost predicate Grows(c: Conversation, d: Conversation) {
    && c.id == d.id && c.thread.log <= d.thread.log
    && (match c.kind
        case Dm(first, second) => d.kind == c.kind
        case Case(q) => d.kind.Case? && d.kind.inquiry.requester == q.requester && d.kind.inquiry.inbox == q.inbox
                        && (c.thread.log != [] ==> SameScript(q.bot, d.kind.inquiry.bot)))
    && (forall p :: Cursor(c, p) <= Cursor(d, p))
  }

  predicate SameScript(a: Option<BotState>, b: Option<BotState>) {
    if a.None? then b.None? else b.Some? && b.value.config == a.value.config
  }

  // ---------------------------------------------------------------------------------------------
  // One more message
  // ---------------------------------------------------------------------------------------------

  lemma AppendNumbered(t: Thread, m: Message, latest: nat)
    requires Numbered(t) && m.sequence == t.lastSequence + 1
    requires latest == if Dedicated(m) then t.latest else m.sequence
    ensures Numbered(Thread(t.log + [m], m.sequence, latest))
  {
    assert (t.log + [m])[..|t.log|] == t.log;
  }

  lemma AppendFolded(log: seq<Message>, m: Message, status: Status)
    requires Folded(log) == Some(status)
    ensures m.change.None? ==> Folded(log + [m]) == Some(status)
    ensures m.change.Some? && m.change.value.from == status && m.change.value.to != status ==>
        Folded(log + [m]) == Some(m.change.value.to)
  {
    assert (log + [m])[..|log|] == log;
  }

  lemma AppendKeys(log: seq<Message>, m: Message)
    requires KeysUnique(log)
    requires m.sender.Some? ==> Prior(log, m.sender.value, m.key).None?
    ensures KeysUnique(log + [m])
  {
  }

  lemma AppendAutomated(log: seq<Message>, m: Message)
    ensures Automated(log + [m]) == if m.automated then Automated(log) + [m] else Automated(log)
  {
    assert (log + [m])[..|log|] == log;
  }

  lemma AppendMarked(c: Conversation, d: Conversation, users: seq<UserId>)
    requires Marked(c) && d.cursors == c.cursors && d.thread.lastSequence == c.thread.lastSequence + 1
    requires d.notices == c.notices + NoticesFor(users, c.thread.lastSequence + 1)
    ensures Marked(d)
  {
    forall n <- d.notices
      ensures 1 <= n.sequence <= d.thread.lastSequence && (n.sequence <= Cursor(d, UserParty(n.user)) ==> n.read)
    {
      assert n in c.notices || n in NoticesFor(users, c.thread.lastSequence + 1);
    }
  }

  /** A message keeps everything but an open prompt. */
  ghost predicate Settled(c: Conversation) {
    && Numbered(c.thread) && HidesStatus(c.thread.log) && StatusLinked(c) && KeysUnique(c.thread.log)
    && Marked(c) && Scripted(c)
  }

  lemma PostedLinked(c: Conversation, p: Participant, input: Input, acting: Identity, payload: Payload, env: Env)
    requires StatusLinked(c)
    ensures StatusLinked(Posted(c, p, input, acting, payload, env))
  {
    var m := UserMessage(c, p, input, acting, payload);
    if c.kind.Case? {
      AppendFolded(c.thread.log, m, c.kind.inquiry.status);
    }
  }

  lemma AppendHides(log: seq<Message>, m: Message)
    requires HidesStatus(log) && (Hidden(m) <==> Dedicated(m)) && (Dedicated(m) ==> m.change.Some?)
    ensures HidesStatus(log + [m])
  {
  }

  lemma ScriptedSame(c: Conversation, d: Conversation)
    requires Scripted(c) && Automated(d.thread.log) == Automated(c.thread.log)
    requires if c.kind.Dm? then d.kind.Dm? else d.kind.Case? && d.kind.inquiry.bot == c.kind.inquiry.bot
    ensures Scripted(d)
  {
  }

  lemma PostedSettled(c: Conversation, p: Participant, input: Input, acting: Identity, payload: Payload, env: Env)
    requires Settled(c) && (input.text != "" || input.photos != []) && Prior(c.thread.log, p, input.key).None?
    ensures Settled(Posted(c, p, input, acting, payload, env))
  {
    var d := Posted(c, p, input, acting, payload, env);
    var m := UserMessage(c, p, input, acting, payload);
    hide Numbered, HidesStatus, KeysUnique, Automated, Marked, StatusLinked, Scripted, Folded, Recipients, NoticesFor,
        Prior;
    PostedLinked(c, p, input, acting, payload, env);
    NumberedLength(c.thread);
    AppendNumbered(c.thread, m, m.sequence);
    AppendHides(c.thread.log, m);
    AppendKeys(c.thread.log, m);
    AppendAutomated(c.thread.log, m);
    AppendMarked(c, d, Recipients(env.audience, c.kind, m, env));
    ScriptedSame(c, d);
  }

  lemma NumberedLength(t: Thread)
    requires Numbered(t)
    ensures t.lastSequence == |t.log|
  {
  }

  lemma PostedGrows(c: Conversation, p: Participant, input: Input, acting: Identity, payload: Payload, env: Env)
    ensures Grows(c, Posted(c, p, input, acting, payload, env))
  {
    hide Recipients, NoticesFor, UserMessage;
  }

  lemma SilencedKeeps(c: Conversation)
    requires Settled(c)
    ensures Inv(Silenced(c)) && Grows(c, Silenced(c))
  {
    var d := Silenced(c);
    hide Numbered, HidesStatus, KeysUnique, Automated, Folded, Valid, Walked;
    MarkedLater(c, d);
    hide Marked;
  }

  /** One more step of the walk. */
  lemma WalkExtends(config: Config, messages: seq<Message>, path: seq<string>, node: Node, m: Message)
    requires IsWalk(config, messages, path) && FindNode(config.nodes, node.id) == Some(node)
    requires m.text == node.text && m.choices == node.choices
    requires if path == [] then node.id == config.start else Leads(config, path[|path| - 1], node.id)
    ensures IsWalk(config, messages + [m], path + [node.id])
  {
    forall i | 0 < i <= |path| ensures Leads(config, (path + [node.id])[i - 1], (path + [node.id])[i]) {
      if i < |path| {
        assert Leads(config, path[i - 1], path[i]);
      }
    }
    forall i | 0 <= i <= |path| ensures Says(config, (path + [node.id])[i], (messages + [m])[i]) {
      if i < |path| {
        assert Says(config, path[i], messages[i]);
      }
    }
  }

  lemma WalkGoesOn(config: Config, messages: seq<Message>, from: string, last: nat, node: Node, m: Message)
    requires Walked(config, messages, from, last) && FindNode(config.nodes, node.id) == Some(node)
    requires m.text == node.text && m.choices == node.choices && Leads(config, from, node.id)
    ensures Walked(config, messages + [m], node.id, m.sequence)
  {
    var path :| path != [] && path[|path| - 1] == from && IsWalk(config, messages, path);
    WalkExtends(config, messages, path, node, m);
    assert IsWalk(config, messages + [m], path + [node.id]);
  }

  lemma WalkBegins(config: Config, node: Node, m: Message)
    requires FindNode(config.nodes, node.id) == Some(node) && node.id == config.start
    requires m.text == node.text && m.choices == node.choices
    ensures Walked(config, [m], node.id, m.sequence)
  {
    assert IsWalk(config, [m], [node.id]);
  }

  /** Where a reply may go: to the start of a new script, or on from the stored node. */
  ghost predicate MayFollow(bot: Option<BotState>, config: Config, node: Node) {
    && Valid(config) && config.enabled && FindNode(config.nodes, node.id) == Some(node)
    && match bot
       case None => node.id == config.start
       case Some(b) => config == b.config && Leads(config, b.node, node.id)
  }

  /** An automatic reply that continues the walk opens the next prompt. */
  lemma RepliedScripted(c: Conversation, config: Config, node: Node, key: ClientKey, payload: Option<Payload>)
    requires c.kind.Case? && Scripted(c) && MayFollow(c.kind.inquiry.bot, config, node)
    ensures Scripted(Replied(c, config, node, key, payload))
  {
    hide Valid, Walked, Leads, Automated, FindNode;
    var m := BotMessage(c, node, key, payload);
    var before := Automated(c.thread.log);
    AppendAutomated(c.thread.log, m);
    assert Replied(c, config, node, key, payload).thread.log == c.thread.log + [m];
    if c.kind.inquiry.bot.None? {
      WalkBegins(config, node, m);
      assert [] + [m] == [m];
    } else {
      var b := c.kind.inquiry.bot.value;
      WalkGoesOn(config, before, b.node, b.message, node, m);
    }
  }

  lemma RepliedLinked(c: Conversation, config: Config, node: Node, key: ClientKey, payload: Option<Payload>)
    requires c.kind.Case? && StatusLinked(c)
    ensures StatusLinked(Replied(c, config, node, key, payload))
  {
    AppendFolded(c.thread.log, BotMessage(c, node, key, payload), c.kind.inquiry.status);
  }

  lemma RepliedKeeps(c: Conversation, config: Config, node: Node, key: ClientKey, payload: Option<Payload>)
    requires c.kind.Case? && Settled(c) && MayFollow(c.kind.inquiry.bot, config, node)
    ensures Inv(Replied(c, config, node, key, payload))
  {
    var m := BotMessage(c, node, key, payload);
    var d := Replied(c, config, node, key, payload);
    ValidText(config, node);
    RepliedScripted(c, config, node, key, payload);
    RepliedLinked(c, config, node, key, payload);
    assert ChoicesOf(config, node.id) == node.choices;
    hide Numbered, HidesStatus, KeysUnique, Automated, Marked, StatusLinked, Scripted, Valid, Leads, MayFollow,
        ChoicesOf, FindNode, Prior;
    NumberedLength(c.thread);
    AppendNumbered(c.thread, m, m.sequence);
    AppendHides(c.thread.log, m);
    AppendKeys(c.thread.log, m);
    MarkedLater(c, d);
  }

  lemma RepliedGrows(c: Conversation, config: Config, node: Node, key: ClientKey, payload: Option<Payload>)
    requires c.kind.Case? && c.kind.inquiry.bot.Some? && MayFollow(c.kind.inquiry.bot, config, node)
    ensures Grows(c, Replied(c, config, node, key, payload))
  {
    hide Valid, Leads, FindNode, BotMessage;
  }

  lemma MarkedLater(c: Conversation, d: Conversation)
    requires Marked(c) && d.cursors == c.cursors && d.notices == c.notices
        && d.thread.lastSequence >= c.thread.lastSequence
    ensures Marked(d)
  {
    forall n <- d.notices
      ensures 1 <= n.sequence <= d.thread.lastSequence && (n.sequence <= Cursor(d, UserParty(n.user)) ==> n.read)
    {
      assert n in c.notices;
    }
  }

  lemma ValidText(config: Config, node: Node)
    requires Valid(config) && FindNode(config.nodes, node.id) == Some(node)
    ensures node.text != ""
  {
    assert NodeOk(node);
    assert Trim("") == "";
  }

  // ---------------------------------------------------------------------------------------------
  // Every request keeps the invariant
  // ---------------------------------------------------------------------------------------------

  lemma StatusEntryKeeps(c: Conversation, p: Participant, status: Status)
    requires c.kind.Case? && Inv(c) && status != c.kind.inquiry.status
    requires Prior(c.thread.log, p, StatusKey(c.id, c.thread.lastSequence + 1)).None?
    ensures Inv(StatusChanged(c, p, status))
  {
    var m := StatusEntry(c, p, status);
    var d := StatusChanged(c, p, status);
    NumberedLength(c.thread);
    AppendFolded(c.thread.log, m, c.kind.inquiry.status);
    hide Numbered, HidesStatus, KeysUnique, Automated, Marked, Scripted, Folded, Prior, ChoicesOf;
    AppendNumbered(c.thread, m, c.thread.latest);
    AppendHides(c.thread.log, m);
    AppendKeys(c.thread.log, m);
    AppendAutomated(c.thread.log, m);
    MarkedLater(c, d);
    ScriptedSame(c, d);
  }

  lemma StatusEntryGrows(c: Conversation, p: Participant, status: Status)
    requires c.kind.Case?
    ensures Grows(c, StatusChanged(c, p, status))
  {
    hide StatusEntry;
  }

  lemma {:induction false} FirstChosenIs(choices: seq<Choice>, input: Input, s: Selection)
    ensures var move := FirstChosen(choices, input, s);
            && !move.Stay?
            && (move.Go? ==> exists c <- choices :: Chosen(c, input, s) && c.next == move.node)
  {
    if choices != [] && !Chosen(choices[0], input, s) {
      FirstChosenIs(choices[1..], input, s);
      var move := FirstChosen(choices[1..], input, s);
      if move.Go? {
        var c :| c in choices[1..] && Chosen(c, input, s) && c.next == move.node;
        assert c in choices;
      }
    }
  }

  /** A reply choice leads along the script. */
  lemma TransitionLeads(c: Conversation, p: Participant, input: Input)
    requires c.kind.Case?
    ensures var move := Transition(c, p, input);
            && (move.Go? ==> input.choice.Some? && Requests(p, c) && c.kind.inquiry.bot.Some?
                             && Leads(c.kind.inquiry.bot.value.config, c.kind.inquiry.bot.value.node, move.node))
            && (move.Stay? <==> input.choice.None?)
  {
    if input.choice.Some? && c.kind.inquiry.bot.Some? {
      var b := c.kind.inquiry.bot.value;
      FirstChosenIs(ChoicesOf(b.config, b.node), input, input.choice.value);
    }
  }

  lemma ScriptedValid(c: Conversation)
    requires c.kind.Case? && c.kind.inquiry.bot.Some? && Scripted(c)
    ensures Valid(c.kind.inquiry.bot.value.config) && c.kind.inquiry.bot.value.config.enabled
  {
  }

  lemma AnsweredKeeps(c: Conversation, move: Move)
    requires Settled(c) && !move.Invalid?
    requires move.Go? ==> c.kind.Case? && c.kind.inquiry.bot.Some?
                          && Leads(c.kind.inquiry.bot.value.config, c.kind.inquiry.bot.value.node, move.node)
    ensures Inv(Answered(c, move)) && Grows(c, Answered(c, move))
  {
    SilencedKeeps(c);
    if move.Go? {
      var b := c.kind.inquiry.bot.value;
      ScriptedValid(c);
      LeadsToNode(b.config, b.node, move.node);
      var node := FindNode(b.config.nodes, move.node).value;
      hide Settled, Inv, Grows, Valid, Leads, FindNode;
      RepliedOnKeeps(c, node);
    }
  }

  lemma RepliedOnKeeps(c: Conversation, node: Node)
    requires Settled(c) && c.kind.Case? && c.kind.inquiry.bot.Some?
    requires var b := c.kind.inquiry.bot.value;
             Valid(b.config) && b.config.enabled && FindNode(b.config.nodes, node.id) == Some(node)
                 && Leads(b.config, b.node, node.id)
    ensures var d := Replied(c, c.kind.inquiry.bot.value.config, node, NextReplyKey(c), None); Inv(d) && Grows(c, d)
  {
    var config := c.kind.inquiry.bot.value.config;
    assert MayFollow(c.kind.inquiry.bot, config, node);
    hide *;
    RepliedKeeps(c, config, node, NextReplyKey(c), None);
    RepliedGrows(c, config, node, NextReplyKey(c), None);
  }

  lemma GrowsTransitive(c: Conversation, d: Conversation, e: Conversation)
    requires Grows(c, d) && Grows(d, e)
    ensures Grows(c, e)
  {
    forall p ensures Cursor(c, p) <= Cursor(e, p) {
      assert Cursor(c, p) <= Cursor(d, p);
    }
  }

  lemma GrowsReflexive(c: Conversation)
    ensures Grows(c, c)
  {
  }

  lemma InvSettled(c: Conversation)
    requires Inv(c)
    ensures Settled(c)
  {
  }

  /** Posting and answering, from the state in which the transition was computed. */
  lemma ExchangeKeeps(c: Conversation, p: Participant, input: Input, acting: Identity, payload: Payload, env: Env,
                      move: Move)
    requires Settled(c) && (input.text != "" || input.photos != []) && Prior(c.thread.log, p, input.key).None?
        && !move.Invalid?
    requires move.Go? ==> c.kind.Case? && c.kind.inquiry.bot.Some?
                          && Leads(c.kind.inquiry.bot.value.config, c.kind.inquiry.bot.value.node, move.node)
    ensures var d := Answered(Posted(c, p, input, acting, payload, env), move); Inv(d) && Grows(c, d)
  {
    var d := Posted(c, p, input, acting, payload, env);
    assert d.kind.Case? == c.kind.Case? && (c.kind.Case? ==> d.kind.inquiry.bot == c.kind.inquiry.bot);
    PostedSettled(c, p, input, acting, payload, env);
    PostedGrows(c, p, input, acting, payload, env);
    hide *;
    AnsweredKeeps(d, move);
    GrowsTransitive(c, d, Answered(d, move));
  }

  lemma SendingKeeps(c: Conversation, p: Participant, input: Input, actingAs: Option<Identity>, env: Env)
    requires Inv(c)
    ensures var d := Sending(c, p, input, actingAs, env).0; Inv(d) && Grows(c, d)
  {
    GrowsReflexive(c);
    InvSettled(c);
    var r := Sending(c, p, input, actingAs, env);
    if r.1.Sent? {
      var acting := Actor(p, c, actingAs, env).value;
      var move := if c.kind.Case? then Transition(c, p, input) else Stay;
      if c.kind.Case? {
        TransitionLeads(c, p, input);
      }
      hide Inv, Settled, Grows, Leads, Transition, Answered, Posted, Prior;
      ExchangeKeeps(c, p, input, acting, PayloadOf(input, None), env, move);
    }
  }

  lemma StatusSettingKeeps(c: Conversation, p: Participant, status: Status, env: Env)
    requires Inv(c)
    ensures var d := StatusSetting(c, p, status, env).0; Inv(d) && Grows(c, d)
  {
    GrowsReflexive(c);
    hide Inv, Grows, StatusChanged, Prior;
    if c.kind.Case? && c.kind.inquiry.status != status
        && Prior(c.thread.log, p, StatusKey(c.id, c.thread.lastSequence + 1)).None? {
      StatusEntryKeeps(c, p, status);
      StatusEntryGrows(c, p, status);
    }
  }

  lemma {:induction false} AcknowledgedIs(notices: seq<Notice>, p: Participant, through: nat)
    ensures var r := Acknowledged(notices, p, through);
            && |r| == |notices|
            && forall i :: 0 <= i < |r| ==>
                 && r[i].user == notices[i].user && r[i].sequence == notices[i].sequence
                 && (r[i].read <==>
                     notices[i].read || (UserParty(notices[i].user) == p && notices[i].sequence <= through))
  {
    if notices != [] {
      AcknowledgedIs(notices[..|notices| - 1], p, through);
    }
  }

  lemma ReadingKeeps(c: Conversation, p: Participant, through: int, env: Env)
    requires Inv(c)
    ensures var d := Reading(c, p, through, env).0; Inv(d) && Grows(c, d)
  {
    var (d, last) := Reading(c, p, through, env);
    GrowsReflexive(c);
    if last.Some? {
      ReadingMarked(c, p, last.value, d);
      hide Numbered, HidesStatus, KeysUnique, StatusLinked, Automated, Marked, Valid, Walked, ChoicesOf, Acknowledged;
      assert Inv(d);
    }
  }

  lemma ReadingMarked(c: Conversation, p: Participant, last: nat, d: Conversation)
    requires Marked(c) && Cursor(c, p) <= last <= c.thread.lastSequence
    requires d == c.(cursors := c.cursors[p := last], notices := Acknowledged(c.notices, p, last))
    ensures Marked(d)
  {
    AcknowledgedIs(c.notices, p, last);
    hide Acknowledged;
    forall n <- d.notices
      ensures 1 <= n.sequence <= d.thread.lastSequence && (n.sequence <= Cursor(d, UserParty(n.user)) ==> n.read)
    {
      var i :| 0 <= i < |d.notices| && d.notices[i] == n;
      assert c.notices[i] in c.notices;
    }
  }

  // ---------------------------------------------------------------------------------------------
  // New conversations
  // ---------------------------------------------------------------------------------------------

  function EmptyDm(id: string, first: UserId, second: UserId): Conversation {
    Conversation(id, Dm(first, second), Thread([], 0, 0), map[], [])
  }

  lemma EmptyInv(c: Conversation)
    requires c.thread == Thread([], 0, 0) && c.cursors == map[] && c.notices == []
    requires c.kind.Case? ==> c.kind.inquiry.status == Waiting && c.kind.inquiry.bot.None?
    ensures Inv(c) && Settled(c)
  {
  }

  lemma GreetedKeeps(id: string, p: Participant, inbox: Identity, input: Input, payload: Payload, config: Config)
    requires Valid(config) && config.enabled
    ensures var c := Greeted(id, p, inbox, input, payload, config);
            Settled(c) && Prior(c.thread.log, p, input.key).None?
  {
    var empty := EmptyCase(id, p, inbox);
    EmptyInv(empty);
    var start := FindNode(config.nodes, config.start).value;
    assert MayFollow(None, config, start);
    RepliedKeeps(empty, config, start, RequestKey(p, input.key), Some(payload));
    hide Inv, Settled, Valid;
    InvSettled(Greeted(id, p, inbox, input, payload, config));
  }

  lemma OpeningMoveLeads(greeted: Conversation, p: Participant, input: Input, choice: string)
    requires greeted.kind.Case?
    ensures var move := OpeningMove(greeted, p, input, choice);
            move.Go? ==> greeted.kind.inquiry.bot.Some?
                         && Leads(greeted.kind.inquiry.bot.value.config, greeted.kind.inquiry.bot.value.node, move.node)
  {
    TransitionLeads(greeted, p, input.(choice := Some(Selection(greeted.thread.latest, choice))));
  }

  lemma OpenedKeeps(id: string, p: Participant, inbox: Identity, input: Input, opening: Opening,
                    stored: Option<Config>, env: Env)
    requires input.text != "" || input.photos != []
    ensures var r := Opened(id, p, inbox, input, opening, stored, env); r.Ok? ==> Inv(r.value)
  {
    hide *;
    OpenedCases(id, p, inbox, input, opening, stored, env);
    if Opened(id, p, inbox, input, opening, stored, env).Ok? {
      var config, payload := InquiryBot(inbox, opening.context, stored).value, OpeningPayload(input, opening);
      if config.enabled {
        var greeted := Greeted(id, p, inbox, input, payload, config);
        GreetedKeeps(id, p, inbox, input, payload, config);
        OpeningMoveLeads(greeted, p, input, opening.choice);
        ExchangeKeeps(greeted, p, input, Own(p), payload, env, OpeningMove(greeted, p, input, opening.choice));
      } else {
        EmptyCaseNew(id, p, inbox, input.key);
        EmptyInv(EmptyCase(id, p, inbox));
        PostedUnscripted(EmptyCase(id, p, inbox), p, input, payload, env);
      }
    }
  }

  /** What a successful creation wrote: the message alone, or the greeting, the message and its answer. */
  lemma OpenedCases(id: string, p: Participant, inbox: Identity, input: Input, opening: Opening,
                    stored: Option<Config>, env: Env)
    ensures var r := Opened(id, p, inbox, input, opening, stored, env);
            r.Ok? ==>
              && InquiryBot(inbox, opening.context, stored).Some?
              && var config := InquiryBot(inbox, opening.context, stored).value;
                 var payload := OpeningPayload(input, opening);
                 if config.enabled then
                   && Valid(config)
                   && var greeted := Greeted(id, p, inbox, input, payload, config);
                      && greeted.kind.Case?
                      && var move := OpeningMove(greeted, p, input, opening.choice);
                         !move.Invalid? && r.value == Answered(Posted(greeted, p, input, Own(p), payload, env), move)
                 else r.value == Posted(EmptyCase(id, p, inbox), p, input, Own(p), payload, env)
  {
    hide Valid, Posted, Answered, OpeningMove, OpeningPayload, FindNode;
  }

  lemma EmptyCaseNew(id: string, p: Participant, inbox: Identity, key: ClientKey)
    ensures var c := EmptyCase(id, p, inbox);
            && c.thread == Thread([], 0, 0) && c.cursors == map[] && c.notices == [] && c.kind.Case?
            && c.kind.inquiry.status == Waiting && c.kind.inquiry.bot.None? && Prior(c.thread.log, p, key).None?
  {
  }

  lemma PostedUnscripted(c: Conversation, p: Participant, input: Input, payload: Payload, env: Env)
    requires Settled(c) && (input.text != "" || input.photos != []) && Prior(c.thread.log, p, input.key).None?
    requires c.kind.Case? && c.kind.inquiry.bot.None?
    ensures Inv(Posted(c, p, input, Own(p), payload, env))
  {
    hide Numbered, HidesStatus, KeysUnique, StatusLinked, Automated, Marked, Scripted;
    PostedSettled(c, p, input, Own(p), payload, env);
  }
}