/** All conversations together: creating them, runs of requests, and what every run guarantees
    (service/messaging/write.go). */
module Messaging {
  import opened Common
  import opened ReplyScript
  import opened Conversations

  type World = map<string, Conversation>

  datatype Created = Created(id: string) | Recreated(id: string) | Declined(status: nat)

  // ---------------------------------------------------------------------------------------------
  // Creating
  // ---------------------------------------------------------------------------------------------

  /** The first message of an inquiry carries the key it was created under: the requester's own message, or the
      script's greeting under the key derived from it. */
  predicate Opens(c: Conversation, p: Participant, key: ClientKey) {
    && c.kind.Case? && c.thread.log != []
    && var m := c.thread.log[0];
    || (m.sender == Some(p) && m.key == key)
    || (m.automated && m.key == RequestKey(p, key))
  }

  predicate InboxOk(inbox: Identity) {
    inbox.kind == "arcade" || (inbox.kind == "team" && inbox.id == "musecat")
  }

  predicate SamePair(c: Conversation, a: UserId, b: UserId) {
    c.kind == Dm(a, b) || c.kind == Dm(b, a)
  }

  /** Some inquiry opened under the key; in reachable states there is at most one. */
  ghost function PriorCase(w: World, p: Participant, key: ClientKey): (r: Option<string>)
    ensures r.Some? ==> r.value in w && Opens(w[r.value], p, key)
    ensures r.None? ==> forall cid <- w :: !Opens(w[cid], p, key)
  {
    if cid :| cid in w && Opens(w[cid], p, key) then Some(cid) else None
  }

  predicate Matches(c: Conversation, p: Participant, inbox: Identity, payload: Payload) {
    && Requests(p, c) && c.kind.inquiry.inbox == inbox
    && c.thread.log != [] && c.thread.log[0].payload == Some(payload)
  }

  /** `CreateFor` for an inquiry; `id` is the id the new conversation gets. */
  ghost function Creating(w: World, p: Participant, inbox: Identity, input: Input, opening: Opening,
                          stored: Option<Config>, env: Env, id: string): (World, Created)
  {
    if input.choice.Some? || (input.mention && inbox.kind != "arcade") || !InputOk(input) || !InboxOk(inbox)
        then (w, Declined(400))
    else
      match PriorCase(w, p, input.key)
      case Some(cid) =>
        if Matches(w[cid], p, inbox, OpeningPayload(input, opening)) then (w, Recreated(cid)) else (w, Declined(409))
      case None =>
        if ArcadeRefusal(p, inbox, env.arcade).Some? then (w, Declined(ArcadeRefusal(p, inbox, env.arcade).value))
        else if env.limited then (w, Declined(429))
        else
          match Opened(id, p, inbox, input, opening, stored, env)
          case Fail(status) => (w, Declined(status))
          case Ok(c) => (w[id := c], Created(id))
  }

  /** The pair's conversation. */
  ghost function PriorDm(w: World, a: UserId, b: UserId): (r: Option<string>)
    ensures r.Some? ==> r.value in w && SamePair(w[r.value], a, b)
    ensures r.None? ==> forall cid <- w :: !SamePair(w[cid], a, b)
  {
    if cid :| cid in w && SamePair(w[cid], a, b) then Some(cid) else None
  }

  /** `CreateFor` for a direct conversation: the pair has one. */
  ghost function CreatingDm(w: World, p: Participant, peer: UserId, env: Env, id: string): (World, Created) {
    if p.GuestParty? then (w, Declined(403))
    else if p.id == peer then (w, Declined(400))
    else
      match PriorDm(w, p.id, peer)
      case Some(cid) => (w, Recreated(cid))
      case None =>
        if !env.available then (w, Declined(403))
        else if env.limited then (w, Declined(429))
        else (w[id := EmptyDm(id, p.id, peer)], Created(id))
  }

  // ---------------------------------------------------------------------------------------------
  // Runs
  // ---------------------------------------------------------------------------------------------

  /** `OpSeen`: a notice is read in the notification inbox. */
  datatype Op =
    | OpInquiry(p: Participant, inbox: Identity, input: Input, opening: Opening, stored: Option<Config>, env: Env,
                id: string)
    | OpDm(p: Participant, peer: UserId, env: Env, id: string)
    | OpSend(cid: string, p: Participant, input: Input, actingAs: Option<Identity>, env: Env)
    | OpStatus(cid: string, p: Participant, status: Status, env: Env)
    | OpRead(cid: string, p: Participant, through: int, env: Env)
    | OpSeen(cid: string, index: nat)

  function Seen(c: Conversation, index: nat): Conversation {
    if index < |c.notices| then c.(notices := c.notices[index := c.notices[index].(read := true)]) else c
  }

  ghost function Step(w: World, op: Op): World {
    match op
    case OpInquiry(p, inbox, input, opening, stored, env, id) =>
      if id in w then w else Creating(w, p, inbox, input, opening, stored, env, id).0
    case OpDm(p, peer, env, id) =>
      if id in w then w else CreatingDm(w, p, peer, env, id).0
    case OpSend(cid, p, input, actingAs, env) =>
      if cid in w then w[cid := Sending(w[cid], p, input, actingAs, env).0] else w
    case OpStatus(cid, p, status, env) =>
      if cid in w then w[cid := StatusSetting(w[cid], p, status, env).0] else w
    case OpRead(cid, p, through, env) =>
      if cid in w then w[cid := Reading(w[cid], p, through, env).0] else w
    case OpSeen(cid, index) =>
      if cid in w then w[cid := Seen(w[cid], index)] else w
  }

  ghost function Run(w: World, ops: seq<Op>): World
    decreases |ops|
  {
    if ops == [] then w else Step(Run(w, ops[..|ops| - 1]), ops[|ops| - 1])
  }

  /** An inquiry's first message can be recognised by its requester's key. */
  ghost predicate Opener(c: Conversation) {
    c.kind.Case? ==>
      && c.thread.log != []
      && var m := c.thread.log[0];
      && m.payload.Some?
      && (m.automated ==> m.sender.None? && m.key.RequestKey? && m.key.requester == c.kind.inquiry.requester)
      && (!m.automated ==> m.sender == Some(c.kind.inquiry.requester))
  }

  ghost predicate OneEach(w: World) {
    && (forall a, b, p, key :: a in w && b in w && Opens(w[a], p, key) && Opens(w[b], p, key) ==> a == b)
    && (forall a, b, x, y :: a in w && b in w && SamePair(w[a], x, y) && SamePair(w[b], x, y) ==> a == b)
  }

  ghost predicate Good(c: Conversation, cid: string) {
    c.id == cid && Inv(c) && Opener(c)
  }

  ghost predicate WorldInv(w: World) {
    (forall cid <- w :: Good(w[cid], cid)) && OneEach(w)
  }

  ghost predicate WorldGrows(w: World, v: World) {
    forall cid <- w :: cid in v && Grows(w[cid], v[cid])
  }

  /** A grown conversation is opened by the same request. */
  lemma GrownOpener(c: Conversation, d: Conversation, cid: string)
    requires Good(c, cid) && Grows(c, d) && Inv(d)
    ensures Good(d, cid)
    ensures forall p, key :: Opens(d, p, key) <==> Opens(c, p, key)
    ensures forall a, b :: SamePair(d, a, b) <==> SamePair(c, a, b)
  {
    hide Inv;
    if c.kind.Case? {
      assert d.thread.log[0] == c.thread.log[0];
    }
  }

  lemma UpdateKeeps(w: World, cid: string, d: Conversation)
    requires WorldInv(w) && cid in w && Grows(w[cid], d) && Inv(d)
    ensures WorldInv(w[cid := d]) && WorldGrows(w, w[cid := d])
  {
    assert Good(w[cid], cid);
    GrownOpener(w[cid], d, cid);
    hide Inv, Opens, SamePair, Grows, Good;
    forall k <- w ensures Grows(w[k], w[cid := d][k]) {
      GrowsReflexive(w[k]);
    }
    OneEachUpdated(w, cid, d);
  }

  lemma OneEachUpdated(w: World, cid: string, d: Conversation)
    requires OneEach(w) && cid in w
    requires forall p, key :: Opens(d, p, key) <==> Opens(w[cid], p, key)
    requires forall a, b :: SamePair(d, a, b) <==> SamePair(w[cid], a, b)
    ensures OneEach(w[cid := d])
  {
    hide Opens, SamePair;
    var v := w[cid := d];
    forall a, b, p, key | a in v && b in v && Opens(v[a], p, key) && Opens(v[b], p, key) ensures a == b {
      assert Opens(w[a], p, key) && Opens(w[b], p, key);
    }
    forall a, b, x, y | a in v && b in v && SamePair(v[a], x, y) && SamePair(v[b], x, y) ensures a == b {
      assert SamePair(w[a], x, y) && SamePair(w[b], x, y);
    }
  }

  lemma AddKeeps(w: World, id: string, c: Conversation)
    requires WorldInv(w) && id !in w && Good(c, id)
    requires forall p, key, cid <- w :: Opens(c, p, key) ==> !Opens(w[cid], p, key)
    requires forall a, b, cid <- w :: SamePair(c, a, b) ==> !SamePair(w[cid], a, b)
    ensures WorldInv(w[id := c]) && WorldGrows(w, w[id := c])
  {
    hide Good, Opens, SamePair, Grows;
    forall k <- w ensures Grows(w[k], w[id := c][k]) {
      GrowsReflexive(w[k]);
    }
  }

  /** How a new inquiry begins. */
  ghost predicate Begins(c: Conversation, id: string, p: Participant, inbox: Identity, key: ClientKey,
                         payload: Payload) {
    && c.id == id && c.kind.Case? && c.kind.inquiry.requester == p && c.kind.inquiry.inbox == inbox
    && c.thread.log != []
    && var m := c.thread.log[0];
    && m.payload == Some(payload)
    && (if m.automated then m.sender.None? && m.key == RequestKey(p, key) else m.sender == Some(p) && m.key == key)
  }

  lemma BeginsGrows(c: Conversation, d: Conversation, id: string, p: Participant, inbox: Identity, key: ClientKey,
                    payload: Payload)
    requires Begins(c, id, p, inbox, key, payload) && Grows(c, d)
    ensures Begins(d, id, p, inbox, key, payload)
  {
    assert d.thread.log[0] == c.thread.log[0];
  }

  lemma OpenedBegins(id: string, p: Participant, inbox: Identity, input: Input, opening: Opening,
                     stored: Option<Config>, env: Env)
    requires input.text != "" || input.photos != []
    ensures var r := Opened(id, p, inbox, input, opening, stored, env);
            r.Ok? ==> Begins(r.value, id, p, inbox, input.key, OpeningPayload(input, opening))
  {
    hide Inv, Settled, Leads, Grows, Begins, Posted, Answered, OpeningMove, Greeted, OpeningPayload, Prior;
    var r := Opened(id, p, inbox, input, opening, stored, env);
    if r.Ok? {
      var payload := OpeningPayload(input, opening);
      var config := InquiryBot(inbox, opening.context, stored).value;
      if config.enabled {
        var greeted := Greeted(id, p, inbox, input, payload, config);
        GreetedKeeps(id, p, inbox, input, payload, config);
        GreetedBegins(id, p, inbox, input, payload, config);
        var move := OpeningMove(greeted, p, input, opening.choice);
        OpeningMoveLeads(greeted, p, input, opening.choice);
        ExchangeKeeps(greeted, p, input, Own(p), payload, env, move);
        BeginsGrows(greeted, r.value, id, p, inbox, input.key, payload);
      } else {
        PostedBegins(id, p, inbox, input, payload, env);
      }
    }
  }

  lemma GreetedBegins(id: string, p: Participant, inbox: Identity, input: Input, payload: Payload, config: Config)
    requires Valid(config) && config.enabled
    ensures Greeted(id, p, inbox, input, payload, config).kind.Case?
    ensures Begins(Greeted(id, p, inbox, input, payload, config), id, p, inbox, input.key, payload)
  {
    hide Valid;
  }

  lemma PostedBegins(id: string, p: Participant, inbox: Identity, input: Input, payload: Payload, env: Env)
    ensures Begins(Posted(EmptyCase(id, p, inbox), p, input, Own(p), payload, env), id, p, inbox, input.key, payload)
  {
    hide Recipients;
  }

  lemma AddCase(w: World, id: string, c: Conversation, p: Participant, inbox: Identity, key: ClientKey,
                payload: Payload)
    requires WorldInv(w) && id !in w && Inv(c) && Begins(c, id, p, inbox, key, payload)
    requires forall cid <- w :: !Opens(w[cid], p, key)
    ensures WorldInv(w[id := c]) && WorldGrows(w, w[id := c])
  {
    assert Opener(c);
    assert forall q, k :: Opens(c, q, k) ==> q == p && k == key;
    hide Inv, Opens, WorldInv, WorldGrows, Opener, Begins;
    assert Good(c, id);
    AddKeeps(w, id, c);
  }

  lemma CreatingKeeps(w: World, p: Participant, inbox: Identity, input: Input, opening: Opening,
                      stored: Option<Config>, env: Env, id: string)
    requires WorldInv(w) && id !in w
    ensures var v := Creating(w, p, inbox, input, opening, stored, env, id).0; WorldInv(v) && WorldGrows(w, v)
  {
    WorldGrowsReflexive(w);
    hide Inv, Opened, Opens, WorldInv, WorldGrows, PriorCase, Begins;
    var (v, answer) := Creating(w, p, inbox, input, opening, stored, env, id);
    if answer.Created? {
      OpenedKeeps(id, p, inbox, input, opening, stored, env);
      OpenedBegins(id, p, inbox, input, opening, stored, env);
      var c := Opened(id, p, inbox, input, opening, stored, env).value;
      AddCase(w, id, c, p, inbox, input.key, OpeningPayload(input, opening));
    }
  }

  lemma CreatingDmKeeps(w: World, p: Participant, peer: UserId, env: Env, id: string)
    requires WorldInv(w) && id !in w
    ensures var v := CreatingDm(w, p, peer, env, id).0; WorldInv(v) && WorldGrows(w, v)
  {
    WorldGrowsReflexive(w);
    hide Inv, WorldInv, WorldGrows, PriorDm, SamePair;
    var (v, answer) := CreatingDm(w, p, peer, env, id);
    if answer.Created? {
      AddDm(w, id, p.id, peer);
    }
  }

  lemma AddDm(w: World, id: string, a: UserId, b: UserId)
    requires WorldInv(w) && id !in w && forall cid <- w :: !SamePair(w[cid], a, b)
    ensures WorldInv(w[id := EmptyDm(id, a, b)]) && WorldGrows(w, w[id := EmptyDm(id, a, b)])
  {
    var c := EmptyDm(id, a, b);
    EmptyInv(c);
    forall x, y, cid <- w ensures SamePair(c, x, y) ==> !SamePair(w[cid], x, y) {
      assert !SamePair(w[cid], a, b);
    }
    hide Inv, WorldInv, WorldGrows, SamePair;
    assert Good(c, id);
    AddKeeps(w, id, c);
  }

  lemma WorldGrowsReflexive(w: World)
    ensures WorldGrows(w, w)
  {
    forall cid <- w ensures Grows(w[cid], w[cid]) {
      GrowsReflexive(w[cid]);
    }
  }

  lemma WorldGrowsTransitive(u: World, v: World, w: World)
    requires WorldGrows(u, v) && WorldGrows(v, w)
    ensures WorldGrows(u, w)
  {
    hide Grows;
    forall cid <- u ensures cid in w && Grows(u[cid], w[cid]) {
      GrowsTransitive(u[cid], v[cid], w[cid]);
    }
  }

  lemma SeenKeeps(c: Conversation, index: nat)
    requires Inv(c)
    ensures Inv(Seen(c, index)) && Grows(c, Seen(c, index))
  {
    var d := Seen(c, index);
    GrowsReflexive(c);
    hide Numbered, HidesStatus, KeysUnique, Automated, Valid, Walked, ChoicesOf;
    assert Marked(d) by {
      forall n <- d.notices
        ensures 1 <= n.sequence <= d.thread.lastSequence && (n.sequence <= Cursor(d, UserParty(n.user)) ==> n.read)
      {
        var i :| 0 <= i < |d.notices| && d.notices[i] == n;
        assert c.notices[i] in c.notices;
      }
    }
    hide Marked;
    assert Inv(d);
  }

  lemma InvStep(w: World, op: Op)
    requires WorldInv(w)
    ensures WorldInv(Step(w, op)) && WorldGrows(w, Step(w, op))
  {
    WorldGrowsReflexive(w);
    hide Inv, Grows, WorldGrows;
    match op {
      case OpInquiry(p, inbox, input, opening, stored, env, id) =>
        if id !in w {
          CreatingKeeps(w, p, inbox, input, opening, stored, env, id);
        }
      case OpDm(p, peer, env, id) =>
        if id !in w {
          CreatingDmKeeps(w, p, peer, env, id);
        }
      case OpSend(cid, p, input, actingAs, env) =>
        if cid in w {
          assert Good(w[cid], cid);
          SendingKeeps(w[cid], p, input, actingAs, env);
          UpdateKeeps(w, cid, Sending(w[cid], p, input, actingAs, env).0);
        }
      case OpStatus(cid, p, status, env) =>
        if cid in w {
          assert Good(w[cid], cid);
          StatusSettingKeeps(w[cid], p, status, env);
          UpdateKeeps(w, cid, StatusSetting(w[cid], p, status, env).0);
        }
      case OpRead(cid, p, through, env) =>
        if cid in w {
          assert Good(w[cid], cid);
          ReadingKeeps(w[cid], p, through, env);
          UpdateKeeps(w, cid, Reading(w[cid], p, through, env).0);
        }
      case OpSeen(cid, index) =>
        if cid in w {
          assert Good(w[cid], cid);
          SeenKeeps(w[cid], index);
          UpdateKeeps(w, cid, Seen(w[cid], index));
        }
    }
  }

  lemma {:induction false} InvRun(w: World, ops: seq<Op>)
    requires WorldInv(w)
    ensures WorldInv(Run(w, ops)) && WorldGrows(w, Run(w, ops))
    decreases |ops|
  {
    if ops == [] {
      WorldGrowsReflexive(w);
    } else {
      var v := Run(w, ops[..|ops| - 1]);
      InvRun(w, ops[..|ops| - 1]);
      hide WorldInv, WorldGrows, Step;
      InvStep(v, ops[|ops| - 1]);
      WorldGrowsTransitive(w, v, Step(v, ops[|ops| - 1]));
    }
  }

  // ---------------------------------------------------------------------------------------------
  // Guarantees of every run
  // ---------------------------------------------------------------------------------------------

  lemma Reachable(ops: seq<Op>, cid: string)
    requires cid in Run(map[], ops)
    ensures Inv(Run(map[], ops)[cid])
  {
    InvRun(map[], ops);
    assert Good(Run(map[], ops)[cid], cid);
  }

  /** Sequences are exactly 1 to the stored last sequence, and the stored last message is the last one that is not
      a dedicated status entry. */
  lemma LogIsNumbered(ops: seq<Op>, cid: string)
    requires cid in Run(map[], ops)
    ensures var t := Run(map[], ops)[cid].thread;
            && t.lastSequence == |t.log|
            && (forall i :: 0 <= i < |t.log| ==> t.log[i].sequence == i + 1)
            && t.latest <= t.lastSequence
            && (t.latest > 0 ==> !Dedicated(t.log[t.latest - 1]))
            && (forall i :: t.latest <= i < |t.log| ==> Dedicated(t.log[i]))
  {
    Reachable(ops, cid);
    LastShownIs(Run(map[], ops)[cid].thread.log);
  }

  lemma {:induction false} LastShownIs(log: seq<Message>)
    ensures var last := LastShown(log);
            && last <= |log|
            && (last > 0 ==> !Dedicated(log[last - 1]))
            && (forall i :: last <= i < |log| ==> Dedicated(log[i]))
  {
    if log != [] {
      LastShownIs(log[..|log| - 1]);
    }
  }

  /** The changes recorded in the log up to a message, from the first on. */
  function Changes(log: seq<Message>): seq<Change> {
    if log == [] then []
    else
      var n := |log| - 1;
      Changes(log[..n]) + if log[n].change.Some? then [log[n].change.value] else []
  }

  /** The status of an inquiry is the end of an unbroken chain of recorded changes that starts at waiting. */
  lemma StatusIsRecorded(ops: seq<Op>, cid: string)
    requires cid in Run(map[], ops) && Run(map[], ops)[cid].kind.Case?
    ensures var c := Run(map[], ops)[cid];
            var changes := Changes(c.thread.log);
            && (if changes == [] then c.kind.inquiry.status == Waiting
                else changes[0].from == Waiting && changes[|changes| - 1].to == c.kind.inquiry.status)
            && (forall i :: 0 < i < |changes| ==> changes[i].from == changes[i - 1].to)
            && (forall change <- changes :: change.from != change.to)
  {
    Reachable(ops, cid);
    FoldedChain(Run(map[], ops)[cid].thread.log);
  }

  lemma {:induction false} FoldedChain(log: seq<Message>)
    requires Folded(log).Some?
    ensures var changes := Changes(log);
            && (if changes == [] then Folded(log) == Some(Waiting)
                else changes[0].from == Waiting && Folded(log) == Some(changes[|changes| - 1].to))
            && (forall i :: 0 < i < |changes| ==> changes[i].from == changes[i - 1].to)
            && (forall change <- changes :: change.from != change.to)
  {
    if log != [] {
      FoldedChain(log[..|log| - 1]);
    }
  }

  /** An open prompt is the conversation's last message and stands at a node of the snapshot that offers choices;
      the automatic messages walk through that snapshot from its start to the stored node. */
  lemma PromptIsCurrent(ops: seq<Op>, cid: string)
    requires cid in Run(map[], ops)
    requires var k := Run(map[], ops)[cid].kind; k.Case? && k.inquiry.bot.Some?
    ensures var c := Run(map[], ops)[cid];
            var b := c.kind.inquiry.bot.value;
            && FindNode(b.config.nodes, b.node).Some?
            && (exists path ::
                path != [] && path[|path| - 1] == b.node && IsWalk(b.config, Automated(c.thread.log), path))
            && (b.active ==> b.message == c.thread.latest && ChoicesOf(b.config, b.node) != [])
  {
    Reachable(ops, cid);
    var c := Run(map[], ops)[cid];
    var b := c.kind.inquiry.bot.value;
    var path :| path != [] && path[|path| - 1] == b.node && IsWalk(b.config, Automated(c.thread.log), path);
    assert Says(b.config, path[|path| - 1], Automated(c.thread.log)[|path| - 1]);
  }

  /** Whatever happens to the inbox's script later, an inquiry keeps the snapshot it was opened with. */
  lemma SnapshotIsFixed(before: seq<Op>, after: seq<Op>, cid: string)
    requires cid in Run(map[], before) && Run(map[], before)[cid].kind.Case?
    ensures cid in Run(Run(map[], before), after) && Run(Run(map[], before), after)[cid].kind.Case?
    ensures SameScript(Run(map[], before)[cid].kind.inquiry.bot, Run(Run(map[], before), after)[cid].kind.inquiry.bot)
  {
    hide *;
    EmptyWorld();
    InvRun(map[], before);
    var w := Run(map[], before);
    InvRun(w, after);
    GrownScript(w, Run(w, after), cid);
  }

  lemma EmptyWorld()
    ensures WorldInv(map[])
  {
  }

  lemma GrownScript(w: World, v: World, cid: string)
    requires WorldInv(w) && WorldGrows(w, v) && cid in w && w[cid].kind.Case?
    ensures cid in v && v[cid].kind.Case? && SameScript(w[cid].kind.inquiry.bot, v[cid].kind.inquiry.bot)
  {
    assert Good(w[cid], cid);
  }

  /** The log is append-only, and a read cursor never moves back or past the end of the log. */
  lemma LogAndCursorsGrow(before: seq<Op>, after: seq<Op>, cid: string, p: Participant)
    requires cid in Run(map[], before)
    ensures cid in Run(Run(map[], before), after)
    ensures var c, d := Run(map[], before)[cid], Run(Run(map[], before), after)[cid];
            && c.thread.log <= d.thread.log
            && Cursor(c, p) <= Cursor(d, p) <= d.thread.lastSequence
  {
    InvRun(map[], before);
    var w := Run(map[], before);
    InvRun(w, after);
    assert Good(Run(w, after)[cid], cid);
  }

  /** `NotificationDeliverable`. */
  predicate Deliverable(c: Conversation, n: Notice, env: Env) {
    && Access(UserParty(n.user), c, env)
    && 1 <= n.sequence <= |c.thread.log|
    && !n.read
    && Cursor(c, UserParty(n.user)) < n.sequence
    && Recipient(n.user, c.kind, c.thread.log[n.sequence - 1], env)
  }

  /** What a user has read up to is never pushed to them again: the notices below an old cursor are marked read in
      every later state. */
  lemma ReadIsNotPushed(before: seq<Op>, after: seq<Op>, cid: string, n: Notice, env: Env)
    requires cid in Run(map[], before)
    requires n.sequence <= Cursor(Run(map[], before)[cid], UserParty(n.user))
    ensures cid in Run(Run(map[], before), after)
    ensures var d := Run(Run(map[], before), after)[cid];
            n in d.notices ==> n.read && !Deliverable(d, n, env)
  {
    LogAndCursorsGrow(before, after, cid, UserParty(n.user));
    InvRun(map[], before);
    var w := Run(map[], before);
    InvRun(w, after);
    assert Good(Run(w, after)[cid], cid);
  }

  // ---------------------------------------------------------------------------------------------
  // Exactly once
  // ---------------------------------------------------------------------------------------------

  lemma {:induction false} PriorExtends(log: seq<Message>, more: seq<Message>, p: Participant, key: ClientKey)
    requires Prior(log, p, key).Some?
    ensures Prior(log + more, p, key) == Prior(log, p, key)
  {
    if more == [] {
      assert log + more == log;
    } else {
      var n := |more| - 1;
      PriorExtends(log, more[..n], p, key);
      assert (log + more)[..|log + more| - 1] == log + more[..n];
    }
  }

  /** What a successful send leaves in the log. */
  lemma SentIsLogged(c: Conversation, p: Participant, input: Input, actingAs: Option<Identity>, env: Env)
    requires Sending(c, p, input, actingAs, env).1.Sent?
    ensures var (d, answer) := Sending(c, p, input, actingAs, env);
            var m := Prior(d.thread.log, p, input.key);
            && m.Some? && m.value.sequence == answer.sequence
            && SameRequest(m.value, PayloadOf(input, None), actingAs)
            && InputOk(input) && MentionOk(d.kind, input)
  {
    hide Posted, Prior, Answered, Transition, InputOk, Access, Identities;
    var acting := Actor(p, c, actingAs, env).value;
    ActorAsked(p, c, actingAs, env);
    hide Actor;
    var payload := PayloadOf(input, None);
    var move := if c.kind.Case? then Transition(c, p, input) else Stay;
    var posted := Posted(c, p, input, acting, payload, env);
    PostedPrior(c, p, input, acting, payload, env);
    AnsweredAppends(posted, move);
    var d := Answered(posted, move);
    PriorExtends(posted.thread.log, d.thread.log[|posted.thread.log|..], p, input.key);
    assert d.thread.log == posted.thread.log + d.thread.log[|posted.thread.log|..];
  }

  /** An identity that was asked for is the one used. */
  lemma ActorAsked(p: Participant, c: Conversation, actingAs: Option<Identity>, env: Env)
    ensures var r := Actor(p, c, actingAs, env); r.Ok? && actingAs.Some? ==> r.value == actingAs.value
  {
  }

  lemma PostedPrior(c: Conversation, p: Participant, input: Input, acting: Identity, payload: Payload, env: Env)
    requires Prior(c.thread.log, p, input.key).None?
    ensures var d := Posted(c, p, input, acting, payload, env);
            var m := Prior(d.thread.log, p, input.key);
            && m.Some? && m.value.sequence == c.thread.lastSequence + 1 && m.value.payload == Some(payload)
                && m.value.acting == acting
            && (MentionOk(c.kind, input) ==> MentionOk(d.kind, input))
  {
    var d := Posted(c, p, input, acting, payload, env);
    assert d.thread.log[..|c.thread.log|] == c.thread.log;
  }

  lemma AnsweredAppends(c: Conversation, move: Move)
    ensures c.thread.log <= Answered(c, move).thread.log
    ensures forall input :: MentionOk(c.kind, input) ==> MentionOk(Answered(c, move).kind, input)
  {
  }

  /** A message is sent once. In every later state in which the sender still has access, the same request is
      answered with the same message and changes nothing, and another content under its key is refused. */
  lemma SentOnce(w: World, cid: string, p: Participant, input: Input, actingAs: Option<Identity>, env: Env,
                 ops: seq<Op>, again: Input, actingAs2: Option<Identity>, env2: Env)
    requires WorldInv(w) && cid in w && Sending(w[cid], p, input, actingAs, env).1.Sent?
    requires again.key == input.key && InputOk(again) && (actingAs2 == actingAs || actingAs2.None?)
    requires var v := Run(w[cid := Sending(w[cid], p, input, actingAs, env).0], ops);
             cid in v && Access(p, v[cid], env2) && MentionOk(v[cid].kind, again)
    ensures var v := Run(w[cid := Sending(w[cid], p, input, actingAs, env).0], ops);
            Sending(v[cid], p, again, actingAs2, env2)
            == (v[cid], if PayloadOf(again, None) == PayloadOf(input, None)
                        then Resent(Sending(w[cid], p, input, actingAs, env).1.sequence) else Refused(409))
  {
    assert Good(w[cid], cid);
    var (d, answer) := Sending(w[cid], p, input, actingAs, env);
    SentIsLogged(w[cid], p, input, actingAs, env);
    SendingKeeps(w[cid], p, input, actingAs, env);
    UpdateKeeps(w, cid, d);
    InvRun(w[cid := d], ops);
    var v := Run(w[cid := d], ops);
    assert w[cid := d][cid] == d && Grows(d, v[cid]);
    LoggedAnswer(d, v[cid], p, input, actingAs, answer.sequence, again, actingAs2, env2);
  }

  lemma LoggedAnswer(d: Conversation, e: Conversation, p: Participant, input: Input, actingAs: Option<Identity>,
                     sequence: nat, again: Input, actingAs2: Option<Identity>, env: Env)
    requires d.thread.log <= e.thread.log && Access(p, e, env) && InputOk(again) && MentionOk(e.kind, again)
    requires again.key == input.key && (actingAs2 == actingAs || actingAs2.None?)
    requires var m := Prior(d.thread.log, p, input.key);
             m.Some? && m.value.sequence == sequence && SameRequest(m.value, PayloadOf(input, None), actingAs)
    ensures Sending(e, p, again, actingAs2, env)
         == (e, if PayloadOf(again, None) == PayloadOf(input, None) then Resent(sequence) else Refused(409))
  {
    PriorExtends(d.thread.log, e.thread.log[|d.thread.log|..], p, input.key);
    assert e.thread.log == d.thread.log + e.thread.log[|d.thread.log|..];
  }

  /** The checks `CreateFor` makes before it looks for a prior inquiry. */
  predicate RequestOk(inbox: Identity, input: Input) {
    input.choice.None? && (input.mention ==> inbox.kind == "arcade") && InputOk(input) && InboxOk(inbox)
  }

  /** An inquiry is created once. In every later state the requester's same request leads to the same conversation,
      another inbox, opening or content under its key is refused, and neither changes anything, whatever has become
      of the script and the limits. */
  lemma CreatedOnce(w: World, p: Participant, inbox: Identity, input: Input, opening: Opening, stored: Option<Config>,
                    env: Env, id: string, ops: seq<Op>, inbox2: Identity, again: Input, opening2: Opening,
                    stored2: Option<Config>, env2: Env, id2: string)
    requires WorldInv(w) && id !in w && Creating(w, p, inbox, input, opening, stored, env, id).1.Created?
    requires again.key == input.key && RequestOk(inbox2, again)
    ensures var v := Run(Creating(w, p, inbox, input, opening, stored, env, id).0, ops);
            Creating(v, p, inbox2, again, opening2, stored2, env2, id2)
            == (v, if inbox2 == inbox && OpeningPayload(again, opening2) == OpeningPayload(input, opening)
                   then Recreated(id) else Declined(409))
  {
    var u := Creating(w, p, inbox, input, opening, stored, env, id).0;
    CreatedBegins(w, p, inbox, input, opening, stored, env, id);
    var v := Run(u, ops);
    hide Inv, Opened, WorldGrows, Run, Step, Grows, Begins, WorldInv, OpeningPayload;
    LaterBegins(u, ops, id, p, inbox, input.key, OpeningPayload(input, opening));
    OpenerFound(v, id, p, inbox, input.key, OpeningPayload(input, opening));
    AnswerFound(v, id, p, inbox, OpeningPayload(input, opening), inbox2, again, opening2, stored2, env2, id2);
  }

  lemma CreatedBegins(w: World, p: Participant, inbox: Identity, input: Input, opening: Opening,
                      stored: Option<Config>, env: Env, id: string)
    requires WorldInv(w) && id !in w && Creating(w, p, inbox, input, opening, stored, env, id).1.Created?
    ensures var u := Creating(w, p, inbox, input, opening, stored, env, id).0;
            WorldInv(u) && id in u && Begins(u[id], id, p, inbox, input.key, OpeningPayload(input, opening))
  {
    hide WorldInv, WorldGrows, Begins, Opened, PriorCase;
    CreatingKeeps(w, p, inbox, input, opening, stored, env, id);
    OpenedBegins(id, p, inbox, input, opening, stored, env);
  }

  lemma LaterBegins(u: World, ops: seq<Op>, id: string, p: Participant, inbox: Identity, key: ClientKey,
                    payload: Payload)
    requires WorldInv(u) && id in u && Begins(u[id], id, p, inbox, key, payload)
    ensures var v := Run(u, ops); WorldInv(v) && id in v && Begins(v[id], id, p, inbox, key, payload)
  {
    hide WorldInv, Begins, Grows, Run;
    InvRun(u, ops);
    BeginsGrows(u[id], Run(u, ops)[id], id, p, inbox, key, payload);
  }

  lemma AnswerFound(v: World, id: string, p: Participant, inbox: Identity, payload: Payload, inbox2: Identity,
                    again: Input, opening2: Opening, stored2: Option<Config>, env2: Env, id2: string)
    requires id in v && PriorCase(v, p, again.key) == Some(id) && RequestOk(inbox2, again)
    requires Matches(v[id], p, inbox2, OpeningPayload(again, opening2)) <==>
        inbox2 == inbox && OpeningPayload(again, opening2) == payload
    ensures Creating(v, p, inbox2, again, opening2, stored2, env2, id2)
         == (v, if inbox2 == inbox && OpeningPayload(again, opening2) == payload then Recreated(id) else Declined(409))
  {
    hide OpeningPayload, Matches, Opened, PriorCase;
  }

  lemma OpenerFound(v: World, id: string, p: Participant, inbox: Identity, key: ClientKey, payload: Payload)
    requires WorldInv(v) && id in v && Begins(v[id], id, p, inbox, key, payload)
    ensures PriorCase(v, p, key) == Some(id)
    ensures forall inbox2, payload2 :: Matches(v[id], p, inbox2, payload2) <==> inbox2 == inbox && payload2 == payload
  {
    hide Inv;
    assert Opens(v[id], p, key);
  }

  /** Two users share one direct conversation: whoever asks later, in whatever state, gets the same one. */
  lemma PairSharesOne(w: World, p: Participant, peer: UserId, env: Env, id: string, ops: seq<Op>, env2: Env,
                      id2: string)
    requires WorldInv(w) && id !in w && CreatingDm(w, p, peer, env, id).1.Created?
    ensures var v := Run(CreatingDm(w, p, peer, env, id).0, ops);
            && CreatingDm(v, p, peer, env2, id2) == (v, Recreated(id))
            && CreatingDm(v, UserParty(peer), p.id, env2, id2) == (v, Recreated(id))
  {
    var u := CreatingDm(w, p, peer, env, id).0;
    hide WorldInv, Grows, Run, PriorDm, SamePair;
    CreatingDmKeeps(w, p, peer, env, id);
    InvRun(u, ops);
    PairFound(u, Run(u, ops), id, p.id, peer);
  }

  lemma PairFound(u: World, v: World, id: string, a: UserId, b: UserId)
    requires WorldInv(v) && id in u && u[id] == EmptyDm(id, a, b) && id in v && Grows(u[id], v[id])
    ensures PriorDm(v, a, b) == Some(id) && PriorDm(v, b, a) == Some(id)
  {
    assert SamePair(v[id], a, b) && SamePair(v[id], b, a);
  }
}
