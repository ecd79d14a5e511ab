/** The community translation worker and the edits it races with (handlers/community/worker.go, post.go and
    social.go).

    Every request handler and every worker transaction is one atomic step on the stored records. The call to
    the provider happens between two transactions, so any number of claims can be in flight, for the same
    record too. Times are seconds; each step brings its own `now`, which need not be the latest one. */
module CommunityTranslation {
  import opened Common

  const MAX_ATTEMPTS := 5
  const LEASE := 600
  const EDIT_WINDOW := 300

  datatype Content = Content(title: string, body: string)

  /** `contentHash`, taken to be injective: the hash of a content is the content under a constructor. */
  datatype Hash = Hash(content: Content)

  /** What the provider returned for a source, per locale. */
  datatype Translation = Translation(source: Content, texts: map<string, Content>)

  datatype Status = Pending | Processing | Ready | Failed

  /** Posts and comments live in two collections with independent ids. */
  datatype Key = PostKey(id: string) | CommentKey(id: string)

  datatype Item = Item(author: string, post: string, parent: Option<string>, active: bool, title: string, body: string,
                       editableUntil: int, translateAfter: int, status: Status, attempts: nat,
                       startedAt: Option<int>, translatedAt: Option<int>, originalHash: Hash,
                       translations: Option<Translation>)
  {
    function Source(): Content { Content(title, body) }
  }

  type Items = map<Key, Item>

  /** A worker's knowledge between its two transactions. */
  datatype Claim = Claim(key: Key, source: Content, sourceHash: Hash, attempt: nat)

  // ---------------------------------------------------------------------------------------------
  // The decisions
  // ---------------------------------------------------------------------------------------------

  predicate ActivePost(items: Items, id: string) {
    PostKey(id) in items && items[PostKey(id)].active
  }

  /** Comments are only touched by the worker while their post is active. */
  predicate Reachable(items: Items, key: Key) {
    key in items && (key.CommentKey? ==> ActivePost(items, items[key].post))
  }

  predicate Claimable(item: Item, now: int) {
    && item.active && item.attempts < MAX_ATTEMPTS && item.translateAfter <= now
    && match item.status
       case Pending | Failed => true
       case Processing => item.startedAt.Some? && item.startedAt.value <= now - LEASE
       case Ready => false
  }

  function RetryDelay(attempt: nat): (delay: nat)
    ensures 60 <= delay <= 3600
  {
    match attempt
    case 1 => 60
    case 2 => 300
    case 3 => 900
    case _ => 3600
  }

  /** The guard with which a worker finds its own claim again. It compares attempt numbers only. */
  predicate StillMine(items: Items, c: Claim) {
    && Reachable(items, c.key)
    && items[c.key].active
    && items[c.key].status == Processing
    && items[c.key].attempts == c.attempt
  }

  predicate SourceChanged(item: Item, c: Claim) {
    Hash(item.Source()) != c.sourceHash || item.originalHash != c.sourceHash
  }

  // ---------------------------------------------------------------------------------------------
  // The stored record after each step
  // ---------------------------------------------------------------------------------------------

  function NewPost(author: string, title: string, body: string, now: int): Item {
    Item(author, "", None, true, title, body, now + EDIT_WINDOW, now + EDIT_WINDOW, Pending, 0, None, None,
         Hash(Content(title, body)), None)
  }

  function NewComment(author: string, post: string, parent: Option<string>, body: string, now: int): Item {
    Item(author, post, parent, true, "", body, now + EDIT_WINDOW, now + EDIT_WINDOW,
         if body == "" then Ready else Pending, 0, None, None, Hash(Content("", body)), None)
  }

  function Edited(item: Item, title: string, body: string): Item {
    item.(title := title, body := body, status := if body == "" then Ready else Pending, attempts := 0,
          startedAt := None, translatedAt := None, translations := None,
          originalHash := Hash(Content(title, body)))
  }

  function Erased(item: Item): Item {
    item.(active := false, body := "", translations := None, startedAt := None)
  }

  function Retired(item: Item): Item {
    item.(active := false, translations := None, startedAt := None)
  }

  function Claimed(item: Item, now: int): Item {
    item.(status := Processing, attempts := item.attempts + 1, startedAt := Some(now),
          originalHash := Hash(item.Source()))
  }

  function Completed(item: Item, c: Claim, texts: map<string, Content>, now: int): Item {
    if SourceChanged(item, c) then item.(status := Pending, attempts := 0, startedAt := None)
    else item.(translations := Some(Translation(c.source, texts)), status := Ready, startedAt := None,
               translatedAt := Some(now))
  }

  function FailedItem(item: Item, attempt: nat, now: int): Item {
    item.(status := Failed, startedAt := None,
          translateAfter := if attempt < MAX_ATTEMPTS then now + RetryDelay(attempt) else item.translateAfter)
  }

  // ---------------------------------------------------------------------------------------------
  // Steps on the whole store
  // ---------------------------------------------------------------------------------------------

  predicate PostEditable(items: Items, id: string, author: string, body: string, photosFit: bool, now: int) {
    && body != "" && ActivePost(items, id)
    && items[PostKey(id)].author == author
    && now < items[PostKey(id)].editableUntil
    && photosFit
  }

  predicate CommentEditable(items: Items, id: string, author: string, body: string, photosFit: bool,
                            hasPhotos: bool, now: int) {
    && Reachable(items, CommentKey(id)) && items[CommentKey(id)].active
    && items[CommentKey(id)].author == author
    && now < items[CommentKey(id)].editableUntil
    && photosFit && (body != "" || hasPhotos)
  }

  /** What a comment answers: the comment it replies to and the thread it names. */
  datatype Reply = Reply(replyTo: Option<string>, parent: Option<string>)
  {
    function Target(): Option<string> { if replyTo.Some? then replyTo else parent }
  }

  /** The first comment of the thread that a comment belongs to. */
  function ThreadOf(items: Items, target: Option<string>): Option<string> {
    if target.None? || CommentKey(target.value) !in items then None
    else if items[CommentKey(target.value)].parent.Some? then items[CommentKey(target.value)].parent
    else target
  }

  predicate CommentAllowed(items: Items, post: string, reply: Reply, body: string, hasPhotos: bool) {
    var target := reply.Target();
    && (body != "" || hasPhotos) && ActivePost(items, post)
    && (target.Some? ==> && Reachable(items, CommentKey(target.value)) && items[CommentKey(target.value)].active
                         && items[CommentKey(target.value)].post == post
                         && (reply.parent.Some? ==> reply.parent == ThreadOf(items, target)))
  }

  /** Deleting a post retires it and erases every comment under it. */
  function AfterDeletePost(items: Items, id: string): Items
    requires PostKey(id) in items
  {
    map k <- items :: if k == PostKey(id) then Retired(items[k])
                      else if k.CommentKey? && items[k].post == id then Erased(items[k])
                      else items[k]
  }

  /** The records while a post is being deleted: the comments in `done` are erased. */
  ghost function Deleting(items: Items, post: Key, done: set<Key>): Items {
    map k <- items :: if k == post then Retired(items[k]) else if k in done then Erased(items[k]) else items[k]
  }

  lemma DeletingNext(items: Items, post: Key, done: set<Key>, k: Key)
    requires k in items && k != post && k !in done
    ensures k in Deleting(items, post, done)
    ensures Deleting(items, post, done + {k})
         == Deleting(items, post, done)[k := Erased(Deleting(items, post, done)[k])]
  {
    hide Erased, Retired;
  }

  lemma DeletingAll(items: Items, id: string, comments: set<Key>)
    requires PostKey(id) in items
    requires comments == set k | k in items && k.CommentKey? && items[k].post == id
    ensures Deleting(items, PostKey(id), comments) == AfterDeletePost(items, id)
  {
    hide Erased, Retired;
  }

  predicate MayDeletePost(items: Items, id: string, author: string) {
    ActivePost(items, id) && items[PostKey(id)].author == author
  }

  predicate MayDeleteComment(items: Items, id: string, author: string) {
    Reachable(items, CommentKey(id)) && items[CommentKey(id)].author == author
  }

  // ---------------------------------------------------------------------------------------------
  // The store
  // ---------------------------------------------------------------------------------------------

  class CommunityStore {
    var items: Items

    constructor ()
      ensures items == map[]
    {
      items := map[];
    }

    method CreatePost(id: string, author: string, title: string, body: string, now: int) returns (ok: bool)
      requires PostKey(id) !in items
      modifies this
      ensures ok == (body != "")
      ensures items == if ok then old(items)[PostKey(id) := NewPost(author, title, body, now)] else old(items)
    {
      if body == "" {
        return false;
      }
      var until := now + EDIT_WINDOW;
      items := items[PostKey(id) := Item(author, "", None, true, title, body, until, until, Pending, 0, None, None,
                                         Hash(Content(title, body)), None)];
      return true;
    }

    /** `photosFit` stands for the checks on photo counts and flair, which only reject. */
    method UpdatePost(id: string, author: string, title: string, body: string, photosFit: bool, now: int)
      returns (ok: bool)
      modifies this
      ensures ok == PostEditable(old(items), id, author, body, photosFit, now)
      ensures items == if ok then old(items)[PostKey(id) := Edited(old(items)[PostKey(id)], title, body)]
          else old(items)
    {
      if body == "" {
        return false;
      }
      var key := PostKey(id);
      if key !in items || !items[key].active {
        return false;
      }
      var record := items[key];
      if record.author != author || record.editableUntil <= now || !photosFit {
        return false;
      }
      record := record.(title := title, body := body);
      record := record.(status := Pending, attempts := 0, startedAt := None, translatedAt := None);
      record := record.(translations := None, originalHash := Hash(Content(title, body)));
      items := items[key := record];
      return true;
    }

    method DeletePost(id: string, author: string) returns (ok: bool)
      modifies this
      ensures ok <==> PostKey(id) in old(items) && old(items)[PostKey(id)].author == author
      ensures items == if MayDeletePost(old(items), id, author) then AfterDeletePost(old(items), id) else old(items)
    {
      var key := PostKey(id);
      if key !in items || items[key].author != author {
        return false;
      }
      if !items[key].active {
        return true;
      }
      ghost var before := items;
      items := items[key := items[key].(active := false, translations := None, startedAt := None)];
      var comments := set k | k in items && k.CommentKey? && items[k].post == id;
      var rest := comments;
      assert items == Deleting(before, key, {});
      DeletingAll(before, id, comments);
      hide Deleting, Retired, Erased, MayDeletePost;
      while rest != {}
        invariant rest <= comments && items == Deleting(before, key, comments - rest)
        decreases rest
      {
        var k :| k in rest;
        DeletingNext(before, key, comments - rest, k);
        assert comments - (rest - {k}) == comments - rest + {k};
        EraseComment(k);
        rest := rest - {k};
      }
      assert comments - rest == comments;
      return true;
    }

    method EraseComment(key: Key)
      requires key in items
      modifies this
      ensures items == old(items)[key := Erased(old(items)[key])]
    {
      var record := items[key];
      record := record.(active := false, body := "");
      record := record.(translations := None, startedAt := None);
      items := items[key := record];
    }

    method CreateComment(id: string, post: string, reply: Reply, author: string, body: string,
                         hasPhotos: bool, now: int) returns (ok: bool)
      requires CommentKey(id) !in items
      modifies this
      ensures ok == CommentAllowed(old(items), post, reply, body, hasPhotos)
      ensures items == if ok
                       then old(items)[CommentKey(id) :=
                              NewComment(author, post, ThreadOf(old(items), reply.Target()), body, now)]
                       else old(items)
    {
      if body == "" && !hasPhotos {
        return false;
      }
      if !ActivePost(items, post) {
        return false;
      }
      var target := reply.replyTo;
      if target.None? {
        target := reply.parent;
      }
      var parent := None;
      if target.Some? {
        var key := CommentKey(target.value);
        if key !in items || !items[key].active || !ActivePost(items, items[key].post) || items[key].post != post {
          return false;
        }
        parent := items[key].parent;
        if parent.None? {
          parent := target;
        }
        if reply.parent.Some? && reply.parent != parent {
          return false;
        }
      }
      var until := now + EDIT_WINDOW;
      var saved := Item(author, post, parent, true, "", body, until, until, Pending, 0, None, None,
                        Hash(Content("", body)), None);
      if body == "" {
        saved := saved.(status := Ready);
      }
      items := items[CommentKey(id) := saved];
      return true;
    }

    method UpdateComment(id: string, author: string, body: string, photosFit: bool, hasPhotos: bool, now: int)
      returns (ok: bool)
      requires forall k <- items :: k.CommentKey? ==> items[k].title == ""
      modifies this
      ensures ok == CommentEditable(old(items), id, author, body, photosFit, hasPhotos, now)
      ensures items == if ok && old(items)[CommentKey(id)].body != body
                       then old(items)[CommentKey(id) := Edited(old(items)[CommentKey(id)], "", body)]
                       else old(items)
    {
      var key := CommentKey(id);
      if key !in items || !items[key].active || !ActivePost(items, items[key].post) {
        return false;
      }
      var record := items[key];
      if record.author != author || record.editableUntil <= now || !photosFit || (body == "" && !hasPhotos) {
        return false;
      }
      if record.body != body {
        record := record.(body := body, status := Pending);
        if body == "" {
          record := record.(status := Ready);
        }
        record := record.(attempts := 0, startedAt := None, translations := None, translatedAt := None);
        record := record.(originalHash := Hash(Content("", body)));
        items := items[key := record];
      }
      return true;
    }

    method DeleteComment(id: string, author: string) returns (ok: bool)
      modifies this
      ensures ok == MayDeleteComment(old(items), id, author)
      ensures items == if ok then old(items)[CommentKey(id) := Erased(old(items)[CommentKey(id)])] else old(items)
    {
      var key := CommentKey(id);
      if key !in items || !ActivePost(items, items[key].post) || items[key].author != author {
        return false;
      }
      EraseComment(key);
      return true;
    }

    /** First transaction of the worker. */
    method ClaimTranslation(key: Key, now: int) returns (claim: Option<Claim>)
      modifies this
      ensures claim.Some? <==> Reachable(old(items), key) && Claimable(old(items)[key], now)
      ensures claim.Some? ==>
                && items == old(items)[key := Claimed(old(items)[key], now)]
                && claim.value == NewClaim(old(items), key)
      ensures claim.None? ==> items == old(items)
    {
      if key !in items {
        return None;
      }
      var record := items[key];
      if key.CommentKey? && !ActivePost(items, record.post) {
        return None;
      }
      if !Claimable(record, now) {
        return None;
      }
      var source := Content(record.title, record.body);
      var sourceHash := Hash(source);
      var attempt := record.attempts + 1;
      record := record.(status := Processing, attempts := attempt, startedAt := Some(now), originalHash := sourceHash);
      items := items[key := record];
      return Some(Claim(key, source, sourceHash, attempt));
    }

    /** Second transaction of the worker, after the provider answered. */
    method CompleteTranslation(c: Claim, texts: map<string, Content>, now: int)
      modifies this
      ensures items == AfterComplete(old(items), c, texts, now)
    {
      if c.key !in items {
        return;
      }
      var record := items[c.key];
      if c.key.CommentKey? && !ActivePost(items, record.post) {
        return;
      }
      if !record.active || record.status != Processing || record.attempts != c.attempt {
        return;
      }
      var currentHash := Hash(Content(record.title, record.body));
      if currentHash != c.sourceHash || record.originalHash != c.sourceHash {
        record := record.(status := Pending, attempts := 0, startedAt := None);
        items := items[c.key := record];
        return;
      }
      record := record.(translations := Some(Translation(c.source, texts)), status := Ready);
      record := record.(startedAt := None, translatedAt := Some(now));
      items := items[c.key := record];
    }

    /** Second transaction of the worker, after the provider failed. */
    method FailTranslation(c: Claim, now: int)
      modifies this
      ensures items == AfterFail(old(items), c, now)
    {
      if c.key !in items {
        return;
      }
      var record := items[c.key];
      if c.key.CommentKey? && !ActivePost(items, record.post) {
        return;
      }
      if !record.active || record.status != Processing || record.attempts != c.attempt
         || record.originalHash != c.sourceHash {
        return;
      }
      record := record.(status := Failed, startedAt := None);
      if c.attempt < MAX_ATTEMPTS {
        record := record.(translateAfter := now + RetryDelay(c.attempt));
      }
      items := items[c.key := record];
    }
  }

  function NewClaim(items: Items, key: Key): Claim
    requires key in items
  {
    var item := items[key];
    Claim(key, item.Source(), Hash(item.Source()), item.attempts + 1)
  }

  function AfterComplete(items: Items, c: Claim, texts: map<string, Content>, now: int): Items {
    if StillMine(items, c) then items[c.key := Completed(items[c.key], c, texts, now)] else items
  }

  function AfterFail(items: Items, c: Claim, now: int): Items {
    if StillMine(items, c) && items[c.key].originalHash == c.sourceHash
    then items[c.key := FailedItem(items[c.key], c.attempt, now)] else items
  }

  // ---------------------------------------------------------------------------------------------
  // Runs: the store together with the claims in flight
  // ---------------------------------------------------------------------------------------------

  datatype World = World(items: Items, inflight: map<nat, Claim>)

  datatype Op =
    | OpCreatePost(id: string, author: string, title: string, body: string, now: int)
    | OpUpdatePost(id: string, author: string, title: string, body: string, photosFit: bool, now: int)
    | OpDeletePost(id: string, author: string)
    | OpCreateComment(id: string, post: string, reply: Reply, author: string, body: string, hasPhotos: bool, now: int)
    | OpUpdateComment(id: string, author: string, body: string, photosFit: bool, hasPhotos: bool, now: int)
    | OpDeleteComment(id: string, author: string)
    | OpClaim(worker: nat, key: Key, now: int)
    | OpComplete(worker: nat, texts: map<string, Content>, now: int)
    | OpFail(worker: nat, now: int)
    | OpCrash(worker: nat)

  predicate Claims(w: World, op: Op, key: Key) {
    op.OpClaim? && op.key == key && op.worker !in w.inflight && Reachable(w.items, key)
        && Claimable(w.items[key], op.now)
  }

  /** The edit steps that reset a record. */
  predicate Edits(w: World, op: Op, key: Key) {
    match op
    case OpUpdatePost(id, author, title, body, photosFit, now) =>
      key == PostKey(id) && PostEditable(w.items, id, author, body, photosFit, now)
    case OpUpdateComment(id, author, body, photosFit, hasPhotos, now) =>
      && key == CommentKey(id) && CommentEditable(w.items, id, author, body, photosFit, hasPhotos, now)
      && w.items[key].body != body
    case _ => false
  }

  /** One step of the system; a rejected request changes nothing. */
  function Step(w: World, op: Op): World {
    match op
    case OpCreatePost(id, author, title, body, now) =>
      if PostKey(id) !in w.items && body != ""
      then w.(items := w.items[PostKey(id) := NewPost(author, title, body, now)]) else w
    case OpUpdatePost(id, author, title, body, photosFit, now) =>
      if Edits(w, op, PostKey(id))
      then w.(items := w.items[PostKey(id) := Edited(w.items[PostKey(id)], title, body)]) else w
    case OpDeletePost(id, author) =>
      if MayDeletePost(w.items, id, author) then w.(items := AfterDeletePost(w.items, id)) else w
    case OpCreateComment(id, post, reply, author, body, hasPhotos, now) =>
      if CommentKey(id) !in w.items && CommentAllowed(w.items, post, reply, body, hasPhotos)
      then w.(items := w.items[CommentKey(id) :=
                NewComment(author, post, ThreadOf(w.items, reply.Target()), body, now)])
      else w
    case OpUpdateComment(id, author, body, photosFit, hasPhotos, now) =>
      if Edits(w, op, CommentKey(id))
      then w.(items := w.items[CommentKey(id) := Edited(w.items[CommentKey(id)], "", body)]) else w
    case OpDeleteComment(id, author) =>
      if MayDeleteComment(w.items, id, author)
      then w.(items := w.items[CommentKey(id) := Erased(w.items[CommentKey(id)])]) else w
    case OpClaim(worker, key, now) =>
      if Claims(w, op, key)
      then World(w.items[key := Claimed(w.items[key], now)], w.inflight[worker := NewClaim(w.items, key)]) else w
    case OpComplete(worker, texts, now) =>
      if worker in w.inflight
      then World(AfterComplete(w.items, w.inflight[worker], texts, now), w.inflight - {worker}) else w
    case OpFail(worker, now) =>
      if worker in w.inflight
      then World(AfterFail(w.items, w.inflight[worker], now), w.inflight - {worker}) else w
    case OpCrash(worker) => w.(inflight := w.inflight - {worker})
  }

  function Run(w: World, ops: seq<Op>): World
    decreases |ops|
  {
    if ops == [] then w else Run(Step(w, ops[0]), ops[1..])
  }

  const EMPTY := World(map[], map[])

  // ---------------------------------------------------------------------------------------------
  // What holds in every reachable state
  // ---------------------------------------------------------------------------------------------

  ghost predicate ItemInv(key: Key, item: Item) {
    && item.attempts <= MAX_ATTEMPTS
    // a stored translation is the one of the current title and body; an active, ready record has one unless
    // there is nothing to translate, and no other record has one
    && (item.translations.Some? ==> item.translations.value.source == item.Source())
    && (item.translations.Some? <==> item.active && item.status == Ready && item.body != "")
    && (item.active ==> item.originalHash == Hash(item.Source()))
    && (item.active && item.body == "" ==> item.status == Ready && key.CommentKey?)
    && (item.active && item.status == Processing ==> item.attempts >= 1 && item.startedAt.Some?)
    && (key.CommentKey? ==> item.title == "")
  }

  ghost predicate ClaimInv(items: Items, c: Claim) {
    c.key in items && c.sourceHash == Hash(c.source) && 1 <= c.attempt <= MAX_ATTEMPTS
  }

  ghost predicate Inv(w: World) {
    && (forall k <- w.items :: ItemInv(k, w.items[k]))
    // a deleted post leaves no visible comment behind
    && (forall k <- w.items :: k.CommentKey? && w.items[k].active ==> ActivePost(w.items, w.items[k].post))
    && (forall t <- w.inflight :: ClaimInv(w.items, w.inflight[t]))
  }

  /** Writing one record that is fine by itself keeps the whole store fine. */
  lemma InvWrite(w: World, key: Key, item: Item, inflight: map<nat, Claim>)
    requires Inv(w) && ItemInv(key, item)
    requires key.PostKey? && key in w.items && w.items[key].active ==> item.active
    requires key.CommentKey? && item.active ==> ActivePost(w.items, item.post)
    requires forall t <- inflight :: ClaimInv(w.items, inflight[t])
    ensures Inv(World(w.items[key := item], inflight))
  {
  }

  lemma InvDeletePost(w: World, id: string)
    requires Inv(w) && PostKey(id) in w.items
    ensures Inv(w.(items := AfterDeletePost(w.items, id)))
  {
  }

  lemma InvStep(w: World, op: Op)
    requires Inv(w)
    ensures Inv(Step(w, op))
  {
    match op {
      case OpDeletePost(id, author) =>
        if MayDeletePost(w.items, id, author) {
          InvDeletePost(w, id);
        }
      case OpClaim(worker, key, now) =>
        if Claims(w, op, key) {
          InvWrite(w, key, Claimed(w.items[key], now), w.inflight[worker := NewClaim(w.items, key)]);
        }
      case OpComplete(worker, texts, now) =>
        if worker in w.inflight && StillMine(w.items, w.inflight[worker]) {
          var c := w.inflight[worker];
          InvWrite(w, c.key, Completed(w.items[c.key], c, texts, now), w.inflight - {worker});
        }
      case OpFail(worker, now) =>
        if worker in w.inflight && StillMine(w.items, w.inflight[worker]) {
          var c := w.inflight[worker];
          InvWrite(w, c.key, FailedItem(w.items[c.key], c.attempt, now), w.inflight - {worker});
        }
      case OpCrash(worker) =>
      case _ => InvRequest(w, op);
    }
  }

  lemma InvRequest(w: World, op: Op)
    requires Inv(w) && !op.OpDeletePost? && !op.OpClaim? && !op.OpComplete? && !op.OpFail? && !op.OpCrash?
    ensures Inv(Step(w, op))
  {
    match op {
      case OpCreatePost(id, author, title, body, now) =>
        if body != "" {
          InvWrite(w, PostKey(id), NewPost(author, title, body, now), w.inflight);
        }
      case OpUpdatePost(id, author, title, body, photosFit, now) =>
        if Edits(w, op, PostKey(id)) {
          InvWrite(w, PostKey(id), Edited(w.items[PostKey(id)], title, body), w.inflight);
        }
      case OpCreateComment(id, post, reply, author, body, hasPhotos, now) =>
        if CommentAllowed(w.items, post, reply, body, hasPhotos) {
          InvWrite(w, CommentKey(id), NewComment(author, post, ThreadOf(w.items, reply.Target()), body, now),
              w.inflight);
        }
      case OpUpdateComment(id, author, body, photosFit, hasPhotos, now) =>
        if Edits(w, op, CommentKey(id)) {
          InvWrite(w, CommentKey(id), Edited(w.items[CommentKey(id)], "", body), w.inflight);
        }
      case OpDeleteComment(id, author) =>
        if MayDeleteComment(w.items, id, author) {
          InvWrite(w, CommentKey(id), Erased(w.items[CommentKey(id)]), w.inflight);
        }
    }
  }

  /** Safety over every run, with any interleaving of edits, deletes, claims, answers and crashes. */
  lemma {:induction false} InvRun(w: World, ops: seq<Op>)
    requires Inv(w)
    ensures Inv(Run(w, ops))
    decreases |ops|
  {
    if ops != [] {
      InvStep(w, ops[0]);
      InvRun(Step(w, ops[0]), ops[1..]);
    }
  }

  /** The property readers rely on, for every run from an empty store. */
  lemma StoredTranslationIsCurrent(ops: seq<Op>, key: Key)
    requires key in Run(EMPTY, ops).items
    ensures var item := Run(EMPTY, ops).items[key];
            && (item.translations.Some? <==> item.active && item.status == Ready && item.body != "")
            && (item.translations.Some? ==> item.translations.value.source == Content(item.title, item.body))
            && item.attempts <= MAX_ATTEMPTS
  {
    InvRun(EMPTY, ops);
    assert ItemInv(key, Run(EMPTY, ops).items[key]);
  }

  /** A visible comment always has a visible post. */
  lemma DeletedPostsHaveNoComments(ops: seq<Op>, key: Key)
    requires key in Run(EMPTY, ops).items && key.CommentKey? && Run(EMPTY, ops).items[key].active
    ensures ActivePost(Run(EMPTY, ops).items, Run(EMPTY, ops).items[key].post)
  {
    InvRun(EMPTY, ops);
  }

  // ---------------------------------------------------------------------------------------------
  // Serving
  // ---------------------------------------------------------------------------------------------

  datatype Served = Served(content: Content, locale: string, translated: bool)

  /** The text part of `buildPostResponse`. */
  function Serve(item: Item, requested: string, public: bool): Served {
    if public && requested != "ko-KR" && item.status == Ready
       && item.translations.Some? && requested in item.translations.value.texts
    then Served(item.translations.value.texts[requested], requested, true)
    else Served(item.Source(), "ko-KR", false)
  }

  /** Whatever is served is the current original, or what the provider returned for the current original in
      the requested locale. */
  lemma ServedIsFaithful(ops: seq<Op>, key: Key, requested: string, public: bool)
    requires key in Run(EMPTY, ops).items && Run(EMPTY, ops).items[key].active
    ensures var item := Run(EMPTY, ops).items[key];
            var served := Serve(item, requested, public);
            if served.translated
            then && served.locale == requested && item.translations.Some?
                 && item.translations.value.source == item.Source()
                 && requested in item.translations.value.texts
                 && served.content == item.translations.value.texts[requested]
            else served == Served(item.Source(), "ko-KR", false)
  {
    StoredTranslationIsCurrent(ops, key);
  }

  // ---------------------------------------------------------------------------------------------
  // Which records a worker can still take up
  // ---------------------------------------------------------------------------------------------

  /** Whatever happened to earlier workers, an active record is claimable from some time on, unless its
      translation is done or its five attempts are used up. */
  lemma EventuallyClaimable(ops: seq<Op>, key: Key)
    requires key in Run(EMPTY, ops).items
    ensures var w := Run(EMPTY, ops);
            (exists now :: Reachable(w.items, key) && Claimable(w.items[key], now)) <==>
            (w.items[key].active && w.items[key].status != Ready && w.items[key].attempts < MAX_ATTEMPTS)
  {
    InvRun(EMPTY, ops);
    var w := Run(EMPTY, ops);
    var item := w.items[key];
    assert ItemInv(key, item);
    if item.active && item.status != Ready && item.attempts < MAX_ATTEMPTS {
      var leaseOver := if item.startedAt.Some? then item.startedAt.value + LEASE else item.translateAfter;
      var now := if leaseOver > item.translateAfter then leaseOver else item.translateAfter;
      assert Claimable(item, now);
    }
  }

  // ---------------------------------------------------------------------------------------------
  // How many claims a record can see
  // ---------------------------------------------------------------------------------------------

  function ClaimCount(w: World, ops: seq<Op>, key: Key): nat
    decreases |ops|
  {
    if ops == [] then 0
    else (if Claims(w, ops[0], key) then 1 else 0) + ClaimCount(Step(w, ops[0]), ops[1..], key)
  }

  function EditCount(w: World, ops: seq<Op>, key: Key): nat
    decreases |ops|
  {
    if ops == [] then 0
    else (if Edits(w, ops[0], key) then 1 else 0) + EditCount(Step(w, ops[0]), ops[1..], key)
  }

  function InFlight(w: World, key: Key): set<nat> {
    set t <- w.inflight | w.inflight[t].key == key
  }

  /** Claims whose source is no longer the record's: only these can reset the attempt counter. */
  function Stale(w: World, key: Key): set<nat>
    requires key in w.items
  {
    set t <- w.inflight | w.inflight[t].key == key && w.inflight[t].sourceHash != Hash(w.items[key].Source())
  }

  /** Attempts that are still possible without a further edit. */
  function Potential(w: World, key: Key): int {
    if key in w.items && w.items[key].active then 5 * |Stale(w, key)| + MAX_ATTEMPTS - w.items[key].attempts else 0
  }

  /** The potential does not rise, and a claim of the record uses up one unit of it. */
  ghost predicate Pays(w: World, op: Op, key: Key) {
    key in Step(w, op).items &&
    Potential(Step(w, op), key) + (if Claims(w, op, key) then 1 else 0) <= Potential(w, key)
  }

  lemma PotentialAnswer(w: World, worker: nat, key: Key, items: Items)
    requires Inv(w) && worker in w.inflight && key in w.items && key in items
    requires items[key].Source() == w.items[key].Source() && items[key].active == w.items[key].active
    requires items[key].attempts == w.items[key].attempts
             || (items[key].attempts == 0 && worker in Stale(w, key))
    ensures Potential(World(items, w.inflight - {worker}), key) <= Potential(w, key)
  {
    var v := World(items, w.inflight - {worker});
    assert Stale(v, key) == Stale(w, key) - {worker};
  }

  lemma PotentialComplete(w: World, worker: nat, texts: map<string, Content>, now: int, key: Key)
    requires Inv(w) && key in w.items
    ensures Pays(w, OpComplete(worker, texts, now), key)
  {
    if worker in w.inflight {
      PotentialAnswer(w, worker, key, AfterComplete(w.items, w.inflight[worker], texts, now));
    }
  }

  lemma PotentialFail(w: World, worker: nat, now: int, key: Key)
    requires Inv(w) && key in w.items
    ensures Pays(w, OpFail(worker, now), key)
  {
    if worker in w.inflight {
      PotentialAnswer(w, worker, key, AfterFail(w.items, w.inflight[worker], now));
    }
  }

  lemma PotentialCrash(w: World, worker: nat, key: Key)
    requires Inv(w) && key in w.items
    ensures Pays(w, OpCrash(worker), key)
  {
    if worker in w.inflight {
      PotentialAnswer(w, worker, key, w.items);
    } else {
      assert w.inflight - {worker} == w.inflight;
    }
  }

  lemma PotentialClaim(w: World, worker: nat, other: Key, now: int, key: Key)
    requires Inv(w) && key in w.items
    ensures Pays(w, OpClaim(worker, other, now), key)
  {
    var v := Step(w, OpClaim(worker, other, now));
    assert Stale(v, key) == Stale(w, key);
  }

  predicate IsRequest(op: Op) {
    !op.OpClaim? && !op.OpComplete? && !op.OpFail? && !op.OpCrash?
  }

  /** A request other than an edit leaves the record as it is or takes it out of view. */
  lemma RequestKeepsOrRetires(w: World, op: Op, key: Key)
    requires IsRequest(op) && key in w.items && !Edits(w, op, key)
    ensures Step(w, op).inflight == w.inflight && !Claims(w, op, key)
    ensures key in Step(w, op).items && (Step(w, op).items[key] == w.items[key] || !Step(w, op).items[key].active)
  {
    hide CommentEditable, PostEditable, CommentAllowed, MayDeletePost, MayDeleteComment, ThreadOf;
  }

  lemma PotentialSame(w: World, v: World, key: Key)
    requires key in w.items && key in v.items && v.inflight == w.inflight
    requires v.items[key] == w.items[key] || !v.items[key].active
    requires Inv(w)
    ensures Potential(v, key) <= Potential(w, key)
  {
    if v.items[key] == w.items[key] {
      assert Stale(v, key) == Stale(w, key);
    } else {
      assert ItemInv(key, w.items[key]);
    }
  }

  lemma PotentialRequest(w: World, op: Op, key: Key)
    requires Inv(w) && IsRequest(op) && key in w.items && !Edits(w, op, key)
    ensures Pays(w, op, key)
  {
    hide Step, Inv, Edits, Claims, Potential;
    RequestKeepsOrRetires(w, op, key);
    PotentialSame(w, Step(w, op), key);
  }

  /** Without an edit the potential never rises, and every claim uses up one unit of it. */
  lemma PotentialStep(w: World, op: Op, key: Key)
    requires Inv(w) && key in w.items && !Edits(w, op, key)
    ensures key in Step(w, op).items
    ensures Potential(Step(w, op), key) + (if Claims(w, op, key) then 1 else 0) <= Potential(w, key)
  {
    assert Pays(w, op, key) by {
      hide Inv, Edits, Pays;
      match op
      case OpClaim(worker, other, now) => PotentialClaim(w, worker, other, now, key);
      case OpComplete(worker, texts, now) => PotentialComplete(w, worker, texts, now, key);
      case OpFail(worker, now) => PotentialFail(w, worker, now, key);
      case OpCrash(worker) => PotentialCrash(w, worker, key);
      case _ => PotentialRequest(w, op, key);
    }
    hide Inv, Edits, Step, Potential, Claims;
  }

  /** From any state, a record that is not edited any more is claimed at most as often as its potential says. */
  lemma {:induction false} ClaimsWithoutEdits(w: World, ops: seq<Op>, key: Key)
    requires Inv(w) && key in w.items && EditCount(w, ops, key) == 0
    ensures key in Run(w, ops).items
    ensures ClaimCount(w, ops, key) + Potential(Run(w, ops), key) <= Potential(w, key)
    ensures ClaimCount(w, ops, key) <= Potential(w, key)
    decreases |ops|
  {
    if ops != [] {
      InvStep(w, ops[0]);
      PotentialStep(w, ops[0], key);
      ClaimsWithoutEdits(Step(w, ops[0]), ops[1..], key);
    } else {
      assert ItemInv(key, w.items[key]);
    }
  }

  function Pow6(n: nat): nat {
    if n == 0 then 1 else 6 * Pow6(n - 1)
  }

  /** After `claims` claims and `edits` edits: room for what is still to come. */
  ghost predicate Budget(w: World, key: Key, claims: nat, edits: nat) {
    && Inv(w)
    && |InFlight(w, key)| <= claims
    && claims + Potential(w, key) <= Pow6(edits + 1) - 1
    && (key !in w.items ==> claims == 0)
  }

  lemma BudgetEdit(w: World, op: Op, key: Key, claims: nat, edits: nat)
    requires Budget(w, key, claims, edits) && Edits(w, op, key)
    ensures Budget(Step(w, op), key, claims, edits + 1)
  {
    var v := Step(w, op);
    InvStep(w, op);
    assert InFlight(v, key) == InFlight(w, key);
    SubsetSize(Stale(v, key), InFlight(v, key));
    assert ItemInv(key, w.items[key]);
  }

  lemma BudgetStep(w: World, op: Op, key: Key, claims: nat, edits: nat)
    requires Budget(w, key, claims, edits) && !Edits(w, op, key)
    ensures Budget(Step(w, op), key, claims + (if Claims(w, op, key) then 1 else 0), edits)
  {
    InvStep(w, op);
    InFlightStep(w, op, key);
    if key in w.items {
      PotentialStep(w, op, key);
    } else {
      FreshPotential(w, op, key);
      Pow6Grows(edits);
    }
  }

  /** The worker that claims the record in this step. */
  function Claimers(w: World, op: Op, key: Key): set<nat> {
    if Claims(w, op, key) then {op.worker} else {}
  }

  lemma InFlightStep(w: World, op: Op, key: Key)
    ensures |InFlight(Step(w, op), key)| <= |InFlight(w, key)| + if Claims(w, op, key) then 1 else 0
  {
    InFlightWithin(w, op, key);
    SubsetSize(InFlight(Step(w, op), key), InFlight(w, key) + Claimers(w, op, key));
    hide Step, InFlight, Claims;
  }

  /** Only a claim adds to the claims of a record. */
  lemma InFlightWithin(w: World, op: Op, key: Key)
    ensures InFlight(Step(w, op), key) <= InFlight(w, key) + Claimers(w, op, key)
  {
    hide AfterComplete, AfterFail, AfterDeletePost, MayDeletePost, MayDeleteComment, CommentAllowed, Edits, Claimable,
         Reachable;
  }

  lemma FreshPotential(w: World, op: Op, key: Key)
    requires Inv(w) && key !in w.items
    ensures Potential(Step(w, op), key) <= MAX_ATTEMPTS
  {
    var v := Step(w, op);
    if key in v.items {
      forall t <- v.inflight ensures v.inflight[t].key != key {
        assert ClaimInv(w.items, w.inflight[t]);
      }
      assert Stale(v, key) == {};
    }
  }

  lemma {:induction false} Pow6Grows(n: nat)
    ensures Pow6(n + 1) >= 6
  {
    if n > 0 {
      Pow6Grows(n - 1);
    }
  }

  lemma BudgetPositive(w: World, key: Key, claims: nat, edits: nat)
    requires Budget(w, key, claims, edits)
    ensures claims <= Pow6(edits + 1) - 1
  {
    if key in w.items {
      assert ItemInv(key, w.items[key]);
    }
  }

  lemma BudgetNext(w: World, op: Op, key: Key, claims: nat, edits: nat)
    requires Budget(w, key, claims, edits)
    ensures Budget(Step(w, op), key, claims + (if Claims(w, op, key) then 1 else 0),
                   edits + if Edits(w, op, key) then 1 else 0)
  {
    hide Budget, Step, Edits;
    if Edits(w, op, key) {
      BudgetEdit(w, op, key, claims, edits);
      EditIsNoClaim(w, op, key);
    } else {
      BudgetStep(w, op, key, claims, edits);
    }
  }

  lemma EditIsNoClaim(w: World, op: Op, key: Key)
    requires Edits(w, op, key)
    ensures !Claims(w, op, key)
  {
  }

  lemma {:induction false} BudgetRun(w: World, ops: seq<Op>, key: Key, claims: nat, edits: nat)
    requires Budget(w, key, claims, edits)
    ensures claims + ClaimCount(w, ops, key) <= Pow6(edits + EditCount(w, ops, key) + 1) - 1
    decreases |ops|
  {
    hide Budget, Step, Claims, Edits, Pow6;
    if ops == [] {
      BudgetPositive(w, key, claims, edits);
    } else {
      BudgetNext(w, ops[0], key, claims, edits);
      BudgetRun(Step(w, ops[0]), ops[1..], key, claims + (if Claims(w, ops[0], key) then 1 else 0),
                edits + if Edits(w, ops[0], key) then 1 else 0);
    }
  }

  /** Over a whole run, a record with e accepted edits is claimed fewer than 6^(e+1) times: the provider is
      never called forever for a text nobody changes. */
  lemma ClaimsAreBounded(ops: seq<Op>, key: Key)
    ensures ClaimCount(EMPTY, ops, key) < Pow6(EditCount(EMPTY, ops, key) + 1)
  {
    assert InFlight(EMPTY, key) == {} && Pow6(0) == 1;
    BudgetRun(EMPTY, ops, key, 0, 0);
  }

  // ---------------------------------------------------------------------------------------------
  // The race that attempt numbers alone do not detect
  // ---------------------------------------------------------------------------------------------

  /** Worker 1 holds attempt 1 of the first text, worker 2 attempt 1 of the second one. Worker 1 comes back to a
      record that is processing attempt 1; only the content hash tells the two claims apart. */
  function RaceBeforeAnswer(): World {
    Run(EMPTY, [OpCreatePost("p", "u", "t", "one", 0), OpClaim(1, PostKey("p"), 300),
                OpUpdatePost("p", "u", "t", "two", true, 299), OpClaim(2, PostKey("p"), 301)])
  }

  lemma OldClaimNumberCanMatch(texts: map<string, Content>)
    ensures var w := RaceBeforeAnswer();
            && 1 in w.inflight && StillMine(w.items, w.inflight[1]) && w.inflight[1].source.body == "one"
            && w.items[PostKey("p")].body == "two"
            && Step(w, OpComplete(1, texts, 302)).items[PostKey("p")].translations == None
            && Step(w, OpComplete(1, texts, 302)).items[PostKey("p")].status == Pending
  {
    var key := PostKey("p");
    var first := NewPost("u", "t", "one", 0);
    var w1 := World(map[key := first], map[]);
    var w2 := World(map[key := Claimed(first, 300)],
        map[1 := Claim(key, Content("t", "one"), Hash(Content("t", "one")), 1)]);
    var second := Edited(Claimed(first, 300), "t", "two");
    var w3 := World(map[key := second], w2.inflight);
    var w4 := World(map[key := Claimed(second, 301)],
                    w2.inflight[2 := Claim(key, Content("t", "two"), Hash(Content("t", "two")), 1)]);
    var ops := [OpCreatePost("p", "u", "t", "one", 0), OpClaim(1, key, 300),
                OpUpdatePost("p", "u", "t", "two", true, 299), OpClaim(2, key, 301)];
    assert Step(EMPTY, ops[0]) == w1;
    assert Step(w1, ops[1]) == w2;
    assert Step(w2, ops[2]) == w3;
    assert Step(w3, ops[3]) == w4;
    assert ops[1..][1..] == ops[2..] && ops[2..][1..] == ops[3..] && ops[3..][1..] == [];
    assert Run(w3, ops[3..]) == w4;
    assert Run(w2, ops[2..]) == w4;
    assert Run(w1, ops[1..]) == w4;
  }
}
