/** What each accepted request and worker step of the community leaves behind, field by field, in every reachable state
    (handlers/community/worker.go, post.go and social.go). */
module CommunityOutcomes {
  import opened Common
  import opened CommunityTranslation

  /** A record that readers can see and the worker touches. */
  ghost predicate Shown(items: Items, key: Key) {
    && key in items && items[key].active
    && (key.CommentKey? ==> PostKey(items[key].post) in items && items[PostKey(items[key].post)].active)
  }

  /** The claim is the attempt that the record is processing. */
  ghost predicate InProgress(items: Items, c: Claim) {
    Shown(items, c.key) && items[c.key].status == Processing && items[c.key].attempts == c.attempt
  }

  // ---------------------------------------------------------------------------------------------
  // The worker
  // ---------------------------------------------------------------------------------------------

  /** A claim is taken exactly while attempts are left, the delay is over, and no lease of ten minutes runs. It starts
      the lease and counts the attempt, and the worker knows what it has to translate. */
  lemma ClaimOutcome(ops: seq<Op>, worker: nat, key: Key, now: int)
    requires worker !in Run(EMPTY, ops).inflight
    ensures var w, v := Run(EMPTY, ops), Step(Run(EMPTY, ops), OpClaim(worker, key, now));
            if Shown(w.items, key) && w.items[key].attempts < 5 && w.items[key].translateAfter <= now
               && w.items[key].status != Ready
               && (w.items[key].status == Processing ==> w.items[key].startedAt.Some?
                                                         && w.items[key].startedAt.value + 600 <= now)
            then
              var item := w.items[key];
              var source := Content(item.title, item.body);
              v == World(w.items[key := item.(status := Processing, attempts := item.attempts + 1,
                                              startedAt := Some(now), originalHash := Hash(source))],
                         w.inflight[worker := Claim(key, source, Hash(source), item.attempts + 1)])
            else v == w
  {
    hide Run;
  }

  /** An answer for the attempt in progress is stored if the record still has the text that was translated, and sends
      the record back otherwise. Any other answer changes nothing. */
  lemma AnswerOutcome(ops: seq<Op>, worker: nat, texts: map<string, Content>, now: int)
    requires worker in Run(EMPTY, ops).inflight
    ensures var w, v := Run(EMPTY, ops), Step(Run(EMPTY, ops), OpComplete(worker, texts, now));
            var c := w.inflight[worker];
            && c.key in w.items && v.inflight == w.inflight - {worker}
            && var item := w.items[c.key];
               v.items ==
               if !InProgress(w.items, c) then w.items
               else if Content(item.title, item.body) == c.source
               then w.items[c.key := item.(translations := Some(Translation(c.source, texts)), status := Ready,
                                           startedAt := None, translatedAt := Some(now))]
               else w.items[c.key := item.(status := Pending, attempts := 0, startedAt := None)]
  {
    InvRun(EMPTY, ops);
    hide Run;
    var w := Run(EMPTY, ops);
    var c := w.inflight[worker];
    assert ClaimInv(w.items, c) && ItemInv(c.key, w.items[c.key]);
  }

  /** A failure of the attempt in progress is recorded with the delay of that attempt, as long as attempts are left. */
  lemma FailureOutcome(ops: seq<Op>, worker: nat, now: int)
    requires worker in Run(EMPTY, ops).inflight
    ensures var w, v := Run(EMPTY, ops), Step(Run(EMPTY, ops), OpFail(worker, now));
            var c := w.inflight[worker];
            && c.key in w.items && v.inflight == w.inflight - {worker}
            && var item := w.items[c.key];
               var again := if c.attempt == 1 then now + 60 else if c.attempt == 2 then now + 300
                            else if c.attempt == 3 then now + 900 else if c.attempt == 4 then now + 3600
                            else item.translateAfter;
               v.items ==
               if InProgress(w.items, c) && Content(item.title, item.body) == c.source
               then w.items[c.key := item.(status := Failed, startedAt := None, translateAfter := again)]
               else w.items
  {
    InvRun(EMPTY, ops);
    hide Run;
    var w := Run(EMPTY, ops);
    var c := w.inflight[worker];
    assert ClaimInv(w.items, c) && ItemInv(c.key, w.items[c.key]);
  }

  // ---------------------------------------------------------------------------------------------
  // Posts
  // ---------------------------------------------------------------------------------------------

  lemma CreatePostOutcome(w: World, id: string, author: string, title: string, body: string, now: int)
    ensures Step(w, OpCreatePost(id, author, title, body, now)) ==
            if PostKey(id) in w.items || body == "" then w
            else w.(items := w.items[PostKey(id) :=
                      Item(author, "", None, true, title, body, now + 300, now + 300, Pending, 0, None, None,
                           Hash(Content(title, body)), None)])
  {
  }

  /** The author can edit an active post until its window closes. The post then has the new title and body, and has to
      be translated afresh. */
  lemma UpdatePostOutcome(w: World, id: string, author: string, title: string, body: string, photosFit: bool,
                          now: int)
    ensures Step(w, OpUpdatePost(id, author, title, body, photosFit, now)) ==
            if Shown(w.items, PostKey(id)) && w.items[PostKey(id)].author == author && body != "" && photosFit
               && now < w.items[PostKey(id)].editableUntil
            then w.(items := w.items[PostKey(id) :=
                      w.items[PostKey(id)].(title := title, body := body, status := Pending, attempts := 0,
                                            startedAt := None, translatedAt := None, translations := None,
                                            originalHash := Hash(Content(title, body)))])
            else w
  {
  }

  /** The author's deletion takes the post and its comments out of view, with the texts of the comments and all
      translations, and touches nothing else. */
  lemma DeletePostOutcome(w: World, id: string, author: string)
    ensures Step(w, OpDeletePost(id, author)) ==
            if Shown(w.items, PostKey(id)) && w.items[PostKey(id)].author == author
            then w.(items := map k <- w.items ::
                      if k == PostKey(id) then w.items[k].(active := false, translations := None, startedAt := None)
                      else if k.CommentKey? && w.items[k].post == id
                      then w.items[k].(active := false, body := "", translations := None, startedAt := None)
                      else w.items[k])
            else w
  {
  }

  // ---------------------------------------------------------------------------------------------
  // Comments
  // ---------------------------------------------------------------------------------------------

  /** A comment joins the thread of the comment it answers, if it answers one. */
  lemma CreateCommentOutcome(w: World, id: string, post: string, reply: Reply, author: string, body: string,
                             hasPhotos: bool, now: int)
    ensures var target := if reply.replyTo.Some? then reply.replyTo else reply.parent;
            var thread := if target.Some? && CommentKey(target.value) in w.items then
                            if w.items[CommentKey(target.value)].parent.Some?
                            then w.items[CommentKey(target.value)].parent else target
                          else None;
            Step(w, OpCreateComment(id, post, reply, author, body, hasPhotos, now)) ==
            if && CommentKey(id) !in w.items && (body != "" || hasPhotos) && Shown(w.items, PostKey(post))
               && (target.Some? ==> Shown(w.items, CommentKey(target.value))
                                    && w.items[CommentKey(target.value)].post == post
                                    && (reply.parent.Some? ==> reply.parent == thread))
            then w.(items := w.items[CommentKey(id) :=
                      Item(author, post, thread, true, "", body, now + 300, now + 300,
                           if body == "" then Ready else Pending, 0, None, None, Hash(Content("", body)), None)])
            else w
  {
  }

  /** The author can edit a visible comment until its window closes; a new text has to be translated afresh. */
  lemma UpdateCommentOutcome(w: World, id: string, author: string, body: string, photosFit: bool, hasPhotos: bool,
                             now: int)
    ensures Step(w, OpUpdateComment(id, author, body, photosFit, hasPhotos, now)) ==
            if Shown(w.items, CommentKey(id)) && w.items[CommentKey(id)].author == author && photosFit
               && now < w.items[CommentKey(id)].editableUntil && (body != "" || hasPhotos)
               && w.items[CommentKey(id)].body != body
            then w.(items := w.items[CommentKey(id) :=
                      w.items[CommentKey(id)].(title := "", body := body,
                                               status := if body == "" then Ready else Pending, attempts := 0,
                                               startedAt := None, translatedAt := None, translations := None,
                                               originalHash := Hash(Content("", body)))])
            else w
  {
  }

  lemma DeleteCommentOutcome(w: World, id: string, author: string)
    ensures Step(w, OpDeleteComment(id, author)) ==
            if && CommentKey(id) in w.items && Shown(w.items, PostKey(w.items[CommentKey(id)].post))
               && w.items[CommentKey(id)].author == author
            then w.(items := w.items[CommentKey(id) :=
                      w.items[CommentKey(id)].(active := false, body := "", translations := None, startedAt := None)])
            else w
  {
  }

  // ---------------------------------------------------------------------------------------------
  // What readers get
  // ---------------------------------------------------------------------------------------------

  /** In every reachable state a visible record is served in the requested locale exactly if translations are public
      and the provider answered for its current text in that locale. */
  lemma ServedExactly(ops: seq<Op>, key: Key, requested: string, public: bool)
    requires Shown(Run(EMPTY, ops).items, key)
    ensures var item := Run(EMPTY, ops).items[key];
            Serve(item, requested, public) ==
            if public && requested != "ko-KR" && item.translations.Some? && requested in item.translations.value.texts
            then Served(item.translations.value.texts[requested], requested, true)
            else Served(Content(item.title, item.body), "ko-KR", false)
  {
    StoredTranslationIsCurrent(ops, key);
    hide Run;
  }

  /** A post that is claimed once its edit window is over and then answered is served in every locale of the answer. */
  lemma TranslationIsServed(id: string, author: string, title: string, body: string, created: int, worker: nat,
                            claimed: int, texts: map<string, Content>, answered: int, requested: string)
    requires body != "" && created + 300 <= claimed && requested in texts && requested != "ko-KR"
    ensures var w := Run(EMPTY, [OpCreatePost(id, author, title, body, created), OpClaim(worker, PostKey(id), claimed),
                                 OpComplete(worker, texts, answered)]);
            PostKey(id) in w.items && Serve(w.items[PostKey(id)], requested, true)
                                      == Served(texts[requested], requested, true)
  {
    var key, source := PostKey(id), Content(title, body);
    var ops := [OpCreatePost(id, author, title, body, created), OpClaim(worker, key, claimed),
                OpComplete(worker, texts, answered)];
    var item := Item(author, "", None, true, title, body, created + 300, created + 300, Pending, 0, None, None,
                     Hash(source), None);
    var w1 := World(map[key := item], map[]);
    var w2 := World(map[key := item.(status := Processing, attempts := 1, startedAt := Some(claimed))],
                    map[worker := Claim(key, source, Hash(source), 1)]);
    assert ops[1..][0] == ops[1] && ops[1..][1..][0] == ops[2] && ops[1..][1..][1..] == [];
    assert Step(EMPTY, ops[0]) == w1;
    assert Step(w1, ops[1]) == w2;
    assert Run(w2, ops[1..][1..]) == Step(w2, ops[2]);
    assert Run(w1, ops[1..]) == Run(w2, ops[1..][1..]);
  }
}
