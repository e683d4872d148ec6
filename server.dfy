/** The advanced demo's server: the registry of logged-in users' sessions,
    the request handlers that change a session and enqueue the page updates
    describing the change, and the stream endpoint that drains a session's
    queue into event-stream frames. Who is asking is abstracted to the user
    name read from the auth cookie, or None when there is no cookie or it
    cannot be decoded. */
module Server {
  import opened Wrappers
  import opened Json
  import opened Commands
  import opened Models
  import opened Pages
  import opened EventStream
  import opened Seqs

  /** The demo's fixed user database. */
  const Users: map<string, string> := map["mark" := "pass123", "luke" := "pass456"]

  /** A handler's reply: {"status": "success"}, {"status": "error"}, or 401. */
  datatype Status = Success | Error | Unauthorized

  /** The stream endpoint's reply: 404, or the frames written to the client. */
  datatype StreamReply = NotFound | Streamed(frames: seq<string>)

  /** A session as create_homepage leaves it: the queue installed, empty. */
  method CreateHomepage(username: string) returns (h: Homepage)
    ensures fresh(h)
    ensures h.username == username && h.hiddenMsg == HiddenMessage
    ensures h.posts == [] && h.updateQueue == Some([])
    ensures !h.btnPressed && h.sessionId == ""
  {
    h := new Homepage(username);
    h.updateQueue := Some([]);
  }

  class SessionRegistry {
    var sessions: map<string, Homepage>

    /** Every entry is the session of the user it is filed under, with its
        queue installed and the fixed secret; so distinct names never share
        a session. */
    ghost predicate Valid()
      reads this, sessions.Values
    {
      forall name :: name in sessions ==>
        sessions[name].username == name && sessions[name].updateQueue.Some?
        && sessions[name].hiddenMsg == HiddenMessage
    }

    constructor ()
      ensures Valid() && sessions == map[]
    {
      sessions := map[];
    }

    predicate Resolves(identity: Option<string>)
      reads this
    {
      identity.Some? && identity.value in sessions
    }

    /** The objects a handler acting for identity may change. */
    function Footprint(identity: Option<string>): set<Homepage>
      reads this
    {
      if Resolves(identity) then {sessions[identity.value]} else {}
    }

    /** Valid credentials yield the user's session, created on the first
        success and the very same object on every later one; anything else
        yields nothing and changes nothing. */
    method VerifyCredentials(username: string, password: string) returns (h: Homepage?)
      requires Valid()
      modifies this
      ensures Valid()
      ensures h != null <==> username in Users && password == Users[username]
      ensures h == null ==> sessions == old(sessions)
      ensures h != null && username in old(sessions) ==>
        h == old(sessions)[username] && sessions == old(sessions)
      ensures h != null && username !in old(sessions) ==>
        fresh(h) && sessions == old(sessions)[username := h]
        && h.username == username && h.posts == [] && h.updateQueue == Some([])
        && h.sessionId == "" && !h.btnPressed && h.hiddenMsg == HiddenMessage
    {
      if username in Users && password == Users[username] {
        if username !in sessions {
          var created := CreateHomepage(username);
          sessions := sessions[username := created];
        }
        return sessions[username];
      }
      return null;
    }

    /** Logging out drops that user's entry only, if there is one. */
    method Logout(identity: Option<string>)
      requires Valid()
      modifies this
      ensures Valid()
      ensures identity.Some? ==> sessions == old(sessions) - {identity.value}
      ensures identity.None? ==> sessions == old(sessions)
    {
      if identity.Some? {
        sessions := sessions - {identity.value};
      }
    }

    method Shutdown()
      modifies this
      ensures Valid() && sessions == map[]
    {
      sessions := map[];
    }
  }

  /** Rendering loop of the post list, shared by the handlers below: the
      opening tag, then one item per post (or the placeholder), then the
      closing tag. */
  method BuildPostsHtml(username: string, posts: seq<string>) returns (html: string)
    ensures html == PostsHtml(username, posts)
  {
    html := ListOpen(username);
    if |posts| > 0 {
      for i := 0 to |posts|
        invariant html == ListOpen(username) + ItemsHtml(posts[..i])
      {
        ItemsHtmlAppend(posts[..i], posts[i]);
        TakeSnoc(posts, i);
        AppendAssoc(ListOpen(username), ItemsHtml(posts[..i]), ItemHtml(i, posts[i]));
        html := html + ItemHtml(i, posts[i]);
      }
      TakeAll(posts);
    } else {
      html := html + Placeholder;
    }
    html := html + "</ol>";
  }

  /** Showing the home page takes a fresh nonce, which sticks only if the
      session had none. */
  method Home(reg: SessionRegistry, identity: Option<string>, nonce: string) returns (shown: bool)
    requires reg.Valid()
    modifies reg.Footprint(identity)`sessionId
    ensures reg.Valid()
    ensures shown <==> reg.Resolves(identity)
    ensures shown ==> var u := reg.sessions[identity.value];
      u.sessionId == (if old(u.sessionId) == "" then nonce else old(u.sessionId))
      && u.posts == old(u.posts) && u.updateQueue == old(u.updateQueue)
  {
    if !reg.Resolves(identity) {
      return false;
    }
    var user := reg.sessions[identity.value];
    user.SetSessionId(nonce);
    return true;
  }

  /** Appends the post, then enqueues the list, the form reset, the counter
      and the chart, all showing the list after the append. */
  method AddPost(reg: SessionRegistry, identity: Option<string>, content: string) returns (status: Status)
    requires reg.Valid()
    modifies reg.Footprint(identity)`posts, reg.Footprint(identity)`updateQueue
    ensures reg.Valid()
    ensures status == (if reg.Resolves(identity) then Success else Unauthorized)
    ensures reg.Resolves(identity) ==> var u := reg.sessions[identity.value];
      u.posts == old(u.posts) + [content]
      && u.updateQueue == Some(old(u.updateQueue).value + EncodeAll(AddPostCommands(u.username, u.posts)))
  {
    if !reg.Resolves(identity) {
      return Unauthorized;
    }
    var user := reg.sessions[identity.value];
    user.AddPost(content);
    SendAddPostUpdates(user);
    return Success;
  }

  /** The enqueue half of add_post. */
  method SendAddPostUpdates(user: Homepage)
    requires user.updateQueue.Some?
    modifies user`updateQueue
    ensures user.updateQueue == Some(old(user.updateQueue).value + EncodeAll(AddPostCommands(user.username, user.posts)))
  {
    ghost var q0 := user.updateQueue.value;
    var posts := user.posts;
    var username := user.username;
    var html := BuildPostsHtml(username, posts);
    ghost var sent: seq<Command> := [];
    assert q0 + EncodeAll(sent) == q0;
    user.SendHtmlUpdate(ListId(username), html);
    sent := Sent(q0, sent, ListCommand(username, posts));
    user.SendJsExecution(ResetForm);
    sent := Sent(q0, sent, JsExecute(ResetForm));
    user.SendHtmlUpdate(CounterId(username), CounterHtml(username, |posts|));
    sent := Sent(q0, sent, CounterCommand(username, posts));
    user.SendJsExecution(ChartExec(|posts|));
    sent := Sent(q0, sent, ChartCommand(posts));
    assert user.updateQueue == Some(q0 + EncodeAll(sent));
    Built4(ListCommand(username, posts), JsExecute(ResetForm), CounterCommand(username, posts), ChartCommand(posts));
    assert sent == AddPostCommands(username, posts);
  }

  /** Shows the server's secret with one script execution. */
  method GetServerMessage(reg: SessionRegistry, identity: Option<string>) returns (status: Status)
    requires reg.Valid()
    modifies reg.Footprint(identity)`updateQueue
    ensures reg.Valid()
    ensures status == (if reg.Resolves(identity) then Success else Unauthorized)
    ensures reg.Resolves(identity) ==> var u := reg.sessions[identity.value];
      u.posts == old(u.posts)
      && u.updateQueue == Some(old(u.updateQueue).value + EncodeAll(ServerMessageCommands(HiddenMessage)))
  {
    if !reg.Resolves(identity) {
      return Unauthorized;
    }
    var user := reg.sessions[identity.value];
    ghost var q0 := user.updateQueue.value;
    assert q0 + EncodeAll([]) == q0;
    user.SendJsExecution(AlertExec(user.hiddenMsg));
    ghost var sent := Sent(q0, [], JsExecute(AlertExec(user.hiddenMsg)));
    assert sent == ServerMessageCommands(user.hiddenMsg);
    return Success;
  }

  /** Deletes the post at index. On success enqueues the list, the counter,
      the chart and a success log, computed after the removal; on failure
      only an error log. */
  method DeletePost(reg: SessionRegistry, identity: Option<string>, index: int) returns (status: Status)
    requires reg.Valid()
    modifies reg.Footprint(identity)`posts, reg.Footprint(identity)`updateQueue
    ensures reg.Valid()
    ensures !reg.Resolves(identity) ==> status == Unauthorized
    ensures reg.Resolves(identity) ==> var u := reg.sessions[identity.value];
      var ok := 0 <= index < |old(u.posts)|;
      status == (if ok then Success else Error)
      && u.posts == (if ok then RemoveAt(old(u.posts), index) else old(u.posts))
      && u.updateQueue == Some(old(u.updateQueue).value + EncodeAll(DeletePostCommands(u.username, ok, u.posts)))
  {
    if !reg.Resolves(identity) {
      return Unauthorized;
    }
    var user := reg.sessions[identity.value];
    var success := user.DeletePost(index);
    SendDeletePostUpdates(user, success);
    return if success then Success else Error;
  }

  /** The enqueue half of delete_post. */
  method SendDeletePostUpdates(user: Homepage, success: bool)
    requires user.updateQueue.Some?
    modifies user`updateQueue
    ensures user.updateQueue == Some(old(user.updateQueue).value
      + EncodeAll(DeletePostCommands(user.username, success, user.posts)))
  {
    if success {
      SendDeletedUpdates(user);
    } else {
      ghost var q0 := user.updateQueue.value;
      assert q0 + EncodeAll([]) == q0;
      user.SendJsExecution(DeleteFailedLog);
      ghost var sent := Sent(q0, [], JsExecute(DeleteFailedLog));
      assert sent == DeletePostCommands(user.username, false, user.posts);
    }
  }

  /** The updates after a successful delete: the same list, counter and
      chart updates as a generation step, then the success log. */
  method SendDeletedUpdates(user: Homepage)
    requires user.updateQueue.Some?
    modifies user`updateQueue
    ensures user.updateQueue == Some(old(user.updateQueue).value
      + EncodeAll(DeletePostCommands(user.username, true, user.posts)))
  {
    ghost var q0 := user.updateQueue.value;
    ghost var batch := GenerateBatch(user.username, user.posts);
    SendPostsBatch(user);
    user.SendJsExecution(DeletedLog);
    ghost var sent := Sent(q0, batch, JsExecute(DeletedLog));
    Snoc3(ListCommand(user.username, user.posts), CounterCommand(user.username, user.posts),
          ChartCommand(user.posts), JsExecute(DeletedLog));
  }

  /** Adds the five given posts one at a time between a button-disable and
      a button-enable update, enqueueing list, counter and chart after each.
      The random post texts are a parameter. */
  method GeneratePosts(reg: SessionRegistry, identity: Option<string>, randomPosts: seq<string>)
    returns (status: Status)
    requires reg.Valid()
    requires |randomPosts| == 5
    modifies reg.Footprint(identity)`posts, reg.Footprint(identity)`updateQueue
    ensures reg.Valid()
    ensures status == (if reg.Resolves(identity) then Success else Unauthorized)
    ensures reg.Resolves(identity) ==> var u := reg.sessions[identity.value];
      u.posts == old(u.posts) + randomPosts
      && u.updateQueue == Some(old(u.updateQueue).value
           + EncodeAll(GeneratePostsCommands(u.username, old(u.posts), randomPosts)))
  {
    if !reg.Resolves(identity) {
      return Unauthorized;
    }
    var user := reg.sessions[identity.value];
    GeneratePostsFor(user, randomPosts);
    return Success;
  }

  /** generate_posts once the session is known. */
  method GeneratePostsFor(user: Homepage, randomPosts: seq<string>)
    requires user.updateQueue.Some?
    requires |randomPosts| == 5
    modifies user`posts, user`updateQueue
    ensures user.posts == old(user.posts) + randomPosts
    ensures user.updateQueue == Some(old(user.updateQueue).value
      + EncodeAll(GeneratePostsCommands(user.username, old(user.posts), randomPosts)))
  {
    var username := user.username;
    ghost var q0 := user.updateQueue.value;
    ghost var before := user.posts;
    ghost var opening := [HtmlReplace(ButtonId(username), ButtonHtml(username, true))];
    ghost var closing := [HtmlReplace(ButtonId(username), ButtonHtml(username, false)), JsExecute(GeneratedLog)];
    user.SendHtmlUpdate(ButtonId(username), ButtonHtml(username, true));
    assert user.updateQueue.value == q0 + EncodeAll(opening);
    ghost var q1 := user.updateQueue.value;
    GenerateSteps(user, randomPosts);
    ghost var batches := GenerateBatches(username, before, randomPosts);
    ghost var q2 := user.updateQueue.value;
    SendGenerateClosing(user);
    assert user.updateQueue.value == q2 + EncodeAll(closing);
    EncodeAllAppend(opening, batches);
    EncodeAllAppend(opening + batches, closing);
    AppendAssoc(q0, EncodeAll(opening), EncodeAll(batches));
    AppendAssoc(q0, EncodeAll(opening + batches), EncodeAll(closing));
    assert opening + batches + closing == GeneratePostsCommands(username, before, randomPosts);
  }

  /** The last two enqueues of generate_posts: enable the button, then log. */
  method SendGenerateClosing(user: Homepage)
    requires user.updateQueue.Some?
    modifies user`updateQueue
    ensures user.updateQueue == Some(old(user.updateQueue).value + EncodeAll(
      [HtmlReplace(ButtonId(user.username), ButtonHtml(user.username, false)), JsExecute(GeneratedLog)]))
  {
    var username := user.username;
    ghost var q0 := user.updateQueue.value;
    assert q0 + EncodeAll([]) == q0;
    user.SendHtmlUpdate(ButtonId(username), ButtonHtml(username, false));
    ghost var sent := Sent(q0, [], HtmlReplace(ButtonId(username), ButtonHtml(username, false)));
    user.SendJsExecution(GeneratedLog);
    sent := Sent(q0, sent, JsExecute(GeneratedLog));
    assert sent == [HtmlReplace(ButtonId(username), ButtonHtml(username, false)), JsExecute(GeneratedLog)];
  }

  /** The loop of generate_posts: append each generated post in turn and
      enqueue that step's batch. */
  method GenerateSteps(user: Homepage, randomPosts: seq<string>)
    requires user.updateQueue.Some?
    requires |randomPosts| == 5
    modifies user`posts, user`updateQueue
    ensures user.posts == old(user.posts) + randomPosts
    ensures user.updateQueue == Some(old(user.updateQueue).value
      + EncodeAll(GenerateBatches(user.username, old(user.posts), randomPosts)))
  {
    var username := user.username;
    ghost var q0 := user.updateQueue.value;
    ghost var before := user.posts;
    assert randomPosts[..0] == [];
    assert q0 + EncodeAll(GenerateBatches(username, before, randomPosts[..0])) == q0;
    for i := 0 to 5
      invariant user.posts == before + randomPosts[..i]
      invariant user.updateQueue == Some(q0 + EncodeAll(GenerateBatches(username, before, randomPosts[..i])))
    {
      ghost var done := GenerateBatches(username, before, randomPosts[..i]);
      ghost var posts := before + randomPosts[..i + 1];
      TakeSnoc(randomPosts, i);
      AppendAssoc(before, randomPosts[..i], [randomPosts[i]]);
      GenerateStep(user, randomPosts[i]);
      GenerateBatchesStep(username, before, randomPosts[..i], randomPosts[i]);
      Queued(q0, done, GenerateBatch(username, posts));
    }
    TakeAll(randomPosts);
  }

  /** One step of generate_posts' loop: append the post, then enqueue list,
      counter and chart for the list as it now is. */
  method GenerateStep(user: Homepage, post: string)
    requires user.updateQueue.Some?
    modifies user`posts, user`updateQueue
    ensures user.posts == old(user.posts) + [post]
    ensures user.updateQueue == Some(old(user.updateQueue).value + EncodeAll(GenerateBatch(user.username, user.posts)))
  {
    user.AddPost(post);
    SendPostsBatch(user);
  }

  /** The list, counter and chart updates for the current list, in that
      order: one step of generate_posts' loop, and the start of a
      successful delete's updates. */
  method SendPostsBatch(user: Homepage)
    requires user.updateQueue.Some?
    modifies user`updateQueue
    ensures user.updateQueue == Some(old(user.updateQueue).value + EncodeAll(GenerateBatch(user.username, user.posts)))
  {
    ghost var q0 := user.updateQueue.value;
    var posts := user.posts;
    var username := user.username;
    var html := BuildPostsHtml(username, posts);
    ghost var sent: seq<Command> := [];
    assert q0 + EncodeAll(sent) == q0;
    user.SendHtmlUpdate(ListId(username), html);
    sent := Sent(q0, sent, ListCommand(username, posts));
    assert user.updateQueue == Some(q0 + EncodeAll(sent));
    user.SendHtmlUpdate(CounterId(username), CounterHtml(username, |posts|));
    sent := Sent(q0, sent, CounterCommand(username, posts));
    assert user.updateQueue == Some(q0 + EncodeAll(sent));
    user.SendJsExecution(ChartExec(|posts|));
    sent := Sent(q0, sent, ChartCommand(posts));
    assert user.updateQueue == Some(q0 + EncodeAll(sent));
    Built3(ListCommand(username, posts), CounterCommand(username, posts), ChartCommand(posts));
    assert sent == GenerateBatch(username, posts);
  }

  /** Proof step: the queue holding q0 followed by done, with more put on
      it, holds q0 followed by done + more. */
  lemma Queued(q0: seq<Json>, done: seq<Command>, more: seq<Command>)
    ensures (q0 + EncodeAll(done)) + EncodeAll(more) == q0 + EncodeAll(done + more)
  {
    EncodeAllAppend(done, more);
    AppendAssoc(q0, EncodeAll(done), EncodeAll(more));
  }

  /** Proof step: the queue holding q0 followed by cs, one more command put
      on it holds q0 followed by cs + [c]. */
  lemma Sent(q0: seq<Json>, cs: seq<Command>, c: Command) returns (more: seq<Command>)
    ensures more == cs + [c]
    ensures (q0 + EncodeAll(cs)) + [Encode(c)] == q0 + EncodeAll(more)
  {
    more := cs + [c];
    EncodeAllSnoc(cs, c);
    SnocAssoc(q0, EncodeAll(cs), Encode(c));
  }

  /** Drains the session's queue, writing one frame per update in the order
      the updates were queued; stops where the source would wait for more. */
  method EventGenerator(user: Homepage, dumps: Encoder) returns (frames: seq<string>)
    requires user.updateQueue.Some?
    modifies user`updateQueue
    ensures user.updateQueue == Some([])
    ensures frames == Frames(Dumped(dumps, old(user.updateQueue).value))
  {
    ghost var pending := user.updateQueue.value;
    ghost var n := 0;
    frames := [];
    while user.updateQueue.value != []
      invariant user.updateQueue.Some?
      invariant n <= |pending| && user.updateQueue.value == pending[n..]
      invariant frames == Frames(Dumped(dumps, pending[..n]))
      decreases |user.updateQueue.value|
    {
      var update := user.updateQueue.value[0];
      user.updateQueue := Some(user.updateQueue.value[1..]);
      frames := frames + [Frame(dumps(update))];
      n := n + 1;
    }
    TakeAll(pending);
  }

  /** The stream endpoint: 404 for a name with no session, and no drain;
      otherwise that session's queued updates as frames, in order, leaving
      every other session untouched. */
  method MessageStream(reg: SessionRegistry, username: string, dumps: Encoder) returns (reply: StreamReply)
    requires reg.Valid()
    modifies reg.Footprint(Some(username))`updateQueue
    ensures reg.Valid()
    ensures reply.NotFound? <==> username !in reg.sessions
    ensures username in reg.sessions ==> var u := reg.sessions[username];
      reply == Streamed(Frames(Dumped(dumps, old(u.updateQueue).value)))
      && u.updateQueue == Some([]) && u.posts == old(u.posts)
    ensures forall name :: name in reg.sessions && name != username ==>
      reg.sessions[name].updateQueue == old(reg.sessions[name].updateQueue)
  {
    if username !in reg.sessions {
      return NotFound;
    }
    var user := reg.sessions[username];
    var frames := EventGenerator(user, dumps);
    return Streamed(frames);
  }
}
