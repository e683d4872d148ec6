/** The per-user session object of the advanced demo: an ordered post list,
    a session nonce that is set once, a UI flag, a fixed secret message and
    the queue of updates waiting for the user's stream. */
module Models {
  import opened Wrappers
  import opened Json
  import opened Commands

  const HiddenMessage: string := "🎉 Secret message from the server!"

  /** The list with the element at position i taken out; later elements move
      down one place. */
  function RemoveAt(s: seq<string>, i: nat): (r: seq<string>)
    requires i < |s|
    ensures |r| == |s| - 1
    ensures forall j :: 0 <= j < i ==> r[j] == s[j]
    ensures forall j :: i <= j < |r| ==> r[j] == s[j + 1]
    ensures multiset(r) + multiset{s[i]} == multiset(s)
  {
    assert s == s[..i] + [s[i]] + s[i + 1..];
    s[..i] + s[i + 1..]
  }

  /** The queue after one put: the update at the tail when the queue exists,
      nothing at all when it does not. */
  function Enqueued(q: Option<seq<Json>>, update: Json): Option<seq<Json>> {
    match q
    case None => None
    case Some(items) => Some(items + [update])
  }

  /** One put adds exactly one element, the update, behind everything that
      was queued; an absent queue stays absent. */
  lemma EnqueuedIsSinglePut(q: Option<seq<Json>>, update: Json)
    ensures Enqueued(q, update).Some? <==> q.Some?
    ensures q.Some? ==> |Enqueued(q, update).value| == |q.value| + 1
    ensures q.Some? ==> Enqueued(q, update).value[..|q.value|] == q.value
    ensures q.Some? ==> Enqueued(q, update).value[|q.value|] == update
  {
    if q.Some? {
      assert (q.value + [update])[..|q.value|] == q.value;
    }
  }

  class Homepage {
    const username: string
    var posts: seq<string>
    var updateQueue: Option<seq<Json>>
    var btnPressed: bool
    var sessionId: string
    const hiddenMsg: string

    /** A new session has no posts and no queue yet. */
    constructor (username: string)
      ensures this.username == username && hiddenMsg == HiddenMessage
      ensures posts == [] && updateQueue == None
      ensures !btnPressed && sessionId == ""
    {
      this.username := username;
      posts := [];
      updateQueue := None;
      btnPressed := false;
      sessionId := "";
      hiddenMsg := HiddenMessage;
    }

    method SetBtnPressed(value: bool)
      modifies this`btnPressed
      ensures btnPressed == value
    {
      btnPressed := value;
    }

    /** The nonce is taken only while it is still empty. */
    method SetSessionId(value: string)
      modifies this`sessionId
      ensures old(sessionId) == "" ==> sessionId == value
      ensures old(sessionId) != "" ==> sessionId == old(sessionId)
      ensures sessionId == AfterVisits(old(sessionId), [value])
    {
      if sessionId == "" {
        sessionId := value;
      }
    }

    method AddPost(content: string)
      modifies this`posts
      ensures updateQueue == old(updateQueue)
      ensures posts == old(posts) + [content]
    {
      posts := posts + [content];
    }

    /** Removes the post at index when it is in range, reporting whether it
        did; an index out of range changes nothing. */
    method DeletePost(index: int) returns (ok: bool)
      modifies this`posts
      ensures updateQueue == old(updateQueue)
      ensures ok <==> 0 <= index < |old(posts)|
      ensures ok ==> posts == RemoveAt(old(posts), index)
      ensures !ok ==> posts == old(posts)
    {
      if 0 <= index < |posts| {
        posts := RemoveAt(posts, index);
        return true;
      }
      return false;
    }

    method QueueUpdate(update: Json)
      modifies this`updateQueue
      ensures posts == old(posts)
      ensures updateQueue == Enqueued(old(updateQueue), update)
    {
      if updateQueue.Some? {
        updateQueue := Some(updateQueue.value + [update]);
      }
    }

    method SendHtmlUpdate(elementId: string, html: string)
      modifies this`updateQueue
      ensures posts == old(posts)
      ensures updateQueue == Enqueued(old(updateQueue), Encode(HtmlReplace(elementId, html)))
    {
      QueueUpdate(Single(HtmlKey, Single(elementId, JStr(html))));
    }

    method SendJsVariable(name: string, value: Json)
      modifies this`updateQueue
      ensures posts == old(posts)
      ensures updateQueue == Enqueued(old(updateQueue), Encode(JsSetVariable(name, value)))
    {
      QueueUpdate(Single(JsKey, Single(name, value)));
    }

    method SendJsExecution(code: string)
      modifies this`updateQueue
      ensures posts == old(posts)
      ensures updateQueue == Enqueued(old(updateQueue), Encode(JsExecute(code)))
    {
      QueueUpdate(Single(JsKey, Single(ExecKey, JStr(code))));
    }
  }

  /** The session id after home-page visits that offer the given nonces in
      order, starting from current. */
  function AfterVisits(current: string, nonces: seq<string>): string
    decreases |nonces|
  {
    if nonces == [] then current
    else AfterVisits(if current == "" then nonces[0] else current, nonces[1..])
  }

  /** Once set, the session id never changes again. */
  lemma {:induction false} SessionIdSticks(current: string, nonces: seq<string>)
    requires current != ""
    ensures AfterVisits(current, nonces) == current
    decreases |nonces|
  {
    if nonces != [] {
      SessionIdSticks(current, nonces[1..]);
    }
  }

  /** From a fresh page, the first nonempty nonce offered is the one kept. */
  lemma {:induction false} FirstNonceKept(nonces: seq<string>, k: nat)
    requires k < |nonces| && nonces[k] != ""
    requires forall i :: 0 <= i < k ==> nonces[i] == ""
    ensures AfterVisits("", nonces) == nonces[k]
    decreases k
  {
    if k == 0 {
      SessionIdSticks(nonces[0], nonces[1..]);
    } else {
      FirstNonceKept(nonces[1..], k - 1);
    }
  }
}
