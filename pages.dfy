/** The page fragments and the ordered command batches that the advanced
    demo's request handlers enqueue. Inline styles and layout whitespace of
    the markup are not modelled; ids, visible text, hidden fields and
    scripts are. */
module Pages {
  import opened Text
  import opened Commands
  import opened Seqs

  function ListId(username: string): string { "ol_" + username }
  function CounterId(username: string): string { "post_title_length_" + username }
  function ButtonId(username: string): string { "btn_" + username }

  const Placeholder: string := "<li>No posts yet. Add some above! 👆</li>"
  const ResetForm: string := "document.getElementById(\"addPostForm\").reset();"
  const GeneratedLog: string := "console.log('✅ Generated 5 random posts!');"
  const DeletedLog: string := "console.log('✅ Post deleted successfully!');"
  const DeleteFailedLog: string := "console.log('❌ Failed to delete post - invalid index');"

  /** List item i: its 1-based number, the post, and a delete form whose
      hidden post_index field holds i. */
  function ItemHtml(i: nat, post: string): string {
    ItemHead(i, post) + PostIndexField + NatToString(i) + ItemTail(i)
  }

  /** Item i's markup up to its delete form's fields. */
  function ItemHead(i: nat, post: string): string {
    "<li><span>" + NatToString(i + 1) + ". " + post + "</span>"
    + "<form sx-post=\"/delete_post\" sx-swap=\"none\">"
  }

  const PostIndexField: string := "<input type=\"hidden\" name=\"post_index\" value=\""

  /** The rest of item i after the post_index value: the closing quote, the
      delete button and the closing tags. */
  function ItemTail(i: nat): string {
    "\">" + "<button type=\"submit\" id=\"delete_btn_" + NatToString(i) + "\">🗑️ Delete</button>"
    + "</form></li>"
  }

  /** The items appended one per post by the rendering loop. */
  function ItemsHtml(posts: seq<string>): string {
    if posts == [] then ""
    else ItemsHtml(posts[..|posts| - 1]) + ItemHtml(|posts| - 1, posts[|posts| - 1])
  }

  function ListOpen(username: string): string {
    "<ol id=\"" + ListId(username) + "\">"
  }

  /** The post list fragment: one item per post, or the placeholder. */
  function PostsHtml(username: string, posts: seq<string>): string {
    ListOpen(username) + (if posts == [] then Placeholder else ItemsHtml(posts)) + "</ol>"
  }

  /** Reference reading of the list: item k of the fragment renders post k
      with index k, for every k, in order. */
  lemma {:induction false} ItemsHtmlIsEachItem(posts: seq<string>)
    ensures ItemsHtml(posts) == Flatten(MapIndexed(ItemHtml, posts))
    decreases |posts|
  {
    if posts != [] {
      var init := posts[..|posts| - 1];
      var last := posts[|posts| - 1];
      assert posts == init + [last];
      ItemsHtmlIsEachItem(init);
      MapIndexedSnoc(ItemHtml, init, last);
      FlattenSnoc(MapIndexed(ItemHtml, init), ItemHtml(|init|, last));
    }
  }

  /** Appending a post adds exactly one item, numbered after the others, and
      keeps the earlier items as they were. */
  lemma {:induction false} ItemsHtmlAppend(posts: seq<string>, post: string)
    ensures ItemsHtml(posts + [post]) == ItemsHtml(posts) + ItemHtml(|posts|, post)
  {
    var longer := posts + [post];
    assert longer[..|longer| - 1] == posts;
    assert longer[|longer| - 1] == post;
  }

  /** Read back from item k's markup: after its head comes the post_index
      field, whose value is a run of digits closed by a quote that reads as
      k; so that item's delete form asks for exactly post k. */
  lemma HiddenIndexReadsBack(k: nat, post: string)
    ensures var item := ItemHtml(k, post);
      var i := |ItemHead(k, post)| + |PostIndexField|;
      var n := |NatToString(k)|;
      i + n < |item| && item[..i] == ItemHead(k, post) + PostIndexField
      && AllDigits(item[i..i + n]) && item[i + n] == '"' && DigitsValue(item[i..i + n]) == k
  {
    var tail := ItemTail(k);
    assert tail[0] == '"';
    Delimited(ItemHead(k, post) + PostIndexField, NatToString(k), tail);
    DigitsValueOfNatToString(k);
  }

  function CounterHtml(username: string, count: nat): string {
    "<h2 id=\"" + CounterId(username) + "\"> 📋 Your Posts (" + NatToString(count) + " total)</h2>"
  }

  /** The chart script; Python renders the dict {'x': n, 'y': n} with str(). */
  function ChartExec(count: nat): string {
    "myChart.data.datasets[0].data = [{'x': " + NatToString(count) + ", 'y': "
    + NatToString(count) + "}]; myChart.update();"
  }

  function ButtonHtml(username: string, disabled: bool): string {
    "<button id=\"" + ButtonId(username) + "\" type=\"submit\""
    + (if disabled then " disabled" else "") + ">🎯 Generate 5 Posts</button>"
  }

  function AlertExec(message: string): string {
    "alert(\"" + message + "\");"
  }

  function ListCommand(username: string, posts: seq<string>): Command {
    HtmlReplace(ListId(username), PostsHtml(username, posts))
  }

  function CounterCommand(username: string, posts: seq<string>): Command {
    HtmlReplace(CounterId(username), CounterHtml(username, |posts|))
  }

  function ChartCommand(posts: seq<string>): Command {
    JsExecute(ChartExec(|posts|))
  }

  /** After a post is added: the list, the form reset, the counter and the
      chart, each computed from the list after the append. */
  function AddPostCommands(username: string, posts: seq<string>): seq<Command> {
    [ListCommand(username, posts), JsExecute(ResetForm),
     CounterCommand(username, posts), ChartCommand(posts)]
  }

  /** Adding "hello" to an empty list: the list shows that one post as item
      1 with hidden index 0, the form reset comes next, then the counter
      shows 1. */
  lemma FirstPostScenario(username: string)
    ensures var cs := AddPostCommands(username, ["hello"]);
      |cs| == 4
      && cs[0] == HtmlReplace(ListId(username), ListOpen(username) + ItemHtml(0, "hello") + "</ol>")
      && cs[1] == JsExecute(ResetForm)
      && cs[2] == HtmlReplace(CounterId(username), CounterHtml(username, 1))
  {
    var posts: seq<string> := ["hello"];
    var empty: seq<string> := [];
    ItemsHtmlAppend(empty, "hello");
    assert empty + ["hello"] == posts;
    assert ItemsHtml(empty) == "";
    var item := ItemHtml(0, "hello");
    assert "" + item == item;
  }

  /** After a delete: on success the list, the counter, the chart and a
      success log; on failure only an error log. */
  function DeletePostCommands(username: string, ok: bool, posts: seq<string>): seq<Command> {
    if ok then [ListCommand(username, posts), CounterCommand(username, posts),
                ChartCommand(posts), JsExecute(DeletedLog)]
    else [JsExecute(DeleteFailedLog)]
  }

  /** A failed delete sends no fragment of the page: nothing suggests that a
      post was removed. */
  lemma FailedDeleteSendsNoHtml(username: string, posts: seq<string>)
    ensures forall c :: c in DeletePostCommands(username, false, posts) ==> !c.HtmlReplace?
    ensures |DeletePostCommands(username, false, posts)| == 1
  {
  }

  /** One step of post generation: list, counter and chart. */
  function GenerateBatch(username: string, posts: seq<string>): seq<Command> {
    [ListCommand(username, posts), CounterCommand(username, posts), ChartCommand(posts)]
  }

  /** The lists the page shows after each generation step: before with
      the first 1, 2, ..., |added| generated posts appended. */
  function Snapshots(before: seq<string>, added: seq<string>): (snaps: seq<seq<string>>)
    ensures |snaps| == |added|
  {
    if added == [] then []
    else Snapshots(before, added[..|added| - 1]) + [before + added]
  }

  lemma {:induction false} SnapshotAt(before: seq<string>, added: seq<string>, k: nat)
    requires k < |added|
    ensures Snapshots(before, added)[k] == before + added[..k + 1]
    decreases |added|
  {
    var init := added[..|added| - 1];
    if k < |init| {
      SnapshotAt(before, init, k);
      assert init[..k + 1] == added[..k + 1];
    } else {
      assert added[..k + 1] == added;
    }
  }

  function BatchFor(username: string): seq<string> -> seq<Command> {
    posts => GenerateBatch(username, posts)
  }

  /** One batch per step of the generation loop, in order. */
  function GenerateBatches(username: string, before: seq<string>, added: seq<string>): seq<Command> {
    Flatten(Map(BatchFor(username), Snapshots(before, added)))
  }

  /** Disable the button, one batch per generated post, enable the button,
      log. */
  function GeneratePostsCommands(username: string, before: seq<string>, added: seq<string>): seq<Command> {
    [HtmlReplace(ButtonId(username), ButtonHtml(username, true))]
    + GenerateBatches(username, before, added)
    + [HtmlReplace(ButtonId(username), ButtonHtml(username, false)), JsExecute(GeneratedLog)]
  }

  /** Batch k (from 0) shows the list with the first k + 1 generated posts
      added, and its counter shows that list's length. */
  lemma GenerateBatchAt(username: string, before: seq<string>, added: seq<string>, k: nat)
    requires k < |added|
    ensures |GenerateBatches(username, before, added)| == 3 * |added|
    ensures GenerateBatches(username, before, added)[3 * k..3 * k + 3]
         == GenerateBatch(username, before + added[..k + 1])
  {
    var batches := Map(BatchFor(username), Snapshots(before, added));
    FlattenUniform(batches, 3, k);
    SnapshotAt(before, added, k);
  }

  /** One more generation step appends exactly that step's batch. */
  lemma GenerateBatchesStep(username: string, before: seq<string>, added: seq<string>, post: string)
    ensures GenerateBatches(username, before, added + [post])
         == GenerateBatches(username, before, added) + GenerateBatch(username, before + added + [post])
  {
    var f := BatchFor(username);
    var longer := added + [post];
    assert longer[..|longer| - 1] == added;
    assert before + longer == before + added + [post];
    assert Snapshots(before, longer) == Snapshots(before, added) + [before + longer];
    MapSnoc(f, Snapshots(before, added), before + longer);
    FlattenSnoc(Map(f, Snapshots(before, added)), f(before + longer));
  }

  /** Generating five posts enqueues 1 + 5 * 3 + 2 = 18 commands, opening
      with the disabled button and closing with the enabled button and the
      log. */
  lemma GeneratePostsShape(username: string, before: seq<string>, added: seq<string>)
    requires |added| == 5
    ensures var cs := GeneratePostsCommands(username, before, added);
      |cs| == 18
      && cs[0] == HtmlReplace(ButtonId(username), ButtonHtml(username, true))
      && cs[16] == HtmlReplace(ButtonId(username), ButtonHtml(username, false))
      && cs[17] == JsExecute(GeneratedLog)
  {
    GenerateBatchAt(username, before, added, 0);
    Bracketed(HtmlReplace(ButtonId(username), ButtonHtml(username, true)),
              GenerateBatches(username, before, added),
              HtmlReplace(ButtonId(username), ButtonHtml(username, false)),
              JsExecute(GeneratedLog));
  }

  /** Showing the secret: one script execution carrying the message. */
  function ServerMessageCommands(message: string): seq<Command> {
    [JsExecute(AlertExec(message))]
  }
}
