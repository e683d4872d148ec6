/** The per-tick schedule of the two simple demos' /website-logic streams:
    on tick k (counting from 1) the timestamp, the counter and the todo
    list are replaced; every fifth tick also sets counterValue and logs; every
    tenth tick also recolours the page. The clock reading and the random
    colour are inputs. */
module TickSchedule {
  import opened Wrappers
  import opened Json
  import opened Text
  import opened Commands
  import opened Seqs
  import opened EventStream

  /** What the environment supplies to one tick: the clock in whole seconds,
      the position of the randomly chosen colour in the palette, and the
      todo list as it stood at that tick. */
  datatype TickInput = TickInput(timestamp: nat, colorPick: nat, todos: seq<string>)

  const CounterVariable: string := "counterValue"

  function TimestampCommand(timestamp: nat): Command {
    HtmlReplace("timestamp", "<div id=\"timestamp\">Current Time: " + NatToString(timestamp) + "</div>")
  }

  function CountCommand(count: nat): Command {
    HtmlReplace("counter", "<div id=\"counter\">Count: " + NatToString(count) + "</div>")
  }

  function TodoItem(todo: string): string {
    "<li>" + todo + "</li>"
  }

  /** The todo list: one item per todo, in list order. */
  function TodosHtml(todos: seq<string>): string {
    "<ul id=\"todos\">" + Flatten(Map(TodoItem, todos)) + "</ul>"
  }

  function TodosCommand(todos: seq<string>): Command {
    HtmlReplace("todos", TodosHtml(todos))
  }

  function CounterLog(count: nat): string {
    "console.log('Counter reached " + NatToString(count) + "!');"
  }

  function ColorExec(color: string): string {
    "document.body.style.backgroundColor = '" + color + "';"
  }

  /** The updates of the tick whose counter value is count, in order. */
  function TickCommands(count: nat, timestamp: nat, todos: seq<string>, color: string): seq<Command> {
    [TimestampCommand(timestamp), CountCommand(count), TodosCommand(todos)]
    + (if count % 5 == 0 then [JsSetVariable(CounterVariable, JInt(count)), JsExecute(CounterLog(count))] else [])
    + (if count % 10 == 0 then [JsExecute(ColorExec(color))] else [])
  }

  /** One tick emits 3 + 2 [count % 5 == 0] + [count % 10 == 0] updates:
      always the three replacements first, the variable directly followed by
      its log exactly on multiples of 5, the recolouring (last) exactly on
      multiples of 10. */
  lemma TickShape(count: nat, timestamp: nat, todos: seq<string>, color: string)
    ensures var cs := TickCommands(count, timestamp, todos, color);
      |cs| == 3 + (if count % 5 == 0 then 2 else 0) + (if count % 10 == 0 then 1 else 0)
      && cs[..3] == [TimestampCommand(timestamp), CountCommand(count), TodosCommand(todos)]
      && (JsSetVariable(CounterVariable, JInt(count)) in cs <==> count % 5 == 0)
      && (JsExecute(CounterLog(count)) in cs <==> count % 5 == 0)
      && (count % 5 == 0 ==>
            cs[3] == JsSetVariable(CounterVariable, JInt(count)) && cs[4] == JsExecute(CounterLog(count)))
      && (JsExecute(ColorExec(color)) in cs <==> count % 10 == 0)
      && (count % 10 == 0 ==> cs[|cs| - 1] == JsExecute(ColorExec(color)))
  {
    var cs := TickCommands(count, timestamp, todos, color);
    var front := [TimestampCommand(timestamp), CountCommand(count), TodosCommand(todos)];
    if count % 5 != 0 {
      assert JsSetVariable(CounterVariable, JInt(count)) !in front;
      assert !(exists i :: 0 <= i < |cs| && cs[i] == JsExecute(CounterLog(count))) by {
        forall i | 0 <= i < |cs| ensures cs[i] != JsExecute(CounterLog(count)) {
          if i >= 3 {
            ColorAndLogDiffer(count, color);
          }
        }
      }
    }
    if count % 10 != 0 {
      assert !(exists i :: 0 <= i < |cs| && cs[i] == JsExecute(ColorExec(color))) by {
        forall i | 0 <= i < |cs| ensures cs[i] != JsExecute(ColorExec(color)) {
          if i >= 3 {
            assert cs[i] == JsSetVariable(CounterVariable, JInt(count)) || cs[i] == JsExecute(CounterLog(count));
            if cs[i] == JsExecute(CounterLog(count)) {
              ColorAndLogDiffer(count, color);
            }
          }
        }
      }
    }
  }

  /** The recolouring script is never the counter log. */
  lemma ColorAndLogDiffer(count: nat, color: string)
    ensures CounterLog(count) != ColorExec(color)
  {
    assert CounterLog(count)[0] == 'c';
    assert ColorExec(color)[0] == 'd';
  }

  /** A todo appended to the list adds exactly its item at the end. */
  lemma TodosHtmlAppend(todos: seq<string>, todo: string)
    ensures Flatten(Map(TodoItem, todos + [todo])) == Flatten(Map(TodoItem, todos)) + TodoItem(todo)
  {
    MapSnoc(TodoItem, todos, todo);
    FlattenSnoc(Map(TodoItem, todos), TodoItem(todo));
  }

  /** The updates of ticks 1 .. |inputs|, in order; each tick shows the todo
      list as it stood then and picks its colour from palette. */
  function RunCommands(palette: seq<string>, inputs: seq<TickInput>): seq<Command>
    requires forall k :: 0 <= k < |inputs| ==> inputs[k].colorPick < |palette|
  {
    if inputs == [] then []
    else
      var last := inputs[|inputs| - 1];
      RunCommands(palette, inputs[..|inputs| - 1])
      + TickCommands(|inputs|, last.timestamp, last.todos, palette[last.colorPick])
  }

  /** One more tick appends exactly that tick's updates. */
  lemma RunCommandsStep(palette: seq<string>, inputs: seq<TickInput>, k: nat)
    requires forall i :: 0 <= i < |inputs| ==> inputs[i].colorPick < |palette|
    requires k < |inputs|
    ensures RunCommands(palette, inputs[..k + 1])
         == RunCommands(palette, inputs[..k])
            + TickCommands(k + 1, inputs[k].timestamp, inputs[k].todos, palette[inputs[k].colorPick])
  {
    assert inputs[..k + 1][..k] == inputs[..k];
  }

  function VariableCount(cs: seq<Command>): nat {
    if cs == [] then 0 else VariableCount(cs[..|cs| - 1]) + (if cs[|cs| - 1].JsSetVariable? then 1 else 0)
  }

  function ExecCount(cs: seq<Command>): nat {
    if cs == [] then 0 else ExecCount(cs[..|cs| - 1]) + (if cs[|cs| - 1].JsExecute? then 1 else 0)
  }

  lemma {:induction false} CountsAppend(a: seq<Command>, b: seq<Command>)
    ensures VariableCount(a + b) == VariableCount(a) + VariableCount(b)
    ensures ExecCount(a + b) == ExecCount(a) + ExecCount(b)
    decreases |b|
  {
    if b == [] {
      assert a + b == a;
    } else {
      assert (a + b)[..|a + b| - 1] == a + b[..|b| - 1];
      CountsAppend(a, b[..|b| - 1]);
    }
  }

  lemma TickCounts(count: nat, timestamp: nat, todos: seq<string>, color: string)
    ensures VariableCount(TickCommands(count, timestamp, todos, color)) == (if count % 5 == 0 then 1 else 0)
    ensures ExecCount(TickCommands(count, timestamp, todos, color))
         == (if count % 5 == 0 then 1 else 0) + (if count % 10 == 0 then 1 else 0)
  {
    var front: seq<Command> := [TimestampCommand(timestamp), CountCommand(count), TodosCommand(todos)];
    var fives: seq<Command> := if count % 5 == 0 then [JsSetVariable(CounterVariable, JInt(count)), JsExecute(CounterLog(count))] else [];
    var tens: seq<Command> := if count % 10 == 0 then [JsExecute(ColorExec(color))] else [];
    CountsAppend(front + fives, tens);
    CountsAppend(front, fives);
    CountsThree(TimestampCommand(timestamp), CountCommand(count), TodosCommand(todos));
    if count % 5 == 0 {
      CountsTwo(JsSetVariable(CounterVariable, JInt(count)), JsExecute(CounterLog(count)));
    }
    if count % 10 == 0 {
      CountsOne(JsExecute(ColorExec(color)));
    }
  }

  lemma CountsOne(a: Command)
    ensures VariableCount([a]) == (if a.JsSetVariable? then 1 else 0)
    ensures ExecCount([a]) == (if a.JsExecute? then 1 else 0)
  {
    assert [a][..0] == [];
  }

  lemma CountsTwo(a: Command, b: Command)
    ensures VariableCount([a, b]) == VariableCount([a]) + VariableCount([b])
    ensures ExecCount([a, b]) == ExecCount([a]) + ExecCount([b])
  {
    CountsAppend([a], [b]);
    assert [a] + [b] == [a, b];
  }

  lemma CountsThree(a: Command, b: Command, c: Command)
    ensures VariableCount([a, b, c]) == VariableCount([a]) + VariableCount([b]) + VariableCount([c])
    ensures ExecCount([a, b, c]) == ExecCount([a]) + ExecCount([b]) + ExecCount([c])
  {
    CountsTwo(a, b);
    CountsAppend([a, b], [c]);
    assert [a, b] + [c] == [a, b, c];
    CountsOne(a);
    CountsOne(b);
    CountsOne(c);
  }

  /** Over ticks 1 .. n, counterValue is set n / 5 times, and n / 5 + n / 10
      scripts run (the logs and the recolourings). */
  lemma {:induction false} RunCounts(palette: seq<string>, inputs: seq<TickInput>)
    requires forall k :: 0 <= k < |inputs| ==> inputs[k].colorPick < |palette|
    ensures VariableCount(RunCommands(palette, inputs)) == |inputs| / 5
    ensures ExecCount(RunCommands(palette, inputs)) == |inputs| / 5 + |inputs| / 10
    decreases |inputs|
  {
    if inputs != [] {
      var n := |inputs|;
      var last := inputs[n - 1];
      var front := RunCommands(palette, inputs[..n - 1]);
      var tick := TickCommands(n, last.timestamp, last.todos, palette[last.colorPick]);
      assert RunCommands(palette, inputs) == front + tick;
      RunCounts(palette, inputs[..n - 1]);
      CountsAppend(front, tick);
      TickCounts(n, last.timestamp, last.todos, palette[last.colorPick]);
      assert n / 5 == (n - 1) / 5 + (if n % 5 == 0 then 1 else 0);
      assert n / 10 == (n - 1) / 10 + (if n % 10 == 0 then 1 else 0);
    }
  }

  /** The frames written for a sequence of updates. */
  function StreamOf(dumps: Encoder, cs: seq<Command>): seq<string> {
    Frames(Dumped(dumps, EncodeAll(cs)))
  }

  lemma StreamOfAppend(dumps: Encoder, a: seq<Command>, b: seq<Command>)
    ensures StreamOf(dumps, a + b) == StreamOf(dumps, a) + StreamOf(dumps, b)
  {
    EncodeAllAppend(a, b);
    DumpedAppend(dumps, EncodeAll(a), EncodeAll(b));
    FramesAppend(Dumped(dumps, EncodeAll(a)), Dumped(dumps, EncodeAll(b)));
  }

  /** Writing the frame of c after the frames of sent gives the frames of
      sent + [c]. */
  lemma Wrote(dumps: Encoder, out: seq<string>, sent: seq<Command>, c: Command) returns (more: seq<Command>)
    requires out == StreamOf(dumps, sent)
    ensures more == sent + [c]
    ensures out + [Frame(dumps(Encode(c)))] == StreamOf(dumps, more)
  {
    more := sent + [c];
    StreamOfAppend(dumps, sent, [c]);
  }

  /** A stream's frames read back as its updates' payloads in order. */
  lemma StreamOfParses(dumps: Encoder, cs: seq<Command>)
    requires SingleLine(dumps)
    ensures ParseStream(Flatten(StreamOf(dumps, cs))) == Some(Dumped(dumps, EncodeAll(cs)))
  {
    DeliveredInOrder(dumps, EncodeAll(cs));
  }

  /** The body of a successful POST /todo. */
  function AddedReply(todo: string): Json {
    JObj([("status", JStr("success")), ("message", JStr("Added todo: " + todo))])
  }

  /** The in-memory todo list of a demo server. */
  class TodoList {
    var todos: seq<string>

    constructor ()
      ensures todos == []
    {
      todos := [];
    }

    method Append(todo: string)
      modifies this
      ensures todos == old(todos) + [todo]
    {
      todos := todos + [todo];
    }
  }
}
