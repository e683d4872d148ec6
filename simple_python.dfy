/** The FastAPI simple demo: the /website-logic generator, which yields the
    tick schedule's frames with a counter that starts at 0 and is raised at
    the top of every tick, and POST /todo, which appends to the list. */
module PythonDemo {
  import opened Json
  import opened Commands
  import opened EventStream
  import opened TickSchedule
  import opened Seqs

  const PythonColors: seq<string> := ["lightblue", "lightgreen", "lightcoral", "lightyellow"]

  /** The frames one tick yields, one per update, in the order the updates
      are built. */
  method YieldTick(count: nat, input: TickInput, dumps: Encoder) returns (out: seq<string>)
    requires input.colorPick < |PythonColors|
    ensures out == StreamOf(dumps, TickCommands(count, input.timestamp, input.todos, PythonColors[input.colorPick]))
  {
    var color := PythonColors[input.colorPick];
    ghost var front := [TimestampCommand(input.timestamp), CountCommand(count), TodosCommand(input.todos)];
    ghost var sent: seq<Command> := [];
    out := [];
    assert out == StreamOf(dumps, sent);
    sent := Wrote(dumps, out, sent, TimestampCommand(input.timestamp));
    out := out + [Frame(dumps(Encode(TimestampCommand(input.timestamp))))];
    sent := Wrote(dumps, out, sent, CountCommand(count));
    out := out + [Frame(dumps(Encode(CountCommand(count))))];
    sent := Wrote(dumps, out, sent, TodosCommand(input.todos));
    out := out + [Frame(dumps(Encode(TodosCommand(input.todos))))];
    assert sent == front;
    if count % 5 == 0 {
      sent := Wrote(dumps, out, sent, JsSetVariable(CounterVariable, JInt(count)));
      out := out + [Frame(dumps(Encode(JsSetVariable(CounterVariable, JInt(count)))))];
      sent := Wrote(dumps, out, sent, JsExecute(CounterLog(count)));
      out := out + [Frame(dumps(Encode(JsExecute(CounterLog(count)))))];
      SnocSnoc(front, JsSetVariable(CounterVariable, JInt(count)), JsExecute(CounterLog(count)));
    } else {
      assert sent == front + [];
    }
    ghost var fives := sent;
    if count % 10 == 0 {
      sent := Wrote(dumps, out, sent, JsExecute(ColorExec(color)));
      out := out + [Frame(dumps(Encode(JsExecute(ColorExec(color)))))];
    } else {
      assert sent == fives + [];
    }
  }

  /** The generator run for |inputs| ticks: exactly the frames of ticks 1 ..
      |inputs| in order. */
  method EventGenerator(inputs: seq<TickInput>, dumps: Encoder) returns (frames: seq<string>)
    requires forall k :: 0 <= k < |inputs| ==> inputs[k].colorPick < |PythonColors|
    ensures frames == StreamOf(dumps, RunCommands(PythonColors, inputs))
  {
    var count := 0;
    frames := [];
    while count < |inputs|
      invariant 0 <= count <= |inputs|
      invariant frames == StreamOf(dumps, RunCommands(PythonColors, inputs[..count]))
    {
      var input := inputs[count];
      ghost var done := RunCommands(PythonColors, inputs[..count]);
      RunCommandsStep(PythonColors, inputs, count);
      count := count + 1;
      var out := YieldTick(count, input, dumps);
      StreamOfAppend(dumps, done, TickCommands(count, input.timestamp, input.todos, PythonColors[input.colorPick]));
      frames := frames + out;
    }
    TakeAll(inputs);
  }

  /** POST /todo: the form field is required by the framework, so the text
      is always present and is appended as given. */
  method AddTodo(list: TodoList, todoText: string) returns (reply: Json)
    modifies list
    ensures list.todos == old(list.todos) + [todoText]
    ensures reply == AddedReply(todoText)
  {
    list.Append(todoText);
    reply := AddedReply(todoText);
  }
}
