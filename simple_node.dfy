/** The Express simple demo: each /website-logic connection writes a
    "connected" record first and then, on every timer tick, raises its own
    counter and writes the tick schedule's frames through sendEvent; POST
    /todo rejects a missing or empty todo_text with 400. */
module NodeDemo {
  import opened Wrappers
  import opened Json
  import opened Commands
  import opened Seqs
  import opened EventStream
  import opened TickSchedule

  const NodeColors: seq<string> := ["lightblue", "lightgreen", "lightcoral", "wheat"]

  /** The payload of the record written when a connection opens. */
  const ConnectedPayload: string := "{\"status\": \"connected\"}"

  /** The reply to POST /todo. */
  datatype Reply = Reply(status: nat, body: Json)

  const MissingTextReply: Reply :=
    Reply(400, JObj([("status", JStr("error")), ("message", JStr("todo_text is required"))]))

  /** One open /website-logic response and its per-connection counter. */
  class Connection {
    var count: nat
    var written: seq<string>

    /** The connected record is always the first thing on the wire. */
    ghost predicate Valid()
      reads this
    {
      |written| >= 1 && written[0] == Frame(ConnectedPayload)
    }

    /** Opening the stream: the timer is armed with count 0 and the
        connected record is written before its first tick. */
    constructor ()
      ensures Valid()
      ensures count == 0 && written == [Frame(ConnectedPayload)]
    {
      count := 0;
      written := [Frame(ConnectedPayload)];
    }

    method SendEvent(data: Json, dumps: Encoder)
      modifies this`written
      ensures written == old(written) + [Frame(dumps(data))]
    {
      written := written + [Frame(dumps(data))];
    }

    /** One timer callback: count is raised before anything is sent, and
        the frames of that tick follow what was written before. */
    method Tick(input: TickInput, dumps: Encoder)
      requires Valid()
      requires input.colorPick < |NodeColors|
      modifies this
      ensures Valid()
      ensures count == old(count) + 1
      ensures written == old(written)
        + StreamOf(dumps, TickCommands(count, input.timestamp, input.todos, NodeColors[input.colorPick]))
    {
      count := count + 1;
      var head := written;
      var color := NodeColors[input.colorPick];
      ghost var front := [TimestampCommand(input.timestamp), CountCommand(count), TodosCommand(input.todos)];
      ghost var sent: seq<Command> := [];
      assert written == head + StreamOf(dumps, sent);
      sent := Emit(head, sent, TimestampCommand(input.timestamp), dumps);
      sent := Emit(head, sent, CountCommand(count), dumps);
      sent := Emit(head, sent, TodosCommand(input.todos), dumps);
      assert sent == front;
      if count % 5 == 0 {
        sent := Emit(head, sent, JsSetVariable(CounterVariable, JInt(count)), dumps);
        sent := Emit(head, sent, JsExecute(CounterLog(count)), dumps);
        SnocSnoc(front, JsSetVariable(CounterVariable, JInt(count)), JsExecute(CounterLog(count)));
      } else {
        assert sent == front + [];
      }
      ghost var fives := sent;
      if count % 10 == 0 {
        sent := Emit(head, sent, JsExecute(ColorExec(color)), dumps);
      } else {
        assert sent == fives + [];
      }
    }

    /** sendEvent of one update, for a connection whose writes since head
        are the frames of sent. */
    method Emit(ghost head: seq<string>, ghost sent: seq<Command>, c: Command, dumps: Encoder)
      returns (ghost more: seq<Command>)
      requires written == head + StreamOf(dumps, sent)
      modifies this`written
      ensures more == sent + [c]
      ensures written == head + StreamOf(dumps, more)
    {
      more := Wrote(dumps, StreamOf(dumps, sent), sent, c);
      SendEvent(Encode(c), dumps);
      AppendAssoc(head, StreamOf(dumps, sent), [Frame(dumps(Encode(c)))]);
    }
  }

  /** A connection whose timer has fired |inputs| times: the connected
      record, then the frames of ticks 1 .. |inputs| in order. */
  method WebsiteLogic(inputs: seq<TickInput>, dumps: Encoder) returns (conn: Connection)
    requires forall k :: 0 <= k < |inputs| ==> inputs[k].colorPick < |NodeColors|
    ensures fresh(conn) && conn.Valid()
    ensures conn.count == |inputs|
    ensures conn.written == [Frame(ConnectedPayload)] + StreamOf(dumps, RunCommands(NodeColors, inputs))
  {
    conn := new Connection();
    var i := 0;
    while i < |inputs|
      invariant 0 <= i <= |inputs|
      invariant conn.Valid() && conn.count == i
      invariant conn.written == [Frame(ConnectedPayload)] + StreamOf(dumps, RunCommands(NodeColors, inputs[..i]))
    {
      var input := inputs[i];
      ghost var done := RunCommands(NodeColors, inputs[..i]);
      ghost var tick := TickCommands(i + 1, input.timestamp, input.todos, NodeColors[input.colorPick]);
      conn.Tick(input, dumps);
      RunCommandsStep(NodeColors, inputs, i);
      StreamOfAppend(dumps, done, tick);
      AppendAssoc([Frame(ConnectedPayload)], StreamOf(dumps, done), StreamOf(dumps, tick));
      i := i + 1;
    }
    TakeAll(inputs);
  }

  /** A reader of the connection sees the connected payload, then each
      update's payload, in order. */
  lemma ConnectionParses(dumps: Encoder, cs: seq<Command>)
    requires SingleLine(dumps)
    ensures ParseStream(Flatten([Frame(ConnectedPayload)] + StreamOf(dumps, cs)))
         == Some([ConnectedPayload] + Dumped(dumps, EncodeAll(cs)))
  {
    var payloads := [ConnectedPayload] + Dumped(dumps, EncodeAll(cs));
    assert forall i :: 0 <= i < |payloads| ==> NoLineBreak(payloads[i]);
    assert Frames(payloads) == [Frame(ConnectedPayload)] + StreamOf(dumps, cs);
    ParseStreamOfFrames(payloads);
  }

  /** POST /todo: a missing or empty todo_text is refused with 400 and the
      list is left alone; any other text is appended. */
  method PostTodo(list: TodoList, todoText: Option<string>) returns (reply: Reply)
    modifies list
    ensures (todoText.None? || todoText.value == "") <==> reply == MissingTextReply
    ensures reply == MissingTextReply ==> list.todos == old(list.todos)
    ensures reply != MissingTextReply ==>
      list.todos == old(list.todos) + [todoText.value] && reply == Reply(200, AddedReply(todoText.value))
  {
    if todoText.None? || todoText.value == "" {
      return MissingTextReply;
    }
    list.Append(todoText.value);
    reply := Reply(200, AddedReply(todoText.value));
  }
}
