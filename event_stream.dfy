/** The text/event-stream framing the servers write: one record
    "data: " + payload + "\n\n" per update, and a reader of records of
    exactly that form with a line-free payload, the only form the servers
    write. Comments, fields other than data, CR line ends and "data:"
    without the space, all of which an EventSource client accepts
    (section 9.2 of the WHATWG HTML Living Standard), are not read. */
module EventStream {
  import opened Wrappers
  import opened Json
  import opened Seqs

  const DataPrefix: string := "data: "

  /** No line terminator of the event-stream grammar (LF or CR). */
  predicate NoLineBreak(s: string) {
    forall i :: 0 <= i < |s| ==> s[i] != '\n' && s[i] != '\r'
  }

  /** An encoder whose output never spans lines; json.dumps and
      JSON.stringify escape every control character, so both are such. */
  ghost predicate SingleLine(dumps: Encoder) {
    forall j :: NoLineBreak(dumps(j))
  }

  function Frame(payload: string): string {
    DataPrefix + payload + "\n\n"
  }

  /** One frame per payload, in order. */
  function Frames(payloads: seq<string>): (fs: seq<string>)
    ensures |fs| == |payloads| && forall i :: 0 <= i < |fs| ==> fs[i] == Frame(payloads[i])
  {
    seq(|payloads|, i requires 0 <= i < |payloads| => Frame(payloads[i]))
  }

  /** The payload texts of a sequence of queued objects, in order. */
  function Dumped(dumps: Encoder, updates: seq<Json>): (ps: seq<string>)
    ensures |ps| == |updates| && forall i :: 0 <= i < |ps| ==> ps[i] == dumps(updates[i])
  {
    seq(|updates|, i requires 0 <= i < |updates| => dumps(updates[i]))
  }

  lemma FramesAppend(a: seq<string>, b: seq<string>)
    ensures Frames(a + b) == Frames(a) + Frames(b)
  {
  }

  lemma DumpedAppend(dumps: Encoder, a: seq<Json>, b: seq<Json>)
    ensures Dumped(dumps, a + b) == Dumped(dumps, a) + Dumped(dumps, b)
  {
  }

  /** The first LF at or after position from, if any. */
  function LineEnd(s: string, from: nat): (r: Option<nat>)
    requires from <= |s|
    ensures r.Some? ==> from <= r.value < |s| && s[r.value] == '\n'
    ensures r.Some? ==> forall i :: from <= i < r.value ==> s[i] != '\n'
    ensures r.None? ==> forall i :: from <= i < |s| ==> s[i] != '\n'
    decreases |s| - from
  {
    if from == |s| then None
    else if s[from] == '\n' then Some(from)
    else LineEnd(s, from + 1)
  }

  /** Reads one record off the front of s: a data line followed by the blank
      line that dispatches it. Yields the data and the rest of the stream. */
  function ParseFrame(s: string): (r: Option<(string, string)>)
    ensures r.Some? ==> |r.value.1| < |s|
  {
    if |s| < |DataPrefix| || s[..|DataPrefix|] != DataPrefix then None
    else
      match LineEnd(s, |DataPrefix|)
      case None => None
      case Some(k) =>
        if k + 1 < |s| && s[k + 1] == '\n' && NoLineBreak(s[|DataPrefix|..k])
        then Some((s[|DataPrefix|..k], s[k + 2..]))
        else None
  }

  /** The data of every event dispatched from s, in order; None when s is not
      a sequence of such records. */
  function ParseStream(s: string): Option<seq<string>>
    decreases |s|
  {
    if s == [] then Some([])
    else
      match ParseFrame(s)
      case None => None
      case Some((payload, rest)) =>
        match ParseStream(rest)
        case None => None
        case Some(more) => Some([payload] + more)
  }

  lemma {:induction false} LineEndAfter(p: string, rest: string, from: nat)
    requires NoLineBreak(p)
    requires from <= |DataPrefix| + |p|
    ensures LineEnd(Frame(p) + rest, from) == Some(|DataPrefix| + |p|)
    decreases |DataPrefix| + |p| - from
  {
    var s := Frame(p) + rest;
    if from < |DataPrefix| + |p| {
      LineEndAfter(p, rest, from + 1);
    } else {
      assert s[from] == '\n';
    }
  }

  /** A frame is read back as its payload, leaving what follows it. */
  lemma ParseFrameOfFrame(p: string, rest: string)
    requires NoLineBreak(p)
    ensures ParseFrame(Frame(p) + rest) == Some((p, rest))
  {
    var s := Frame(p) + rest;
    var k := |DataPrefix| + |p|;
    assert s[..|DataPrefix|] == DataPrefix;
    LineEndAfter(p, rest, |DataPrefix|);
    assert s[|DataPrefix|..k] == p;
    assert s[k + 2..] == rest;
  }

  /** What ParseFrame accepts is exactly a frame followed by the rest. */
  lemma ParseFrameExact(s: string)
    requires ParseFrame(s).Some?
    ensures NoLineBreak(ParseFrame(s).value.0)
    ensures s == Frame(ParseFrame(s).value.0) + ParseFrame(s).value.1
  {
    var k := LineEnd(s, |DataPrefix|).value;
    assert s == s[..|DataPrefix|] + s[|DataPrefix|..k] + s[k..k + 2] + s[k + 2..];
  }

  lemma ConcatFramesCons(p: string, tail: seq<string>)
    ensures Flatten(Frames([p] + tail)) == Frame(p) + Flatten(Frames(tail))
  {
    assert Frames([p] + tail) == [Frame(p)] + Frames(tail);
    FlattenAppend([Frame(p)], Frames(tail));
    assert [Frame(p)][..0] == [];
  }

  lemma ParseStreamCons(p: string, t: string)
    requires NoLineBreak(p)
    ensures ParseStream(Frame(p) + t) ==
      match ParseStream(t) case None => None case Some(more) => Some([p] + more)
  {
    ParseFrameOfFrame(p, t);
  }

  /** A client reading the concatenated frames of line-free payloads
      receives exactly those payloads, in order. */
  lemma {:induction false} ParseStreamOfFrames(payloads: seq<string>)
    requires forall i :: 0 <= i < |payloads| ==> NoLineBreak(payloads[i])
    ensures ParseStream(Flatten(Frames(payloads))) == Some(payloads)
    decreases |payloads|
  {
    if payloads == [] {
      assert Frames(payloads) == [];
    } else {
      var p, tail := payloads[0], payloads[1..];
      assert payloads == [p] + tail;
      var t := Flatten(Frames(tail));
      ConcatFramesCons(p, tail);
      ParseStreamOfFrames(tail);
      ParseStreamCons(p, t);
    }
  }

  /** Conversely, any stream the client reads as a sequence of events is the
      concatenation of those events' frames. */
  lemma {:induction false} ParseStreamExact(s: string)
    requires ParseStream(s).Some?
    ensures s == Flatten(Frames(ParseStream(s).value))
    decreases |s|
  {
    if s == [] {
      assert Frames([]) == [];
    } else {
      var (p, rest) := ParseFrame(s).value;
      ParseFrameExact(s);
      ParseStreamExact(rest);
      var tail := ParseStream(rest).value;
      assert ParseStream(s).value == [p] + tail;
      ConcatFramesCons(p, tail);
    }
  }

  /** Frames of a line-free encoder's output are read back as that output. */
  lemma DeliveredInOrder(dumps: Encoder, updates: seq<Json>)
    requires SingleLine(dumps)
    ensures ParseStream(Flatten(Frames(Dumped(dumps, updates)))) == Some(Dumped(dumps, updates))
  {
    ParseStreamOfFrames(Dumped(dumps, updates));
  }
}
