/** The update commands a server pushes to the page, and the single-key
    JSON shape each is sent in: {"html": {id: html}}, {"js": {name: value}}
    and {"js": {"exec": code}}. */
module Commands {
  import opened Wrappers
  import opened Json

  datatype Command =
    | HtmlReplace(elementId: string, html: string)
    | JsSetVariable(name: string, value: Json)
    | JsExecute(code: string)

  const HtmlKey: string := "html"
  const JsKey: string := "js"
  const ExecKey: string := "exec"

  /** A JSON object with exactly one member. */
  predicate IsSingleKey(j: Json) {
    j.JObj? && |j.fields| == 1
  }

  function Single(key: string, value: Json): Json {
    JObj([(key, value)])
  }

  /** The JSON object a command is queued as. */
  function Encode(c: Command): Json {
    match c
    case HtmlReplace(id, html) => Single(HtmlKey, Single(id, JStr(html)))
    case JsSetVariable(name, value) => Single(JsKey, Single(name, value))
    case JsExecute(code) => Single(JsKey, Single(ExecKey, JStr(code)))
  }

  /** Every command is queued as a single-key object keyed "html" or "js"
      whose value is a single-key object holding (id, html), (name, value)
      or ("exec", code). */
  lemma EncodeShape(c: Command)
    ensures var j := Encode(c);
      IsSingleKey(j) && IsSingleKey(j.fields[0].1)
      && j.fields[0].0 == (if c.HtmlReplace? then HtmlKey else JsKey)
      && (c.HtmlReplace? ==> j.fields[0].1.fields[0] == (c.elementId, JStr(c.html)))
      && (c.JsSetVariable? ==> j.fields[0].1.fields[0] == (c.name, c.value))
      && (c.JsExecute? ==> j.fields[0].1.fields[0] == (ExecKey, JStr(c.code)))
  {
  }

  /** The partial inverse of Encode: a "js" member named "exec" holding a
      string decodes as a script, any other "js" member as a variable, and
      objects of any other shape as None. */
  function Decode(j: Json): (r: Option<Command>)
    ensures r.Some? ==> Encode(r.value) == j
    ensures r.Some? ==> !(r.value.JsSetVariable? && r.value.name == ExecKey && r.value.value.JStr?)
  {
    if !IsSingleKey(j) then None
    else
      var (key, inner) := j.fields[0];
      if !IsSingleKey(inner) then None
      else
        var (name, value) := inner.fields[0];
        assert inner.fields == [(name, value)] && j.fields == [(key, inner)];
        if key == HtmlKey then
          if value.JStr? then Some(HtmlReplace(name, value.s)) else None
        else if key == JsKey then
          if name == ExecKey && value.JStr? then Some(JsExecute(value.s))
          else Some(JsSetVariable(name, value))
        else None
  }

  /** The representative of a command's encoding: setting a variable named
      "exec" to a string encodes exactly as executing that string. */
  function Canonical(c: Command): (r: Command)
    ensures Decode(Encode(c)) == Some(r)
  {
    match c
    case JsSetVariable(name, JStr(s)) => if name == ExecKey then JsExecute(s) else c
    case _ => c
  }

  /** Two commands go on the wire identically exactly when they have the
      same representative. */
  lemma EncodeEqualIff(c1: Command, c2: Command)
    ensures Encode(c1) == Encode(c2) <==> Canonical(c1) == Canonical(c2)
  {
    if Canonical(c1) == Canonical(c2) {
      assert Decode(Encode(c1)) == Decode(Encode(c2));
    }
  }

  /** The encoding is not injective: a variable named "exec" collides with
      an execution command. */
  lemma ExecVariableCollides(code: string)
    ensures JsSetVariable(ExecKey, JStr(code)) != JsExecute(code)
    ensures Encode(JsSetVariable(ExecKey, JStr(code))) == Encode(JsExecute(code))
  {
  }

  /** The objects queued for a sequence of commands, in order. */
  function EncodeAll(cs: seq<Command>): (js: seq<Json>)
    ensures |js| == |cs| && forall i :: 0 <= i < |cs| ==> js[i] == Encode(cs[i])
  {
    seq(|cs|, i requires 0 <= i < |cs| => Encode(cs[i]))
  }

  lemma EncodeAllAppend(a: seq<Command>, b: seq<Command>)
    ensures EncodeAll(a + b) == EncodeAll(a) + EncodeAll(b)
  {
  }

  lemma EncodeAllSnoc(cs: seq<Command>, c: Command)
    ensures EncodeAll(cs + [c]) == EncodeAll(cs) + [Encode(c)]
  {
  }
}
