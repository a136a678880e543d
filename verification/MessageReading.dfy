/** Reading an action call's message back: it determines the action, the service type, and every
    argument with its value, in order. */
module MessageReading {
  import opened Wrappers
  import opened Text
  import opened ActionMessage
  import A = ActionArguments

  /** A name that stands in a tag: no angle bracket, colon or blank. */
  predicate TagName(s: string) { '<' !in s && '>' !in s && ':' !in s && ' ' !in s }

  /** Arguments as they are written: names fit for tags, and values already escaped. */
  predicate Writable(list: seq<A.Argument>) {
    forall i :: 0 <= i < |list| ==> TagName(list[i].name) && '<' !in list[i].value.text
  }

  /** Names and texts in order. */
  function Texts(list: seq<A.Argument>): seq<(string, string)> {
    seq(|list|, i requires 0 <= i < |list| => (list[i].name, list[i].value.text))
  }

  /** The first element, its text ended by the end tag of its name, and what comes after it. */
  function FirstElement(s: string): (r: Option<((string, string), string)>)
    ensures r.Some? ==> |r.value.1| < |s|
  {
    var open := Find(s, ">");
    if s == "" || s[0] != '<' || open.None? || open.value == 0 then None
    else
      var name, rest := s[1..open.value], s[open.value + 1..];
      var close := Find(rest, "<");
      if close.None? || !StartsWith(rest[close.value..], EndTag(name)) then None
      else Some(((name, rest[..close.value]), rest[close.value + |EndTag(name)|..]))
  }

  /** One element after another. */
  function ReadParameters(s: string): Option<seq<(string, string)>>
    decreases |s|
  {
    if s == "" then Some([])
    else
      var first := FirstElement(s);
      if first.None? then None
      else
        var more := ReadParameters(first.value.1);
        if more.None? then None else Some([first.value.0] + more.value)
  }

  lemma FindChar(s: string, c: char, rest: string)
    requires c !in s
    ensures Find(s + [c] + rest, [c]) == Some(|s|)
  {
    var t := s + [c] + rest;
    assert t[|s|..|s| + 1] == [c];
    forall j: nat | j < |s| ensures !OccursAt(t, [c], j) {
      assert t[j..j + 1] == [s[j]];
    }
    FindAt(t, [c], |s|);
  }

  lemma ParametersSnoc(list: seq<A.Argument>, init: seq<A.Argument>, last: A.Argument)
    requires list == init + [last]
    ensures Parameters(list) == Parameters(init) + Parameter(last)
  {
    assert list[..|list| - 1] == init;
  }

  lemma {:induction false} ParametersCons(a: A.Argument, list: seq<A.Argument>)
    ensures Parameters([a] + list) == Parameter(a) + Parameters(list)
    decreases |list|
  {
    if list == [] {
      assert [a] + list == [a] && [a][..0] == [];
    } else {
      var init, last := list[..|list| - 1], list[|list| - 1];
      ParametersCons(a, init);
      ParametersSnoc([a] + list, [a] + init, last);
      ParametersSnoc(list, init, last);
    }
  }

  lemma CutName(name: string, tail: string)
    ensures var s := ['<'] + name + ['>'] + tail;
      s[0] == '<' && s[1..1 + |name|] == name && s[2 + |name|..] == tail
  {
  }

  lemma CutText(text: string, end: string, rest: string)
    ensures var tail := text + (end + rest);
      && tail[..|text|] == text && tail[|text| + |end|..] == rest
      && StartsWith(tail[|text|..], end)
  {
    var tail := text + (end + rest);
    assert tail[|text|..] == end + rest && (end + rest)[..|end|] == end;
  }

  /** An element whose name and text have been found. */
  lemma FirstIs(s: string, name: string, tail: string, text: string, rest: string)
    requires s != "" && s[0] == '<' && Find(s, ">") == Some(1 + |name|)
    requires s[1..1 + |name|] == name && s[2 + |name|..] == tail
    requires Find(tail, "<") == Some(|text|) && |text| + |EndTag(name)| <= |tail|
    requires tail[..|text|] == text && StartsWith(tail[|text|..], EndTag(name))
    requires tail[|text| + |EndTag(name)|..] == rest
    ensures FirstElement(s) == Some(((name, text), rest))
  {
  }

  lemma ElementIs(name: string, text: string, rest: string)
    ensures StartTag(name) + text + EndTag(name) + rest == ['<'] + name + ['>'] + (text + (EndTag(name) + rest))
  {
  }

  lemma TextEnds(name: string, text: string, rest: string)
    ensures text + (EndTag(name) + rest) == text + ['<'] + ("/" + name + ">" + rest)
  {
    assert EndTag(name) == ['<'] + ("/" + name + ">");
  }

  lemma ReadOne(a: A.Argument, rest: string)
    requires TagName(a.name) && '<' !in a.value.text
    ensures Parameter(a) + rest != "" && FirstElement(Parameter(a) + rest) == Some(((a.name, a.value.text), rest))
  {
    ReadElement(a.name, a.value.text, rest);
    ElementIs(a.name, a.value.text, rest);
  }

  lemma ReadElement(name: string, text: string, rest: string)
    requires TagName(name) && '<' !in text
    ensures FirstElement(['<'] + name + ['>'] + (text + (EndTag(name) + rest))) == Some(((name, text), rest))
  {
    var tail := text + (EndTag(name) + rest);
    TextEnds(name, text, rest);
    FindChar(text, '<', "/" + name + ">" + rest);
    FindChar(['<'] + name, '>', tail);
    CutName(name, tail);
    CutText(text, EndTag(name), rest);
    FirstIs(['<'] + name + ['>'] + tail, name, tail, text, rest);
  }

  lemma OneMore(s: string, element: (string, string), rest: string)
    requires s != "" && FirstElement(s) == Some((element, rest))
    ensures var more := ReadParameters(rest);
      ReadParameters(s) == if more.None? then None else Some([element] + more.value)
  {
  }

  lemma TextsCons(first: A.Argument, rest: seq<A.Argument>)
    ensures Texts([first] + rest) == [(first.name, first.value.text)] + Texts(rest)
  {
  }

  /** The written parameters are read back, name by name and text by text. */
  predicate ReadsBack(list: seq<A.Argument>) { ReadParameters(Parameters(list)) == Some(Texts(list)) }

  lemma NothingReadsBack()
    ensures ReadsBack([])
  {
    assert Texts([]) == [];
  }

  lemma ReadCons(list: seq<A.Argument>, first: A.Argument, rest: seq<A.Argument>)
    requires list == [first] + rest && Writable(list) && ReadsBack(rest)
    ensures ReadsBack(list)
  {
    assert list[0] == first;
    ReadOne(first, Parameters(rest));
    OneMore(Parameter(first) + Parameters(rest), (first.name, first.value.text), Parameters(rest));
    ParametersCons(first, rest);
    TextsCons(first, rest);
  }

  lemma {:induction false} ParametersReadBack(list: seq<A.Argument>)
    requires Writable(list)
    ensures ReadsBack(list)
    decreases |list|
  {
    if list == [] {
      NothingReadsBack();
    } else {
      ParametersReadBack(list[1..]);
      ReadCons(list, list[0], list[1..]);
    }
  }

  // ---------------------------------------------------------------- the whole message

  const BEFORE_TYPE := " xmlns:u=\""

  /** The action, the service type and the arguments of a message that begins with this header. */
  function Read(header: string, message: string): Option<(string, string, seq<(string, string)>)> {
    if !StartsWith(message, header + "<u:") then None
    else
      var tag := message[|header| + 3..];
      var blank := Find(tag, " ");
      if blank.None? || !StartsWith(tag[blank.value..], BEFORE_TYPE) then None
      else ReadFrom(tag[..blank.value], tag[blank.value + |BEFORE_TYPE|..])
  }

  /** What comes after the action's name. */
  function ReadFrom(action: string, after: string): Option<(string, string, seq<(string, string)>)> {
    var quote := Find(after, "\"");
    if quote.None? || !StartsWith(after[quote.value..], "\">") then None
    else
      var body := after[quote.value + 2..];
      if |body| < |Footer(action)| || body[|body| - |Footer(action)|..] != Footer(action) then None
      else
        var arguments := ReadParameters(body[..|body| - |Footer(action)|]);
        if arguments.None? then None else Some((action, after[..quote.value], arguments.value))
  }

  lemma CutType(serviceType: string, body: string)
    ensures var after := serviceType + ['"'] + (">" + body);
      && after[..|serviceType|] == serviceType && after[|serviceType| + 2..] == body
      && StartsWith(after[|serviceType|..], "\">")
  {
    var after := serviceType + ['"'] + (">" + body);
    assert after[|serviceType|..] == "\">" + body && ("\">" + body)[..2] == "\">";
  }

  lemma CutFooter(params: string, footer: string)
    ensures var body := params + footer; body[|body| - |footer|..] == footer && body[..|body| - |footer|] == params
  {
  }

  /** What follows the action's name, once the type and the parameters are found. */
  lemma ReadFound(action: string, after: string, serviceType: string, params: string, args: seq<(string, string)>)
    requires Find(after, "\"") == Some(|serviceType|) && StartsWith(after[|serviceType|..], "\">")
    requires after[..|serviceType|] == serviceType && after[|serviceType| + 2..] == params + Footer(action)
    requires ReadParameters(params) == Some(args)
    ensures ReadFrom(action, after) == Some((action, serviceType, args))
  {
    CutFooter(params, Footer(action));
  }

  lemma ReadAfterName(name: string, list: seq<A.Argument>, serviceType: string)
    requires '"' !in serviceType && Writable(list)
    ensures ReadFrom(name, serviceType + ['"'] + (">" + (Parameters(list) + Footer(name)))) ==
      Some((name, serviceType, Texts(list)))
  {
    var body := Parameters(list) + Footer(name);
    FindChar(serviceType, '"', ">" + body);
    CutType(serviceType, body);
    ParametersReadBack(list);
    ReadFound(name, serviceType + ['"'] + (">" + body), serviceType, Parameters(list), Texts(list));
  }

  lemma ReadName(header: string, name: string, after: string)
    requires TagName(name)
    ensures Read(header, (header + "<u:") + (name + (BEFORE_TYPE + after))) == ReadFrom(name, after)
  {
    var tag := name + (BEFORE_TYPE + after);
    var message := (header + "<u:") + tag;
    assert message[..|header| + 3] == header + "<u:" && message[|header| + 3..] == tag;
    assert BEFORE_TYPE + after == [' '] + ("xmlns:u=\"" + after);
    assert tag == name + [' '] + ("xmlns:u=\"" + after);
    FindChar(name, ' ', "xmlns:u=\"" + after);
    assert tag[|name|..] == BEFORE_TYPE + after && tag[..|name|] == name;
    assert tag[|name| + |BEFORE_TYPE|..] == after;
  }

  lemma TagIs(header: string, name: string, serviceType: string, body: string)
    ensures header + ActionTag(name, serviceType) + body ==
      (header + "<u:") + (name + (BEFORE_TYPE + (serviceType + ['"'] + (">" + body))))
  {
    assert "\">" == ['"'] + ">";
    assert ActionTag(name, serviceType) + body == "<u:" + (name + (BEFORE_TYPE + (serviceType + ['"'] + (">" + body))));
  }

  /** The message of a call says which action of which type is called, and every argument with its
      value, in order. */
  lemma MessageReadsBack(name: string, list: seq<A.Argument>, serviceType: string)
    requires TagName(name) && '"' !in serviceType && Writable(list)
    ensures Read(HEADER, Message(name, list, serviceType)) == Some((name, serviceType, Texts(list)))
  {
    var body := Parameters(list) + Footer(name);
    MessageParts(HEADER, ActionTag(name, serviceType), Parameters(list), Footer(name));
    TagIs(HEADER, name, serviceType, body);
    ReadName(HEADER, name, serviceType + ['"'] + (">" + body));
    ReadAfterName(name, list, serviceType);
  }

  lemma MessageParts(a: string, b: string, c: string, d: string)
    ensures a + b + c + d == a + b + (c + d)
  {
  }
}
