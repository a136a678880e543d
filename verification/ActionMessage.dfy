/** The arguments of an action call on values: what adding and setting them does. */
module ActionArguments {
  import opened Wrappers

  /** An argument value: its type and its text in the message. */
  datatype Value = Value(gtype: string, text: string)

  datatype Argument = Argument(name: string, value: Value)

  datatype Args = Args(list: seq<Argument>, index: map<string, nat>)

  const EMPTY := Args([], map[])

  datatype Op = Add(name: string, value: Value) | Set(name: string, value: Value)

  datatype SetResult = Done | UnknownArgument | TypeMismatch

  function SetOutcome(a: Args, key: string, value: Value): SetResult {
    if key !in a.index || a.index[key] >= |a.list| then UnknownArgument
    else if a.list[a.index[key]].value.gtype != value.gtype then TypeMismatch
    else Done
  }

  predicate Accepts(a: Args, op: Op) {
    match op
    case Add(name, _) => name !in a.index
    case Set(key, value) => SetOutcome(a, key, value) == Done
  }

  function Apply(a: Args, op: Op): Args {
    if !Accepts(a, op) then a
    else
      match op
      case Add(name, value) => Args(a.list + [Argument(name, value)], a.index[name := |a.list|])
      case Set(key, value) => a.(list := a.list[a.index[key] := a.list[a.index[key]].(value := value)])
  }

  function Run(a: Args, ops: seq<Op>): Args
    decreases ops
  {
    if ops == [] then a else Run(Apply(a, ops[0]), ops[1..])
  }

  /** The index finds every argument at its place and nothing else, so names are unique. */
  predicate Indexed(a: Args) {
    && (forall i :: 0 <= i < |a.list| ==> a.list[i].name in a.index && a.index[a.list[i].name] == i)
    && (forall key :: key in a.index ==> a.index[key] < |a.list| && a.list[a.index[key]].name == key)
  }

  lemma ApplyIndexes(a: Args, op: Op)
    requires Indexed(a)
    ensures Indexed(Apply(a, op))
  {
  }

  /** Names and types in order: what setting a value never touches. */
  function Shape(list: seq<Argument>): seq<(string, string)> {
    seq(|list|, i requires 0 <= i < |list| => (list[i].name, list[i].value.gtype))
  }

  /** The shape the additions alone leave: each new name at the end, in call order. */
  function Added(shape: seq<(string, string)>, ops: seq<Op>): seq<(string, string)>
    decreases ops
  {
    if ops == [] then shape
    else if ops[0].Add? && forall i :: 0 <= i < |shape| ==> shape[i].0 != ops[0].name then
      Added(shape + [(ops[0].name, ops[0].value.gtype)], ops[1..])
    else Added(shape, ops[1..])
  }

  predicate Known(shape: seq<(string, string)>, name: string) {
    exists i :: 0 <= i < |shape| && shape[i].0 == name
  }

  lemma ApplyShape(a: Args, op: Op)
    requires Indexed(a)
    ensures Shape(Apply(a, op).list) ==
      if op.Add? && !Known(Shape(a.list), op.name) then Shape(a.list) + [(op.name, op.value.gtype)] else Shape(a.list)
  {
    var shape := Shape(a.list);
    if op.name in a.index {
      assert shape[a.index[op.name]].0 == op.name;
    }
    if Known(shape, op.name) {
      var i :| 0 <= i < |shape| && shape[i].0 == op.name;
      assert a.list[i].name == op.name;
    }
  }

  /** The value held for a name. */
  function ValueOf(a: Args, name: string): Option<Value> {
    if name in a.index && a.index[name] < |a.list| then Some(a.list[a.index[name]].value) else None
  }

  /** What the operations make of one name's value: the first addition, then every setting of the
      same type. */
  function Settled(held: Option<Value>, name: string, ops: seq<Op>): Option<Value>
    decreases ops
  {
    if ops == [] then held
    else
      var op := ops[0];
      var next :=
        if op.name != name then held
        else if op.Add? then (if held.None? then Some(op.value) else held)
        else if held.Some? && held.value.gtype == op.value.gtype then Some(op.value)
        else held;
      Settled(next, name, ops[1..])
  }

  lemma ApplySettles(a: Args, op: Op, name: string)
    requires Indexed(a)
    ensures ValueOf(Apply(a, op), name) == Settled(ValueOf(a, name), name, [op])
  {
    assert [op][1..] == [];
  }

  lemma SettledStep(held: Option<Value>, name: string, ops: seq<Op>)
    requires ops != []
    ensures Settled(held, name, ops) == Settled(Settled(held, name, [ops[0]]), name, ops[1..])
  {
    assert [ops[0]][1..] == [];
  }

  lemma {:induction false} RunFrom(a: Args, ops: seq<Op>, name: string)
    requires Indexed(a)
    ensures var r := Run(a, ops);
      && Indexed(r)
      && Shape(r.list) == Added(Shape(a.list), ops)
      && ValueOf(r, name) == Settled(ValueOf(a, name), name, ops)
    decreases ops
  {
    if ops != [] {
      ApplyIndexes(a, ops[0]);
      ApplyShape(a, ops[0]);
      ApplySettles(a, ops[0], name);
      SettledStep(ValueOf(a, name), name, ops);
      RunFrom(Apply(a, ops[0]), ops[1..], name);
    }
  }

  /** After any run of additions and settings the index is exact and names are unique; names, types
      and positions are those of the accepted additions in call order; and each name holds what its
      own operations alone settle on. */
  lemma ArgumentsAreIndexed(ops: seq<Op>, name: string)
    ensures var r := Run(EMPTY, ops);
      && Indexed(r)
      && (forall i, j :: 0 <= i < j < |r.list| ==> r.list[i].name != r.list[j].name)
      && Shape(r.list) == Added([], ops)
      && ValueOf(r, name) == Settled(None, name, ops)
  {
    assert Shape(EMPTY.list) == [];
    RunFrom(EMPTY, ops, name);
  }

  /** After any run, setting a name is refused as unknown if none of its operations added it, as a
      mismatch if its value has another type, and done otherwise; and adding it is refused exactly if
      it is there. */
  lemma WhatIsReported(ops: seq<Op>, name: string, value: Value)
    ensures var r, held := Run(EMPTY, ops), Settled(None, name, ops);
      && SetOutcome(r, name, value) ==
           (if held.None? then UnknownArgument else if held.value.gtype != value.gtype then TypeMismatch else Done)
      && (Accepts(r, Add(name, value)) <==> held.None?)
  {
    ArgumentsAreIndexed(ops, name);
  }
}

/** The message of an action call, built in place. */
module ActionMessage {
  import A = ActionArguments

  const HEADER := "<?xml version=\"1.0\"?><s:Envelope xmlns:s=\"http://schemas.xmlsoap.org/soap/envelope/\" "
    + "s:encodingStyle=\"http://schemas.xmlsoap.org/soap/encoding/\"><s:Body>"

  function StartTag(name: string): string { "<" + name + ">" }

  function EndTag(name: string): string { "</" + name + ">" }

  function Parameters(list: seq<A.Argument>): string {
    if list == [] then ""
    else Parameters(list[..|list| - 1]) + Parameter(list[|list| - 1])
  }

  function Parameter(a: A.Argument): string {
    StartTag(a.name) + a.value.text + EndTag(a.name)
  }

  /** The opening tag of the action element. */
  function ActionTag(name: string, serviceType: string): string {
    "<u:" + name + " xmlns:u=\"" + serviceType + "\">"
  }

  function Footer(name: string): string { "</u:" + name + ">" + "</s:Body></s:Envelope>" }

  /** The whole message, front to back. */
  function Message(name: string, list: seq<A.Argument>, serviceType: string): string {
    HEADER + ActionTag(name, serviceType) + Parameters(list) + Footer(name)
  }

  function Insert(s: string, at: nat, x: string): string
    requires at <= |s|
  {
    s[..at] + x + s[at..]
  }

  class ServiceProxyAction {
    const name: string
    var args: seq<A.Argument>
    var argMap: map<string, nat>
    var msgStr: string
    var headerPos: nat

    ghost function View(): A.Args
      reads this
    {
      A.Args(args, argMap)
    }

    ghost predicate Valid()
      reads this
    {
      A.Indexed(View())
    }

    constructor (name: string)
      ensures Valid() && this.name == name && View() == A.EMPTY
    {
      this.name := name;
      args, argMap, msgStr, headerPos := [], map[], "", 0;
    }

    method AddArgument(name: string, value: A.Value) returns (added: bool)
      requires Valid()
      modifies this`args, this`argMap
      ensures Valid() && View() == A.Apply(old(View()), A.Add(name, value))
      ensures added == A.Accepts(old(View()), A.Add(name, value))
    {
      if name in argMap {
        return false;
      }
      argMap := argMap[name := |args|];
      args := args + [A.Argument(name, value)];
      added := true;
    }

    method Set(key: string, value: A.Value) returns (result: A.SetResult)
      requires Valid()
      modifies this`args
      ensures Valid() && View() == A.Apply(old(View()), A.Set(key, value))
      ensures result == A.SetOutcome(old(View()), key, value)
    {
      if key !in argMap {
        return A.UnknownArgument;
      }
      var arg := args[argMap[key]];
      if value.gtype != arg.value.gtype {
        return A.TypeMismatch;
      }
      args := args[argMap[key] := arg.(value := value)];
      result := A.Done;
    }

    /** Write the parameters in order after the header. */
    method WriteParameters()
      modifies this`msgStr
      ensures msgStr == old(msgStr) + Parameters(args)
    {
      var i := 0;
      while i < |args|
        invariant 0 <= i <= |args|
        invariant msgStr == old(msgStr) + Parameters(args[..i])
      {
        assert args[..i + 1][..i] == args[..i];
        var before := msgStr;
        msgStr := msgStr + StartTag(args[i].name);
        msgStr := msgStr + args[i].value.text;
        msgStr := msgStr + EndTag(args[i].name);
        assert msgStr == before + Parameter(args[i]);
        i := i + 1;
      }
      assert args[..|args|] == args;
    }

    /** Insert at the header position and move it past what was inserted. */
    method InsertAtHeader(x: string, ghost head: string, ghost tail: string)
      requires msgStr == head + tail && headerPos == |head|
      modifies this`msgStr, this`headerPos
      ensures msgStr == (head + x) + tail && headerPos == |head + x|
    {
      msgStr := Insert(msgStr, headerPos, x);
      headerPos := headerPos + |x|;
    }

    /** Insert the opening tag of the action element piece by piece, between `header` and `tail`. */
    method InsertActionTag(serviceType: string, ghost header: string, ghost tail: string)
      requires msgStr == header + tail && headerPos == |header|
      modifies this`msgStr, this`headerPos
      ensures msgStr == (header + ActionTag(name, serviceType)) + tail
      ensures headerPos + |"\">"| == |header| + |ActionTag(name, serviceType)|
    {
      ghost var head := header;
      InsertAtHeader("<u:", head, tail);
      head := head + "<u:";
      InsertAtHeader(name, head, tail);
      head := head + name;
      InsertAtHeader(" xmlns:u=\"", head, tail);
      head := head + " xmlns:u=\"";
      InsertAtHeader(serviceType, head, tail);
      head := head + serviceType;
      msgStr := Insert(msgStr, headerPos, "\">");
      Pieces(header, name, serviceType, tail);
    }

    /** Serialize the call: the opening tag goes in after the parameters and the footer have been
        written.  Whatever was serialized before is replaced. */
    method Serialize(serviceType: string)
      modifies this`msgStr, this`headerPos
      ensures msgStr == Message(name, args, serviceType)
      ensures headerPos + |"\">"| == |HEADER| + |ActionTag(name, serviceType)|
    {
      msgStr := HEADER;
      headerPos := |msgStr|;
      WriteParameters();
      msgStr := msgStr + Footer(name);
      ghost var tail := Parameters(args) + Footer(name);
      Regrouped(HEADER, Parameters(args), Footer(name));
      InsertActionTag(serviceType, HEADER, tail);
      Regrouped(HEADER + ActionTag(name, serviceType), Parameters(args), Footer(name));
    }
  }

  lemma Regrouped(a: string, b: string, c: string)
    ensures a + (b + c) == a + b + c
  {
  }

  /** The insertions, one after another, are plain concatenation. */
  lemma Pieces(header: string, name: string, serviceType: string, tail: string)
    ensures var head := header + "<u:" + name + " xmlns:u=\"" + serviceType;
      Insert(head + tail, |head|, "\">") == (header + ActionTag(name, serviceType)) + tail
  {
    var head := header + "<u:" + name + " xmlns:u=\"" + serviceType;
    assert (head + tail)[..|head|] == head && (head + tail)[|head|..] == tail;
    assert head == header + ("<u:" + name + " xmlns:u=\"" + serviceType);
    assert head + "\">" == header + ActionTag(name, serviceType);
  }
}
