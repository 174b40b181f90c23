/** Dispatch of a decision-model response to a robot command (the body of
    the `main` loop in main.py after `analyze_image` returns), and the wire
    grammar `instruction "-" value` the commands are written in. */
module Commands {
  import opened Wrappers
  import opened Values
  import opened Decision

  /** The three tool names declared to the decision model. */
  const FINISH_TASK: string := "finish_task"
  const MOVE_ROBOT: string := "move_robot"
  const TURN_ROBOT: string := "turn_robot"

  /** The action a tool call stands for. Arguments are kept as the JSON values
      the model sent: the loop never checks them against the declared enums. */
  datatype Action =
    | Move(direction: Value, distance: Value)
    | Turn(degrees: Value)
    | Finish
    | Unrecognized(name: string)

  /** What one loop iteration does after the response is analysed. */
  datatype Dispatch = Halt | Send(command: string) | Idle

  /** `input[key]`; the error is the `KeyError` naming the missing key. */
  function Lookup(input: map<string, Value>, key: string): (r: Result<Value, string>)
    ensures r.Ok? <==> key in input
    ensures r.Ok? ==> r.value == input[key]
    ensures r.Err? ==> r.error == key
  {
    if key in input then Ok(input[key]) else Err(key)
  }

  /** Reads a tool call as an action. `move_robot` reads `direction` before
      `distance`, so a call missing both reports `direction`. */
  function ToAction(call: ToolCall): (r: Result<Action, string>)
    ensures r.Ok? && r.value.Finish? <==> call.name == FINISH_TASK
    ensures r.Ok? && r.value.Unrecognized? <==> call.name !in {FINISH_TASK, MOVE_ROBOT, TURN_ROBOT}
    ensures r.Err? <==>
      || (call.name == MOVE_ROBOT && ("direction" !in call.input || "distance" !in call.input))
      || (call.name == TURN_ROBOT && "degrees" !in call.input)
    ensures r.Ok? && r.value.Move? ==>
      && call.name == MOVE_ROBOT && "direction" in call.input && "distance" in call.input
      && r.value == Move(call.input["direction"], call.input["distance"])
    ensures r.Ok? && r.value.Turn? ==>
      call.name == TURN_ROBOT && "degrees" in call.input && r.value == Turn(call.input["degrees"])
  {
    if call.name == FINISH_TASK then Ok(Finish)
    else if call.name == MOVE_ROBOT then
      match Lookup(call.input, "direction")
      case Err(k) => Err(k)
      case Ok(direction) =>
        match Lookup(call.input, "distance")
        case Err(k) => Err(k)
        case Ok(distance) => Ok(Move(direction, distance))
    else if call.name == TURN_ROBOT then
      match Lookup(call.input, "degrees")
      case Err(k) => Err(k)
      case Ok(degrees) => Ok(Turn(degrees))
    else Ok(Unrecognized(call.name))
  }

  /** The command string an action is sent as; finishing and unrecognized
      tools send nothing. The turn direction follows the truthiness of
      `degrees`, not its sign. */
  function Encode(a: Action): (r: Option<string>)
    ensures r.Some? <==> a.Move? || a.Turn?
  {
    match a
    case Move(direction, distance) => Some(Render(direction) + "-" + Render(distance))
    case Turn(degrees) => Some((if Truthy(degrees) then "left" else "right") + "-" + Render(degrees))
    case Finish => None
    case Unrecognized(_) => None
  }

  /** One iteration's reaction to a response: only the first tool block is
      looked at; no tool block means nothing to do. */
  function DispatchResponse(content: seq<Block>): (r: Result<Dispatch, string>)
    ensures |ToolBlocks(content)| == 0 ==> r == Ok(Idle)
    ensures r.Err? ==> r.error in {"direction", "distance", "degrees"}
    ensures r == Ok(Halt) ==> |ToolBlocks(content)| > 0 && ToolBlocks(content)[0].call.name == FINISH_TASK
    ensures r.Ok? && r.value.Send? ==>
      |ToolBlocks(content)| > 0 && ToolBlocks(content)[0].call.name in {MOVE_ROBOT, TURN_ROBOT}
  {
    var tools := ToolBlocks(content);
    if |tools| == 0 then Ok(Idle)
    else
      match ToAction(tools[0].call)
      case Err(k) => Err(k)
      case Ok(Finish) => Ok(Halt)
      case Ok(Unrecognized(_)) => Ok(Idle)
      case Ok(a) => Ok(Send(Encode(a).value))
  }

  /** The first tool call of a response in content order, found directly. */
  function FirstTool(content: seq<Block>): (r: Option<ToolCall>)
    ensures r.None? <==> forall k :: 0 <= k < |content| ==> !content[k].ToolUseBlock?
    ensures r.Some? ==> exists k :: 0 <= k < |content| && content[k] == ToolUseBlock(r.value)
                                  && forall j :: 0 <= j < k ==> !content[j].ToolUseBlock?
  {
    if |content| == 0 then None
    else if content[0].ToolUseBlock? then Some(content[0].call)
    else
      var r := FirstTool(content[1..]);
      assert r.Some? ==> exists k :: 0 <= k < |content[1..]| && content[1..][k] == ToolUseBlock(r.value)
                                      && forall j :: 0 <= j < k ==> !content[1..][j].ToolUseBlock?;
      assert r.Some? ==> exists k :: 1 <= k < |content| && content[k] == ToolUseBlock(r.value)
                                      && forall j :: 0 <= j < k ==> !content[j].ToolUseBlock?;
      r
  }

  /** The head of the filtered tool list is the first tool call in content order. */
  lemma {:induction false} FirstToolIsHead(content: seq<Block>)
    ensures |ToolBlocks(content)| == 0 <==> FirstTool(content).None?
    ensures |ToolBlocks(content)| > 0 ==> ToolBlocks(content)[0] == ToolUseBlock(FirstTool(content).value)
    decreases |content|
  {
    if |content| > 0 {
      FirstToolIsHead(content[1..]);
    }
  }

  /** Index of the first '-' in a string. */
  function FirstDash(s: string): (r: Option<nat>)
    ensures r.Some? ==> r.value < |s| && s[r.value] == '-' && '-' !in s[..r.value]
    ensures r.None? ==> '-' !in s
  {
    if |s| == 0 then None
    else if s[0] == '-' then Some(0)
    else
      match FirstDash(s[1..])
      case None => assert s == [s[0]] + s[1..]; None
      case Some(i) => assert s[..i + 1] == [s[0]] + s[1..][..i]; Some(i + 1)
  }

  /** A reference reader of the `instruction "-" value` grammar: the
      instruction is the text before the first '-', the value the text after
      it. */
  function ParseCommand(s: string): Option<(string, string)> {
    match FirstDash(s)
    case None => None
    case Some(i) => Some((s[..i], s[i + 1..]))
  }

  lemma SplitAtFirstDash(x: string, y: string)
    requires '-' !in x
    ensures ParseCommand(x + "-" + y) == Some((x, y))
  {
    var s := x + "-" + y;
    assert s[|x|] == '-';
    assert s[..|x|] == x;
    assert s[|x| + 1..] == y;
  }

  predicate ValidDirection(d: string) {
    d == "forward" || d == "backward"
  }

  predicate ValidDistance(d: string) {
    d == "short" || d == "medium" || d == "long"
  }

  /** A movement inside the declared schema round-trips through the wire
      grammar: the reader gets back the direction and distance. */
  lemma MoveRoundTrip(direction: string, distance: string)
    requires ValidDirection(direction) && ValidDistance(distance)
    ensures Encode(Move(JStr(direction), JStr(distance))).Some?
    ensures ParseCommand(Encode(Move(JStr(direction), JStr(distance))).value) == Some((direction, distance))
  {
    SplitAtFirstDash(direction, distance);
  }

  /** More generally, any direction text free of '-' round-trips. */
  lemma MoveRoundTripRendered(direction: Value, distance: Value)
    requires '-' !in Render(direction)
    ensures ParseCommand(Encode(Move(direction, distance)).value) == Some((Render(direction), Render(distance)))
  {
    SplitAtFirstDash(Render(direction), Render(distance));
  }

  /** An integer turn is sent as "left-<d>" exactly when d is non-zero and as
      "right-0" otherwise, whatever the sign; the degrees read back intact. */
  lemma TurnRule(d: int)
    ensures var p := ParseCommand(Encode(Turn(JInt(d))).value);
      && p.Some?
      && (p.value.0 == "left" <==> d != 0)
      && (p.value.0 == "right" <==> d == 0)
      && ParseInt(p.value.1) == Some(d)
  {
    SplitAtFirstDash(if d != 0 then "left" else "right", ShowInt(d));
    ShowIntRoundTrip(d);
  }

  /** The regression cases of the turn rule: a positive turn, which the tool
      description calls a right turn, is sent as a left turn. */
  lemma TurnExamples()
    ensures Encode(Turn(JInt(30))) == Some("left-30")
    ensures Encode(Turn(JInt(-15))) == Some("left--15")
    ensures Encode(Turn(JInt(0))) == Some("right-0")
  {
    assert DigitChar(0) == '0' && DigitChar(1) == '1' && DigitChar(3) == '3' && DigitChar(5) == '5';
    assert ShowInt(30) == "30";
    assert ShowInt(-15) == "-15";
    assert ShowInt(0) == "0";
    assert "left" + "-" + "30" == "left-30";
    assert "left" + "-" + "-15" == "left--15";
    assert "right" + "-" + "0" == "right-0";
  }

  /** `finish_task` as first tool ends the loop, and nothing else does. */
  lemma HaltIff(content: seq<Block>)
    ensures DispatchResponse(content) == Ok(Halt) <==> FirstTool(content).Some? && FirstTool(content).value.name == FINISH_TASK
  {
    FirstToolIsHead(content);
  }

  /** Nothing is sent exactly when there is no tool call or the first one has
      a name outside the three declared tools. */
  lemma IdleIff(content: seq<Block>)
    ensures DispatchResponse(content) == Ok(Idle) <==>
      (FirstTool(content).None? || FirstTool(content).value.name !in {FINISH_TASK, MOVE_ROBOT, TURN_ROBOT})
  {
    FirstToolIsHead(content);
  }

  /** A `KeyError` is raised exactly when the first tool lacks an argument the
      loop reads, and it names the first such argument. */
  lemma MissingKeyIff(content: seq<Block>, key: string)
    ensures DispatchResponse(content) == Err(key) <==>
      var t := FirstTool(content);
      && t.Some?
      && ((t.value.name == MOVE_ROBOT && "direction" !in t.value.input && key == "direction")
          || (t.value.name == MOVE_ROBOT && "direction" in t.value.input && "distance" !in t.value.input && key == "distance")
          || (t.value.name == TURN_ROBOT && "degrees" !in t.value.input && key == "degrees"))
  {
    FirstToolIsHead(content);
  }

  /** A command is sent only for `move_robot` and `turn_robot` calls that
      carry their arguments, and it is the encoding of that first call. */
  lemma SendIff(content: seq<Block>, command: string)
    ensures DispatchResponse(content) == Ok(Send(command)) <==>
      var t := FirstTool(content);
      && t.Some?
      && (t.value.name == MOVE_ROBOT || t.value.name == TURN_ROBOT)
      && ToAction(t.value).Ok?
      && Encode(ToAction(t.value).value) == Some(command)
  {
    FirstToolIsHead(content);
  }

  /** Blocks after the first tool call, tool calls included, do not change
      what the iteration does. */
  lemma LaterBlocksIgnored(content: seq<Block>, later: seq<Block>)
    requires FirstTool(content).Some?
    ensures DispatchResponse(content + later) == DispatchResponse(content)
  {
    FirstToolIsHead(content);
    SelectAppend(content, later, ToolUse);
  }

  /** Two tool calls in one response: a move to "forward-short" followed by a
      turn. Only the move is sent. */
  lemma FirstOfTwoScenario()
    ensures var move := ToolUseBlock(ToolCall("a", MOVE_ROBOT, map["direction" := JStr("forward"), "distance" := JStr("short")]));
      var turn := ToolUseBlock(ToolCall("b", TURN_ROBOT, map["degrees" := JInt(30)]));
      DispatchResponse([move, turn]) == Ok(Send("forward-short"))
  {
    var move := ToolUseBlock(ToolCall("a", MOVE_ROBOT, map["direction" := JStr("forward"), "distance" := JStr("short")]));
    var turn := ToolUseBlock(ToolCall("b", TURN_ROBOT, map["degrees" := JInt(30)]));
    assert [move, turn] == [move] + [turn];
    assert FirstTool([move]) == Some(move.call);
    LaterBlocksIgnored([move], [turn]);
    assert ToolBlocks([move]) == [move];
    assert "forward" + "-" + "short" == "forward-short";
  }
}
