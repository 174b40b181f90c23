# LLM-driven robot: a Dafny model of the decision loop and the BLE command link

The workshop robot runs a simple loop. A camera frame is sent to a decision model together with the operator's goal and the conversation history. The model answers with content blocks, and the first tool call among them is turned into a short command string such as `forward-short` or `left-30`. That string is written over Bluetooth LE to an Arduino. This project models that loop and its command link:

- `wrappers.dfy` (`Wrappers`): `Option` and `Result`.
- `values.dfy` (`Values`): tool-call argument values as JSON delivers them. It also gives the two Python conversions the loop applies to them: truthiness (`if x`) and f-string rendering (`str(x)`). Integer rendering is paired with a parser and proved to round-trip.
- `decision.dfy` (`Decision`): the post-processing in `analyze_image`. The history ledger grows by the whole response. The response is then split, order-preserving, into text blocks and tool-use blocks.
- `commands.dfy` (`Commands`): what one iteration does with a response. Only the first tool block counts:
  - `finish_task` halts;
  - `move_robot` sends `direction-distance`;
  - `turn_robot` sends `left-<degrees>` or `right-<degrees>`;
  - any other tool, or none, does nothing;
  - a missing argument raises `KeyError`.

  The module also gives a reference reader of the `instruction-value` grammar, which splits at the first `-`; the round trips are stated against it.
- `transport.dfy` (`Transport`): `command_sender.py`. This covers:
  - the ASCII payload with `'replace'` error handling;
  - the fixed service/characteristic pair;
  - adapter selection;
  - the scan-until-found peripheral search, written as a method with loops and as a reference function.
- `control_loop.dfy` (`ControlLoop`): the whole program. It reads the goal (empty input gives `go to the kitchen`), sets up the link, and runs the loop. The camera, the decision model and the radio are replaced by scripts: a finite list of scan windows and a finite list of responses. A run is a trace of `Scan`, `Connect`, `Request` and `Write` events, plus an outcome:
  - `Finished` after `finish_task`;
  - `Crashed` with the exception that ends the program, from the adapter step or from a missing tool argument;
  - `Stalled` when a script runs out where the program would keep scanning or looping.

The turn rule is modelled as the code writes it. The direction is `left` whenever `degrees` is truthy and `right` only for zero, whatever the sign. So `-15` is sent as `left--15`, and `30` as `left-30`, although the tool description (main.py:89) says positive means right.

## Model

| member | source | states |
|---|---|---|
| Decision.Analyze | main.py:157-162 | the new ledger is the old one followed by the whole response, so the old ledger is a prefix and nothing is dropped or reordered; the text and tool lists are the filters of that response |
| Decision.Select | main.py:160-161 | a filtered list holds only blocks carrying the requested type and is no longer than the response |
| Decision.SelectAppend | main.py:160-161 | filtering distributes over concatenation, so it preserves block order |
| Decision.SelectCounts | main.py:160-161 | a block of the requested type is kept exactly as many times as it occurs, and a block of another type is never kept |
| Decision.PartitionExact | main.py:160-161 | a block of the response is a text block iff it is in the text list, a tool-use block iff it is in the tool list, and any other block is in neither |
| Decision.LedgerSelection | main.py:157-161 | a corollary of `SelectAppend` (the program never filters the ledger itself): filtering the grown ledger gives the old ledger's blocks followed by the new response's |
| Values.ShowInt | main.py:216-217 | `str` of an integer is a `-` exactly for a negative number followed by at least one decimal digit, with no leading zero except for zero itself |
| Values.FalsyRendering | main.py:209-217 | the truthiness test and the f-string rendering agree: a string is falsy iff it renders empty, an integer iff it renders as `0`, a boolean iff it renders as `False`, and `None` is always falsy |
| Values.ShowIntRoundTrip | main.py:216-217 | the decimal text the loop writes for integer degrees reads back as the same integer |
| Values.ShowIntInjective | main.py:216-217 | distinct integer degrees are written as distinct text |
| Commands.Lookup | main.py:209-211 | reading an argument succeeds exactly when the key is present and yields its value; otherwise the error names the missing key |
| Commands.ToAction | main.py:204-217 | `finish_task` reads as finishing and a name outside the three tools as unrecognized, each exactly; a `KeyError` arises exactly when a move lacks `direction` or `distance` or a turn lacks `degrees`; a move or turn carries the call's own argument values |
| Commands.DispatchResponse | main.py:200-217 | no tool block means nothing is done; a `KeyError` names one of `direction`, `distance`, `degrees`; halting needs a first tool block named `finish_task` and sending one named `move_robot` or `turn_robot` (the exact conditions are in the four `*Iff` rows) |
| Commands.Encode | main.py:207-217 | only a movement or a turn produces a command; finishing and unknown tools produce none |
| Commands.FirstTool | main.py:200-204 | the first tool call in content order: none iff the response has no tool block, otherwise the call of a tool block preceded by no other tool block |
| Commands.FirstToolIsHead | main.py:161 | the head of the filtered tool list is the first tool call in content order, and the list is empty iff there is none |
| Commands.SplitAtFirstDash | main.py:211 | a command `x-y` with no `-` in `x` splits back into `x` and `y` |
| Commands.HaltIff | main.py:204-206 | an iteration halts iff the first tool call is `finish_task` |
| Commands.IdleIff | main.py:200-217 | an iteration does nothing iff there is no tool call or the first one names none of the three tools |
| Commands.MissingKeyIff | main.py:207-217 | a `KeyError` for `key` is raised iff the first tool lacks an argument it needs, and `key` is the first missing one in reading order (direction before distance) |
| Commands.SendIff | main.py:207-217 | a command is sent iff the first tool is a movement or a turn carrying its arguments, and it is that call's encoding |
| Commands.LaterBlocksIgnored | main.py:200-217 | once a response has a tool call, appending any blocks, further tool calls included, does not change what the iteration does |
| Commands.MoveRoundTrip | main.py:62-79 | a movement within the declared direction and distance enums is sent as `direction-distance` and splits back into the same pair |
| Commands.MoveRoundTripRendered | main.py:207-211 | for any argument values whose direction text has no `-`, the command splits back into the rendered direction and distance |
| Commands.TurnRule | main.py:212-217 | an integer turn `d` is sent as `left` iff `d` is non-zero and as `right` iff `d` is zero, and the degrees read back as `d` |
| Commands.TurnExamples | main.py:87-89 | turns of 30, -15 and 0 are sent as `left-30`, `left--15` and `right-0`; a positive turn goes out as left despite the tool description |
| Commands.FirstOfTwoScenario | main.py:200-211 | with a move followed by a turn in one response, only `forward-short` is sent |
| Transport.EncodeAscii | command_sender.py:18 | the payload has one byte per character of the command |
| Transport.EncodeAsciiChars | command_sender.py:18 | a character below 128 becomes its own code, any other becomes `?` (0x3F), so every payload byte is below 128 |
| Transport.AsciiRoundTrip | command_sender.py:18 | the payload always decodes as strict ASCII, and decodes to the command exactly when the command is pure ASCII |
| Transport.SendCommand | command_sender.py:4-5 | every write goes to the fixed service/characteristic UUID pair, whatever the command, with a payload as long as the command |
| Transport.SendCommandDecodes | command_sender.py:13-18 | every payload written decodes as strict ASCII, and decodes to the very command iff the command is ASCII |
| Transport.GetAdapter | command_sender.py:20-36 | no adapter gives none; one adapter is taken without a question; with several, the choice indexes the list as Python does, and a choice out of range raises `IndexError` |
| Transport.ChoiceMattersOnlyForSeveral | command_sender.py:23-36 | the operator's choice matters only when there are at least two adapters, and the adapter picked is one of the adapters |
| Transport.FirstMatch | command_sender.py:61-64 | the match found is named `name` and every earlier entry of the window is not; no match means no entry has that name |
| Transport.Discover | command_sender.py:46-66 | the search stops at the first window holding a match, on the first match in it; every earlier window had none; none is found iff no window matches |
| Transport.GetPeripheral | command_sender.py:44-71 | the scan loop finds a peripheral iff the reference search does, returns the same peripheral, and stops after exactly one scan per window up to the matching one |
| ControlLoop.GoalOf | main.py:225-227 | the goal is never empty: an empty input line gives `go to the kitchen`, and any other input is kept as entered |
| ControlLoop.IterationEvents | main.py:193-217 | an iteration makes its request first, with the goal and the ledger so far, and then at most one write; the write happens iff the response dispatches to a command, and it goes to the link |
| ControlLoop.Loop | main.py:184-220 | the ledger a loop ends with extends the ledger it started from, and the only exception that ends the loop is a missing argument |
| ControlLoop.LoopTrace | main.py:181-220 | a loop trace starts with a request and holds only requests and writes, each write directly after a request; every request carries the goal; every write goes to the link on the fixed UUID pair; a loop that did not run out of script ends on a request |
| ControlLoop.LoopCount | main.py:184-220 | the loop makes one request per response consumed: none only when there are no responses, and never more than there are |
| ControlLoop.LoopLedger | main.py:193-194 | the request of iteration `n` carries the starting ledger followed by the first `n` responses, in order |
| ControlLoop.LoopFinalHistory | main.py:193-194 | after the loop the ledger is the starting ledger followed by exactly the responses consumed |
| ControlLoop.LoopWrites | main.py:200-217 | the writes of a run are exactly the commands the consumed responses asked for, one per sending response, in order |
| ControlLoop.LoopExit | main.py:184-206 | every iteration but the last continues; a run ends `Finished` only on a `finish_task` response and crashed only on a missing argument; it stalls iff every response continued |
| ControlLoop.LoopHalts | main.py:204-206 | a `finish_task` response ends the loop after its request, with the response added to the ledger and no write |
| ControlLoop.LoopSends | main.py:207-217 | a sending response produces its request, then its write, then the rest of the loop from the grown ledger |
| ControlLoop.Main | main.py:181-184 | nothing at all happens iff the adapter step fails or there is no scan window; the run crashes outside the loop iff the adapter step fails; the ledger grows only once a peripheral named `name` was found |
| ControlLoop.ProgramConnectsToDefault | command_sender.py:8-10 | started as the entry point does, with no device name, the program connects at most once, and only to a peripheral named `Arduino_Robotics` |
| ControlLoop.MainConnectsOnce | command_sender.py:44-71 | a run connects at most once, to a peripheral named `name`, after scans only; every request and write comes after the connect; every write goes to the connected peripheral on the fixed UUID pair |
| ControlLoop.MainGoalConstant | main.py:181-227 | every request of a run carries the goal read at start-up |
| ControlLoop.MainSetup | command_sender.py:7-10 | with no adapter or a bad choice the run stops before scanning; it connects iff an adapter was chosen and some window matches, right after the first matching window and to its first match; otherwise it only scans |
| ControlLoop.DiscoveryScenario | command_sender.py:20-71 | with two adapters, a first window of strangers and the robot in the second window, the run scans twice and connects to the robot |
| ControlLoop.EndToEndScenario | main.py:181-227 | an empty goal line and responses for a move, a turn by -15 and a finish send `forward-medium` then `left--15`; every request carries the fallback goal and the ledger grown so far |

## Left out

- Camera capture, image resizing and PNG encoding: a frame is not represented, because the loop only passes it on.
- The decision-model call: the prompt, the tool schema data, the base64 image encoding and the client. A response is a scripted sequence of blocks. The schema's argument enums appear only as the domain of `Commands.MoveRoundTrip`.
- `save_debug_image`, settings loading and every `print`, including printing the first text block: file system and console output with no effect on the control flow.
- `time.sleep(10)` between iterations and the 5-second scan duration: timing only.
- Capture and decision-request failures: an exception from the camera or from the decision-model call ends the program, but no outcome represents it. A run here only crashes on the adapter step or on a missing tool argument.
- The robot's own command parser: its firmware is not part of this model. `Commands.ParseCommand` is a reference reader of the `instruction-value` grammar, so the round-trip lemmas are facts about the grammar, not about the robot.
- Real radio behaviour: `scan_for`, `scan_get_results`, `connect`, `write_request` and the scan callbacks. Scan results are a given list of windows. A write or connect is an event in the trace, and their failures are not modelled.
- Unbounded repetition: in the program, neither the scan loop nor the main loop has a bound on the number of iterations. The scan loop stops only on a match; the main loop stops only on `finish_task` or an exception. Here both are bounded by their scripts, and running out is the `Stalled` outcome.
- The parse of the adapter choice with `int(input(...))`: the choice is a given integer, so a line that does not parse as an integer is not modelled.
- Float, array and object argument values: `Values.Value` holds strings, integers, booleans and null, so a float turn such as `30.0` and its rendering are not modelled.
- Zero adapters: `get_adapter` returns `None` and the program then fails when scanning on it. The run records this failure as `NoAdapter` without modelling the attribute error itself.
- ControlLoop.Loop: its contract only states that the ledger grows. The ledger, trace, write and exit properties are stated in the `Loop*` lemmas, to keep the function's contract small.
- Transport.EncodeAscii: its contract states the length only; the per-character mapping is stated by `Transport.EncodeAsciiChars`.
