/** The control loop of main.py: `main(goal)` and the entry point that reads
    the goal. Each iteration captures a frame, asks the decision model, grows
    the history, and acts on the first tool call. The camera, the model and
    the radio are replaced by scripts: the scan windows the adapter reports
    and the responses the model returns, in order. Everything observable is
    recorded as a trace of events. */
module ControlLoop {
  import opened Wrappers
  import opened Values
  import opened Decision
  import opened Commands
  import opened Transport

  /** The goal used when the operator enters an empty line. */
  const DEFAULT_GOAL: string := "go to the kitchen"

  /** The entry point's goal: the operator's input, or the fallback when the
      input is empty. */
  function GoalOf(input: string): (goal: string)
    ensures goal != ""
    ensures input != "" ==> goal == input
    ensures input == "" ==> goal == DEFAULT_GOAL
  {
    if input == "" then DEFAULT_GOAL else input
  }

  /** What the run does to the outside world, in order. */
  datatype Event =
    | Scan(window: nat)
    | Connect(peripheral: Peripheral)
    | Request(goal: string, history: seq<Block>)
    | Write(peripheral: Peripheral, request: WriteRequest)

  /** The exceptions that end a run. */
  datatype Failure =
    | NoAdapter                      // `get_adapter` gave `None`; scanning on it fails
    | AdapterIndexError(choice: int) // the operator's index is out of range
    | MissingKey(key: string)        // a tool call lacks an argument the loop reads

  /** How a run ends. `Stalled` means the scripts ran out while the source
      would still be scanning or looping. */
  datatype Outcome = Finished | Crashed(failure: Failure) | Stalled

  datatype Run = Run(trace: seq<Event>, outcome: Outcome, history: seq<Block>)

  /** Every write comes right after a request: an iteration sends at most one
      command, and only after it has asked the model. */
  predicate WritesFollowRequests(t: seq<Event>) {
    forall i :: 0 <= i < |t| && t[i].Write? ==> 0 < i && t[i - 1].Request?
  }

  /** A response that lets the loop carry on to the next iteration. */
  predicate Continues(content: seq<Block>) {
    DispatchResponse(content).Ok? && !DispatchResponse(content).value.Halt?
  }

  /** The events of one iteration: the request, then the write when the
      response asks for a movement or a turn. */
  function IterationEvents(link: Peripheral, goal: string, history: seq<Block>, content: seq<Block>): (e: seq<Event>)
    ensures 1 <= |e| <= 2 && e[0] == Request(goal, history)
    ensures |e| == 2 <==> DispatchResponse(content).Ok? && DispatchResponse(content).value.Send?
    ensures |e| == 2 ==> e[1].Write? && e[1].peripheral == link
  {
    [Request(goal, history)] +
      match DispatchResponse(content)
      case Ok(Send(command)) => [Write(link, SendCommand(command))]
      case _ => []
  }

  /** The loop over the scripted `responses`, from the ledger `history`, with
      commands written to `link`. The ledger it ends with extends the one it
      started from. */
  function Loop(link: Peripheral, goal: string, history: seq<Block>, responses: seq<seq<Block>>): (run: Run)
    ensures |run.history| >= |history| && run.history[..|history|] == history
    ensures run.outcome.Crashed? ==> run.outcome.failure.MissingKey?
    decreases |responses|
  {
    if |responses| == 0 then Run([], Stalled, history)
    else
      var events := IterationEvents(link, goal, history, responses[0]);
      var next := Analyze(history, responses[0]).newHistory;
      match DispatchResponse(responses[0])
      case Err(k) => Run(events, Crashed(MissingKey(k)), next)
      case Ok(Halt) => Run(events, Finished, next)
      case Ok(_) =>
        var rest := Loop(link, goal, next, responses[1..]);
        assert rest.history[..|history|] == rest.history[..|next|][..|history|];
        Run(events + rest.trace, rest.outcome, rest.history)
  }

  /** The ledger snapshots sent with the requests of a trace, in order. */
  function Histories(t: seq<Event>): seq<seq<Block>> {
    if |t| == 0 then []
    else (if t[0].Request? then [t[0].history] else []) + Histories(t[1..])
  }

  /** The concatenation of a sequence of responses. */
  function Flatten(responses: seq<seq<Block>>): seq<Block> {
    if |responses| == 0 then [] else responses[0] + Flatten(responses[1..])
  }

  lemma {:induction false} HistoriesAppend(a: seq<Event>, b: seq<Event>)
    ensures Histories(a + b) == Histories(a) + Histories(b)
    decreases |a|
  {
    if |a| == 0 {
      assert a + b == b;
    } else {
      var head := if a[0].Request? then [a[0].history] else [];
      assert (a + b)[0] == a[0];
      assert (a + b)[1..] == a[1..] + b;
      assert Histories(a + b) == head + Histories(a[1..] + b);
      HistoriesAppend(a[1..], b);
      assert Histories(a) == head + Histories(a[1..]);
    }
  }

  lemma IterationHistories(link: Peripheral, goal: string, history: seq<Block>, content: seq<Block>)
    ensures Histories(IterationEvents(link, goal, history, content)) == [history]
  {
    var request := Request(goal, history);
    match DispatchResponse(content)
    case Ok(Send(command)) =>
      var write := Write(link, SendCommand(command));
      assert IterationEvents(link, goal, history, content) == [request, write];
      assert [request, write][1..] == [write];
      assert [write][1..] == [];
      assert Histories([write]) == [];
      assert Histories([request, write]) == [history] + Histories([write]);
    case _ =>
      assert IterationEvents(link, goal, history, content) == [request];
      assert [request][1..] == [];
  }

  lemma FlattenStep(responses: seq<seq<Block>>, k: nat)
    requires 0 < k <= |responses|
    ensures Flatten(responses[..k]) == responses[0] + Flatten(responses[1..][..k - 1])
  {
    assert responses[..k][1..] == responses[1..][..k - 1];
  }

  /** The ledger after `n` responses, seen from the ledger after the first. */
  lemma FlattenShift(history: seq<Block>, responses: seq<seq<Block>>, n: nat)
    requires n <= |responses|
    ensures n == 0 ==> history + Flatten(responses[..n]) == history
    ensures 0 < n ==> (history + responses[0]) + Flatten(responses[1..][..n - 1]) == history + Flatten(responses[..n])
  {
    if n == 0 {
      assert responses[..0] == [];
      assert history + [] == history;
    } else {
      FlattenStep(responses, n);
    }
  }

  /** Shape of a loop that went past its first iteration. */
  lemma LoopStep(link: Peripheral, goal: string, history: seq<Block>, responses: seq<seq<Block>>)
    requires |responses| > 0
    ensures var run := Loop(link, goal, history, responses);
      var rest := Loop(link, goal, history + responses[0], responses[1..]);
      && Histories(run.trace) == [history] + (if Continues(responses[0]) then Histories(rest.trace) else [])
      && run.history == (if Continues(responses[0]) then rest.history else history + responses[0])
  {
    var events := IterationEvents(link, goal, history, responses[0]);
    IterationHistories(link, goal, history, responses[0]);
    if Continues(responses[0]) {
      HistoriesAppend(events, Loop(link, goal, history + responses[0], responses[1..]).trace);
    }
  }

  /** The trace of a loop is its first iteration's events followed, when the
      loop continues, by the trace of the rest. */
  lemma LoopStepTrace(link: Peripheral, goal: string, history: seq<Block>, responses: seq<seq<Block>>)
    requires |responses| > 0
    ensures Loop(link, goal, history, responses).trace ==
      IterationEvents(link, goal, history, responses[0]) +
        (if Continues(responses[0]) then Loop(link, goal, history + responses[0], responses[1..]).trace else [])
  {
  }

  /** What a loop trace looks like: requests and writes only, each write
      right after a request and addressed to the link's fixed
      service/characteristic pair, every request carrying the same goal, and
      a run that stops (finished or crashed) stops on a request, so the
      stopping iteration writes nothing. */
  predicate LoopTraceShape(t: seq<Event>, link: Peripheral, goal: string, outcome: Outcome) {
    && (|t| > 0 ==> t[0].Request?)
    && WritesFollowRequests(t)
    && (forall i :: 0 <= i < |t| ==> t[i].Request? || t[i].Write?)
    && (forall i :: 0 <= i < |t| && t[i].Request? ==> t[i].goal == goal)
    && (forall i :: 0 <= i < |t| && t[i].Write? ==>
          && t[i].peripheral == link
          && t[i].request.service == SERVICE_UUID
          && t[i].request.characteristic == CHARACTERISTIC_UUID)
    && (!outcome.Stalled? ==> |t| > 0 && t[|t| - 1].Request?)
  }

  lemma {:induction false} LoopTrace(link: Peripheral, goal: string, history: seq<Block>, responses: seq<seq<Block>>)
    ensures var run := Loop(link, goal, history, responses);
      LoopTraceShape(run.trace, link, goal, run.outcome)
    decreases |responses|
  {
    if |responses| > 0 {
      var run := Loop(link, goal, history, responses);
      var events := IterationEvents(link, goal, history, responses[0]);
      LoopStepTrace(link, goal, history, responses);
      if Continues(responses[0]) {
        var rest := Loop(link, goal, history + responses[0], responses[1..]);
        LoopTrace(link, goal, history + responses[0], responses[1..]);
        assert run.outcome == rest.outcome;
        IterationShape(link, goal, history, responses[0]);
        ShapeAppend(events, rest.trace, link, goal, rest.outcome);
      } else {
        assert events == [Request(goal, history)];
        assert run.trace == events + [];
      }
    }
  }

  lemma IterationShape(link: Peripheral, goal: string, history: seq<Block>, content: seq<Block>)
    ensures var events := IterationEvents(link, goal, history, content);
      0 < |events| && LoopTraceShape(events, link, goal, Stalled)
  {
  }

  /** Shapes compose: a non-empty iteration followed by a well-shaped rest. */
  lemma ShapeAppend(a: seq<Event>, b: seq<Event>, link: Peripheral, goal: string, outcome: Outcome)
    requires 0 < |a| && LoopTraceShape(a, link, goal, Stalled)
    requires LoopTraceShape(b, link, goal, outcome)
    ensures LoopTraceShape(a + b, link, goal, outcome)
  {
    var t := a + b;
    forall i | 0 <= i < |t|
      ensures t[i] == if i < |a| then a[i] else b[i - |a|]
    {
    }
    forall i | 0 <= i < |t| && t[i].Write?
      ensures 0 < i && t[i - 1].Request?
    {
      if i >= |a| {
        assert b[i - |a|].Write?;
      }
    }
  }

  /** The loop makes at most one request per response, and at least one
      when there is a response at all. */
  lemma {:induction false} LoopCount(link: Peripheral, goal: string, history: seq<Block>, responses: seq<seq<Block>>)
    ensures var n := |Histories(Loop(link, goal, history, responses).trace)|;
      n <= |responses| && (n == 0 <==> |responses| == 0)
    decreases |responses|
  {
    if |responses| > 0 {
      LoopStep(link, goal, history, responses);
      LoopCount(link, goal, history + responses[0], responses[1..]);
    }
  }

  /** Iteration `n` sends the old ledger followed by every earlier response:
      the ledger only ever grows, by whole responses in arrival order. */
  lemma {:induction false} LoopLedger(link: Peripheral, goal: string, history: seq<Block>, responses: seq<seq<Block>>)
    ensures var hs := Histories(Loop(link, goal, history, responses).trace);
      forall n :: 0 <= n < |hs| && n <= |responses| ==> hs[n] == history + Flatten(responses[..n])
    decreases |responses|
  {
    var hs := Histories(Loop(link, goal, history, responses).trace);
    if |responses| > 0 {
      var next := history + responses[0];
      LoopStep(link, goal, history, responses);
      assert hs[0] == history;
      FlattenShift(history, responses, 0);
      if Continues(responses[0]) {
        var rhs := Histories(Loop(link, goal, next, responses[1..]).trace);
        assert hs == [history] + rhs;
        LoopLedger(link, goal, next, responses[1..]);
        forall n | 0 < n < |hs| && n <= |responses|
          ensures hs[n] == history + Flatten(responses[..n])
        {
          assert hs[n] == rhs[n - 1];
          FlattenShift(history, responses, n);
        }
      }
    }
  }

  /** After the loop, the ledger is the old ledger followed by every response
      the loop consumed, in order. */
  lemma {:induction false} LoopFinalHistory(link: Peripheral, goal: string, history: seq<Block>, responses: seq<seq<Block>>)
    ensures var run := Loop(link, goal, history, responses);
      var n := |Histories(run.trace)|;
      n <= |responses| && run.history == history + Flatten(responses[..n])
    decreases |responses|
  {
    LoopCount(link, goal, history, responses);
    if |responses| == 0 {
      FlattenShift(history, responses, 0);
    } else {
      var next := history + responses[0];
      LoopStep(link, goal, history, responses);
      if Continues(responses[0]) {
        LoopFinalHistory(link, goal, next, responses[1..]);
        FlattenShift(history, responses, 1 + |Histories(Loop(link, goal, next, responses[1..]).trace)|);
      } else {
        assert responses[1..][..0] == [];
        assert next + [] == next;
        FlattenShift(history, responses, 1);
      }
    }
  }

  /** The writes of a trace, in order. */
  function Writes(t: seq<Event>): seq<WriteRequest> {
    if |t| == 0 then []
    else (if t[0].Write? then [t[0].request] else []) + Writes(t[1..])
  }

  /** The write one response asks for: one on a `Send` dispatch, none
      otherwise. */
  function WritesOf(content: seq<Block>): seq<WriteRequest> {
    match DispatchResponse(content)
    case Ok(Send(command)) => [SendCommand(command)]
    case _ => []
  }

  /** `f` applied to each element, the results concatenated in order. */
  function ConcatMap<A, B>(f: A -> seq<B>, xs: seq<A>): seq<B> {
    if |xs| == 0 then [] else f(xs[0]) + ConcatMap(f, xs[1..])
  }

  lemma ConcatMapStep<A, B>(f: A -> seq<B>, xs: seq<A>, k: nat)
    requires 0 < k <= |xs|
    ensures ConcatMap(f, xs[..k]) == f(xs[0]) + ConcatMap(f, xs[1..][..k - 1])
  {
    assert xs[..k][0] == xs[0];
    assert xs[..k][1..] == xs[1..][..k - 1];
  }

  /** The writes a sequence of responses asks for, one per `Send` dispatch. */
  function SentWrites(responses: seq<seq<Block>>): seq<WriteRequest> {
    ConcatMap(WritesOf, responses)
  }

  lemma {:induction false} WritesAppend(a: seq<Event>, b: seq<Event>)
    ensures Writes(a + b) == Writes(a) + Writes(b)
    decreases |a|
  {
    if |a| == 0 {
      assert a + b == b;
    } else {
      var head := if a[0].Write? then [a[0].request] else [];
      assert (a + b)[0] == a[0];
      assert (a + b)[1..] == a[1..] + b;
      assert Writes(a + b) == head + Writes(a[1..] + b);
      WritesAppend(a[1..], b);
      assert Writes(a) == head + Writes(a[1..]);
    }
  }

  lemma IterationWrites(link: Peripheral, goal: string, history: seq<Block>, content: seq<Block>)
    ensures Writes(IterationEvents(link, goal, history, content)) == WritesOf(content)
  {
    var request := Request(goal, history);
    match DispatchResponse(content)
    case Ok(Send(command)) =>
      var write := Write(link, SendCommand(command));
      assert IterationEvents(link, goal, history, content) == [request, write];
      assert [request, write][1..] == [write];
      assert [write][1..] == [];
      assert Writes([write]) == [SendCommand(command)];
      assert Writes([request, write]) == [] + Writes([write]);
    case _ =>
      assert IterationEvents(link, goal, history, content) == [request];
      assert [request][1..] == [];
  }

  /** The link receives exactly the commands the consumed responses asked
      for, in order, each written on the fixed service/characteristic pair:
      no command is lost, duplicated or reordered. */
  lemma {:induction false} LoopWrites(link: Peripheral, goal: string, history: seq<Block>, responses: seq<seq<Block>>)
    ensures var run := Loop(link, goal, history, responses);
      var n := |Histories(run.trace)|;
      n <= |responses| && Writes(run.trace) == SentWrites(responses[..n])
    decreases |responses|
  {
    var run := Loop(link, goal, history, responses);
    var n := |Histories(run.trace)|;
    LoopCount(link, goal, history, responses);
    if |responses| == 0 {
      assert responses[..0] == [];
    } else {
      var next := history + responses[0];
      var events := IterationEvents(link, goal, history, responses[0]);
      LoopStep(link, goal, history, responses);
      LoopStepTrace(link, goal, history, responses);
      IterationWrites(link, goal, history, responses[0]);
      ConcatMapStep(WritesOf, responses, n);
      if Continues(responses[0]) {
        var rest := Loop(link, goal, next, responses[1..]);
        LoopWrites(link, goal, next, responses[1..]);
        WritesAppend(events, rest.trace);
      } else {
        assert events + [] == events;
        assert responses[1..][..0] == [];
      }
    }
  }

  /** Every iteration but the last lets the loop go on, and the last one
      decides the outcome: `Finished` only on a halting response, a crash only
      on a missing argument, and `Stalled` only when the whole script was
      used up without either. */
  lemma {:induction false} LoopExit(link: Peripheral, goal: string, history: seq<Block>, responses: seq<seq<Block>>)
    ensures var run := Loop(link, goal, history, responses);
      var n := |Histories(run.trace)|;
      && n <= |responses|
      && (forall j :: 0 <= j < n - 1 ==> Continues(responses[j]))
      && (run.outcome.Stalled? <==> n == |responses| && forall j :: 0 <= j < |responses| ==> Continues(responses[j]))
      && (run.outcome.Finished? ==> 0 < n && DispatchResponse(responses[n - 1]) == Ok(Halt))
      && (run.outcome.Crashed? ==>
            0 < n && run.outcome.failure.MissingKey? && DispatchResponse(responses[n - 1]) == Err(run.outcome.failure.key))
    decreases |responses|
  {
    if |responses| > 0 {
      var next := history + responses[0];
      LoopStep(link, goal, history, responses);
      if Continues(responses[0]) {
        LoopExit(link, goal, next, responses[1..]);
        var run := Loop(link, goal, history, responses);
        var n := |Histories(run.trace)|;
        forall j | 0 < j < |responses|
          ensures responses[j] == responses[1..][j - 1]
        {
        }
      }
    }
  }

  /** Scan events for the first `n` windows. */
  function Scans(n: nat): (t: seq<Event>)
    ensures |t| == n && forall k :: 0 <= k < n ==> t[k] == Scan(k)
  {
    seq(n, k requires 0 <= k => Scan(k))
  }

  /** The whole program: read the goal, set up the link (`command_sender()`),
      then run the loop from an empty history. `name` is the peripheral
      searched for, `DEFAULT_DEVICE_NAME` in the source. */
  function Main(input: string, adapters: seq<Adapter>, choice: int, windows: seq<seq<Peripheral>>,
                name: string, responses: seq<seq<Block>>): (run: Run)
    ensures run.trace == [] <==>
      GetAdapter(adapters, choice).Err? || GetAdapter(adapters, choice) == Ok(None) || |windows| == 0
    ensures run.outcome.Crashed? && !run.outcome.failure.MissingKey? <==>
      GetAdapter(adapters, choice).Err? || GetAdapter(adapters, choice) == Ok(None)
    ensures run.history != [] ==> Discover(windows, name).Some?
  {
    match GetAdapter(adapters, choice)
    case Err(c) => Run([], Crashed(AdapterIndexError(c)), [])
    case Ok(None) => Run([], Crashed(NoAdapter), [])
    case Ok(Some(_)) =>
      match Discover(windows, name)
      case None => Run(Scans(|windows|), Stalled, [])
      case Some(f) =>
        var loop := Loop(f.peripheral, GoalOf(input), [], responses);
        Run(Scans(f.window + 1) + [Connect(f.peripheral)] + loop.trace, loop.outcome, loop.history)
  }

  /** The link is opened at most once, to a peripheral named `name`, after
      scanning only; no request or write happens before it, and every write
      goes to that peripheral on the fixed service/characteristic pair. */
  predicate ConnectsOnce(t: seq<Event>, name: string) {
    && (forall i, j :: 0 <= i < |t| && 0 <= j < |t| && t[i].Connect? && t[j].Connect? ==> i == j)
    && (forall i :: 0 <= i < |t| && (t[i].Request? || t[i].Write?) ==>
          exists c :: 0 <= c < i && t[c].Connect?)
    && (forall c :: 0 <= c < |t| && t[c].Connect? ==>
          && t[c].peripheral.identifier == name
          && (forall j :: 0 <= j < c ==> t[j].Scan?)
          && (forall j :: c < j < |t| ==> !t[j].Scan?)
          && (forall j :: c < j < |t| && t[j].Write? ==>
                t[j].peripheral == t[c].peripheral
                && t[j].request.service == SERVICE_UUID
                && t[j].request.characteristic == CHARACTERISTIC_UUID))
  }

  /** Scans, one connect to `link`, then a loop trace connects once. */
  lemma ConnectedTrace(scans: seq<Event>, link: Peripheral, name: string, t: seq<Event>, goal: string, outcome: Outcome)
    requires forall j :: 0 <= j < |scans| ==> scans[j].Scan?
    requires link.identifier == name
    requires LoopTraceShape(t, link, goal, outcome)
    ensures ConnectsOnce(scans + [Connect(link)] + t, name)
  {
    var all := scans + [Connect(link)] + t;
    ConcatAt(scans, Connect(link), t);
    assert all[|scans|].Connect?;
  }

  lemma MainConnectsOnce(input: string, adapters: seq<Adapter>, choice: int, windows: seq<seq<Peripheral>>,
                         name: string, responses: seq<seq<Block>>)
    ensures ConnectsOnce(Main(input, adapters, choice, windows, name, responses).trace, name)
  {
    match GetAdapter(adapters, choice)
    case Err(_) =>
    case Ok(None) =>
    case Ok(Some(_)) =>
      match Discover(windows, name)
      case None =>
      case Some(f) =>
        var loop := Loop(f.peripheral, GoalOf(input), [], responses);
        LoopTrace(f.peripheral, GoalOf(input), [], responses);
        MainConnected(input, adapters, choice, windows, name, responses, f);
        ConnectedTrace(Scans(f.window + 1), f.peripheral, name, loop.trace, GoalOf(input), loop.outcome);
  }

  /** The program as started from the command line: `command_sender()` is
      built with no argument, so the search is for the default device name. */
  function Program(input: string, adapters: seq<Adapter>, choice: int, windows: seq<seq<Peripheral>>,
                   responses: seq<seq<Block>>): Run
  {
    Main(input, adapters, choice, windows, DEFAULT_DEVICE_NAME, responses)
  }

  /** The program only ever connects to a peripheral named
      `Arduino_Robotics`, and only once. */
  lemma ProgramConnectsToDefault(input: string, adapters: seq<Adapter>, choice: int, windows: seq<seq<Peripheral>>,
                                 responses: seq<seq<Block>>)
    ensures var t := Program(input, adapters, choice, windows, responses).trace;
      && (forall c :: 0 <= c < |t| && t[c].Connect? ==> t[c].peripheral.identifier == "Arduino_Robotics")
      && (forall i, j :: 0 <= i < |t| && 0 <= j < |t| && t[i].Connect? && t[j].Connect? ==> i == j)
  {
    MainConnectsOnce(input, adapters, choice, windows, DEFAULT_DEVICE_NAME, responses);
  }

  /** Indexing into `s + [x] + b`. */
  lemma ConcatAt(s: seq<Event>, x: Event, b: seq<Event>)
    ensures var t := s + [x] + b;
      && |t| == |s| + 1 + |b|
      && (forall j :: 0 <= j < |s| ==> t[j] == s[j])
      && t[|s|] == x
      && (forall j :: |s| < j < |t| ==> t[j] == b[j - |s| - 1])
  {
  }

  /** Every request carries the goal read at start-up, unchanged across
      iterations. */
  lemma MainGoalConstant(input: string, adapters: seq<Adapter>, choice: int, windows: seq<seq<Peripheral>>,
                         name: string, responses: seq<seq<Block>>)
    ensures var t := Main(input, adapters, choice, windows, name, responses).trace;
      forall i :: 0 <= i < |t| && t[i].Request? ==> t[i].goal == GoalOf(input)
  {
    var t := Main(input, adapters, choice, windows, name, responses).trace;
    match GetAdapter(adapters, choice)
    case Err(_) =>
    case Ok(None) =>
    case Ok(Some(_)) =>
      match Discover(windows, name)
      case None =>
      case Some(f) =>
        LoopTrace(f.peripheral, GoalOf(input), [], responses);
        MainConnected(input, adapters, choice, windows, name, responses, f);
        ConcatAt(Scans(f.window + 1), Connect(f.peripheral), Loop(f.peripheral, GoalOf(input), [], responses).trace);
  }

  /** Setup decides whether the loop runs at all: with no adapter or a bad
      choice the program stops before scanning; when no window holds the
      robot it only scans; otherwise it connects right after the first
      window holding a match, to the first match in it. */
  lemma MainSetup(input: string, adapters: seq<Adapter>, choice: int, windows: seq<seq<Peripheral>>,
                  name: string, responses: seq<seq<Block>>)
    ensures var run := Main(input, adapters, choice, windows, name, responses);
      var t := run.trace;
      && (GetAdapter(adapters, choice) == Ok(None) ==> t == [] && run.outcome == Crashed(NoAdapter))
      && (GetAdapter(adapters, choice).Err? ==> t == [] && run.outcome == Crashed(AdapterIndexError(choice)))
      && ((exists c :: 0 <= c < |t| && t[c].Connect?) <==>
            GetAdapter(adapters, choice).Ok? && GetAdapter(adapters, choice).value.Some? && Discover(windows, name).Some?)
      && (forall c :: 0 <= c < |t| && t[c].Connect? ==>
            c == Discover(windows, name).value.window + 1 && t[c].peripheral == Discover(windows, name).value.peripheral)
      && (GetAdapter(adapters, choice).Ok? && GetAdapter(adapters, choice).value.Some? && Discover(windows, name).None? ==>
            t == Scans(|windows|) && run.outcome == Stalled)
  {
    var t := Main(input, adapters, choice, windows, name, responses).trace;
    match GetAdapter(adapters, choice)
    case Err(_) =>
    case Ok(None) =>
    case Ok(Some(_)) =>
      match Discover(windows, name)
      case None =>
      case Some(f) =>
        var loop := Loop(f.peripheral, GoalOf(input), [], responses);
        LoopTrace(f.peripheral, GoalOf(input), [], responses);
        var c := f.window + 1;
        assert t == Scans(c) + [Connect(f.peripheral)] + loop.trace;
        assert t[c] == Connect(f.peripheral);
        forall j | 0 <= j < |t| && t[j].Connect?
          ensures j == c
        {
        }
  }

  /** Device discovery with two adapters: three strangers in the first scan
      window, the robot in the second. The link is opened once, after the
      second scan, and nothing else happens before the loop. */
  lemma DiscoveryScenario()
    ensures var robot := Peripheral(DEFAULT_DEVICE_NAME, "robot-address");
      var windows := [[Peripheral("phone", "a1"), Peripheral("watch", "a2"), Peripheral("tv", "a3")], [robot]];
      var adapters := [Adapter("hci0", "b1"), Adapter("hci1", "b2")];
      var run := Main("", adapters, 1, windows, DEFAULT_DEVICE_NAME, []);
      run.trace == [Scan(0), Scan(1), Connect(robot)] && run.outcome == Stalled
  {
    var robot := Peripheral(DEFAULT_DEVICE_NAME, "robot-address");
    var window0 := [Peripheral("phone", "a1"), Peripheral("watch", "a2"), Peripheral("tv", "a3")];
    var windows := [window0, [robot]];
    assert FirstMatch(window0, DEFAULT_DEVICE_NAME) == None;
    assert FirstMatch([robot], DEFAULT_DEVICE_NAME) == Some(0);
    assert windows[1..] == [[robot]];
    assert Discover(windows, DEFAULT_DEVICE_NAME) == Some(Found(1, robot));
    assert Scans(2) == [Scan(0), Scan(1)];
  }

  /** A tool call as the decision model would send it. */
  function Call(name: string, input: map<string, Value>): seq<Block> {
    [ToolUseBlock(ToolCall("toolu", name, input))]
  }

  /** The end-to-end run: an empty goal line, then a move, a turn by -15
      degrees and a finish. Two commands reach the robot, the -15 turn as a
      left turn, and every request carries the fallback goal and the ledger
      grown so far. */
  lemma EndToEndScenario()
    ensures var robot := Peripheral(DEFAULT_DEVICE_NAME, "robot-address");
      var move := Call(MOVE_ROBOT, map["direction" := JStr("forward"), "distance" := JStr("medium")]);
      var turn := Call(TURN_ROBOT, map["degrees" := JInt(-15)]);
      var finish := Call(FINISH_TASK, map[]);
      var run := Main("", [Adapter("hci0", "b1")], 0, [[robot]], DEFAULT_DEVICE_NAME, [move, turn, finish]);
      && run.outcome == Finished
      && run.trace == [Scan(0), Connect(robot)] + [
           Request(DEFAULT_GOAL, []), Write(robot, SendCommand("forward-medium")),
           Request(DEFAULT_GOAL, move), Write(robot, SendCommand("left--15")),
           Request(DEFAULT_GOAL, move + turn)]
  {
    var robot := Peripheral(DEFAULT_DEVICE_NAME, "robot-address");
    var move := Call(MOVE_ROBOT, map["direction" := JStr("forward"), "distance" := JStr("medium")]);
    var turn := Call(TURN_ROBOT, map["degrees" := JInt(-15)]);
    var finish := Call(FINISH_TASK, map[]);
    assert Scans(1) + [Connect(robot)] == [Scan(0), Connect(robot)];
    ScenarioDispatch();
    ScenarioLoop(robot, move, turn, finish, "forward-medium", "left--15");
    assert FirstMatch([robot], DEFAULT_DEVICE_NAME) == Some(0);
    MainConnected("", [Adapter("hci0", "b1")], 0, [[robot]], DEFAULT_DEVICE_NAME, [move, turn, finish], Found(0, robot));
  }

  /** Once an adapter is chosen and the robot found, the run is the scans,
      one connect, and the loop from an empty ledger. */
  lemma MainConnected(input: string, adapters: seq<Adapter>, choice: int, windows: seq<seq<Peripheral>>,
                      name: string, responses: seq<seq<Block>>, found: Found)
    requires GetAdapter(adapters, choice).Ok? && GetAdapter(adapters, choice).value.Some?
    requires Discover(windows, name) == Some(found)
    ensures var loop := Loop(found.peripheral, GoalOf(input), [], responses);
      Main(input, adapters, choice, windows, name, responses) ==
        Run(Scans(found.window + 1) + [Connect(found.peripheral)] + loop.trace, loop.outcome, loop.history)
  {
  }

  /** The loop part of the end-to-end run, for any three responses that
      send, send and halt. */
  lemma ScenarioLoop(link: Peripheral, first: seq<Block>, second: seq<Block>, third: seq<Block>, c1: string, c2: string)
    requires DispatchResponse(first) == Ok(Send(c1))
    requires DispatchResponse(second) == Ok(Send(c2))
    requires DispatchResponse(third) == Ok(Halt)
    ensures var run := Loop(link, DEFAULT_GOAL, [], [first, second, third]);
      && run.outcome == Finished
      && run.trace == [
           Request(DEFAULT_GOAL, []), Write(link, SendCommand(c1)),
           Request(DEFAULT_GOAL, first), Write(link, SendCommand(c2)),
           Request(DEFAULT_GOAL, first + second)]
  {
    LoopHalts(link, DEFAULT_GOAL, first + second, [third]);
    assert [second, third][1..] == [third];
    LoopSends(link, DEFAULT_GOAL, first, [second, third], c2);
    assert [first, second, third][1..] == [second, third];
    assert [] + first == first;
    LoopSends(link, DEFAULT_GOAL, [], [first, second, third], c1);
  }

  /** A halting first response ends the loop after one request. */
  lemma LoopHalts(link: Peripheral, goal: string, history: seq<Block>, responses: seq<seq<Block>>)
    requires |responses| > 0 && DispatchResponse(responses[0]) == Ok(Halt)
    ensures Loop(link, goal, history, responses) == Run([Request(goal, history)], Finished, history + responses[0])
  {
    assert IterationEvents(link, goal, history, responses[0]) == [Request(goal, history)];
  }

  /** A sending first response writes its command and the loop goes on. */
  lemma LoopSends(link: Peripheral, goal: string, history: seq<Block>, responses: seq<seq<Block>>, command: string)
    requires |responses| > 0 && DispatchResponse(responses[0]) == Ok(Send(command))
    ensures var rest := Loop(link, goal, history + responses[0], responses[1..]);
      Loop(link, goal, history, responses) ==
        Run([Request(goal, history), Write(link, SendCommand(command))] + rest.trace, rest.outcome, rest.history)
  {
    assert IterationEvents(link, goal, history, responses[0]) == [Request(goal, history), Write(link, SendCommand(command))];
  }

  /** How each scripted response of the end-to-end run is dispatched. */
  lemma ScenarioDispatch()
    ensures DispatchResponse(Call(MOVE_ROBOT, map["direction" := JStr("forward"), "distance" := JStr("medium")]))
              == Ok(Send("forward-medium"))
    ensures DispatchResponse(Call(TURN_ROBOT, map["degrees" := JInt(-15)])) == Ok(Send("left--15"))
    ensures DispatchResponse(Call(FINISH_TASK, map[])) == Ok(Halt)
  {
    var move := Call(MOVE_ROBOT, map["direction" := JStr("forward"), "distance" := JStr("medium")]);
    var turn := Call(TURN_ROBOT, map["degrees" := JInt(-15)]);
    var finish := Call(FINISH_TASK, map[]);
    assert ToolBlocks(move) == move;
    assert ToolBlocks(turn) == turn;
    assert ToolBlocks(finish) == finish;
    assert "forward" + "-" + "medium" == "forward-medium";
    TurnExamples();
  }
}
