/**
 * The check invoker: the record wrapper handed to probes (`CheckData`), the
 * decorator that wraps every probe (`check_function`), the lookup of a probe
 * by module and function name, and the task that runs one check
 * (`check_task`).
 */
module Invoker {
  import opened Wrappers
  import opened PyFormat
  import opened Text
  import Utf8
  import opened Credentials

  /** A message handed to `add_output`: text, or bytes that are decoded first. */
  datatype Message = Str(text: string) | Bytes(data: seq<Utf8.byte>)

  /** One thing a probe does to the check record while it runs. */
  datatype ProbeStep =
    | Log(message: Message, args: seq<string>, kwargs: map<string, string>)  // check.add_output(message, *args, **kwargs)
    | SetPassed(value: bool)                                                  // check.passed = value
    | MissingAttribute(name: string)                                          // a call of a method CheckData does not have

  /** How a probe ends once its steps are done: it returns a value (truthy or not) or raises. */
  datatype Outcome = Return(truthy: bool) | Raise(error: Exception)

  datatype ProbeRun = ProbeRun(steps: seq<ProbeStep>, outcome: Outcome)

  /**
   * A probe: the expectation given to its decorator, and what it does for a
   * configuration. The services it talks to are folded into `behaviour`.
   */
  datatype Probe = Probe(expectation: string, behaviour: Config -> ProbeRun)

  /** The probes that can be named: module name, then function name. */
  type Registry = map<string, map<string, Probe>>

  const ChecksPackage: string := "scoreengine.checks."
  const SuccessLine: string := "Check successful!"

  /**
   * `_get_check_function(file_name, function_name)`: the probe named by the
   * task, or the ImportError / AttributeError that importing the module or
   * reading the attribute raises.
   */
  function GetCheckFunction(registry: Registry, ref: CheckRef): (r: Result<Probe, Exception>)
    ensures r.Success? <==> ref.fileName in registry && ref.functionName in registry[ref.fileName]
    ensures r.Success? ==> r.value == registry[ref.fileName][ref.functionName]
    ensures r.Failure? && ref.fileName !in registry ==> r.error.kind == "ModuleNotFoundError"
    ensures r.Failure? && ref.fileName in registry ==> r.error.kind == "AttributeError"
  {
    var moduleName := ChecksPackage + ref.fileName;
    if ref.fileName !in registry then
      Failure(Exception("ModuleNotFoundError", "No module named '" + moduleName + "'"))
    else if ref.functionName !in registry[ref.fileName] then
      Failure(Exception("AttributeError", "module '" + moduleName + "' has no attribute '" + ref.functionName + "'"))
    else
      Success(registry[ref.fileName][ref.functionName])
  }

  /**
   * The line `add_output` appends: the message, decoded if it is bytes, then
   * formatted. Brace-free text is appended as it is, and bytes that do not
   * decode raise the decoding error before any formatting.
   */
  function Render(message: Message, args: seq<string>, kwargs: map<string, string>): (r: Result<string, Exception>)
    ensures message.Str? && NoBraces(message.text) ==> r == Success(message.text)
    ensures message.Bytes? && Utf8.Decode(message.data).Failure? ==> r == Failure(Utf8.Decode(message.data).error)
    ensures message.Bytes? && Utf8.Decode(message.data).Success? && NoBraces(Utf8.Decode(message.data).value) ==>
              r == Utf8.Decode(message.data)
  {
    match message
    case Str(t) => Format(t, args, kwargs)
    case Bytes(b) =>
      match Utf8.Decode(b)
      case Success(t) => Format(t, args, kwargs)
      case Failure(e) => Failure(e)
  }

  /** The view of a task record that a probe is given. */
  class CheckData {
    var data: Task

    constructor (data: Task)
      ensures this.data == data
    {
      this.data := data;
    }

    /** The read-only `config` property. */
    function Config(): (c: Config)
      reads this
      ensures c == data.config
    {
      data.config
    }

    /** The read-only `service_name` property. */
    function ServiceName(): (name: string)
      reads this
      ensures name == data.serviceName
    {
      data.serviceName
    }

    /** The `passed` property. */
    function Passed(): (passed: bool)
      reads this
      ensures passed == data.passed
    {
      data.passed
    }

    /** The `passed` setter: only `passed` changes. */
    method SetPassed(value: bool)
      modifies this
      ensures data == old(data).(passed := value)
    {
      data := data.(passed := value);
    }

    /**
     * `add_output(message, *args, **kwargs)`: appends exactly the rendered
     * line, or raises what decoding or formatting raised and changes nothing.
     */
    method AddOutput(message: Message, args: seq<string>, kwargs: map<string, string>)
      returns (raised: Option<Exception>)
      modifies this
      ensures raised.None? <==> Render(message, args, kwargs).Success?
      ensures raised.None? ==> data == old(data).(output := old(data.output) + [Render(message, args, kwargs).value])
      ensures raised.Some? ==> data == old(data) && raised.value == Render(message, args, kwargs).error
    {
      match Render(message, args, kwargs)
      case Success(line) =>
        data := data.(output := data.output + [line]);
        raised := None;
      case Failure(e) =>
        raised := Some(e);
    }

    /** `export()`: the underlying record itself. */
    function Export(): (d: Task)
      reads this
      ensures d == data
    {
      data
    }
  }

  /** The AttributeError raised by calling a method the record does not have. */
  function MissingAttributeError(name: string): Exception
  {
    Exception("AttributeError", "'CheckData' object has no attribute '" + name + "'")
  }

  /** The effect of one probe step on the record, and what it raised. */
  function Step(d: Task, step: ProbeStep): (Task, Option<Exception>)
  {
    match step
    case Log(m, args, kwargs) =>
      (match Render(m, args, kwargs)
       case Success(line) => (d.(output := d.output + [line]), None)
       case Failure(e) => (d, Some(e)))
    case SetPassed(v) => (d.(passed := v), None)
    case MissingAttribute(name) => (d, Some(MissingAttributeError(name)))
  }

  /** The record after the probe's steps, up to and including the first one that raises. */
  function RunSteps(d: Task, steps: seq<ProbeStep>): (Task, Option<Exception>)
  {
    if steps == [] then (d, None)
    else
      var before := RunSteps(d, steps[..|steps| - 1]);
      if before.1.Some? then before else Step(before.0, steps[|steps| - 1])
  }

  /** The record after the probe, and how the probe ended. */
  function ProbeResult(d: Task, run: ProbeRun): (Task, Outcome)
  {
    var after := RunSteps(d, run.steps);
    if after.1.Some? then (after.0, Raise(after.1.value)) else (after.0, run.outcome)
  }

  /** The three lines logged before the probe runs. */
  function Preamble(serviceName: string, expectation: string): seq<string>
  {
    ["ScoreEngine: " + serviceName + " Check", "EXPECTED: " + expectation, "OUTPUT:"]
  }

  /** The line logged for an exception the probe raised. */
  function ErrorLine(e: Exception): string
  {
    "ERROR: " + e.kind + ": " + e.message
  }

  /** The record once the preamble is logged, just before the probe runs. */
  function Started(d: Task, probe: Probe): Task
  {
    d.(output := d.output + Preamble(d.serviceName, probe.expectation))
  }

  /** How the wrapped probe ends. */
  function ProbeOutcome(d: Task, probe: Probe): Outcome
  {
    ProbeResult(Started(d, probe), probe.behaviour(d.config)).1
  }

  /** The output once the probe has finished, before the wrapper's own last lines. */
  function ProbeOutput(d: Task, probe: Probe): seq<string>
  {
    ProbeResult(Started(d, probe), probe.behaviour(d.config)).0.output
  }

  /** The record after the decorated probe has run on it. */
  function Wrapped(d: Task, probe: Probe): (r: Task)
    ensures r.passed <==> ProbeOutcome(d, probe) == Return(true)
    ensures r.passed ==> r.output != [] && r.output[|r.output| - 1] == SuccessLine
  {
    var after := ProbeResult(Started(d, probe), probe.behaviour(d.config));
    var passed := after.1 == Return(true);
    var errorLines := if after.1.Raise? then [ErrorLine(after.1.error)] else [];
    after.0.(passed := passed, output := after.0.output + errorLines + (if passed then [SuccessLine] else []))
  }

  /** Once a step has raised, later steps are never run. */
  lemma {:induction false} RunStepsAfterRaise(d: Task, steps: seq<ProbeStep>, i: nat)
    requires i <= |steps| && RunSteps(d, steps[..i]).1.Some?
    ensures RunSteps(d, steps) == RunSteps(d, steps[..i])
    decreases |steps| - i
  {
    if i < |steps| {
      assert steps[..i + 1][..i] == steps[..i];
      RunStepsAfterRaise(d, steps, i + 1);
    } else {
      assert steps[..i] == steps;
    }
  }

  /** The probe's steps only append lines and set `passed`; every other field is kept. */
  lemma {:induction false} RunStepsAppends(d: Task, steps: seq<ProbeStep>)
    ensures RunSteps(d, steps).0 == d.(output := RunSteps(d, steps).0.output, passed := RunSteps(d, steps).0.passed)
    ensures d.output <= RunSteps(d, steps).0.output
  {
    if steps != [] {
      RunStepsAppends(d, steps[..|steps| - 1]);
    }
  }

  /** A template with one automatically numbered field renders to its two literals around the value. */
  lemma OneFieldRendering(before: string, after: string, value: string)
    requires NoBraces(before) && NoBraces(after)
    ensures Render(Str(before + "{}" + after), [value], map[]) == Success(before + value + after)
  {
    var m: map<string, string> := map[];
    assert before + "{}" + after == before + ("{}" + after);
    FormatLiteral(before, "{}" + after, [value], m, Unset);
    FormatAutoField(after, [value], m, Unset);
    FormatLiteral(after, [], [value], m, Auto(1));
    assert after + [] == after;
    PrefixEmpty(FormatFrom([], [value], m, Auto(1)));
    PrefixPrefix(before, value, Success(after));
  }

  /** The tail `middle{}last` of a two-field template, once the first argument is used. */
  lemma SecondFieldRendering(middle: string, last: string, args: seq<string>)
    requires NoBraces(middle) && NoBraces(last) && |args| == 2
    ensures FormatFrom(middle + ("{}" + last), args, map[], Auto(1)) == Success(middle + args[1] + last)
  {
    var m: map<string, string> := map[];
    FormatLiteral(middle, "{}" + last, args, m, Auto(1));
    FormatAutoField(last, args, m, Auto(1));
    FormatLiteral(last, [], args, m, Auto(2));
    assert last + [] == last;
    PrefixEmpty(FormatFrom([], args, m, Auto(2)));
    PrefixPrefix(middle, args[1], Success(last));
  }

  /** A template with two automatically numbered fields renders to its three literals around the values. */
  lemma TwoFieldRendering(first: string, middle: string, last: string, v1: string, v2: string)
    requires NoBraces(first) && NoBraces(middle) && NoBraces(last)
    ensures Render(Str(first + "{}" + middle + "{}" + last), [v1, v2], map[]) == Success(first + v1 + middle + v2 + last)
  {
    var m: map<string, string> := map[];
    var args := [v1, v2];
    var tail := middle + ("{}" + last);
    assert first + "{}" + middle + "{}" + last == first + ("{}" + tail);
    FormatLiteral(first, "{}" + tail, args, m, Unset);
    FormatAutoField(tail, args, m, Unset);
    SecondFieldRendering(middle, last, args);
    PrefixPrefix(first, v1, Success(middle + v2 + last));
    assert first + v1 + (middle + v2 + last) == first + v1 + middle + v2 + last;
  }

  /** A line without braces (`OUTPUT:`, the success line) renders as itself. */
  lemma PlainRendering(line: string)
    requires NoBraces(line)
    ensures Render(Str(line), [], map[]) == Success(line)
  {
    FormatNoBraces(line, [], map[]);
  }

  /** `add_output` of a brace-free line: the line is appended. */
  method LogPlain(check: CheckData, line: string)
    requires NoBraces(line)
    modifies check
    ensures check.data == old(check.data).(output := old(check.data.output) + [line])
  {
    PlainRendering(line);
    var _ := check.AddOutput(Str(line), [], map[]);
  }

  /** `add_output` of `before{}after` with one argument: the filled-in line is appended. */
  method LogField(check: CheckData, before: string, after: string, value: string)
    requires NoBraces(before) && NoBraces(after)
    modifies check
    ensures check.data == old(check.data).(output := old(check.data.output) + [before + value + after])
  {
    OneFieldRendering(before, after, value);
    var _ := check.AddOutput(Str(before + "{}" + after), [value], map[]);
  }

  /** `add_output` of `first{}middle{}last` with two arguments: the filled-in line is appended. */
  method LogFields(check: CheckData, first: string, middle: string, last: string, v1: string, v2: string)
    requires NoBraces(first) && NoBraces(middle) && NoBraces(last)
    modifies check
    ensures check.data == old(check.data).(output := old(check.data.output) + [first + v1 + middle + v2 + last])
  {
    TwoFieldRendering(first, middle, last, v1, v2);
    var _ := check.AddOutput(Str(first + "{}" + middle + "{}" + last), [v1, v2], map[]);
  }

  /** The probe itself: its steps, in order, until one raises. */
  method RunProbeSteps(steps: seq<ProbeStep>, check: CheckData) returns (raised: Option<Exception>)
    modifies check
    ensures (check.data, raised) == RunSteps(old(check.data), steps)
  {
    ghost var start := check.data;
    raised := None;
    var i := 0;
    while i < |steps| && raised.None?
      invariant 0 <= i <= |steps|
      invariant (check.data, raised) == RunSteps(start, steps[..i])
    {
      assert steps[..i + 1][..i] == steps[..i];
      match steps[i] {
        case Log(m, args, kwargs) =>
          raised := check.AddOutput(m, args, kwargs);
        case SetPassed(v) =>
          check.SetPassed(v);
        case MissingAttribute(name) =>
          raised := Some(MissingAttributeError(name));
      }
      i := i + 1;
    }
    if raised.Some? {
      RunStepsAfterRaise(start, steps, i);
    } else {
      assert steps[..i] == steps;
    }
  }

  /**
   * The decorator's wrapper: logs the preamble, runs the probe, turns an
   * exception into a failure with an `ERROR:` line, otherwise takes the
   * truthiness of the return value, and logs the success line when passed.
   */
  method Invoke(probe: Probe, check: CheckData)
    modifies check
    ensures check.data == Wrapped(old(check.data), probe)
  {
    ghost var d := check.data;
    LogPreamble(probe, check);
    var run := probe.behaviour(check.Config());
    var raised := RunProbeSteps(run.steps, check);

    var outcome := if raised.Some? then Raise(raised.value) else run.outcome;
    match outcome {
      case Raise(e) =>
        check.SetPassed(false);
        LogFields(check, "ERROR: ", ": ", "", e.kind, e.message);
        assert "ERROR: " + e.kind + ": " + e.message + "" == ErrorLine(e);
      case Return(truthy) =>
        check.SetPassed(truthy);
    }
    if check.Passed() {
      LogPlain(check, SuccessLine);
    }
  }

  /** The wrapper's first three lines: the service, the expectation and `OUTPUT:`. */
  method LogPreamble(probe: Probe, check: CheckData)
    modifies check
    ensures check.data == Started(old(check.data), probe)
  {
    ghost var d := check.data;
    LogField(check, "ScoreEngine: ", " Check", check.ServiceName());
    LogField(check, "EXPECTED: ", "", probe.expectation);
    assert "EXPECTED: " + probe.expectation + "" == "EXPECTED: " + probe.expectation;
    LogPlain(check, "OUTPUT:");
    assert check.data.output == d.output + Preamble(d.serviceName, probe.expectation);
  }

  /** Steps never read `passed`: starting from another value of it changes neither the lines logged nor what is raised. */
  lemma {:induction false} RunStepsIgnorePassed(d: Task, b: bool, steps: seq<ProbeStep>)
    ensures RunSteps(d.(passed := b), steps).0.output == RunSteps(d, steps).0.output
    ensures RunSteps(d.(passed := b), steps).1 == RunSteps(d, steps).1
  {
    if steps != [] {
      RunStepsIgnorePassed(d, b, steps[..|steps| - 1]);
    }
  }

  /** The preamble is logged first, after the lines the record already held, and nothing logged is ever lost. */
  lemma WrappedStartsWithPreamble(d: Task, probe: Probe)
    ensures d.output + Preamble(d.serviceName, probe.expectation) <= Wrapped(d, probe).output
  {
    RunStepsAppends(Started(d, probe), probe.behaviour(d.config).steps);
  }

  /** Only `output` and `passed` change: the configuration, identifiers and round number come back as they went in. */
  lemma WrappedKeepsFields(d: Task, probe: Probe)
    ensures Wrapped(d, probe) == d.(output := Wrapped(d, probe).output, passed := Wrapped(d, probe).passed)
  {
    RunStepsAppends(Started(d, probe), probe.behaviour(d.config).steps);
  }

  /**
   * The verdict is decided by the wrapper alone: it holds exactly when the
   * probe returns a truthy value without raising, whatever `passed` held
   * before and whatever the probe set it to along the way.
   */
  lemma WrappedPassed(d: Task, probe: Probe, b: bool)
    ensures Wrapped(d, probe).passed <==> ProbeOutcome(d, probe) == Return(true)
    ensures Wrapped(d.(passed := b), probe) == Wrapped(d, probe).(passed := Wrapped(d, probe).passed)
    ensures Wrapped(d.(passed := b), probe).passed == Wrapped(d, probe).passed
  {
    RunStepsIgnorePassed(Started(d, probe), b, probe.behaviour(d.config).steps);
    assert Started(d.(passed := b), probe) == Started(d, probe).(passed := b);
    RunStepsAppends(Started(d, probe), probe.behaviour(d.config).steps);
    RunStepsAppends(Started(d, probe).(passed := b), probe.behaviour(d.config).steps);
  }

  /**
   * After the probe's own lines come at most two: the `ERROR:` line exactly
   * when it raised, and the success line exactly when it passed, as the last line.
   */
  lemma WrappedClosingLines(d: Task, probe: Probe)
    ensures ProbeOutput(d, probe) <= Wrapped(d, probe).output
    ensures ProbeOutcome(d, probe).Raise? ==>
      !Wrapped(d, probe).passed && Wrapped(d, probe).output == ProbeOutput(d, probe) + [ErrorLine(ProbeOutcome(d, probe).error)]
    ensures ProbeOutcome(d, probe).Return? ==>
      Wrapped(d, probe).output == ProbeOutput(d, probe) + (if Wrapped(d, probe).passed then [SuccessLine] else [])
    ensures Wrapped(d, probe).passed ==> Wrapped(d, probe).output[|Wrapped(d, probe).output| - 1] == SuccessLine
  {
  }

  /** What `check_task` produces for a task: the lookup error, or the record after the wrapped probe. */
  function CheckResult(registry: Registry, data: Task): Result<Task, Exception>
  {
    match GetCheckFunction(registry, data.check)
    case Failure(e) => Failure(e)
    case Success(probe) => Success(Wrapped(data, probe))
  }

  /**
   * `check_task(data)`: looks the probe up (a failed lookup is re-raised and
   * no result is produced), runs it on the record and returns that record.
   */
  method CheckTask(registry: Registry, data: Task) returns (r: Result<Task, Exception>)
    ensures r == CheckResult(registry, data)
  {
    var lookup := GetCheckFunction(registry, data.check);
    if lookup.Failure? {
      return Failure(lookup.error);
    }
    var check := new CheckData(data);
    Invoke(lookup.value, check);
    r := Success(check.Export());
  }

  /**
   * A task whose probe cannot be found produces no record; otherwise the
   * record comes back with the same identifiers and configuration, its
   * earlier lines kept and the preamble logged after them.
   */
  lemma CheckResultShape(registry: Registry, data: Task)
    ensures CheckResult(registry, data).Failure? <==>
      data.check.fileName !in registry || data.check.functionName !in registry[data.check.fileName]
    ensures CheckResult(registry, data).Success? ==>
      var r := CheckResult(registry, data).value;
      var probe := registry[data.check.fileName][data.check.functionName];
      r == data.(output := r.output, passed := r.passed) &&
      data.output + Preamble(data.serviceName, probe.expectation) <= r.output
  {
    var lookup := GetCheckFunction(registry, data.check);
    if lookup.Success? {
      WrappedKeepsFields(data, lookup.value);
      WrappedStartsWithPreamble(data, lookup.value);
    }
  }
}
