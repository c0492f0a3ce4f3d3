/**
 * The mode-setting command line tool: the FSM state names, and the option
 * loop of `main`, which runs the robot's locomotion client calls named by
 * the options from left to right. The client is modelled by the calls made
 * on it, in order; what the robot answers is not part of this model.
 * Numbers are kept as the text the tool parses them from, except the FSM id,
 * whose `std::stoi` conversion decides whether the tool goes on.
 */
module SetMode {
  import opened Wrappers
  import Text

  // ---------------------------------------------------------------------
  // get_fsm_description

  /** The FSM ids the tool has a name for. */
  const KnownFsmIds: set<int> := {0, 1, 2, 3, 4, 500, 501, 801}

  function FsmDescription(fsmId: int): (d: string)
    ensures d == "Unknown" <==> fsmId !in KnownFsmIds
  {
    if fsmId == 0 then "ZeroTorque - motors free (CAUTION: robot will fall!)"
    else if fsmId == 1 then "Damp - damping mode"
    else if fsmId == 2 then "Squat - squat position"
    else if fsmId == 3 then "Sit - sitting position"
    else if fsmId == 4 then "StandUp - stand up"
    else if fsmId == 500 then "Start - normal walking mode"
    else if fsmId == 501 then "Advanced - walking + arm control enabled"
    else if fsmId == 801 then "Expert - low-level control mode"
    else "Unknown"
  }

  // ---------------------------------------------------------------------
  // Number parsing

  predicate IsDigit(c: char) {
    '0' <= c <= '9'
  }

  /** `s` without its leading white space. */
  function SkipSpace(s: string): (r: string)
    ensures |r| <= |s| && r == s[|s| - |r|..]
    ensures r == [] || !Text.IsSpace(r[0])
  {
    if s != [] && Text.IsSpace(s[0]) then SkipSpace(s[1..]) else s
  }

  /** The number of digits `s` starts with. */
  function DigitCount(s: string): (n: nat)
    ensures n <= |s| && forall i :: 0 <= i < n ==> IsDigit(s[i])
    ensures n < |s| ==> !IsDigit(s[n])
  {
    if s != [] && IsDigit(s[0]) then 1 + DigitCount(s[1..]) else 0
  }

  /** The value of a string of decimal digits. */
  function DigitsValue(ds: string): nat
    requires forall i :: 0 <= i < |ds| ==> IsDigit(ds[i])
  {
    if ds == [] then 0
    else
      assert IsDigit(ds[|ds| - 1]);
      10 * DigitsValue(ds[..|ds| - 1]) + (ds[|ds| - 1] as int - '0' as int)
  }

  /** An optional sign: whether it is a minus, and what follows it. */
  function Sign(t: string): (bool, string)
  {
    if t != [] && (t[0] == '+' || t[0] == '-') then (t[0] == '-', t[1..]) else (false, t)
  }

  /** `std::stoi`: white space, an optional sign and at least one digit,
      whose value must fit in an `int`; `None` when it throws. */
  function Stoi(s: string): (r: Option<int>)
    ensures r.Some? ==> -0x8000_0000 <= r.value < 0x8000_0000
  {
    var signed := Sign(SkipSpace(s));
    var n := DigitCount(signed.1);
    if n == 0 then None
    else
      var magnitude := DigitsValue(signed.1[..n]);
      var v: int := if signed.0 then -(magnitude as int) else magnitude;
      if -0x8000_0000 <= v < 0x8000_0000 then Some(v) else None
  }

  lemma {:induction false} DigitsValueAppend(ds: string, d: char)
    requires forall i :: 0 <= i < |ds| ==> IsDigit(ds[i])
    requires IsDigit(d)
    ensures DigitsValue(ds + [d]) == 10 * DigitsValue(ds) + (d as int - '0' as int)
  {
    assert (ds + [d])[..|ds|] == ds;
  }

  /** The decimal digits of `n`, most significant first. */
  function Decimal(n: nat): (ds: string)
    ensures ds != [] && forall i :: 0 <= i < |ds| ==> IsDigit(ds[i])
    ensures DigitsValue(ds) == n
  {
    var last := ('0' as int + n % 10) as char;
    if n < 10 then
      DigitsValueAppend([], last);
      [last]
    else
      var front := Decimal(n / 10);
      DigitsValueAppend(front, last);
      front + [last]
  }

  /** A string of digits is all digits. */
  lemma {:induction false} DigitCountAll(ds: string)
    requires forall i :: 0 <= i < |ds| ==> IsDigit(ds[i])
    ensures DigitCount(ds) == |ds|
  {
    if ds != [] {
      DigitCountAll(ds[1..]);
    }
  }

  /** `Stoi` reads back every `int` written in decimal, with a minus sign
      when it is negative. */
  lemma StoiReadsDecimal(v: int)
    requires -0x8000_0000 <= v < 0x8000_0000
    ensures Stoi(if v < 0 then "-" + Decimal(-v) else Decimal(v)) == Some(v)
  {
    var ds := if v < 0 then Decimal(-v) else Decimal(v);
    var s := if v < 0 then "-" + ds else ds;
    assert !Text.IsSpace(s[0]);
    assert SkipSpace(s) == s;
    assert Sign(s) == (v < 0, ds);
    DigitCountAll(ds);
    assert ds[..|ds|] == ds;
  }

  /** Whether `s`, after white space and a sign, starts a floating-point
      number the C library converts: a digit, a point and a digit, or
      "inf" or "nan" in any case. */
  predicate FloatPrefix(s: string) {
    var u := Sign(SkipSpace(s)).1;
    (|u| >= 1 && IsDigit(u[0]))
    || (|u| >= 2 && u[0] == '.' && IsDigit(u[1]))
    || StartsWithFolded(u, "inf") || StartsWithFolded(u, "nan")
  }

  /** `s` starts with the lower-case word `w`, ignoring case. */
  predicate StartsWithFolded(s: string, w: string) {
    w == [] || (s != [] && Text.Lower(s[0]) == w[0] && StartsWithFolded(s[1..], w[1..]))
  }

  // ---------------------------------------------------------------------
  // Options

  /** A call on the locomotion client. */
  datatype Call =
    | GetFsmId
    | SetFsmId(id: int)
    | Damp
    | Start
    | Squat
    | Sit
    | StandUp
    | ZeroTorque
    | StopMove
    | HighStand
    | LowStand
    | BalanceStand
    | WaveHand
    | ShakeHand
    | SetVelocity(params: string)
    | SetStandHeight(height: string)
    | SetSwingHeight(height: string)

  /** What one option does: a client call, an error exit, or an uncaught
      conversion exception. */
  datatype Step = Calls(call: Call) | Rejected | Throws

  predicate StartsWith(s: string, p: string) {
    |p| <= |s| && s[..|p|] == p
  }

  /** The options that carry a value after their '='. */
  datatype Valued = FsmIdValue | VelocityValue | StandHeightValue | SwingHeightValue

  /** One test of the tool's chain: the option is exactly a name, or it
      starts with a prefix that ends in '='. */
  datatype Test = Exact(name: string, call: Call) | Prefixed(prefix: string, valued: Valued)

  /** The tests, in the order the tool makes them. */
  const Tests: seq<Test> := [
    Exact("--get_fsm_id", GetFsmId), Prefixed("--fsm_id=", FsmIdValue),
    Exact("--damp", Damp), Exact("--start", Start), Exact("--squat", Squat), Exact("--sit", Sit),
    Exact("--stand_up", StandUp), Exact("--zero_torque", ZeroTorque), Exact("--stop_move", StopMove),
    Exact("--high_stand", HighStand), Exact("--low_stand", LowStand),
    Exact("--balance_stand", BalanceStand), Exact("--wave_hand", WaveHand),
    Exact("--shake_hand", ShakeHand), Prefixed("--velocity=", VelocityValue),
    Prefixed("--stand_height=", StandHeightValue), Prefixed("--swing_height=", SwingHeightValue)]

  /** Where the velocity test stands in the chain. */
  const VelocityTest: nat := 14

  predicate Matches(t: Test, arg: string) {
    match t
    case Exact(name, _) => arg == name
    case Prefixed(prefix, _) => StartsWith(arg, prefix)
  }

  /** What an option with a value does with the text after its '=': the
      FSM id goes through `std::stoi`, the velocity through `sscanf`,
      which must convert at least one number, and the heights through
      `std::stof`, which throws when it converts none. */
  function ValueStep(v: Valued, text: string): (r: Step)
    ensures r == Rejected <==> v == VelocityValue && !FloatPrefix(text)
    ensures r == Throws <==>
      if v == FsmIdValue then Stoi(text).None? else v != VelocityValue && !FloatPrefix(text)
  {
    match v
    case FsmIdValue => (match Stoi(text) case None => Throws case Some(id) => Calls(SetFsmId(id)))
    case VelocityValue => if FloatPrefix(text) then Calls(SetVelocity(text)) else Rejected
    case StandHeightValue => if FloatPrefix(text) then Calls(SetStandHeight(text)) else Throws
    case SwingHeightValue => if FloatPrefix(text) then Calls(SetSwingHeight(text)) else Throws
  }

  /** What an option that passes test `t` does. */
  function Act(t: Test, arg: string): (r: Step)
    requires Matches(t, arg)
    ensures r == Rejected <==> t.Prefixed? && t.valued == VelocityValue && !FloatPrefix(arg[|t.prefix|..])
  {
    match t
    case Exact(_, call) => Calls(call)
    case Prefixed(prefix, v) => ValueStep(v, arg[|prefix|..])
  }

  /** The chain of tests: the first one `arg` passes decides what it does,
      and an option that passes none is unknown. */
  function Dispatch(tests: seq<Test>, arg: string): Step
  {
    if tests == [] then Rejected
    else if Matches(tests[0], arg) then Act(tests[0], arg)
    else Dispatch(tests[1..], arg)
  }

  /** One option, as the tool's chain of tests handles it. */
  function OptionStep(arg: string): Step
  {
    Dispatch(Tests, arg)
  }

  /** The first test `arg` passes decides. */
  lemma {:induction false} DispatchFirst(tests: seq<Test>, arg: string, i: nat)
    requires i < |tests| && Matches(tests[i], arg)
    requires forall j :: 0 <= j < i ==> !Matches(tests[j], arg)
    ensures Dispatch(tests, arg) == Act(tests[i], arg)
  {
    if i > 0 {
      assert !Matches(tests[0], arg);
      assert tests[1..][i - 1] == tests[i];
      DispatchFirst(tests[1..], arg, i - 1);
    }
  }

  /** An option that passes no test is turned away. */
  lemma {:induction false} DispatchNone(tests: seq<Test>, arg: string)
    requires forall j :: 0 <= j < |tests| ==> !Matches(tests[j], arg)
    ensures Dispatch(tests, arg) == Rejected
  {
    if tests != [] {
      assert !Matches(tests[0], arg);
      DispatchNone(tests[1..], arg);
    }
  }

  /** The first test `arg` passes, if any. */
  function FirstMatch(tests: seq<Test>, arg: string): (r: Option<nat>)
    ensures r.Some? ==> (r.value < |tests| && Matches(tests[r.value], arg)
      && forall j :: 0 <= j < r.value ==> !Matches(tests[j], arg))
    ensures r.None? ==> forall j :: 0 <= j < |tests| ==> !Matches(tests[j], arg)
  {
    if tests == [] then None
    else if Matches(tests[0], arg) then Some(0)
    else match FirstMatch(tests[1..], arg)
      case None => None
      case Some(i) => Some(i + 1)
  }

  /** The options the tool knows. */
  predicate Recognised(arg: string) {
    exists i :: 0 <= i < |Tests| && Matches(Tests[i], arg)
  }

  /** The velocity test is the only one whose option may be turned away,
      and no test before it has 'v' as third character. */
  lemma TestsShape()
    ensures forall i :: 0 <= i < |Tests| ==>
      (Tests[i].Prefixed? && Tests[i].valued == VelocityValue <==> i == VelocityTest)
    ensures Tests[VelocityTest] == Prefixed("--velocity=", VelocityValue)
    ensures forall i :: 0 <= i < VelocityTest ==> Tests[i].Exact? ==> |Tests[i].name| > 2 && Tests[i].name[2] != 'v'
    ensures forall i :: 0 <= i < VelocityTest ==> Tests[i].Prefixed? ==> |Tests[i].prefix| > 2 && Tests[i].prefix[2] != 'v'
  {
  }

  /** An option starting with "--velocity=" passes no test before the
      velocity one. */
  lemma VelocityFirst(arg: string)
    requires StartsWith(arg, "--velocity=")
    ensures FirstMatch(Tests, arg) == Some(VelocityTest)
  {
    TestsShape();
    assert arg[2] == 'v';
    assert Matches(Tests[VelocityTest], arg);
  }

  /** An option is turned away exactly when it is unknown or a velocity
      whose text does not start with a number; a height or an FSM id that
      does not convert throws instead. */
  lemma OptionRejected(arg: string)
    ensures OptionStep(arg) == Rejected <==>
      !Recognised(arg) || (StartsWith(arg, "--velocity=") && !FloatPrefix(arg[11..]))
  {
    TestsShape();
    var r := FirstMatch(Tests, arg);
    if r.None? {
      DispatchNone(Tests, arg);
    } else {
      DispatchFirst(Tests, arg, r.value);
      if StartsWith(arg, "--velocity=") {
        VelocityFirst(arg);
      }
    }
  }

  // ---------------------------------------------------------------------
  // main

  /** How the option loop ended. */
  datatype Stop = Finished | Failed | Aborted

  /** The calls made and how the loop ended. */
  datatype Run = Run(calls: seq<Call>, stop: Stop)

  /** What each option does. */
  function StepsOf(opts: seq<string>): (r: seq<Step>)
    ensures |r| == |opts|
  {
    if opts == [] then [] else StepsOf(opts[..|opts| - 1]) + [OptionStep(opts[|opts| - 1])]
  }

  /** The step of each option is what it does. */
  lemma {:induction false} StepsOfAt(opts: seq<string>, j: nat)
    requires j < |opts|
    ensures StepsOf(opts)[j] == OptionStep(opts[j])
  {
    if j < |opts| - 1 {
      StepsOfAt(opts[..|opts| - 1], j);
    }
  }

  /** The steps of the first `k` options are the first `k` steps. */
  lemma {:induction false} StepsOfPrefix(opts: seq<string>, k: nat)
    requires k <= |opts|
    decreases |opts|
    ensures StepsOf(opts[..k]) == StepsOf(opts)[..k]
  {
    if k < |opts| {
      StepsOfPrefix(opts[..|opts| - 1], k);
      assert opts[..|opts| - 1][..k] == opts[..k];
    } else {
      assert opts[..k] == opts;
    }
  }

  /** The option loop over the options' steps, left to right, stopping at
      the first option that does not make a call. */
  function RunSteps(steps: seq<Step>): (r: Run)
    ensures |r.calls| <= |steps|
    ensures r.stop == Finished ==> |r.calls| == |steps|
  {
    if steps == [] then Run([], Finished)
    else
      var previous := RunSteps(steps[..|steps| - 1]);
      if previous.stop != Finished then previous
      else match steps[|steps| - 1]
        case Calls(c) => Run(previous.calls + [c], Finished)
        case Rejected => Run(previous.calls, Failed)
        case Throws => Run(previous.calls, Aborted)
  }

  /** How the tool ends: an exit code, whether the help text was printed,
      and the client calls made; or an uncaught exception. */
  datatype Outcome =
    | Exit(code: int, helpShown: bool, calls: seq<Call>)
    | Terminated(calls: seq<Call>)

  /** The options that ask for the help text. */
  predicate IsHelpFlag(arg: string) {
    arg == "--help" || arg == "-h"
  }

  /** The whole tool, for `argv` (program name first). */
  function SetMode(argv: seq<string>): Outcome
  {
    if |argv| < 2 then Exit(1, true, [])
    else if exists i :: 1 <= i < |argv| && IsHelpFlag(argv[i]) then Exit(0, true, [])
    else if |argv| < 3 then Exit(1, false, [])
    else Ending(RunSteps(StepsOf(argv[2..])))
  }

  /** How the tool ends once the option loop is over. */
  function Ending(r: Run): Outcome
  {
    match r.stop
    case Finished => Exit(0, false, r.calls)
    case Failed => Exit(1, false, r.calls)
    case Aborted => Terminated(r.calls)
  }

  /** `main`. The loop keeps `commandExecuted` as the tool does; it holds
      as soon as one option has run, so the "No command executed" exit is
      never taken. */
  method SetModeMain(argv: seq<string>) returns (outcome: Outcome)
    ensures outcome == SetMode(argv)
  {
    if |argv| < 2 {
      return Exit(1, true, []);
    }
    var help := HelpRequested(argv);
    if help {
      return Exit(0, true, []);
    }
    if |argv| < 3 {
      return Exit(1, false, []);
    }
    outcome := RunOptions(argv);
  }

  /** The scan for `--help` or `-h` among the arguments after the program
      name, before any option runs. */
  method HelpRequested(argv: seq<string>) returns (found: bool)
    ensures found <==> exists i :: 1 <= i < |argv| && IsHelpFlag(argv[i])
  {
    var i := 1;
    while i < |argv|
      invariant 1 <= i
      invariant forall j :: 1 <= j < i && j < |argv| ==> !IsHelpFlag(argv[j])
    {
      if argv[i] == "--help" || argv[i] == "-h" {
        return true;
      }
      i := i + 1;
    }
    return false;
  }

  /** The option loop, from `argv[2]` on; `commandExecuted` is kept as
      the tool keeps it, and is set once the loop has gone past `argv[2]`. */
  method RunOptions(argv: seq<string>) returns (outcome: Outcome)
    requires |argv| >= 3
    ensures outcome == Ending(RunSteps(StepsOf(argv[2..])))
  {
    var calls: seq<Call> := [];
    var commandExecuted := false;
    var i := 2;
    while i < |argv|
      invariant 2 <= i <= |argv|
      invariant RunSteps(StepsOf(argv[2..i])) == Run(calls, Finished)
      invariant commandExecuted <==> i > 2
    {
      var step := OptionStep(argv[i]);
      NextStep(argv, i);
      match step
      case Rejected =>
        return Exit(1, false, calls);
      case Throws =>
        return Terminated(calls);
      case Calls(c) =>
        calls := calls + [c];
        commandExecuted := true;
      i := i + 1;
    }
    assert argv[2..i] == argv[2..];
    if !commandExecuted {
      return Exit(1, false, calls);
    }
    return Exit(0, false, calls);
  }

  /** The steps up to option `i` extend those before it by one, and an
      option that makes no call decides the whole run. */
  lemma NextStep(argv: seq<string>, i: nat)
    requires 2 <= i < |argv|
    ensures StepsOf(argv[2..i + 1]) == StepsOf(argv[2..i]) + [OptionStep(argv[i])]
    ensures RunSteps(StepsOf(argv[2..i])).stop == Finished && !OptionStep(argv[i]).Calls? ==>
      RunSteps(StepsOf(argv[2..])) == RunSteps(StepsOf(argv[2..i + 1]))
  {
    assert argv[2..i + 1][..i - 2] == argv[2..i];
    var steps := StepsOf(argv[2..]);
    StepsOfPrefix(argv[2..], i + 1 - 2);
    assert argv[2..][..i + 1 - 2] == argv[2..i + 1];
    if RunSteps(StepsOf(argv[2..i])).stop == Finished && !OptionStep(argv[i]).Calls? {
      StoppedStaysStopped(steps, i + 1 - 2);
    }
  }

  // ---------------------------------------------------------------------
  // Properties of the option loop

  /** The calls the steps make, in order. */
  function CallsOf(steps: seq<Step>): (r: seq<Call>)
    ensures (forall j :: 0 <= j < |steps| ==> steps[j].Calls?) ==>
      |r| == |steps| && forall j :: 0 <= j < |r| ==> r[j] == steps[j].call
  {
    if steps == [] then []
    else CallsOf(steps[..|steps| - 1]) + (if steps[|steps| - 1].Calls? then [steps[|steps| - 1].call] else [])
  }

  /** Options that all make a call run to the end, each making its call
      in order. */
  lemma {:induction false} AllStepsRun(steps: seq<Step>)
    requires forall j :: 0 <= j < |steps| ==> steps[j].Calls?
    ensures RunSteps(steps) == Run(CallsOf(steps), Finished)
  {
    if steps != [] {
      AllStepsRun(steps[..|steps| - 1]);
    }
  }

  /** Once the loop has stopped, later options change nothing. */
  lemma {:induction false} StoppedStaysStopped(steps: seq<Step>, k: nat)
    requires k <= |steps| && RunSteps(steps[..k]).stop != Finished
    decreases |steps| - k
    ensures RunSteps(steps) == RunSteps(steps[..k])
  {
    if k < |steps| {
      assert steps[..k + 1][..k] == steps[..k];
      StoppedStaysStopped(steps, k + 1);
    } else {
      assert steps[..k] == steps;
    }
  }

  /** The first option that makes no call ends the loop: the options
      before it have made their calls, and none after it runs. */
  lemma FirstFailureStops(steps: seq<Step>, k: nat)
    requires k < |steps| && !steps[k].Calls?
    requires forall j :: 0 <= j < k ==> steps[j].Calls?
    ensures RunSteps(steps).calls == CallsOf(steps[..k])
    ensures RunSteps(steps).stop == if steps[k] == Rejected then Failed else Aborted
  {
    var upTo := steps[..k + 1];
    AllStepsRun(steps[..k]);
    assert upTo[..|upTo| - 1] == steps[..k];
    assert upTo[|upTo| - 1] == steps[k];
    assert RunSteps(upTo).calls == CallsOf(steps[..k]);
    StoppedStaysStopped(steps, k + 1);
  }

  /** The loop ends with exit code 0 exactly when every step makes a
      call, and then it has made them all, in order. */
  lemma EndingOfRun(steps: seq<Step>)
    ensures Ending(RunSteps(steps)).Exit? && Ending(RunSteps(steps)).code == 0 <==>
      forall j :: 0 <= j < |steps| ==> steps[j].Calls?
    ensures (forall j :: 0 <= j < |steps| ==> steps[j].Calls?) ==>
      Ending(RunSteps(steps)) == Exit(0, false, CallsOf(steps))
  {
    if forall j :: 0 <= j < |steps| ==> steps[j].Calls? {
      AllStepsRun(steps);
    } else {
      var k :| 0 <= k < |steps| && !steps[k].Calls?;
      FirstFailureStops(steps, FirstFail(steps, k));
    }
  }

  /** Otherwise the first step that makes no call decides: a rejection
      exits 1, a throw ends the tool, and either way only the calls of the
      steps before it have been made. */
  lemma FirstFailureEnds(steps: seq<Step>, k: nat)
    requires k < |steps| && !steps[k].Calls?
    requires forall j :: 0 <= j < k ==> steps[j].Calls?
    ensures Ending(RunSteps(steps)) ==
      if steps[k] == Rejected then Exit(1, false, CallsOf(steps[..k])) else Terminated(CallsOf(steps[..k]))
  {
    FirstFailureStops(steps, k);
  }

  /** The steps of the options after the interface, one per option. */
  lemma StepsOfOptions(argv: seq<string>)
    requires |argv| >= 2
    ensures |StepsOf(argv[2..])| == |argv| - 2
    ensures forall j :: 2 <= j < |argv| ==> StepsOf(argv[2..])[j - 2] == OptionStep(argv[j])
  {
    forall j | 2 <= j < |argv|
      ensures StepsOf(argv[2..])[j - 2] == OptionStep(argv[j])
    {
      StepsOfAt(argv[2..], j - 2);
    }
  }

  /** With a known interface and options (no help flag), the tool exits 0
      exactly when every option makes its call. */
  lemma SuccessIffAllRun(argv: seq<string>)
    requires |argv| >= 3 && forall i :: 1 <= i < |argv| ==> !IsHelpFlag(argv[i])
    ensures SetMode(argv).Exit? && SetMode(argv).code == 0 <==>
      forall j :: 2 <= j < |argv| ==> OptionStep(argv[j]).Calls?
  {
    var steps := StepsOf(argv[2..]);
    EndingOfRun(steps);
    StepsOfOptions(argv);
    if forall j :: 2 <= j < |argv| ==> OptionStep(argv[j]).Calls? {
      forall j | 0 <= j < |steps|
        ensures steps[j].Calls?
      {
        assert steps[j] == OptionStep(argv[j + 2]);
      }
    } else {
      var j :| 2 <= j < |argv| && !OptionStep(argv[j]).Calls?;
      assert !steps[j - 2].Calls?;
    }
  }

  /** The first step at or before `k` that makes no call. */
  ghost function FirstFail(steps: seq<Step>, k: nat): (f: nat)
    requires k < |steps| && !steps[k].Calls?
    ensures f <= k && !steps[f].Calls?
    ensures forall j :: 0 <= j < f ==> steps[j].Calls?
  {
    if forall j :: 0 <= j < k ==> steps[j].Calls? then k
    else
      var m :| 0 <= m < k && !steps[m].Calls?;
      FirstFail(steps, m)
  }
}
