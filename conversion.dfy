/**
  The conversion tab of the newer tool (`CertificateConverter.run_conversion`
  in `certify_tui/__main__.py`): a route token chosen in a selector, one or
  two input files, an optional output name and an optional password are
  checked in a fixed order, and the route's `openssl` commands run until one
  fails.
*/
module Conversion {
  import opened Wrappers
  import opened Text
  import opened Shell
  import opened Paths

  /** The five conversions the selector offers. */
  datatype Route = CerKeyToP12 | P12ToCerKey | CerToPem | P12ToPem | PemKeyToP12

  /** The selector value of each route. */
  function Token(r: Route): string {
    match r
    case CerKeyToP12 => "cer+key->p12"
    case P12ToCerKey => "p12->cer+key"
    case CerToPem => "cer->pem"
    case P12ToPem => "p12->pem"
    case PemKeyToP12 => "pem+key->p12"
  }

  /** The `if`/`elif` chain on the normalised token: the route it selects, if any. */
  function ParseRoute(token: string): Option<Route> {
    if token == "cer+key->p12" then Some(CerKeyToP12)
    else if token == "p12->cer+key" then Some(P12ToCerKey)
    else if token == "cer->pem" then Some(CerToPem)
    else if token == "p12->pem" then Some(P12ToPem)
    else if token == "pem+key->p12" then Some(PemKeyToP12)
    else None
  }

  /** A token selects a route exactly when it is that route's selector value. */
  lemma ParseRouteInvertsToken(token: string, r: Route)
    ensures ParseRoute(token) == Some(r) <==> token == Token(r)
  {
  }

  /** The two routes that bundle a certificate with a separate key file. */
  predicate TakesKey(token: string) {
    token == "cer+key->p12" || token == "pem+key->p12"
  }

  /** Exactly the bundling routes ask for the second input. */
  lemma TakesKeyRoutes(token: string)
    ensures TakesKey(token) <==> ParseRoute(token) == Some(CerKeyToP12) || ParseRoute(token) == Some(PemKeyToP12)
  {
  }

  /** What `run_conversion` reports in the output box. */
  datatype ConvOutcome =
    | NoConversionSelected
    | Input1Required
    | Input1NotFound(path: string)
    | Input2Required
    | Input2NotFound(path: string)
    | UnknownConversion(token: string)
    | ConversionFailed(cmd: Argv)
    | ConversionSucceeded(output: string)

  /** The form as the operator left it: the selector's value (`None` when blank) and the four input boxes. */
  datatype Form = Form(selection: Option<string>, input1: string, input2: string, output: string, password: string)

  /** A conversion that passed the checks, with the stripped values of the boxes. */
  datatype Job = Job(route: Route, input1: string, input2: string, output: string, password: string)

  datatype Checked = Reject(reason: ConvOutcome) | Accept(job: Job)

  /** `if not conv`: no selection, or an empty one. */
  predicate NoSelection(form: Form) {
    form.selection.None? || form.selection.value == ""
  }

  /** `conv.strip().lower()`. */
  function NormalToken(selection: string): string {
    Lower(Strip(selection))
  }

  /**
    The checks made before anything runs, in the order the code makes them:
    a selection, a first input that exists, and, for the bundling routes
    only, a second input that exists; a token that names no route is
    reported only after those checks.
  */
  function Validate(form: Form, fileExists: string -> bool): Checked {
    if NoSelection(form) then Reject(NoConversionSelected)
    else Check(NormalToken(form.selection.value), Strip(form.input1), Strip(form.input2),
               Strip(form.output), Strip(form.password), fileExists)
  }

  /** The checks after the selection one, on the normalised token and the stripped boxes. */
  function Check(token: string, inp1: string, inp2: string, out: string, password: string,
                 fileExists: string -> bool): Checked
  {
    if inp1 == "" then Reject(Input1Required)
    else if !fileExists(inp1) then Reject(Input1NotFound(inp1))
    else if TakesKey(token) && inp2 == "" then Reject(Input2Required)
    else if TakesKey(token) && !fileExists(inp2) then Reject(Input2NotFound(inp2))
    else match ParseRoute(token)
      case None => Reject(UnknownConversion(token))
      case Some(route) => Accept(Job(route, inp1, inp2, out, password))
  }

  /** `f"pass:{password}" if password else ""`: an empty password is passed as an empty argument. */
  function PassArg(password: string): (r: string)
    ensures r == "" <==> password == ""
    ensures password != "" ==> |r| == |password| + 5 && r[..5] == "pass:" && r[5..] == password
  {
    if password != "" then "pass:" + password else ""
  }

  /** `out or default`. */
  function OutputOr(out: string, default: string): string {
    if out != "" then out else default
  }

  /** The value of `out` when the success message is shown: only `cer+key->p12` fills in a default. */
  function Reported(job: Job): string {
    if job.route == CerKeyToP12 && job.output == "" then PathStem(job.input1) + ".p12" else job.output
  }

  /** `p12->cer+key`, first command: the certificate only, to `out or "output.cer"`. */
  function CertArgv(inp1: string, out: string, pass: string): Argv {
    ["openssl", "pkcs12", "-in", inp1, "-clcerts", "-nokeys",
     "-out", OutputOr(out, "output.cer"), "-password", pass]
  }

  /** `p12->cer+key`, second command: the unencrypted key only, to `out or "output.key"` with the suffix `.key`. */
  function KeyArgv(inp1: string, out: string, pass: string): Argv {
    ["openssl", "pkcs12", "-in", inp1, "-nocerts", "-nodes",
     "-out", WithSuffix(OutputOr(out, "output.key"), ".key"), "-password", pass]
  }

  /** The `openssl` command lines of each route, in the order they run. */
  function Steps(job: Job): seq<Argv> {
    var pass := PassArg(job.password);
    match job.route
    case CerKeyToP12 =>
      [["openssl", "pkcs12", "-export", "-in", job.input1, "-inkey", job.input2,
        "-out", Reported(job), "-password", pass]]
    case P12ToCerKey =>
      [CertArgv(job.input1, job.output, pass), KeyArgv(job.input1, job.output, pass)]
    case CerToPem =>
      [["openssl", "x509", "-in", job.input1, "-out", OutputOr(job.output, "output.pem"), "-outform", "PEM"]]
    case P12ToPem =>
      [["openssl", "pkcs12", "-in", job.input1, "-out", OutputOr(job.output, "output.pem"), "-nodes",
        "-password", pass]]
    case PemKeyToP12 =>
      [["openssl", "pkcs12", "-export", "-in", job.input1, "-inkey", job.input2,
        "-out", OutputOr(job.output, "output.p12"), "-password", pass]]
  }

  /** The `try` block: run the steps until one fails, and report the failed command or `out`. */
  function Execute(outcome: (seq<Event>, Argv) -> bool, history: seq<Event>, job: Job): Outcome<ConvOutcome> {
    var run := RunSequence(outcome, history, Steps(job));
    Outcome(if run.failed.Some? then ConversionFailed(run.failed.value) else ConversionSucceeded(Reported(job)),
            run.events)
  }

  /** `run_conversion`: the checks, then the route's commands. */
  function Convert(outcome: (seq<Event>, Argv) -> bool, history: seq<Event>,
                   form: Form, fileExists: string -> bool): Outcome<ConvOutcome>
  {
    match Validate(form, fileExists)
    case Reject(reason) => Outcome(reason, [])
    case Accept(job) => Execute(outcome, history, job)
  }

  /** The command line `cmd` passes `flag` followed by `value`. */
  predicate Passes(cmd: Argv, flag: string, value: string) {
    exists i :: 0 <= i < |cmd| - 1 && cmd[i] == flag && cmd[i + 1] == value
  }

  lemma PassesAt(cmd: Argv, i: nat, flag: string, value: string)
    requires i < |cmd| - 1 && cmd[i] == flag && cmd[i + 1] == value
    ensures Passes(cmd, flag, value)
  {
  }

  /** Every route runs one command, or two for `p12->cer+key`. */
  lemma StepsCount(job: Job)
    ensures |Steps(job)| == if job.route == P12ToCerKey then 2 else 1
  {
  }

  // ---------------------------------------------------------------------
  // Properties

  /**
    The checks come in this order, and each rejection is reported exactly
    when every earlier check passed and its own failed; a missing first
    input is reported for every route, and the second input is looked at
    only for the bundling routes.
  */
  lemma CheckOrder(token: string, inp1: string, inp2: string, out: string, password: string,
                   fileExists: string -> bool)
    ensures var v := Check(token, inp1, inp2, out, password, fileExists);
      var firstOk := inp1 != "" && fileExists(inp1);
      var secondOk := !TakesKey(token) || (inp2 != "" && fileExists(inp2));
      && (v == Reject(Input1Required) <==> inp1 == "")
      && (v == Reject(Input1NotFound(inp1)) <==> inp1 != "" && !fileExists(inp1))
      && (v == Reject(Input2Required) <==> firstOk && TakesKey(token) && inp2 == "")
      && (v == Reject(Input2NotFound(inp2)) <==> firstOk && TakesKey(token) && inp2 != "" && !fileExists(inp2))
      && (v == Reject(UnknownConversion(token)) <==> firstOk && secondOk && ParseRoute(token).None?)
      && (v.Accept? <==> firstOk && secondOk && ParseRoute(token).Some?)
      && (v.Accept? ==> v.job == Job(ParseRoute(token).value, inp1, inp2, out, password))
      && (v.Reject? ==> !v.reason.ConversionFailed? && !v.reason.ConversionSucceeded? && v.reason != NoConversionSelected)
  {
  }

  /** No selection is reported first, and only then; after it come the checks of `CheckOrder`. */
  lemma ValidationOrder(form: Form, fileExists: string -> bool)
    ensures var v := Validate(form, fileExists);
      && (v == Reject(NoConversionSelected) <==> NoSelection(form))
      && (v.Reject? ==> !v.reason.ConversionFailed? && !v.reason.ConversionSucceeded?)
      && (v.Accept? ==>
            && Strip(form.input1) != "" && fileExists(Strip(form.input1))
            && (TakesKey(Token(v.job.route)) ==> Strip(form.input2) != "" && fileExists(Strip(form.input2)))
            && v.job == Job(v.job.route, Strip(form.input1), Strip(form.input2), Strip(form.output), Strip(form.password)))
  {
    if !NoSelection(form) {
      var token := NormalToken(form.selection.value);
      CheckOrder(token, Strip(form.input1), Strip(form.input2), Strip(form.output), Strip(form.password), fileExists);
      var v := Validate(form, fileExists);
      if v.Accept? {
        ParseRouteInvertsToken(token, v.job.route);
      }
    }
  }

  /** A rejected form runs nothing and reports its reason, which is never a success or a failure of `openssl`. */
  lemma RejectionRunsNothing(outcome: (seq<Event>, Argv) -> bool, history: seq<Event>,
                             form: Form, fileExists: string -> bool)
    ensures var c, v := Convert(outcome, history, form, fileExists), Validate(form, fileExists);
      && (v.Reject? ==> c == Outcome(v.reason, []))
      && (c.result.ConversionFailed? || c.result.ConversionSucceeded? <==> v.Accept?)
  {
    var v := Validate(form, fileExists);
    if v.Accept? {
      FailureNotRolledBack(outcome, history, v.job);
    } else {
      ValidationOrder(form, fileExists);
    }
  }

  /**
    Commands run only for an accepted form, whose inputs were all checked,
    and an accepted form always reaches `openssl`, starting with its
    route's first command.
  */
  lemma CommandsOnlyAfterChecks(outcome: (seq<Event>, Argv) -> bool, history: seq<Event>,
                                form: Form, fileExists: string -> bool)
    ensures var c, v := Convert(outcome, history, form, fileExists), Validate(form, fileExists);
      && (c.events != [] <==> v.Accept?)
      && (v.Accept? ==>
            && Strip(form.input1) != "" && fileExists(Strip(form.input1))
            && (TakesKey(Token(v.job.route)) ==> Strip(form.input2) != "" && fileExists(Strip(form.input2)))
            && c.events[0].argv == Steps(v.job)[0])
  {
    var v := Validate(form, fileExists);
    ValidationOrder(form, fileExists);
    if v.Accept? {
      FailureNotRolledBack(outcome, history, v.job);
    }
  }

  /** For the routes that take one input, the second box makes no difference at all. */
  lemma SecondInputIgnored(outcome: (seq<Event>, Argv) -> bool, history: seq<Event>,
                           form: Form, other: string, fileExists: string -> bool)
    requires NoSelection(form) || !TakesKey(NormalToken(form.selection.value))
    ensures Convert(outcome, history, form, fileExists) == Convert(outcome, history, form.(input2 := other), fileExists)
  {
    var v := Validate(form, fileExists);
    ValidateIgnoresSecondInput(form, other, fileExists);
    if v.Accept? {
      ExecuteIgnoresSecondInput(outcome, history, v.job, Strip(other));
    }
  }

  /** The routes that read only the first input. */
  predicate OneInput(r: Route) {
    r != CerKeyToP12 && r != PemKeyToP12
  }

  /** A route reads one input exactly when its token is not one of the bundling ones. */
  lemma OneInputRoutes(r: Route)
    ensures OneInput(r) <==> !TakesKey(Token(r))
  {
  }

  lemma ValidateIgnoresSecondInput(form: Form, other: string, fileExists: string -> bool)
    requires NoSelection(form) || !TakesKey(NormalToken(form.selection.value))
    ensures var v, w := Validate(form, fileExists), Validate(form.(input2 := other), fileExists);
      && (v.Reject? ==> w == v)
      && (v.Accept? ==> OneInput(v.job.route) && w == Accept(v.job.(input2 := Strip(other))))
  {
    if !NoSelection(form) {
      CheckIgnoresSecondInput(NormalToken(form.selection.value), Strip(form.input1), Strip(form.input2), Strip(other),
                              Strip(form.output), Strip(form.password), fileExists);
    }
  }

  lemma CheckIgnoresSecondInput(token: string, inp1: string, inp2: string, other: string, out: string, password: string,
                                fileExists: string -> bool)
    requires !TakesKey(token)
    ensures var v, w := Check(token, inp1, inp2, out, password, fileExists), Check(token, inp1, other, out, password, fileExists);
      && (v.Reject? ==> w == v)
      && (v.Accept? ==> OneInput(v.job.route) && w == Accept(v.job.(input2 := other)))
  {
  }

  /** A one-input route runs and reports the same whatever the second input holds. */
  lemma ExecuteIgnoresSecondInput(outcome: (seq<Event>, Argv) -> bool, history: seq<Event>, job: Job, other: string)
    requires OneInput(job.route)
    ensures Execute(outcome, history, job) == Execute(outcome, history, job.(input2 := other))
  {
    StepsIgnoreSecondInput(job, other);
    ExecuteDependsOnSteps(outcome, history, job, job.(input2 := other));
  }

  lemma ExecuteDependsOnSteps(outcome: (seq<Event>, Argv) -> bool, history: seq<Event>, job: Job, other: Job)
    requires Steps(job) == Steps(other) && Reported(job) == Reported(other)
    ensures Execute(outcome, history, job) == Execute(outcome, history, other)
  {
  }

  /** The one-input routes never pass the second input to `openssl`. */
  lemma StepsIgnoreSecondInput(job: Job, other: string)
    requires OneInput(job.route)
    ensures Steps(job) == Steps(job.(input2 := other))
    ensures Reported(job) == Reported(job.(input2 := other))
  {
  }

  /** `Path("output.key").with_suffix(".key")` is `output.key` itself. */
  lemma DefaultKeyName()
    ensures WithSuffix("output.key", ".key") == "output.key"
  {
    var name := "output" + ".key";
    assert name == "output.key";
    assert Lacks(name, '/') by {
      forall k | 0 <= k < |name| ensures name[k] != '/' {
      }
    }
    assert "" + name == name;
    SplitNameOfJoin("", name);
    assert PlainSuffix(".key");
    StemOfSuffixed("output", ".key");
  }

  /**
    With the output box left empty, `cer+key->p12` writes `<stem of input 1>.p12`
    in the working directory, `p12->cer+key` writes `output.cer` and
    `output.key`, the PEM routes `output.pem`, and `pem+key->p12` `output.p12`.
  */
  lemma DefaultOutputs(job: Job)
    requires job.output == ""
    ensures var s := Steps(job);
      match job.route
      case CerKeyToP12 => Passes(s[0], "-out", PathStem(job.input1) + ".p12") && Lacks(PathStem(job.input1), '/')
      case P12ToCerKey => Passes(s[0], "-out", "output.cer") && Passes(s[1], "-out", "output.key")
      case CerToPem => Passes(s[0], "-out", "output.pem")
      case P12ToPem => Passes(s[0], "-out", "output.pem")
      case PemKeyToP12 => Passes(s[0], "-out", "output.p12")
  {
    var s := Steps(job);
    match job.route
    case CerKeyToP12 =>
      PathStemOfName(job.input1);
      PassesAt(s[0], 7, "-out", s[0][8]);
    case P12ToCerKey =>
      DefaultKeyName();
      PassesAt(s[0], 6, "-out", s[0][7]);
      PassesAt(s[1], 6, "-out", s[1][7]);
    case CerToPem =>
      PassesAt(s[0], 4, "-out", s[0][5]);
    case P12ToPem =>
      PassesAt(s[0], 4, "-out", s[0][5]);
    case PemKeyToP12 =>
      PassesAt(s[0], 7, "-out", s[0][8]);
  }

  /**
    A non-empty output name is used as typed, except that `p12->cer+key`
    writes the key next to it with its suffix replaced by `.key`.
  */
  lemma UserOutputs(job: Job)
    requires job.output != ""
    ensures var s, o := Steps(job), job.output;
      match job.route
      case CerKeyToP12 => Passes(s[0], "-out", o)
      case P12ToCerKey => Passes(s[0], "-out", o) && Passes(s[1], "-out", WithSuffix(o, ".key"))
      case CerToPem => Passes(s[0], "-out", o)
      case P12ToPem => Passes(s[0], "-out", o)
      case PemKeyToP12 => Passes(s[0], "-out", o)
  {
    var s := Steps(job);
    match job.route
    case CerKeyToP12 =>
      PassesAt(s[0], 7, "-out", s[0][8]);
    case P12ToCerKey =>
      PassesAt(s[0], 6, "-out", s[0][7]);
      PassesAt(s[1], 6, "-out", s[1][7]);
    case CerToPem =>
      PassesAt(s[0], 4, "-out", s[0][5]);
    case P12ToPem =>
      PassesAt(s[0], 4, "-out", s[0][5]);
    case PemKeyToP12 =>
      PassesAt(s[0], 7, "-out", s[0][8]);
  }

  /**
    Every route but `cer->pem` passes `-password` with `pass:<password>`,
    or with an empty argument when no password was given.
  */
  lemma PasswordArguments(job: Job)
    requires job.route != CerToPem
    ensures forall k :: 0 <= k < |Steps(job)| ==> Passes(Steps(job)[k], "-password", PassArg(job.password))
  {
    var s := Steps(job);
    match job.route
    case CerKeyToP12 =>
      PassesAt(s[0], 9, "-password", s[0][10]);
    case P12ToCerKey =>
      PassesAt(s[0], 8, "-password", s[0][9]);
      PassesAt(s[1], 8, "-password", s[1][9]);
    case P12ToPem =>
      PassesAt(s[0], 7, "-password", s[0][8]);
    case PemKeyToP12 =>
      PassesAt(s[0], 9, "-password", s[0][10]);
  }

  /** `cer->pem` does not use the password: its command is the same whatever was typed. */
  lemma CerToPemIgnoresPassword(job: Job, other: string)
    requires job.route == CerToPem
    ensures Steps(job) == Steps(job.(password := other))
  {
  }

  /**
    In `p12->cer+key` the certificate is extracted first, and the key only
    after that succeeded; a failed first command is reported and nothing
    else runs.
  */
  lemma KeyOnlyAfterCertificate(outcome: (seq<Event>, Argv) -> bool, history: seq<Event>, job: Job)
    requires job.route == P12ToCerKey
    ensures var x, cert, key := Execute(outcome, history, job), Steps(job)[0], Steps(job)[1];
      var certOk := outcome(history, cert);
      && (!certOk ==> x == Outcome(ConversionFailed(cert), [Ran(cert, false)]))
      && (certOk ==> x.events == [Ran(cert, true), Ran(key, outcome(history + [Ran(cert, true)], key))])
  {
    var s := Steps(job);
    assert s == [s[0], s[1]];
    RunSequenceOfTwo(outcome, history, s[0], s[1]);
  }

  /**
    A failure is reported with the command that failed, after every
    earlier command of the route succeeded; nothing is undone (no file is
    deleted), so the files those commands wrote stay.
  */
  lemma FailureNotRolledBack(outcome: (seq<Event>, Argv) -> bool, history: seq<Event>, job: Job)
    ensures var x := Execute(outcome, history, job);
      && x.events != []
      && (forall k :: 0 <= k < |x.events| ==> x.events[k].Ran? && x.events[k].argv == Steps(job)[k])
      && (x.result.ConversionFailed? <==> !x.events[|x.events| - 1].ok)
      && (x.result.ConversionFailed? ==>
            x.result.cmd == x.events[|x.events| - 1].argv
            && forall k :: 0 <= k < |x.events| - 1 ==> x.events[k].ok)
      && (x.result.ConversionSucceeded? ==> |x.events| == |Steps(job)| && forall k :: 0 <= k < |x.events| ==> x.events[k].ok)
  {
    RunSequenceStopsAtFirstFailure(outcome, history, Steps(job));
  }

  /**
    The success message names the file the first command wrote when an
    output name was typed, and for `cer+key->p12`; for the other routes
    with an empty output box it names nothing, although a default file was
    written.
  */
  lemma ReportedOutputIsWritten(job: Job)
    ensures job.output != "" || job.route == CerKeyToP12 ==> Passes(Steps(job)[0], "-out", Reported(job))
    ensures job.output == "" && job.route != CerKeyToP12 ==> Reported(job) == "" && !Passes(Steps(job)[0], "-out", "")
  {
    if job.output != "" {
      UserOutputs(job);
    } else if job.route == CerKeyToP12 {
      DefaultOutputs(job);
    } else {
      var s := Steps(job)[0];
      forall i | 0 <= i < |s| - 1 && s[i] == "-out"
        ensures s[i + 1] != ""
      {
      }
    }
  }

  // ---------------------------------------------------------------------
  // The handler

  /** A route with one command: it runs, and its outcome decides the report. */
  lemma ExecuteOfOne(outcome: (seq<Event>, Argv) -> bool, history: seq<Event>, job: Job, cmd: Argv)
    requires Steps(job) == [cmd]
    ensures var ok := outcome(history, cmd);
      Execute(outcome, history, job)
        == Outcome(if ok then ConversionSucceeded(Reported(job)) else ConversionFailed(cmd), [Ran(cmd, ok)])
  {
    RunSequenceOfOne(outcome, history, cmd);
  }

  /** A route with two commands: the second runs only after the first succeeded. */
  lemma ExecuteOfTwo(outcome: (seq<Event>, Argv) -> bool, history: seq<Event>, job: Job, first: Argv, second: Argv)
    requires Steps(job) == [first, second]
    ensures var ok, h := outcome(history, first), history + [Ran(first, true)];
      && (!ok ==> Execute(outcome, history, job) == Outcome(ConversionFailed(first), [Ran(first, false)]))
      && (ok ==> Execute(outcome, history, job)
                   == Outcome(if outcome(h, second) then ConversionSucceeded(Reported(job)) else ConversionFailed(second),
                              [Ran(first, true), Ran(second, outcome(h, second))]))
  {
    RunSequenceOfTwo(outcome, history, first, second);
  }

  /**
    `run_conversion`: read the boxes, make the checks with early returns,
    then run the commands of the selected route.
  */
  method RunConversion(host: Host, form: Form, fileExists: string -> bool) returns (r: ConvOutcome)
    modifies host
    ensures var c := Convert(host.outcome, old(host.events), form, fileExists);
      r == c.result && host.events == old(host.events) + c.events
  {
    var inp1, inp2 := Strip(form.input1), Strip(form.input2);
    var out, password := Strip(form.output), Strip(form.password);
    var conv := form.selection;
    if conv.None? || conv.value == "" {
      return NoConversionSelected;
    }
    var token := Lower(Strip(conv.value));
    r := CheckAndRun(host, token, inp1, inp2, out, password, fileExists);
  }

  /** The checks of `run_conversion` after the selection one, with early returns, then the route. */
  method CheckAndRun(host: Host, token: string, inp1: string, inp2: string, out: string, password: string,
                     fileExists: string -> bool) returns (r: ConvOutcome)
    modifies host
    ensures var c := match Check(token, inp1, inp2, out, password, fileExists)
                     case Reject(reason) => Outcome(reason, [])
                     case Accept(job) => Execute(host.outcome, old(host.events), job);
      r == c.result && host.events == old(host.events) + c.events
  {
    if inp1 == "" {
      return Input1Required;
    }
    if !fileExists(inp1) {
      return Input1NotFound(inp1);
    }
    if TakesKey(token) {
      if inp2 == "" {
        return Input2Required;
      }
      if !fileExists(inp2) {
        return Input2NotFound(inp2);
      }
    }
    r := RunRoute(host, token, inp1, inp2, out, password);
  }

  /** The `try` block of `run_conversion`: the `if`/`elif` chain on the token. */
  method RunRoute(host: Host, token: string, inp1: string, inp2: string, out: string, password: string)
    returns (r: ConvOutcome)
    modifies host
    ensures var c := match ParseRoute(token)
                     case None => Outcome(UnknownConversion(token), [])
                     case Some(route) => Execute(host.outcome, old(host.events), Job(route, inp1, inp2, out, password));
      r == c.result && host.events == old(host.events) + c.events
  {
    var pass := if password != "" then "pass:" + password else "";
    if token == "cer+key->p12" {
      r := RunOne(host, CerKeyToP12, inp1, inp2, out, password,
                  ["openssl", "pkcs12", "-export", "-in", inp1, "-inkey", inp2,
                   "-out", if out != "" then out else PathStem(inp1) + ".p12", "-password", pass]);
    } else if token == "p12->cer+key" {
      r := RunCertAndKey(host, inp1, inp2, out, password);
    } else if token == "cer->pem" {
      r := RunOne(host, CerToPem, inp1, inp2, out, password,
                  ["openssl", "x509", "-in", inp1, "-out", if out != "" then out else "output.pem", "-outform", "PEM"]);
    } else if token == "p12->pem" {
      r := RunOne(host, P12ToPem, inp1, inp2, out, password,
                  ["openssl", "pkcs12", "-in", inp1, "-out", if out != "" then out else "output.pem", "-nodes",
                   "-password", pass]);
    } else if token == "pem+key->p12" {
      r := RunOne(host, PemKeyToP12, inp1, inp2, out, password,
                  ["openssl", "pkcs12", "-export", "-in", inp1, "-inkey", inp2,
                   "-out", if out != "" then out else "output.p12", "-password", pass]);
    } else {
      r := UnknownConversion(token);
    }
  }

  /**
    `p12->cer+key`: extract the certificate to `out or "output.cer"`, then,
    if that succeeded, the key to `out or "output.key"` with its suffix
    replaced by `.key`.
  */
  method RunCertAndKey(host: Host, inp1: string, inp2: string, out: string, password: string) returns (r: ConvOutcome)
    modifies host
    ensures var c := Execute(host.outcome, old(host.events), Job(P12ToCerKey, inp1, inp2, out, password));
      r == c.result && host.events == old(host.events) + c.events
  {
    var pass := if password != "" then "pass:" + password else "";
    var cert, key := CertArgv(inp1, out, pass), KeyArgv(inp1, out, pass);
    ExecuteOfTwo(host.outcome, host.events, Job(P12ToCerKey, inp1, inp2, out, password), cert, key);
    var ok := host.Run(cert);
    if !ok {
      return ConversionFailed(cert);
    }
    ghost var h := host.events;
    ok := host.Run(key);
    assert host.events == old(host.events) + [Ran(cert, true), Ran(key, ok)] by {
      assert h == old(host.events) + [Ran(cert, true)];
    }
    r := if ok then ConversionSucceeded(out) else ConversionFailed(key);
  }

  /**
    One of the routes that run a single command `cmd`: run it and report
    `out` (with the default `cer+key->p12` fills in) or the failure.
  */
  method RunOne(host: Host, route: Route, inp1: string, inp2: string, out: string, password: string, cmd: Argv)
    returns (r: ConvOutcome)
    requires Steps(Job(route, inp1, inp2, out, password)) == [cmd]
    modifies host
    ensures var c := Execute(host.outcome, old(host.events), Job(route, inp1, inp2, out, password));
      r == c.result && host.events == old(host.events) + c.events
  {
    ExecuteOfOne(host.outcome, host.events, Job(route, inp1, inp2, out, password), cmd);
    var ok := host.Run(cmd);
    var reported := out;
    if route == CerKeyToP12 && out == "" {
      reported := PathStem(inp1) + ".p12";
    }
    r := if ok then ConversionSucceeded(reported) else ConversionFailed(cmd);
  }
}

