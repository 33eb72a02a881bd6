/**
  The process environment both tools run in: a temporary file can be written
  and unlinked, and the `openssl` command line can be run. `openssl` itself is
  opaque: whether a command line succeeds is decided by `outcome`, which may
  depend on everything that happened before it (the files earlier commands
  wrote, for instance). Every action is recorded in `events`.
*/
module Shell {
  import opened Wrappers

  /** A command line, `argv[0]` first. */
  type Argv = seq<string>

  datatype Event =
    | WroteTemp(path: string, content: string)   // a temporary file was created with this content
    | Ran(argv: Argv, ok: bool)                   // `subprocess.run(argv)`; `ok` is a zero exit status
    | Unlinked(path: string)                      // `os.unlink(path)`

  /** The result an operation reports, with the events it caused. */
  datatype Outcome<R> = Outcome(result: R, events: seq<Event>)

  /** Commands run until one fails: `failed` is that command, `None` if all succeeded. */
  datatype Execution = Execution(events: seq<Event>, failed: Option<Argv>)

  class Host {
    const outcome: (seq<Event>, Argv) -> bool
    var events: seq<Event>

    constructor (outcome: (seq<Event>, Argv) -> bool)
      ensures this.outcome == outcome && events == []
    {
      this.outcome := outcome;
      events := [];
    }

    /** `tempfile.NamedTemporaryFile("w", delete=False)` at `path`, written with `content`. */
    method WriteTemp(path: string, content: string)
      modifies this
      ensures events == old(events) + [WroteTemp(path, content)]
    {
      events := events + [WroteTemp(path, content)];
    }

    /** `subprocess.run(argv, check=True)`: `ok` is false where Python raises `CalledProcessError`. */
    method Run(argv: Argv) returns (ok: bool)
      modifies this
      ensures ok == outcome(old(events), argv)
      ensures events == old(events) + [Ran(argv, ok)]
    {
      ok := outcome(events, argv);
      events := events + [Ran(argv, ok)];
    }

    /** `os.unlink(path)`. */
    method Unlink(path: string)
      modifies this
      ensures events == old(events) + [Unlinked(path)]
    {
      events := events + [Unlinked(path)];
    }
  }

  /**
    A sequence of `subprocess.run(..., check=True)` calls inside one `try`:
    the commands run in order and the first failure ends the sequence.
  */
  function RunSequence(outcome: (seq<Event>, Argv) -> bool, history: seq<Event>, cmds: seq<Argv>): (x: Execution)
    ensures |x.events| <= |cmds| && (cmds != [] ==> x.events != [])
    decreases |cmds|
  {
    if cmds == [] then Execution([], None)
    else if !outcome(history, cmds[0]) then Execution([Ran(cmds[0], false)], Some(cmds[0]))
    else
      var rest := RunSequence(outcome, history + [Ran(cmds[0], true)], cmds[1..]);
      Execution([Ran(cmds[0], true)] + rest.events, rest.failed)
  }

  /**
    What `RunSequence` does: the commands that ran are the first ones of
    `cmds`, in order, each with the outcome it got at its turn; every one
    but the last succeeded; `failed` names the last one exactly when it
    failed, and is `None` exactly when every command ran and succeeded.
  */
  lemma RunSequenceStopsAtFirstFailure(outcome: (seq<Event>, Argv) -> bool, history: seq<Event>, cmds: seq<Argv>)
    ensures var x := RunSequence(outcome, history, cmds);
      && (forall k :: 0 <= k < |x.events| ==>
            x.events[k] == Ran(cmds[k], outcome(history + x.events[..k], cmds[k])))
      && (forall k :: 0 <= k < |x.events| - 1 ==> x.events[k].ok)
      && (x.failed == None <==> |x.events| == |cmds| && forall k :: 0 <= k < |x.events| ==> x.events[k].ok)
      && (x.failed.Some? ==> x.events != [] && x.failed.value == cmds[|x.events| - 1])
  {
    RunSequenceInOrder(outcome, history, cmds);
    RunSequenceFailure(outcome, history, cmds);
  }

  /** The events are the first commands of `cmds`, each with the outcome it got at its turn. */
  lemma {:induction false} RunSequenceInOrder(outcome: (seq<Event>, Argv) -> bool, history: seq<Event>, cmds: seq<Argv>)
    ensures var x := RunSequence(outcome, history, cmds);
      forall k :: 0 <= k < |x.events| ==>
        x.events[k] == Ran(cmds[k], outcome(history + x.events[..k], cmds[k]))
    decreases |cmds|
  {
    var x := RunSequence(outcome, history, cmds);
    if cmds == [] {
    } else if !outcome(history, cmds[0]) {
      assert history + x.events[..0] == history;
    } else {
      var first := Ran(cmds[0], true);
      var h1 := history + [first];
      RunSequenceInOrder(outcome, h1, cmds[1..]);
      var rest := RunSequence(outcome, h1, cmds[1..]);
      assert x.events == [first] + rest.events;
      forall k | 0 <= k < |x.events|
        ensures x.events[k] == Ran(cmds[k], outcome(history + x.events[..k], cmds[k]))
      {
        if k == 0 {
          assert history + x.events[..0] == history;
        } else {
          assert cmds[1..][k - 1] == cmds[k];
          ShiftEvent(outcome, history, first, rest.events, cmds[k], k);
        }
      }
    }
  }

  /** The event at `k` of `[first] + rest` saw the history `history` followed by the `k` events before it. */
  lemma ShiftEvent(outcome: (seq<Event>, Argv) -> bool, history: seq<Event>, first: Event, rest: seq<Event>, c: Argv, k: nat)
    requires 1 <= k <= |rest|
    requires rest[k - 1] == Ran(c, outcome(history + [first] + rest[..k - 1], c))
    ensures ([first] + rest)[k] == Ran(c, outcome(history + ([first] + rest)[..k], c))
  {
    assert ([first] + rest)[..k] == [first] + rest[..k - 1];
    assert history + ([first] + rest[..k - 1]) == history + [first] + rest[..k - 1];
  }

  /** Every command but the last succeeded, and `failed` names the last one exactly when it failed. */
  lemma {:induction false} RunSequenceFailure(outcome: (seq<Event>, Argv) -> bool, history: seq<Event>, cmds: seq<Argv>)
    ensures var x := RunSequence(outcome, history, cmds);
      forall k :: 0 <= k < |x.events| ==> x.events[k].Ran?
    ensures var x := RunSequence(outcome, history, cmds);
      forall k :: 0 <= k < |x.events| - 1 ==> x.events[k].ok
    ensures var x := RunSequence(outcome, history, cmds);
      x.failed == None <==> |x.events| == |cmds| && forall k :: 0 <= k < |x.events| ==> x.events[k].ok
    ensures var x := RunSequence(outcome, history, cmds);
      x.failed.Some? ==> x.events != [] && x.failed.value == cmds[|x.events| - 1]
    decreases |cmds|
  {
    if cmds != [] && outcome(history, cmds[0]) {
      var first := Ran(cmds[0], true);
      var h1 := history + [first];
      RunSequenceFailure(outcome, h1, cmds[1..]);
      var x := RunSequence(outcome, history, cmds);
      var rest := RunSequence(outcome, h1, cmds[1..]);
      assert x.events == [first] + rest.events;
      assert forall k :: 1 <= k < |x.events| ==> x.events[k] == rest.events[k - 1];
      assert x.failed == rest.failed;
      if rest.failed.Some? {
        assert cmds[|x.events| - 1] == cmds[1..][|rest.events| - 1];
        if |x.events| == |cmds| {
          var k :| 0 <= k < |rest.events| && !rest.events[k].ok;
          assert !x.events[k + 1].ok;
        }
      }
      if rest.failed == None {
        assert forall k :: 0 <= k < |x.events| ==> x.events[k].ok;
      }
    } else if cmds != [] {
      var x := RunSequence(outcome, history, cmds);
      assert x.events == [Ran(cmds[0], false)] && !x.events[0].ok;
    }
  }

  /** A single command: it runs with the outcome it gets, and is the failure when it fails. */
  lemma RunSequenceOfOne(outcome: (seq<Event>, Argv) -> bool, history: seq<Event>, a: Argv)
    ensures var ok := outcome(history, a);
      RunSequence(outcome, history, [a]) == Execution([Ran(a, ok)], if ok then None else Some(a))
  {
    assert [a][1..] == [];
  }

  /** Two commands: the second runs only after the first succeeded, and sees that success. */
  lemma RunSequenceOfTwo(outcome: (seq<Event>, Argv) -> bool, history: seq<Event>, a: Argv, b: Argv)
    ensures var x, h := RunSequence(outcome, history, [a, b]), history + [Ran(a, true)];
      && (!outcome(history, a) ==> x == Execution([Ran(a, false)], Some(a)))
      && (outcome(history, a) ==>
            x == Execution([Ran(a, true), Ran(b, outcome(h, b))], if outcome(h, b) then None else Some(b)))
  {
    assert [a, b][1..] == [b];
    RunSequenceOfOne(outcome, history + [Ran(a, true)], b);
  }

  /** The command lines among `events`, in order. */
  function Commands(events: seq<Event>): (cmds: seq<Argv>)
    ensures |cmds| <= |events|
  {
    if events == [] then []
    else (if events[0].Ran? then [events[0].argv] else []) + Commands(events[1..])
  }

  /** The content of the file at `path` after `events`; `None` when it is absent. */
  function FileContent(events: seq<Event>, path: string): Option<string> {
    if events == [] then None
    else match events[|events| - 1]
      case WroteTemp(p, c) => if p == path then Some(c) else FileContent(events[..|events| - 1], path)
      case Unlinked(p) => if p == path then None else FileContent(events[..|events| - 1], path)
      case Ran(_, _) => FileContent(events[..|events| - 1], path)
  }
}
