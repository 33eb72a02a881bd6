/**
  The CSR tab of the newer tool (`CSRGenerator` in `certify_tui/__main__.py`):
  the SAN list the operator edits from one input box, the configuration
  preview, and the generation of a key, a request and, when a password is
  given, a protected copy of the key.
*/
module Csr {
  import opened Wrappers
  import opened Text
  import opened Shell
  import opened OpensslConfig
  import opened Artifacts

  /**
    One submission of the SAN box, on the stripped value: `!` removes the
    last SAN when there is one; any other non-empty value (`!` on an empty
    list included) is appended; an empty value changes nothing.
  */
  function SubmitSan(sans: seq<string>, raw: string): seq<string> {
    var value := Strip(raw);
    if value == "!" && sans != [] then sans[..|sans| - 1]
    else if value != "" then sans + [value]
    else sans
  }

  /** Every entry of the list is a stripped, non-empty value. */
  predicate CleanSans(sans: seq<string>) {
    forall i :: 0 <= i < |sans| ==> sans[i] != "" && Strip(sans[i]) == sans[i]
  }

  /** Submissions keep the list clean: only stripped, non-empty values ever enter it. */
  lemma SubmitSanKeepsClean(sans: seq<string>, raw: string)
    requires CleanSans(sans)
    ensures CleanSans(SubmitSan(sans, raw))
  {
    var v, r := Strip(raw), SubmitSan(sans, raw);
    StripIdempotent(raw);
    if v == "!" && sans != [] {
      assert forall i :: 0 <= i < |r| ==> r[i] == sans[i];
    } else if v != "" {
      assert forall i :: 0 <= i < |sans| ==> r[i] == sans[i];
      assert r[|sans|] == v;
    }
  }

  /**
    A submission changes the list by exactly one element at its end: it
    either drops the last entry (only for `!`), or adds the stripped value
    (never an empty one), or, for an empty value, leaves it as it was.
  */
  lemma SubmitSanEffect(sans: seq<string>, raw: string)
    ensures var r, v := SubmitSan(sans, raw), Strip(raw);
      && (|r| == |sans| - 1 <==> v == "!" && sans != [])
      && (|r| == |sans| - 1 ==> r == sans[..|r|])
      && (|r| == |sans| + 1 <==> v != "" && (v != "!" || sans == []))
      && (|r| == |sans| + 1 ==> r[..|sans|] == sans && r[|sans|] == v)
      && (|r| == |sans| <==> v == "")
      && (|r| == |sans| ==> r == sans)
  {
  }

  /** Typing a name and then `!` restores the list: `!` undoes the last addition. */
  lemma SubmitThenRemoveRestores(sans: seq<string>, raw: string)
    requires Strip(raw) != ""
    requires Strip(raw) != "!" || sans == []
    ensures SubmitSan(SubmitSan(sans, raw), "!") == sans
  {
    BangIsStripped();
    SubmitThenBang(sans, raw, "!");
  }

  /** The same for any text that strips to `!`, such as ` ! `. */
  lemma SubmitThenBang(sans: seq<string>, raw: string, bang: string)
    requires Strip(bang) == "!"
    requires Strip(raw) != ""
    requires Strip(raw) != "!" || sans == []
    ensures SubmitSan(SubmitSan(sans, raw), bang) == sans
  {
    var added := SubmitSan(sans, raw);
    assert added == sans + [Strip(raw)];
    SubmitBang(added, bang);
    assert added[..|added| - 1] == sans;
  }

  /**
    A submission that strips to `!` drops the last SAN of a non-empty list,
    and is itself added to an empty one.
  */
  lemma SubmitBang(sans: seq<string>, raw: string)
    requires Strip(raw) == "!"
    ensures sans != [] ==> SubmitSan(sans, raw) == sans[..|sans| - 1]
    ensures sans == [] ==> SubmitSan(sans, raw) == ["!"]
  {
  }

  /** The text `!` has no surrounding whitespace. */
  lemma BangIsStripped()
    ensures Strip("!") == "!"
  {
    StripFixed("!");
  }

  /** A clean list is its own strip. */
  lemma CleanSansStripped(sans: seq<string>)
    requires CleanSans(sans)
    ensures StripAll(sans) == sans
  {
  }

  /** The raw key is written first, and the protected copy only when a password is given. */
  function GenerationPlan(stem: string, conf: string, password: string): seq<Argv> {
    [ReqArgv(CsrFile(stem), KeyFile(stem), conf)]
    + (if password != "" then [ProtectKeyArgv(KeyFile(stem), ProtectedKeyFile(stem), password)] else [])
  }

  /**
    `generate_csr`, as the result it reports and the events it causes: an
    empty common name is reported before anything happens; otherwise the
    configuration is written to the temporary file, the plan runs until a
    command fails, and the temporary file is unlinked whatever happened.
  */
  function Generate(outcome: (seq<Event>, Argv) -> bool, history: seq<Event>,
                    f: DnFields, sans: seq<string>, password: string,
                    year: nat, conf: string): Outcome<GenResult>
  {
    var cn := Strip(f.cn);
    if cn == "" then Outcome(CnRequired, [])
    else Generation(outcome, history, FileStem(cn, year), conf, Strip(password), Render(f, sans))
  }

  /** The part of `generate_csr` after the common name was accepted, for the artifact stem `stem`. */
  function Generation(outcome: (seq<Event>, Argv) -> bool, history: seq<Event>,
                      stem: string, conf: string, pw: string, config: string): Outcome<GenResult>
  {
    var write := WroteTemp(conf, config);
    var run := RunSequence(outcome, history + [write], GenerationPlan(stem, conf, pw));
    var result :=
      if run.failed.Some? then OpensslError(run.failed.value)
      else Generated(CsrFile(stem), KeyFile(stem), if pw == "" then None else Some(ProtectedKeyFile(stem)));
    Outcome(result, [write] + run.events + [Unlinked(conf)])
  }

  /**
    The three ways a generation goes: `openssl req` fails and is reported;
    it succeeds without a password and the CSR and raw key are reported; or
    it succeeds with a password, `openssl rsa -des3` runs after it, and its
    own outcome decides between an error and all three artifacts. The
    configuration is written before, and unlinked after, in every case.
  */
  lemma GenerationCases(outcome: (seq<Event>, Argv) -> bool, history: seq<Event>,
                        stem: string, conf: string, pw: string, config: string)
    ensures var g, w := Generation(outcome, history, stem, conf, pw, config), WroteTemp(conf, config);
      var req, protect := ReqArgv(CsrFile(stem), KeyFile(stem), conf), ProtectKeyArgv(KeyFile(stem), ProtectedKeyFile(stem), pw);
      var reqOk := outcome(history + [w], req);
      var protectOk := outcome(history + [w, Ran(req, true)], protect);
      && (!reqOk ==> g == Outcome(OpensslError(req), [w, Ran(req, false), Unlinked(conf)]))
      && (reqOk && pw == "" ==> g == Outcome(Generated(CsrFile(stem), KeyFile(stem), None), [w, Ran(req, true), Unlinked(conf)]))
      && (reqOk && pw != "" ==>
            g == Outcome(if protectOk then Generated(CsrFile(stem), KeyFile(stem), Some(ProtectedKeyFile(stem))) else OpensslError(protect),
                         [w, Ran(req, true), Ran(protect, protectOk), Unlinked(conf)]))
  {
    var w := WroteTemp(conf, config);
    var req, protect := ReqArgv(CsrFile(stem), KeyFile(stem), conf), ProtectKeyArgv(KeyFile(stem), ProtectedKeyFile(stem), pw);
    assert history + [w] + [Ran(req, true)] == history + [w, Ran(req, true)];
    if pw == "" {
      assert GenerationPlan(stem, conf, pw) == [req];
      RunSequenceOfOne(outcome, history + [w], req);
    } else {
      assert GenerationPlan(stem, conf, pw) == [req, protect];
      RunSequenceOfTwo(outcome, history + [w], req, protect);
    }
  }

  /** An empty common name, that is one made only of whitespace, and only that, is rejected, and nothing happens then. */
  lemma GenerateRejectsOnlyEmptyCn(outcome: (seq<Event>, Argv) -> bool, history: seq<Event>,
                                   f: DnFields, sans: seq<string>, password: string, year: nat, conf: string)
    ensures var g := Generate(outcome, history, f, sans, password, year, conf);
      && (g.result == CnRequired <==> Strip(f.cn) == "")
      && (g.result == CnRequired <==> forall k :: 0 <= k < |f.cn| ==> IsSpace(f.cn[k]))
      && (g.result == CnRequired ==> g.events == [])
  {
    StripEmptyIff(f.cn);
  }

  /**
    The temporary configuration: it is written first, with exactly the
    configuration text, so that `openssl req` (the first command) reads it;
    it is unlinked last, on every path, and nothing else is ever deleted, so
    the raw key survives; afterwards the temporary file is gone.
  */
  lemma GenerationTempLifecycle(outcome: (seq<Event>, Argv) -> bool, history: seq<Event>,
                                stem: string, conf: string, pw: string, config: string)
    ensures var g := Generation(outcome, history, stem, conf, pw, config);
      var req := ReqArgv(CsrFile(stem), KeyFile(stem), conf);
      && 3 <= |g.events| <= 4
      && g.events[0] == WroteTemp(conf, config)
      && FileContent(history + g.events[..1], conf) == Some(config)
      && g.events[1] == Ran(req, outcome(history + g.events[..1], req))
      && g.events[|g.events| - 1] == Unlinked(conf)
      && (forall k :: 0 <= k < |g.events| - 1 ==> !g.events[k].Unlinked?)
      && FileContent(history + g.events, conf) == None
  {
    var e := Generation(outcome, history, stem, conf, pw, config).events;
    GenerationCases(outcome, history, stem, conf, pw, config);
    assert e[..1] == [WroteTemp(conf, config)];
    var h := history + e[..1];
    assert h[|h| - 1] == WroteTemp(conf, config);
    var all := history + e;
    assert all[|all| - 1] == e[|e| - 1];
  }

  /** `GenerationTempLifecycle` for a whole generation, whose configuration is the preview text. */
  lemma GenerateTempLifecycle(outcome: (seq<Event>, Argv) -> bool, history: seq<Event>,
                              f: DnFields, sans: seq<string>, password: string, year: nat, conf: string)
    requires Strip(f.cn) != ""
    ensures var g, stem := Generate(outcome, history, f, sans, password, year, conf), FileStem(Strip(f.cn), year);
      && g.events[0] == WroteTemp(conf, Render(f, sans))
      && g.events[1].Ran? && g.events[1].argv == ReqArgv(CsrFile(stem), KeyFile(stem), conf)
      && g.events[|g.events| - 1] == Unlinked(conf)
      && FileContent(history + g.events, conf) == None
  {
    GenerationTempLifecycle(outcome, history, FileStem(Strip(f.cn), year), conf, Strip(password), Render(f, sans));
  }

  /**
    `openssl rsa -des3` runs exactly when a password was given and
    `openssl req` succeeded; the commands issued are `req` and, in that
    case, the protection step, in that order; a success reports the
    protected key exactly when there is a password.
  */
  lemma GenerationCommands(outcome: (seq<Event>, Argv) -> bool, history: seq<Event>,
                           stem: string, conf: string, pw: string, config: string)
    ensures var g := Generation(outcome, history, stem, conf, pw, config);
      var req := ReqArgv(CsrFile(stem), KeyFile(stem), conf);
      var reqOk := outcome(history + [WroteTemp(conf, config)], req);
      && Commands(g.events) == [req] + (if pw != "" && reqOk then [ProtectKeyArgv(KeyFile(stem), ProtectedKeyFile(stem), pw)] else [])
      && (g.result.Generated? ==> g.result == Generated(CsrFile(stem), KeyFile(stem), if pw == "" then None else Some(ProtectedKeyFile(stem))))
  {
    var write := WroteTemp(conf, config);
    var plan := GenerationPlan(stem, conf, pw);
    var run := RunSequence(outcome, history + [write], plan);
    RunSequenceStopsAtFirstFailure(outcome, history + [write], plan);
    assert history + [write] + run.events[..0] == history + [write];
    CommandsOfGeneration(write, run.events, Unlinked(conf));
  }

  /** `GenerationCommands` for a whole generation, whose configuration is the preview text. */
  lemma GenerateProtectsOnlyAfterReq(outcome: (seq<Event>, Argv) -> bool, history: seq<Event>,
                                     f: DnFields, sans: seq<string>, password: string, year: nat, conf: string)
    requires Strip(f.cn) != ""
    ensures var g, stem, pw := Generate(outcome, history, f, sans, password, year, conf), FileStem(Strip(f.cn), year), Strip(password);
      var req := ReqArgv(CsrFile(stem), KeyFile(stem), conf);
      var reqOk := outcome(history + [WroteTemp(conf, Render(f, sans))], req);
      && Commands(g.events) == [req] + (if pw != "" && reqOk then [ProtectKeyArgv(KeyFile(stem), ProtectedKeyFile(stem), pw)] else [])
      && (g.result.Generated? ==> g.result == Generated(CsrFile(stem), KeyFile(stem), if pw == "" then None else Some(ProtectedKeyFile(stem))))
  {
    GenerationCommands(outcome, history, FileStem(Strip(f.cn), year), conf, Strip(password), Render(f, sans));
  }

  lemma {:induction false} CommandsOfGeneration(before: Event, runs: seq<Event>, after: Event)
    requires !before.Ran? && !after.Ran?
    requires forall k :: 0 <= k < |runs| ==> runs[k].Ran?
    ensures Commands([before] + runs + [after]) == seq(|runs|, k requires 0 <= k < |runs| => runs[k].argv)
  {
    var all := [before] + runs + [after];
    assert all[1..] == runs + [after];
    CommandsOfRuns(runs, after);
  }

  lemma {:induction false} CommandsOfRuns(runs: seq<Event>, after: Event)
    requires !after.Ran?
    requires forall k :: 0 <= k < |runs| ==> runs[k].Ran?
    ensures Commands(runs + [after]) == seq(|runs|, k requires 0 <= k < |runs| => runs[k].argv)
    decreases |runs|
  {
    if runs == [] {
      assert [after][1..] == [];
    } else {
      assert (runs + [after])[1..] == runs[1..] + [after];
      CommandsOfRuns(runs[1..], after);
    }
  }

  /** The CSR form: the SAN list and the text of the SAN input box. */
  class CsrGenerator {
    var sans: seq<string>
    var sanInput: string

    ghost predicate Valid()
      reads this
    {
      CleanSans(sans)
    }

    constructor ()
      ensures Valid() && sans == [] && sanInput == ""
    {
      sans := [];
      sanInput := "";
    }

    /** `on_input_submitted` for the SAN box: apply the submission and clear the box. */
    method SubmitSanInput()
      requires Valid()
      modifies this
      ensures Valid()
      ensures sans == SubmitSan(old(sans), old(sanInput))
      ensures sanInput == ""
    {
      var value := Strip(sanInput);
      if value == "!" && sans != [] {
        sans := sans[..|sans| - 1];
      } else if value != "" {
        sans := sans + [value];
      }
      sanInput := "";
      SubmitSanKeepsClean(old(sans), old(sanInput));
    }

    /** `build_config_preview`: the fixed text, then one `DNS.<i+1>` line per SAN. */
    method BuildConfigPreview(f: DnFields) returns (config: string)
      requires Valid()
      ensures config == Render(f, sans)
      ensures SingleLine(StripFields(f)) && SingleLineSans(sans) ==>
                ParseConfig(config) == Some((StripFields(f), sans))
    {
      config := AppendAltNames(Preamble(StripFields(f)), sans);
      if SingleLine(StripFields(f)) && SingleLineSans(sans) {
        RenderParseRoundTrip(f, sans);
        CleanSansStripped(sans);
      }
    }

    /**
      `generate_csr`: check the common name, name the artifacts, write the
      configuration to `conf`, run `openssl req` and, with a password,
      `openssl rsa -des3`, and unlink `conf` in the `finally` block.
    */
    method GenerateCsr(host: Host, f: DnFields, password: string, year: nat, conf: string) returns (r: GenResult)
      requires Valid()
      modifies host
      ensures var g := Generate(host.outcome, old(host.events), f, sans, password, year, conf);
        r == g.result && host.events == old(host.events) + g.events
    {
      var cn := Strip(f.cn);
      var pw := Strip(password);
      if cn == "" {
        return CnRequired;
      }
      var stem := FileStem(cn, year);
      var config := BuildConfigPreview(f);
      r := RunGeneration(host, stem, conf, pw, config);
    }
  }

  /**
    The `try`/`finally` block of `generate_csr` for the artifact stem
    `stem`: write `config` to `conf`, run `openssl req`, then, with a
    password, `openssl rsa -des3`, stopping at the first failure, and
    unlink `conf` whatever happened.
  */
  method RunGeneration(host: Host, stem: string, conf: string, pw: string, config: string) returns (r: GenResult)
    modifies host
    ensures var g := Generation(host.outcome, old(host.events), stem, conf, pw, config);
      r == g.result && host.events == old(host.events) + g.events
  {
    var keyFile, keyPassFile, csrFile := KeyFile(stem), ProtectedKeyFile(stem), CsrFile(stem);
    host.WriteTemp(conf, config);
    ghost var h := old(host.events);
    ghost var w := WroteTemp(conf, config);
    var req := ReqArgv(csrFile, keyFile, conf);
    var ok := host.Run(req);
    ghost var ran := [w, Ran(req, ok)];
    assert host.events == h + ran;
    if !ok {
      r := OpensslError(req);
    } else if pw == "" {
      r := Generated(csrFile, keyFile, None);
    } else {
      var protect := ProtectKeyArgv(keyFile, keyPassFile, pw);
      ok := host.Run(protect);
      assert h + ran + [Ran(protect, ok)] == h + (ran + [Ran(protect, ok)]);
      ran := ran + [Ran(protect, ok)];
      r := if ok then Generated(csrFile, keyFile, Some(keyPassFile)) else OpensslError(protect);
    }
    host.Unlink(conf);
    assert host.events == h + (ran + [Unlinked(conf)]);
    GenerationCases(host.outcome, h, stem, conf, pw, config);
  }
}
