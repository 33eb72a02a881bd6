/**
  The first, single-file version of the tool (`certify-tui.py`): a SAN list
  that only grows, the configuration assembled inside `generate_csr`, and a
  single `openssl req` call with no protected copy of the key.
*/
module Legacy {
  import opened Wrappers
  import opened Text
  import opened Shell
  import opened OpensslConfig
  import opened Artifacts
  import Csr

  /** One submission of the SAN box: a non-empty stripped value is appended, anything else is ignored. */
  function SubmitSan(sans: seq<string>, raw: string): seq<string> {
    var value := Strip(raw);
    if value != "" then sans + [value] else sans
  }

  /**
    The list only grows: the old list is a prefix of the new one, which is
    one longer exactly when the stripped value is non-empty, and then ends
    with that value.
  */
  lemma SubmitSanAppendOnly(sans: seq<string>, raw: string)
    ensures var r := SubmitSan(sans, raw);
      && |sans| <= |r| && r[..|sans|] == sans
      && (|r| == |sans| + 1 <==> Strip(raw) != "")
      && (|r| == |sans| + 1 ==> r[|sans|] == Strip(raw))
      && (|r| == |sans| ==> r == sans)
  {
  }

  /** The new tool's submission agrees with this one except on `!` with a non-empty list. */
  lemma SubmitSanAgreesWithNewer(sans: seq<string>, raw: string)
    ensures SubmitSan(sans, raw) == Csr.SubmitSan(sans, raw) <==> Strip(raw) != "!" || sans == []
  {
    if Strip(raw) == "!" && sans != [] {
      assert |Csr.SubmitSan(sans, raw)| < |sans| < |SubmitSan(sans, raw)|;
    }
  }

  /** A run of submissions, one after the other. */
  function SubmitAll(sans: seq<string>, raws: seq<string>): seq<string>
    decreases |raws|
  {
    if raws == [] then sans else SubmitAll(SubmitSan(sans, raws[0]), raws[1..])
  }

  /** The stripped, non-empty values among `raws`, in order. */
  function Accepted(raws: seq<string>): (r: seq<string>)
    ensures |r| <= |raws|
    ensures forall i :: 0 <= i < |r| ==> r[i] != ""
  {
    if raws == [] then []
    else (if Strip(raws[0]) != "" then [Strip(raws[0])] else []) + Accepted(raws[1..])
  }

  /** After any run of submissions the list is the old list followed by every accepted value, in order. */
  lemma {:induction false} SubmitAllAppendsAccepted(sans: seq<string>, raws: seq<string>)
    ensures SubmitAll(sans, raws) == sans + Accepted(raws)
    decreases |raws|
  {
    if raws != [] {
      var v, rest := Strip(raws[0]), raws[1..];
      var next := SubmitSan(sans, raws[0]);
      SubmitAllAppendsAccepted(next, rest);
      assert SubmitAll(sans, raws) == next + Accepted(rest);
      if v != "" {
        assert Accepted(raws) == [v] + Accepted(rest);
        assert (sans + [v]) + Accepted(rest) == sans + ([v] + Accepted(rest));
      } else {
        assert Accepted(raws) == [] + Accepted(rest);
      }
    }
  }

  /**
    `generate_csr` of the first version, after the common name was
    accepted: write `config` to `conf`, run `openssl req` once, report the
    CSR and the raw key or the failed command, and unlink `conf`.
  */
  function Request(outcome: (seq<Event>, Argv) -> bool, history: seq<Event>,
                   stem: string, conf: string, config: string): Outcome<GenResult>
  {
    var write := WroteTemp(conf, config);
    var req := ReqArgv(CsrFile(stem), KeyFile(stem), conf);
    var ok := outcome(history + [write], req);
    Outcome(if ok then Generated(CsrFile(stem), KeyFile(stem), None) else OpensslError(req),
            [write, Ran(req, ok), Unlinked(conf)])
  }

  /** `generate_csr` of the first version: an empty common name is reported before anything happens. */
  function Generate(outcome: (seq<Event>, Argv) -> bool, history: seq<Event>,
                    f: DnFields, sans: seq<string>, year: nat, conf: string): Outcome<GenResult>
  {
    var cn := Strip(f.cn);
    if cn == "" then Outcome(CnRequired, [])
    else Request(outcome, history, FileStem(cn, year), conf, Render(f, sans))
  }

  /**
    An empty common name, and only that, is rejected, before any temporary
    file is written or any command runs.
  */
  lemma GenerateRejectsOnlyEmptyCn(outcome: (seq<Event>, Argv) -> bool, history: seq<Event>,
                                   f: DnFields, sans: seq<string>, year: nat, conf: string)
    ensures var g := Generate(outcome, history, f, sans, year, conf);
      && (g.result == CnRequired <==> Strip(f.cn) == "")
      && (g.result == CnRequired ==> g.events == [])
      && (g.result != CnRequired ==> |g.events| == 3)
  {
  }

  /** The single `openssl req` call is what the newer tool does when no password is given. */
  lemma RequestIsGenerationWithoutPassword(outcome: (seq<Event>, Argv) -> bool, history: seq<Event>,
                                           stem: string, conf: string, config: string)
    ensures Request(outcome, history, stem, conf, config) == Csr.Generation(outcome, history, stem, conf, "", config)
  {
    Csr.GenerationCases(outcome, history, stem, conf, "", config);
  }

  /**
    The newer tool with an empty (or blank) password behaves exactly as the
    first version: the same result, the same temporary file, the same
    single command.
  */
  lemma NewerWithoutPasswordIsLegacy(outcome: (seq<Event>, Argv) -> bool, history: seq<Event>,
                                     f: DnFields, sans: seq<string>, password: string, year: nat, conf: string)
    requires Strip(password) == ""
    ensures Csr.Generate(outcome, history, f, sans, password, year, conf) == Generate(outcome, history, f, sans, year, conf)
  {
    var cn := Strip(f.cn);
    if cn != "" {
      RequestIsGenerationWithoutPassword(outcome, history, FileStem(cn, year), conf, Render(f, sans));
    }
  }

  /**
    Exactly one command is issued, `openssl req` with the derived names,
    between writing the configuration and unlinking it; afterwards the
    temporary file is gone, and nothing but it is ever deleted.
  */
  lemma RequestIssuesOneCommand(outcome: (seq<Event>, Argv) -> bool, history: seq<Event>,
                                stem: string, conf: string, config: string)
    ensures var g := Request(outcome, history, stem, conf, config);
      && Commands(g.events) == [ReqArgv(CsrFile(stem), KeyFile(stem), conf)]
      && FileContent(history + g.events[..1], conf) == Some(config)
      && FileContent(history + g.events, conf) == None
      && (forall k :: 0 <= k < |g.events| ==> g.events[k].Unlinked? ==> g.events[k].path == conf)
  {
    var e := Request(outcome, history, stem, conf, config).events;
    CommandsOfThree(e[0], e[1], e[2]);
    assert e == [e[0], e[1], e[2]];
    assert history + e[..1] == history + [e[0]];
    assert (history + e)[..|history + e| - 1] == history + e[..2];
  }

  lemma CommandsOfThree(a: Event, b: Event, c: Event)
    requires !a.Ran? && b.Ran? && !c.Ran?
    ensures Commands([a, b, c]) == [b.argv]
  {
    assert [a, b, c][1..] == [b, c];
    assert [b, c][1..] == [c];
    assert [c][1..] == [];
    assert Commands([c]) == [];
    assert Commands([b, c]) == [b.argv];
  }

  /** The CSR form of the first version: the SAN list and the text of the SAN input box. */
  class CsrGenerator {
    var sans: seq<string>
    var sanInput: string

    constructor ()
      ensures sans == [] && sanInput == ""
    {
      sans := [];
      sanInput := "";
    }

    /** `on_input_submitted` for the SAN box: the box is cleared only when a value was added. */
    method SubmitSanInput()
      modifies this
      ensures sans == SubmitSan(old(sans), old(sanInput))
      ensures sanInput == if Strip(old(sanInput)) != "" then "" else old(sanInput)
    {
      var value := Strip(sanInput);
      if value != "" {
        sans := sans + [value];
        sanInput := "";
      }
    }

    /**
      `generate_csr`: check the common name, name the artifacts, assemble
      the configuration with one `DNS.<i+1>` line per SAN, write it to
      `conf`, run `openssl req`, and unlink `conf` in the `finally` block.
    */
    method GenerateCsr(host: Host, f: DnFields, year: nat, conf: string) returns (r: GenResult)
      modifies host
      ensures var g := Generate(host.outcome, old(host.events), f, sans, year, conf);
        r == g.result && host.events == old(host.events) + g.events
    {
      var cn := Strip(f.cn);
      if cn == "" {
        return CnRequired;
      }
      var stem := FileStem(cn, year);
      var config := AppendAltNames(Preamble(StripFields(f)), sans);
      r := RunRequest(host, stem, conf, config);
    }
  }

  /** The `try`/`finally` block of the first version's `generate_csr`. */
  method RunRequest(host: Host, stem: string, conf: string, config: string) returns (r: GenResult)
    modifies host
    ensures var g := Request(host.outcome, old(host.events), stem, conf, config);
      r == g.result && host.events == old(host.events) + g.events
  {
    var keyFile, csrFile := KeyFile(stem), CsrFile(stem);
    host.WriteTemp(conf, config);
    var req := ReqArgv(csrFile, keyFile, conf);
    var ok := host.Run(req);
    if ok {
      r := Generated(csrFile, keyFile, None);
    } else {
      r := OpensslError(req);
    }
    host.Unlink(conf);
  }
}
