/**
  The OpenSSL request configuration both CSR generators write to a temporary
  file and hand to `openssl req -config`, and which the newer one also shows as
  a live preview. It is a pure string builder: a fixed `[req]` profile
  (4096-bit key, no prompts, SHA-256), the subject in a `[dn]` block with the
  keys C, ST, L, O, OU, CN in that order, a `[req_ext]` block pointing at
  `[alt_names]`, and one `DNS.<n> = <name>` line per SAN, numbered from 1.

  `ParseConfig` reads such a text back the way OpenSSL would look it up
  (section by section, key by key); `RenderParseRoundTrip` shows that the
  rendered text carries exactly the stripped fields and SANs.
*/
module OpensslConfig {
  import opened Wrappers
  import opened Text

  /** The six subject fields, as typed. */
  datatype DnFields = DnFields(c: string, st: string, l: string, o: string, ou: string, cn: string)

  function StripFields(f: DnFields): DnFields {
    DnFields(Strip(f.c), Strip(f.st), Strip(f.l), Strip(f.o), Strip(f.ou), Strip(f.cn))
  }

  const ReqSection: string :=
    "[req]\ndefault_bits = 4096\nprompt = no\ndefault_md = sha256\n"
    + "req_extensions = req_ext\ndistinguished_name = dn\n\n"

  const DnSection: string := "[dn]\n"

  const ExtSection: string := "\n[req_ext]\nsubjectAltName = @alt_names\n\n[alt_names]\n"

  /** One `KEY=value` line of the `[dn]` block. */
  function DnLine(key: string, value: string): string {
    key + "=" + value + "\n"
  }

  function DnBlock(f: DnFields): string {
    DnLine("C", f.c) + DnLine("ST", f.st) + DnLine("L", f.l)
    + DnLine("O", f.o) + DnLine("OU", f.ou) + DnLine("CN", f.cn)
  }

  /** Everything up to and including the `[alt_names]` header, for already-stripped fields. */
  function Preamble(f: DnFields): string {
    ReqSection + DnSection + DnBlock(f) + ExtSection
  }

  /** The `[alt_names]` line for the SAN at 1-based position `n`. */
  function DnsLine(n: nat, san: string): string {
    "DNS." + NatToString(n) + " = " + Strip(san) + "\n"
  }

  /** The `[alt_names]` lines for `sans`, numbered from `first`. */
  function AltNames(sans: seq<string>, first: nat): string
    decreases |sans|
  {
    if sans == [] then "" else DnsLine(first, sans[0]) + AltNames(sans[1..], first + 1)
  }

  /** `build_config_preview`: the configuration for the typed fields and the SAN list. */
  function Render(f: DnFields, sans: seq<string>): string {
    Preamble(StripFields(f)) + AltNames(sans, 1)
  }

  /** Adding a SAN at the end adds exactly one line, numbered after the others. */
  lemma {:induction false} AltNamesSnoc(sans: seq<string>, s: string, first: nat)
    ensures AltNames(sans + [s], first) == AltNames(sans, first) + DnsLine(first + |sans|, s)
    decreases |sans|
  {
    if sans == [] {
      assert [s][1..] == [];
    } else {
      assert (sans + [s])[1..] == sans[1..] + [s];
      AltNamesSnoc(sans[1..], s, first + 1);
      var head, tail, last := DnsLine(first, sans[0]), AltNames(sans[1..], first + 1), DnsLine(first + |sans|, s);
      calc {
        AltNames(sans + [s], first);
        head + AltNames(sans[1..] + [s], first + 1);
        head + (tail + last);
        (head + tail) + last;
      }
    }
  }

  /** Rendering `sans + [s]` is rendering `sans` followed by the line `DNS.<|sans|+1> = strip(s)`. */
  lemma RenderSnoc(f: DnFields, sans: seq<string>, s: string)
    ensures Render(f, sans + [s]) == Render(f, sans) + DnsLine(|sans| + 1, s)
  {
    AltNamesSnoc(sans, s, 1);
    ConcatAssociative(Preamble(StripFields(f)), AltNames(sans, 1), DnsLine(|sans| + 1, s));
  }

  /** One step of appending the `[alt_names]` lines to a fixed head: the prefix of length `i + 1` adds line `i + 1`. */
  lemma AppendAltName(head: string, sans: seq<string>, i: nat)
    requires i < |sans|
    ensures head + AltNames(sans[..i + 1], 1) == (head + AltNames(sans[..i], 1)) + DnsLine(i + 1, sans[i])
  {
    assert sans[..i + 1] == sans[..i] + [sans[i]];
    AltNamesSnoc(sans[..i], sans[i], 1);
    ConcatAssociative(head, AltNames(sans[..i], 1), DnsLine(i + 1, sans[i]));
  }

  /**
    The loop of `build_config_preview` (and of the first version's
    `generate_csr`): starting from `head`, append `DNS.<i+1> = <san>` for
    each SAN in turn.
  */
  method AppendAltNames(head: string, sans: seq<string>) returns (config: string)
    ensures config == head + AltNames(sans, 1)
  {
    config := head;
    var i := 0;
    while i < |sans|
      invariant 0 <= i <= |sans|
      invariant config == head + AltNames(sans[..i], 1)
    {
      AppendAltName(head, sans, i);
      config := config + DnsLine(i + 1, sans[i]);
      i := i + 1;
    }
    assert sans[..i] == sans;
  }

  /**
    Two SANs render as exactly the lines `DNS.1 = <first>` and `DNS.2 = <second>`,
    stripped; for `a.test.local` and `b.test.local` that is
    `DNS.1 = a.test.local\nDNS.2 = b.test.local\n`.
  */
  lemma AltNamesOfTwo(a: string, b: string)
    ensures AltNames([a, b], 1) == ("DNS.1 = " + Strip(a) + "\n") + ("DNS.2 = " + Strip(b) + "\n")
  {
    AltNamesPair(a, b, 1);
    DnsLineOf(1, "DNS.1 = ", a);
    DnsLineOf(2, "DNS.2 = ", b);
  }

  /** The `DNS.<n> = ` label, spelled out. */
  lemma DnsLineOf(n: nat, prefix: string, san: string)
    requires n < 10 && prefix == "DNS." + [DigitChar(n)] + " = "
    ensures DnsLine(n, san) == prefix + Strip(san) + "\n"
  {
  }

  lemma AltNamesPair(a: string, b: string, n: nat)
    ensures AltNames([a, b], n) == DnsLine(n, a) + DnsLine(n + 1, b)
  {
    assert [a, b][1..] == [b];
    assert [b][1..] == [];
    assert AltNames([], n + 2) == [];
    assert AltNames([b], n + 1) == DnsLine(n + 1, b);
    assert AltNames([a, b], n) == DnsLine(n, a) + AltNames([b], n + 1);
  }

  // ---------------------------------------------------------------------
  // Reading a configuration back

  /** The line at the start of `s` and what follows its newline; `None` if there is no newline. */
  function TakeLine(s: string): (r: Option<(string, string)>)
    ensures r.Some? ==> |r.value.1| < |s|
    decreases |s|
  {
    if s == [] then None
    else if s[0] == '\n' then Some(([], s[1..]))
    else match TakeLine(s[1..])
      case None => None
      case Some((line, rest)) => Some(([s[0]] + line, rest))
  }

  lemma {:induction false} TakeLineAppend(line: string, rest: string)
    requires '\n' !in line
    ensures TakeLine(line + "\n" + rest) == Some((line, rest))
    decreases |line|
  {
    var s := line + "\n" + rest;
    if line == [] {
      assert s[1..] == rest;
    } else {
      assert s[0] == line[0] && s[0] != '\n';
      assert s[1..] == line[1..] + "\n" + rest;
      TakeLineAppend(line[1..], rest);
      assert [line[0]] + line[1..] == line;
    }
  }

  /** `p` followed by the rest of `s`, if `s` starts with `p`. */
  function After(p: string, s: string): Option<string> {
    if |p| <= |s| && s[..|p|] == p then Some(s[|p|..]) else None
  }

  lemma AfterAppend(p: string, s: string)
    ensures After(p, p + s) == Some(s)
  {
    assert (p + s)[..|p|] == p;
  }

  /** The value of the line `key=value` at the start of `s`, and what follows it. */
  function ParseDnLine(key: string, s: string): Option<(string, string)> {
    match After(key + "=", s)
    case None => None
    case Some(t) => TakeLine(t)
  }

  lemma DnLineParses(key: string, value: string, rest: string)
    requires '\n' !in value
    ensures ParseDnLine(key, DnLine(key, value) + rest) == Some((value, rest))
  {
    assert DnLine(key, value) + rest == (key + "=") + (value + "\n" + rest);
    AfterAppend(key + "=", value + "\n" + rest);
    TakeLineAppend(value, rest);
  }

  /** The `[dn]` block at the start of `s`, keys in the order C, ST, L, O, OU, CN. */
  function ParseDnBlock(s: string): Option<(DnFields, string)> {
    match ParseDnLine("C", s)
    case None => None
    case Some((c, s1)) => match ParseDnLine("ST", s1)
    case None => None
    case Some((st, s2)) => match ParseDnLine("L", s2)
    case None => None
    case Some((l, s3)) => match ParseDnLine("O", s3)
    case None => None
    case Some((o, s4)) => match ParseDnLine("OU", s4)
    case None => None
    case Some((ou, s5)) => match ParseDnLine("CN", s5)
    case None => None
    case Some((cn, s6)) => Some((DnFields(c, st, l, o, ou, cn), s6))
  }

  predicate SingleLine(f: DnFields) {
    '\n' !in f.c && '\n' !in f.st && '\n' !in f.l && '\n' !in f.o && '\n' !in f.ou && '\n' !in f.cn
  }

  lemma DnBlockParses(f: DnFields, rest: string)
    requires SingleLine(f)
    ensures ParseDnBlock(DnBlock(f) + rest) == Some((f, rest))
  {
    var r6 := rest;
    var r5 := DnLine("CN", f.cn) + r6;
    var r4 := DnLine("OU", f.ou) + r5;
    var r3 := DnLine("O", f.o) + r4;
    var r2 := DnLine("L", f.l) + r3;
    var r1 := DnLine("ST", f.st) + r2;
    assert DnBlock(f) + rest == DnLine("C", f.c) + r1;
    DnLineParses("C", f.c, r1);
    DnLineParses("ST", f.st, r2);
    DnLineParses("L", f.l, r3);
    DnLineParses("O", f.o, r4);
    DnLineParses("OU", f.ou, r5);
    DnLineParses("CN", f.cn, r6);
  }

  /** The `[alt_names]` lines, expected to be numbered from `n` on. */
  function ParseAltNames(s: string, n: nat): Option<seq<string>>
    decreases |s|
  {
    if s == [] then Some([])
    else match After("DNS." + NatToString(n) + " = ", s)
      case None => None
      case Some(t) => match TakeLine(t)
        case None => None
        case Some((name, rest)) =>
          match ParseAltNames(rest, n + 1)
          case None => None
          case Some(names) => Some([name] + names)
  }

  /** `strip()` applied to every SAN. */
  function StripAll(sans: seq<string>): (r: seq<string>)
    ensures |r| == |sans|
    ensures forall i :: 0 <= i < |sans| ==> r[i] == Strip(sans[i])
  {
    if sans == [] then [] else [Strip(sans[0])] + StripAll(sans[1..])
  }

  predicate SingleLineSans(sans: seq<string>) {
    forall i :: 0 <= i < |sans| ==> '\n' !in Strip(sans[i])
  }

  /** The first `[alt_names]` line, split into its label, its value and what follows. */
  lemma AltNamesCons(sans: seq<string>, n: nat)
    requires sans != []
    ensures AltNames(sans, n) == ("DNS." + NatToString(n) + " = ") + (Strip(sans[0]) + "\n" + AltNames(sans[1..], n + 1))
  {
    var p, v, rest := "DNS." + NatToString(n) + " = ", Strip(sans[0]), AltNames(sans[1..], n + 1);
    assert DnsLine(n, sans[0]) == p + v + "\n";
    ConcatAssociative(p + v, "\n", rest);
    ConcatAssociative(p, v, "\n" + rest);
    ConcatAssociative(v, "\n", rest);
  }

  /** Reading one labelled line, then the lines after it. */
  lemma ParseAltNamesCons(n: nat, v: string, rest: string)
    requires '\n' !in v
    ensures var s := ("DNS." + NatToString(n) + " = ") + (v + "\n" + rest);
      ParseAltNames(s, n) == match ParseAltNames(rest, n + 1)
        case None => None
        case Some(names) => Some([v] + names)
  {
    var p := "DNS." + NatToString(n) + " = ";
    AfterAppend(p, v + "\n" + rest);
    TakeLineAppend(v, rest);
  }

  lemma {:induction false} AltNamesParse(sans: seq<string>, n: nat)
    requires SingleLineSans(sans)
    ensures ParseAltNames(AltNames(sans, n), n) == Some(StripAll(sans))
    decreases |sans|
  {
    if sans != [] {
      var v := Strip(sans[0]);
      assert '\n' !in v;
      assert SingleLineSans(sans[1..]) by {
        forall i | 0 <= i < |sans[1..]| ensures '\n' !in Strip(sans[1..][i]) {
          assert sans[1..][i] == sans[i + 1];
        }
      }
      AltNamesParse(sans[1..], n + 1);
      AltNamesCons(sans, n);
      ParseAltNamesCons(n, v, AltNames(sans[1..], n + 1));
      assert StripAll(sans) == [v] + StripAll(sans[1..]);
    }
  }

  /** Reads a configuration back: its subject fields and its SAN names, in order. */
  function ParseConfig(s: string): Option<(DnFields, seq<string>)> {
    var body := After(ReqSection + DnSection, s);
    if body.None? then None
    else
      var dn := ParseDnBlock(body.value);
      if dn.None? then None
      else
        var alt := After(ExtSection, dn.value.1);
        if alt.None? then None
        else
          var names := ParseAltNames(alt.value, 1);
          if names.None? then None else Some((dn.value.0, names.value))
  }

  /**
    The rendered configuration is the fixed profile followed by the subject
    and the SANs, and it carries them exactly: reading it back yields the
    stripped fields, in the order C, ST, L, O, OU, CN, and the stripped SANs,
    in list order (`DNS.1` is the first). Values are single-line, as the
    input widgets supply them.
  */
  lemma RenderParseRoundTrip(f: DnFields, sans: seq<string>)
    requires SingleLine(StripFields(f))
    requires SingleLineSans(sans)
    ensures After(ReqSection, Render(f, sans)).Some?
    ensures ParseConfig(Render(f, sans)) == Some((StripFields(f), StripAll(sans)))
  {
    var g := StripFields(f);
    var alt := AltNames(sans, 1);
    var r, d, b, e := ReqSection, DnSection, DnBlock(g), ExtSection;
    RenderSections(f, sans);
    AfterAppend(r, d + (b + (e + alt)));
    AfterAppend(r + d, b + (e + alt));
    ParseSections(g, sans, Render(f, sans));
  }

  /** A text made of the profile, a `[dn]` block, the extension section and `[alt_names]` lines reads back to its parts. */
  lemma ParseSections(g: DnFields, sans: seq<string>, text: string)
    requires SingleLine(g)
    requires SingleLineSans(sans)
    requires After(ReqSection + DnSection, text) == Some(DnBlock(g) + (ExtSection + AltNames(sans, 1)))
    ensures ParseConfig(text) == Some((g, StripAll(sans)))
  {
    var alt := AltNames(sans, 1);
    DnBlockParses(g, ExtSection + alt);
    AfterAppend(ExtSection, alt);
    AltNamesParse(sans, 1);
  }

  /** The rendered text, section by section. */
  lemma RenderSections(f: DnFields, sans: seq<string>)
    ensures var r, d, b, e := ReqSection, DnSection, DnBlock(StripFields(f)), ExtSection;
      && Render(f, sans) == r + (d + (b + (e + AltNames(sans, 1))))
      && Render(f, sans) == (r + d) + (b + (e + AltNames(sans, 1)))
  {
    var r, d, b, e := ReqSection, DnSection, DnBlock(StripFields(f)), ExtSection;
    var alt := AltNames(sans, 1);
    ConcatAssociative(r + d, b, e);
    ConcatAssociative(r + d, b + e, alt);
    ConcatAssociative(b, e, alt);
    ConcatAssociative(r, d, b + (e + alt));
  }
}
