/**
  What a CSR generation produces and the `openssl` command lines it issues,
  shared by both generators: the file names are derived from the common name
  and the current year, and the request is made by one `openssl req` call.
*/
module Artifacts {
  import opened Wrappers
  import opened Text
  import opened Shell

  /** `cn.replace("*.", "wildcard.")`: every `*.`, not only a leading one, becomes `wildcard.`. */
  function WildcardName(cn: string): string {
    Replace(cn, "*.", "wildcard.")
  }

  /** `f"{cn.replace('*.', 'wildcard.')}-{year}-{year+10}"`: the common name plus a ten-year window. */
  function FileStem(cn: string, year: nat): string {
    WildcardName(cn) + "-" + NatToString(year) + "-" + NatToString(year + 10)
  }

  /** The unencrypted private key written by `openssl req`. */
  function KeyFile(stem: string): string {
    stem + ".key.nopasswd"
  }

  /** The password-protected copy of the key written by `openssl rsa -des3`. */
  function ProtectedKeyFile(stem: string): string {
    stem + ".key"
  }

  function CsrFile(stem: string): string {
    stem + ".csr"
  }

  /** `openssl req`: a new 4096-bit RSA key without a passphrase and a SHA-256 request, from the configuration at `conf`. */
  function ReqArgv(csr: string, key: string, conf: string): Argv {
    ["openssl", "req", "-new", "-sha256", "-nodes",
     "-out", csr,
     "-newkey", "rsa:4096",
     "-keyout", key,
     "-config", conf]
  }

  /** `openssl rsa -des3`: a DES3-encrypted copy of `key` at `out`, under `password`. */
  function ProtectKeyArgv(key: string, out: string, password: string): Argv {
    ["openssl", "rsa", "-des3",
     "-in", key,
     "-out", out,
     "-passout", "pass:" + password]
  }

  /** What a generation reports (the message the form shows). */
  datatype GenResult =
    | CnRequired                      // "CN is required."
    | OpensslError(cmd: Argv)         // "OpenSSL error: ..." naming the failed command
    | Generated(csr: string, key: string, protectedKey: Option<string>)

  /** The first character of a replaced name is a `.` only if the name itself started with a `.`. */
  lemma WildcardNameHead(s: string)
    requires WildcardName(s) != [] && WildcardName(s)[0] == '.'
    ensures s != [] && s[0] == '.'
  {
  }

  /** No `*.` survives the replacement, wherever it stood in the common name. */
  lemma {:induction false} NoWildcardMarkerLeft(s: string)
    ensures !Contains(WildcardName(s), "*.")
    decreases |s|
  {
    var w := WildcardName(s);
    if |s| < 2 {
      assert w == s;
    } else if s[..2] == "*." {
      NoWildcardMarkerLeft(s[2..]);
      var t := WildcardName(s[2..]);
      var p := "wildcard.";
      assert w == p + t;
      forall i | 0 <= i <= |w| - 2 ensures !OccursAt(w, "*.", i) {
        if i < |p| {
          assert w[i] == p[i];
        } else {
          assert w[i] == t[i - |p|] && w[i + 1] == t[i - |p| + 1];
          assert !OccursAt(t, "*.", i - |p|);
        }
      }
    } else {
      NoWildcardMarkerLeft(s[1..]);
      var t := WildcardName(s[1..]);
      assert w == [s[0]] + t;
      forall i | 0 <= i <= |w| - 2 ensures !OccursAt(w, "*.", i) {
        if i == 0 {
          if s[0] == '*' && t[0] == '.' {
            WildcardNameHead(s[1..]);
          }
        } else {
          assert w[i] == t[i - 1] && w[i + 1] == t[i];
          assert !OccursAt(t, "*.", i - 1);
        }
      }
    }
  }

  /** A leading `*.` becomes `wildcard.` and the rest is replaced in turn. */
  lemma LeadingWildcard(rest: string)
    ensures WildcardName("*." + rest) == "wildcard." + WildcardName(rest)
  {
    var s := "*." + rest;
    assert s[..2] == "*." && s[2..] == rest;
  }

  /** A common name without `*` is used as it is. */
  lemma PlainNameKept(cn: string)
    requires '*' !in cn
    ensures WildcardName(cn) == cn
  {
    AbsentChar(cn, "*.");
    ReplaceAbsent(cn, "*.", "wildcard.");
  }

  /**
    A wildcard name `*.<rest>` in year `y` gives `wildcard.` followed by the
    replaced rest and `-<y>-<y+10>` (`*.example.com` gives
    `wildcard.example.com-<y>-<y+10>`).
  */
  lemma WildcardStem(rest: string, y: nat)
    ensures FileStem("*." + rest, y) == "wildcard." + WildcardName(rest) + "-" + NatToString(y) + "-" + NatToString(y + 10)
  {
    LeadingWildcard(rest);
  }

  /** A name without `*`, such as `api.example.com`, gives `<name>-<y>-<y+10>`. */
  lemma PlainStem(cn: string, y: nat)
    requires '*' !in cn
    ensures FileStem(cn, y) == cn + "-" + NatToString(y) + "-" + NatToString(y + 10)
  {
    PlainNameKept(cn);
  }

  /**
    A `*.` anywhere in the name is replaced too: whatever star-free text `a`
    precedes it is kept, and the text after it is replaced in turn
    (`a*.b` becomes `awildcard.b`).
  */
  lemma {:induction false} InnerWildcardReplaced(a: string, b: string)
    requires '*' !in a
    ensures WildcardName(a + "*." + b) == a + "wildcard." + WildcardName(b)
    decreases |a|
  {
    if a == [] {
      assert a + "*." + b == "*." + b;
      LeadingWildcard(b);
    } else {
      var s := a + "*." + b;
      assert s[0] == a[0] != '*';
      assert s[..2] != "*." by { assert s[..2][0] == s[0]; }
      assert s[1..] == a[1..] + "*." + b;
      InnerWildcardReplaced(a[1..], b);
    }
  }

  /** The raw key, the protected key and the request never share a name. */
  lemma ArtifactNamesDistinct(stem: string)
    ensures KeyFile(stem) != ProtectedKeyFile(stem)
    ensures KeyFile(stem) != CsrFile(stem)
    ensures ProtectedKeyFile(stem) != CsrFile(stem)
  {
    assert ProtectedKeyFile(stem)[|stem| + 1] == 'k';
    assert CsrFile(stem)[|stem| + 1] == 'c';
  }
}
