# certify-tui, modelled in Dafny

certify-tui is a terminal front end to `openssl`. This project models the policy
layer beneath its widgets, for both the current tool (`certify_tui/__main__.py`)
and its first single-file version (`certify-tui.py`):

- **SAN editor** (`on_input_submitted`): the stripped value of the SAN box is
  appended to the SAN list. In the current tool, `!` removes the last entry
  when there is one. The first version only ever appends.
- **Configuration renderer** (`build_config_preview`, and the inline copy in
  the first version's `generate_csr`): the fixed `[req]` profile, the `[dn]`
  block (C, ST, L, O, OU, CN, stripped), `[req_ext]`, and one
  `DNS.<i+1> = <san>` line per SAN. A parser reads such a text back. The
  round trip is proved when no field and no SAN contains a newline; it gives
  back the stripped fields and the stripped SANs.
- **Artifact names**: `cn.replace("*.", "wildcard.")`, then `-<year>-<year+10>`.
  The key is `<stem>.key.nopasswd`, the protected key `<stem>.key` and the
  request `<stem>.csr`.
- **CSR generation** (`generate_csr`):
  1. Reject an empty common name.
  2. Write the configuration to a temporary file.
  3. Run `openssl req`, then `openssl rsa -des3` when a password is given,
     stopping at the first failure.
  4. Unlink the temporary file in the `finally` block.
- **Conversion router** (`run_conversion`):
  1. Check the form in a fixed order.
  2. Dispatch on the normalised route token to one of five fixed `openssl`
     command templates, with their default output names.
  3. Run the commands in order until one fails.

The environment is the class `Shell.Host`. It keeps a log of events: a temporary
file written, a command run with its outcome, a file unlinked. Whether an
`openssl` command line succeeds is decided by `Host.outcome`, an arbitrary
function of the command and of everything that happened before it.

Each Python handler becomes an imperative method that updates the log. It is
proved equal, result and events, to a pure specification function:

| method | specification function |
|---|---|
| `Csr.CsrGenerator.GenerateCsr` | `Csr.Generate` |
| `Legacy.CsrGenerator.GenerateCsr` | `Legacy.Generate` |
| `Conversion.RunConversion` | `Conversion.Convert` |

The properties are lemmas about those functions.

Inputs the code reads from the outside world are parameters:

- the current year (`datetime.now().year`);
- the temporary file's path (`tempfile.NamedTemporaryFile`);
- `Path(p).exists()`, as `fileExists: string -> bool`;
- the widget values, as `DnFields`, `Form` and the `sanInput` field.

Files:

| file | contents |
|---|---|
| `wrappers.dfy` | `Option` |
| `text.dfy` | Python's `strip`, `lower`, `replace` and decimal rendering |
| `shell.dfy` | the host and its event log; "run until the first failure" |
| `config.dfy` | the renderer, its parser and the loop that appends the SAN lines |
| `artifacts.dfy` | names and the `openssl req` / `openssl rsa` command lines |
| `csr.dfy` | the current tool's CSR tab |
| `legacy.dfy` | the first version |
| `paths.dfy` | `Path.stem` and `Path.with_suffix` |
| `conversion.dfy` | the conversion tab |

In three places the code does something other than what a quick reading suggests,
and the model follows the code:

- Every `*.` in the common name is replaced, not only a leading one
  (`Artifacts.InnerWildcardReplaced`).
- Without a password, the conversion commands still pass `-password` followed by
  an empty argument; the flag is not omitted (`Conversion.PasswordArguments`).
- The success message of a conversion names `out`. `out` stays empty for every
  route but `cer+key->p12` when the output box was left empty, although
  `openssl` wrote a default file (`Conversion.ReportedOutputIsWritten`).

## Model

| member | source | states |
|---|---|---|
| Csr.SubmitSan | certify_tui/__main__.py:42-48 | one submission, on the stripped value: `!` with a non-empty list drops the last entry; any other non-empty value is appended; an empty value changes nothing |
| Csr.SubmitSanEffect | certify_tui/__main__.py:42-50 | on the stripped value: `!` on a non-empty list drops exactly the last entry; any other non-empty value (`!` on an empty list too) is appended at the end; an empty value leaves the list as it was; each case happens exactly under its condition |
| Csr.SubmitSanKeepsClean | certify_tui/__main__.py:44-48 | only stripped, non-empty values ever enter the SAN list |
| Csr.SubmitThenRemoveRestores | certify_tui/__main__.py:45-48 | adding a value and then submitting `!` gives back the original list |
| Csr.SubmitBang | certify_tui/__main__.py:44-48 | any text that strips to `!` drops the last entry of a non-empty list and is itself appended to an empty one |
| Csr.SubmitThenBang | certify_tui/__main__.py:44-48 | adding a value and then submitting any text that strips to `!` gives back the original list |
| Csr.BangIsStripped | certify_tui/__main__.py:44-45 | `!` has no surrounding whitespace, so typing it alone is the removal command |
| Csr.CsrGenerator.SubmitSanInput | certify_tui/__main__.py:42-50 | the SAN list becomes `SubmitSan` of the old list and the box, the box is cleared, and the list stays clean |
| Csr.CsrGenerator.BuildConfigPreview | certify_tui/__main__.py:59-89 | the text built by the loop is the rendered configuration for the typed fields and the current SAN list; when no field or SAN holds a newline, it reads back to the stripped fields and exactly the SAN list, which the form keeps clean |
| OpensslConfig.DnBlock | certify_tui/__main__.py:75-80 | the six `KEY=value` lines of the `[dn]` block, in the order C, ST, L, O, OU, CN |
| OpensslConfig.Preamble | certify_tui/__main__.py:67-86 | the fixed `[req]` profile, the `[dn]` header and block of the given fields, then the `[req_ext]` and `[alt_names]` headers |
| OpensslConfig.DnsLine | certify_tui/__main__.py:88 | `DNS.<n> = <stripped san>` followed by a newline |
| OpensslConfig.AltNames | certify_tui/__main__.py:87-88 | one `DnsLine` per SAN, in list order, numbered consecutively from `first` |
| OpensslConfig.Render | certify_tui/__main__.py:59-89 | `Preamble` of the stripped fields, then the `[alt_names]` lines of the SAN list numbered from 1 |
| OpensslConfig.AppendAltNames | certify_tui/__main__.py:87-88 | appending `DNS.<i+1> = strip(san)` for each SAN in turn yields the head followed by all the `[alt_names]` lines |
| OpensslConfig.AltNamesSnoc | certify_tui/__main__.py:87-88 | one more SAN adds exactly one line at the end, numbered after the others |
| OpensslConfig.RenderSnoc | certify_tui/__main__.py:59-89 | rendering `sans + [s]` is rendering `sans` followed by `DNS.<|sans|+1> = strip(s)` |
| OpensslConfig.AltNamesOfTwo | certify_tui/__main__.py:85-88 | two SANs give exactly `DNS.1 = <first>` and `DNS.2 = <second>`, stripped |
| OpensslConfig.DnBlockParses | certify_tui/__main__.py:74-80 | the `[dn]` block reads back to the six fields, keys in the order C, ST, L, O, OU, CN |
| OpensslConfig.AltNamesParse | certify_tui/__main__.py:85-88 | the `[alt_names]` lines read back to the stripped SANs in list order, numbered from 1 |
| OpensslConfig.RenderParseRoundTrip | certify_tui/__main__.py:59-89 | the configuration starts with the fixed `[req]` profile; when no stripped field and no stripped SAN contains a newline, it reads back to exactly the stripped fields and the stripped SANs |
| Artifacts.WildcardName | certify_tui/__main__.py:113 | `cn.replace("*.", "wildcard.")` |
| Artifacts.FileStem | certify_tui/__main__.py:112-113 | the replaced name, then `-<year>-<year+10>` in decimal |
| Artifacts.KeyFile | certify_tui/__main__.py:114 | `<stem>.key.nopasswd` |
| Artifacts.ProtectedKeyFile | certify_tui/__main__.py:115 | `<stem>.key` |
| Artifacts.CsrFile | certify_tui/__main__.py:116 | `<stem>.csr` |
| Artifacts.ReqArgv | certify_tui/__main__.py:125-131 | `openssl req -new -sha256 -nodes -out <csr> -newkey rsa:4096 -keyout <key> -config <conf>`, in that argument order |
| Artifacts.ProtectKeyArgv | certify_tui/__main__.py:134-139 | `openssl rsa -des3 -in <key> -out <protected key> -passout pass:<password>` |
| Artifacts.NoWildcardMarkerLeft | certify_tui/__main__.py:113 | no `*.` survives the replacement, wherever it stood |
| Artifacts.WildcardStem | certify_tui/__main__.py:113 | `*.<rest>` in year `y` gives `wildcard.`, then `<rest>` with its own `*.` replaced, then `-<y>-<y+10>` |
| Artifacts.PlainStem | certify_tui/__main__.py:113 | a name without `*` is kept as it is, followed by `-<y>-<y+10>` |
| Artifacts.InnerWildcardReplaced | certify_tui/__main__.py:113 | a `*.` after any star-free prefix is replaced as well: the prefix is kept and the rest after the marker is replaced in turn |
| Artifacts.ArtifactNamesDistinct | certify_tui/__main__.py:114-116 | the raw key, the protected key and the request never share a name |
| Text.Strip | certify_tui/__main__.py:44 | `str.strip()`: the characters `str.isspace` accepts dropped at both ends |
| Text.Lower | certify_tui/__main__.py:189 | `str.lower()` on ASCII letters |
| Text.Replace | certify_tui/__main__.py:113 | `str.replace(pat, rep)`: every non-overlapping occurrence, scanning from the left |
| Text.NatToString | certify_tui/__main__.py:113 | `f"{n}"`: decimal digits without leading zeros |
| Text.NatToStringInjective | certify_tui/__main__.py:113 | the year in the stem is rendered in decimal so that different years give different text |
| Shell.Host.WriteTemp | certify_tui/__main__.py:120-122 | the temporary file is created with the given content, as one more event in the log |
| Shell.Host.Run | certify_tui/__main__.py:125-131 | the command succeeds as the host decides from the log so far, and is logged with that outcome |
| Shell.Host.Unlink | certify_tui/__main__.py:146 | the unlink is logged |
| Shell.RunSequence | certify_tui/__main__.py:124-143 | `subprocess.run(..., check=True)` calls in one `try`: each command runs with the outcome it gets after the earlier ones, and the first failure ends the sequence and is reported |
| Shell.RunSequenceStopsAtFirstFailure | certify_tui/__main__.py:124-143 | with `check=True`, the commands run in order, each with the outcome it gets at its turn; all but the last succeeded; the failure is the last command run, and there is none exactly when every command ran and succeeded |
| Shell.RunSequenceInOrder | certify_tui/__main__.py:124-139 | the commands that ran are the first ones of the plan, in order, each with the outcome it got after the earlier ones |
| Shell.RunSequenceFailure | certify_tui/__main__.py:124-143 | every command but the last succeeded, and the reported failure is the last one run exactly when it failed |
| Csr.GenerationPlan | certify_tui/__main__.py:124-139 | `openssl req`, then `openssl rsa -des3` only when the password is non-empty |
| Csr.Generation | certify_tui/__main__.py:120-146 | write the configuration to the temporary path, run the plan until the first failure, report the failed command or the request, the raw key and (with a password) the protected key, and unlink the temporary path in every case |
| Csr.Generate | certify_tui/__main__.py:99-146 | `CnRequired` with no events when the stripped common name is empty; otherwise `Generation` for the stem of the stripped name and the year, the stripped password and the rendered configuration |
| Csr.GenerateRejectsOnlyEmptyCn | certify_tui/__main__.py:100-110 | a common name that strips to nothing, that is one made only of whitespace, and only that, is rejected, with no file written and no command run |
| Csr.GenerationCases | certify_tui/__main__.py:118-146 | `req` fails and is reported; or it succeeds without a password and the request and raw key are reported; or, with a password, `rsa -des3` runs after it and its own outcome decides; the configuration is written before and unlinked after in every case |
| Csr.GenerationTempLifecycle | certify_tui/__main__.py:120-146 | the temporary file is written first with exactly the configuration, `openssl req` runs next, the file is unlinked last on every path and nothing else is deleted, and afterwards it is gone |
| Csr.GenerateTempLifecycle | certify_tui/__main__.py:99-146 | for a whole generation: the temporary file holds the preview text, `openssl req` is the first command, and the file is unlinked at the end |
| Csr.GenerationCommands | certify_tui/__main__.py:124-142 | the commands are `req` and then, only with a password and after `req` succeeded, `rsa -des3`; a success reports the protected key exactly when there is a password |
| Csr.GenerateProtectsOnlyAfterReq | certify_tui/__main__.py:99-146 | the same, for a whole generation with the stripped password |
| Csr.CsrGenerator.GenerateCsr | certify_tui/__main__.py:99-146 | the result and the events are those of `Generate` on the typed fields and the current SAN list |
| Csr.RunGeneration | certify_tui/__main__.py:120-146 | the `try`/`finally` block produces the result and the events of `Generation` |
| Legacy.SubmitSan | certify-tui.py:30-34 | the stripped value is appended when it is non-empty; nothing else changes the list |
| Legacy.SubmitSanAppendOnly | certify-tui.py:30-37 | the list only grows: it is extended by the stripped value exactly when that value is non-empty, and is otherwise unchanged |
| Legacy.SubmitSanAgreesWithNewer | certify-tui.py:30-37 | the first version's submission agrees with the current one except for `!` on a non-empty list |
| Legacy.SubmitAllAppendsAccepted | certify-tui.py:30-35 | after any run of submissions, the list is the old list followed by every non-empty stripped value, in order |
| Legacy.CsrGenerator.SubmitSanInput | certify-tui.py:30-37 | the list becomes `SubmitSan` of the old list and the box; the box is cleared only when a value was added |
| Legacy.Request | certify-tui.py:87-103 | write the configuration, run `openssl req` once, report the request and the raw key or the failed command, then unlink the temporary path |
| Legacy.Generate | certify-tui.py:47-103 | `CnRequired` with no events when the stripped common name is empty; otherwise `Request` for the stem and the rendered configuration |
| Legacy.GenerateRejectsOnlyEmptyCn | certify-tui.py:55-57 | an empty stripped common name, and only that, is rejected before any file is written or command run; otherwise exactly three events happen |
| Legacy.RequestIssuesOneCommand | certify-tui.py:87-103 | exactly one command, `openssl req` with the derived names, runs; the file holds the configuration when it runs; only the temporary file is unlinked and it is gone afterwards |
| Legacy.RequestIsGenerationWithoutPassword | certify-tui.py:87-103 | the first version's `try`/`finally` block is the current one's with an empty password |
| Legacy.NewerWithoutPasswordIsLegacy | certify-tui.py:47-103 | the current generator with a blank password gives the same result, the same temporary file and the same single command as the first version |
| Legacy.CsrGenerator.GenerateCsr | certify-tui.py:47-103 | the result and the events are those of the first version's `Generate` |
| Legacy.RunRequest | certify-tui.py:87-103 | the `try`/`finally` block produces the result and the events of `Request` |
| Paths.PathStem | certify_tui/__main__.py:209 | `Path(p).stem`: the last path component without its final suffix |
| Paths.WithSuffix | certify_tui/__main__.py:228 | `Path(p).with_suffix(s)` as text: the directory, the stem of the last component, then `s` |
| Paths.PathStemOfName | certify_tui/__main__.py:209 | `Path(p).stem` is a leading part of the last path component, holds no `/`, and is empty only for an empty name |
| Paths.StemOfSuffixed | certify_tui/__main__.py:228 | the stem of `<stem>.key` is `<stem>` |
| Paths.WithSuffixIdempotent | certify_tui/__main__.py:228 | `with_suffix(".key")` keeps the directory, ends in `.key`, and applied twice is applied once |
| Conversion.NormalToken | certify_tui/__main__.py:189 | `conv.strip().lower()` |
| Conversion.ParseRoute | certify_tui/__main__.py:207-256 | the `if`/`elif` chain: the route whose selector value equals the token, or none |
| Conversion.Validate | certify_tui/__main__.py:185-204 | no selection is rejected first; otherwise `Check` on the normalised token and the stripped boxes |
| Conversion.Check | certify_tui/__main__.py:191-258 | a missing first input, a first input not found, then, for the bundling tokens only, a missing or absent second input, then an unknown token; otherwise the job for the route |
| Conversion.OutputOr | certify_tui/__main__.py:222 | `out or default` |
| Conversion.Reported | certify_tui/__main__.py:207-260 | `out` when the success message is shown: `<stem of input 1>.p12` for `cer+key->p12` with an empty box, the typed value otherwise |
| Conversion.CertArgv | certify_tui/__main__.py:219-224 | `openssl pkcs12 -in <input> -clcerts -nokeys -out <out or output.cer> -password <arg>` |
| Conversion.KeyArgv | certify_tui/__main__.py:225-230 | `openssl pkcs12 -in <input> -nocerts -nodes -out <(out or output.key) with suffix .key> -password <arg>` |
| Conversion.Steps | certify_tui/__main__.py:207-254 | the command lines of each route, in the order they run, with the route's default output names |
| Conversion.Execute | certify_tui/__main__.py:206-263 | run the steps until one fails; report the failed command, or success naming `Reported` |
| Conversion.Convert | certify_tui/__main__.py:174-263 | a rejected form reports its reason with no events; an accepted one is `Execute` of its job |
| Conversion.ParseRouteInvertsToken | certify_tui/__main__.py:207-256 | a token selects a route exactly when it is that route's selector value |
| Conversion.TakesKeyRoutes | certify_tui/__main__.py:198 | the second input is required exactly for `cer+key->p12` and `pem+key->p12` |
| Conversion.PassArg | certify_tui/__main__.py:215 | the password argument is empty exactly when the password is, and is otherwise `pass:` followed by the password |
| Conversion.StepsCount | certify_tui/__main__.py:207-254 | every route runs one command, `p12->cer+key` two |
| Conversion.CheckOrder | certify_tui/__main__.py:191-204 | each rejection after the selection check is reported exactly when every earlier check passed and its own failed; the form is accepted exactly when all pass and the token names a route |
| Conversion.ValidationOrder | certify_tui/__main__.py:185-204 | a missing selection is reported first and only then; an accepted form has an existing first input and, for the bundling routes, an existing second input, all stripped |
| Conversion.RejectionRunsNothing | certify_tui/__main__.py:184-204 | a rejected form runs nothing and reports its reason; a conversion succeeds or fails exactly when the form was accepted |
| Conversion.CommandsOnlyAfterChecks | certify_tui/__main__.py:184-263 | commands run exactly when the form was accepted, and the first one is the route's first command |
| Conversion.SecondInputIgnored | certify_tui/__main__.py:198-254 | for the routes that take one input, the second box makes no difference to the result or the commands |
| Conversion.OneInputRoutes | certify_tui/__main__.py:198 | a route reads only the first input exactly when its selector value is not one of the two bundling tokens |
| Conversion.StepsIgnoreSecondInput | certify_tui/__main__.py:218-245 | the one-input routes never pass the second input to `openssl`, and report the same output whatever it holds |
| Conversion.DefaultKeyName | certify_tui/__main__.py:228 | `Path("output.key").with_suffix(".key")` is `output.key` |
| Conversion.DefaultOutputs | certify_tui/__main__.py:207-254 | with an empty output box: `<stem of input 1>.p12` (no directory), `output.cer` and `output.key`, `output.pem`, `output.p12` |
| Conversion.UserOutputs | certify_tui/__main__.py:207-254 | a typed output name is used as is, except for the key of `p12->cer+key`, which gets the suffix `.key` |
| Conversion.PasswordArguments | certify_tui/__main__.py:210-254 | every command of every route but `cer->pem` passes `-password` with the password argument |
| Conversion.CerToPemIgnoresPassword | certify_tui/__main__.py:232-237 | the `cer->pem` command does not depend on the password |
| Conversion.KeyOnlyAfterCertificate | certify_tui/__main__.py:218-230 | in `p12->cer+key` the key is extracted only after the certificate extraction succeeded; a failed first command is reported and nothing else runs |
| Conversion.FailureNotRolledBack | certify_tui/__main__.py:206-263 | the commands run are the route's, in order; a failure names the last command run, after the earlier ones succeeded; nothing is undone; a success ran every command |
| Conversion.ReportedOutputIsWritten | certify_tui/__main__.py:207-260 | the success message names the file the first command wrote when an output was typed, and for `cer+key->p12`; otherwise it names nothing |
| Conversion.ExecuteOfOne | certify_tui/__main__.py:206-263 | a one-command route reports success or that command's failure, according to its outcome |
| Conversion.ExecuteOfTwo | certify_tui/__main__.py:218-230 | a two-command route runs the second only after the first succeeded |
| Conversion.RunConversion | certify_tui/__main__.py:174-263 | the handler's result and events are those of `Convert` on the form |
| Conversion.CheckAndRun | certify_tui/__main__.py:191-258 | the checks after the selection one, with early returns, then the route's commands |
| Conversion.RunRoute | certify_tui/__main__.py:206-258 | the `if`/`elif` chain runs the commands of the route the token names, and runs nothing for an unknown token |
| Conversion.RunCertAndKey | certify_tui/__main__.py:218-230 | `p12->cer+key` runs the certificate command and, only if it succeeded, the key command |
| Conversion.RunOne | certify_tui/__main__.py:207-254 | a single-command route runs its command and reports `out` (with the `cer+key->p12` default) or the failure |

## Left out

- The Textual interface is not modelled: `compose`, `on_mount`, widget queries, the SAN display, the configuration preview widget, `log` and its colour markup, the app class and key bindings. Field values and SAN submissions are inputs of the methods.
- The messages shown to the operator are not modelled as text. A result datatype names the case and its data (the failed command, the missing path, the output).
- Csr.CsrGenerator.GenerateCsr: after `openssl rsa -des3` succeeds, the source shows "Protected key created" and then overwrites it with "CSR and key generated". The model reports one `Generated` result that names the protected key.
- `argparse` and `os.chdir` are not modelled. They only choose the working directory before the app starts.
- The cryptography and the encodings are `openssl`'s and are not modelled. Whether a command line succeeds is the opaque `Host.outcome`; a zero exit status is `ok`.
- `datetime.now()`, the path `tempfile` picks and `Path.exists` are parameters.
- The model does not assume the temporary path differs from the artifact names; `tempfile` chooses it.
- `Paths.PathStemOfName`, `Paths.WithSuffixIdempotent`: `pathlib` is modelled on the text after the last `/`, with the suffix starting at the last `.` that is neither the first nor the last character of the name. Path normalisation (repeated or trailing slashes, `.` components) is not modelled.
- `Paths.WithSuffix`: the `ValueError` that `with_suffix` raises for a path with an empty name is not modelled. With the default `output.key` it cannot happen.
- `Text.Lower` maps ASCII letters only. Python's full Unicode case mapping is not modelled; the five route tokens are ASCII.
- `Text.Strip` removes the characters Python's `str.isspace` accepts. This is a fixed character set, not a Unicode database lookup.
- The unknown-route branch calls `Static.update` with a `style="red"` keyword, which that method does not take. The source most likely raises `TypeError` there, and the `except subprocess.CalledProcessError` does not catch it. The model instead reports `UnknownConversion` and runs nothing. The selector offers only the five known tokens, so this branch is reached only with an unexpected selector value.
- Timeouts, signals and exceptions other than `CalledProcessError` are not modelled. Examples are a missing `openssl` binary and a failure to write or unlink the temporary file.
- The `reactive([])` default list that a class-level `sans_list` would share between several form instances is not modelled. The app creates one form, and the model gives each `CsrGenerator` its own list.
