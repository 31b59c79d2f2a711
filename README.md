# Container configuration checker, modelled in Dafny

This project models `ContainerConfigChecker`, the core of a small Dockerfile
misconfiguration scanner. A checker is made for one configuration path and
owns one growing list of findings. `run_checks` loads the file, splits it into
lines, and runs three line rules in a fixed order. Each rule appends
human-readable findings to the list:

* **base image**: every line that starts with `FROM` is tested twice, case
  insensitively. It gets a warning if it mentions `latest`, then an info if it
  mentions `scratch`.
* **user instruction**: if no line contains `USER` anywhere (case sensitive),
  one warning is added.
* **ADD vs COPY**: every line whose whitespace-stripped text starts with `ADD`
  gets a warning.

The model has four modules:

* `Text` covers the Python string operations the rules depend on:
  `startswith`, the substring test `in`, `lower`, `strip` and `splitlines`.
  Each comes with lemmas that characterise it.
* `Reporting` defines the four findings. `Finding.Text()` is the exact
  `[WARNING] …`/`[INFO] …` string the program appends. The module also has a
  generic "apply a rule to each line in order" function, `PerLine`, with an
  independent line counter, `CountLines`.
* `Rules` states each rule as a function of the lines and proves what the
  rule reports. For example, the number of each finding equals the number of
  lines that trigger it.
* `ContainerSecurityChecker` holds the `ContainerConfigChecker` class. Its
  `findings` field is a `seq<Finding>` that the check methods extend with
  loops. Each method's postcondition ties the new list to the old list plus
  the rule's function. `RunChecks` takes the outcome of reading the file as
  a parameter.

The path is given to the constructor, and `run_checks` takes no argument. A
failed load raises `FileNotFoundError` whose message is
`"Error reading config file: "` followed by the underlying error text.

## Model

| member | source | states |
|---|---|---|
| ContainerSecurityChecker.ContainerConfigChecker.constructor | container_security_checker.py:12-14 | a new checker keeps the given path and starts with no findings |
| ContainerSecurityChecker.LoadConfig | container_security_checker.py:16-22 | loading succeeds exactly when the read succeeds and then yields the file's whole content; a failure yields a FileNotFound error whose message is "Error reading config file: " followed by the reason |
| ContainerSecurityChecker.ContainerConfigChecker.CheckBaseImage | container_security_checker.py:24-30 | the findings become the old findings followed by the base-image findings of the lines, in line order; nothing earlier is lost or changed |
| ContainerSecurityChecker.ContainerConfigChecker.CheckUserInstruction | container_security_checker.py:32-34 | the findings become the old findings plus one NoUser warning exactly when no line contains "USER", otherwise they are unchanged |
| ContainerSecurityChecker.ContainerConfigChecker.CheckAddVsCopy | container_security_checker.py:36-39 | the findings become the old findings followed by one ADD warning per line whose stripped text starts with "ADD", in line order |
| ContainerSecurityChecker.ContainerConfigChecker.RunChecks | container_security_checker.py:41-47 | on a failed load, the error is returned and the findings are untouched; otherwise the findings gain the base-image, then user, then ADD findings of the split lines, and the whole accumulated list is returned |
| ContainerSecurityChecker.RunTwice | container_security_checker.py:41-47 | running the same checker twice on the same content returns the first run's findings, then those findings twice over (findings accumulate across runs) |
| ContainerSecurityChecker.FreshRunsAgree | container_security_checker.py:12-47 | two fresh checkers on the same read outcome return the same result, which succeeds exactly when the read does |
| Rules.BaseImageCounts | container_security_checker.py:24-30 | the base-image rule reports LatestTag once per FROM line mentioning "latest" and ScratchImage once per FROM line mentioning "scratch", and nothing else; its length is the sum of these counts |
| Rules.LineBaseOccurrences | container_security_checker.py:26-30 | one line yields LatestTag at most once and exactly when it is a FROM line mentioning "latest" (case-insensitively), and likewise for ScratchImage |
| Rules.NonFromLineIgnored | container_security_checker.py:25-26 | inserting a line that does not start with "FROM" does not change the base-image findings |
| Rules.NoFromLinesNoBaseFindings | container_security_checker.py:25-26 | a manifest with no line starting with "FROM" yields no base-image finding |
| Rules.UntrimmedFromPrefix | container_security_checker.py:26 | an indented " FROM …" or lower-case "from …" line is not a FROM line, so it is never reported |
| Rules.FromLatestExample | container_security_checker.py:26-28 | "FROM something:latest" yields exactly the LatestTag warning |
| Rules.FromScratchExample | container_security_checker.py:26-30 | "FROM scratch" yields exactly the ScratchImage info |
| Rules.FromScratchLatestExample | container_security_checker.py:26-30 | a FROM line mentioning both "scratch" and "latest" yields LatestTag, then ScratchImage |
| Rules.LatestAt | container_security_checker.py:27 | a line holding "latest" at some position mentions latest, so its FROM line is reported |
| Rules.NoScratchWithoutC | container_security_checker.py:29 | a line with no 'c' or 'C' never mentions scratch |
| Rules.UserRuleAtMostOnce | container_security_checker.py:32-34 | the user rule reports at most once; it reports NoUser exactly when no line contains "USER", and nothing exactly when some line does |
| Rules.AddCount | container_security_checker.py:36-39 | the ADD rule yields only ADD warnings, one per line whose stripped text starts with "ADD" |
| Rules.IndentedAddCounts | container_security_checker.py:38 | leading whitespace before "ADD" does not stop the line from being reported |
| Rules.AddLineReported | container_security_checker.py:38-39 | every line that starts with "ADD" is reported once |
| Rules.FindingsCount | container_security_checker.py:41-47 | one run reports as many findings as there are latest hits, scratch hits and ADD lines, plus one if no line contains "USER" |
| Rules.EmptyManifest | container_security_checker.py:41-47 | an empty manifest yields exactly the NoUser warning |
| Rules.OnlyUserWarning | container_security_checker.py:41-47 | a manifest with no FROM and no ADD line and no "USER" yields only the NoUser warning |
| Rules.RunOnJoinedLines | container_security_checker.py:43-46 | a manifest written out line by line is checked as exactly those lines |
| Rules.RunOnUnterminatedLines | container_security_checker.py:43-46 | the same holds when the manifest's last line has no terminator: that line is checked too |
| Reporting.Finding.Text | container_security_checker.py:28-39 | each finding renders as its severity tag ("[WARNING] " or "[INFO] ") followed by its message, giving exactly the four strings the checker appends |
| Reporting.TextInjective | container_security_checker.py:28-39 | two findings have the same text exactly when they are the same finding, so the reported strings identify the findings |
| Reporting.PerLineOccurrences | container_security_checker.py:25-30 | a finding that each line yields once when it matches, and otherwise not at all, appears in the list of all lines as often as there are matching lines |
| Reporting.PerLineAppend | container_security_checker.py:25 | applying a rule line by line to two parts of a manifest in turn gives the findings of the first part followed by those of the second |
| Text.StartsWith | container_security_checker.py:26 | `startswith`: the string is at least as long as the prefix and its first characters are the prefix's |
| Text.Contains | container_security_checker.py:27-33 | the substring test `in`: a string contains any string it starts with, and never a string longer than itself |
| Text.ContainsAt | container_security_checker.py:27 | the substring test holds exactly when an occurrence of the substring starts at some position |
| Text.Lower | container_security_checker.py:27-29 | lower-casing keeps the length and lower-cases each character in place |
| Text.TrimLeft | container_security_checker.py:38 | left-stripping removes a prefix made only of whitespace and leaves a string that is empty or starts with a non-space |
| Text.TrimRight | container_security_checker.py:38 | right-stripping removes a suffix made only of whitespace and leaves a string that is empty or ends with a non-space |
| Text.Strip | container_security_checker.py:38 | `strip`: the result is what left-stripping leaves, cut before a suffix made only of whitespace, and it neither starts nor ends with whitespace |
| Text.StripStartsWith | container_security_checker.py:38 | for a prefix ending in a non-space, the stripped line starts with it exactly when the left-stripped line does |
| Text.TrimLeftSkipsSpaces | container_security_checker.py:38 | any run of leading whitespace is removed by stripping |
| Text.LineEnd | container_security_checker.py:43 | the first line ends at the first line break, or at the end of the text |
| Text.SplitLines | container_security_checker.py:43 | no split line contains a line break, and the text splits into no lines exactly when it is empty |
| Text.SplitJoinLines | container_security_checker.py:43 | splitting text written out line by line, each line ending in "\n", gives the same lines back |
| Text.SplitJoinLast | container_security_checker.py:43 | splitting such text followed by a last, unterminated line gives the same lines and that last line back |

## Left out

- File I/O: load_config opens and reads a file. The model takes the outcome of that read as a `ReadOutcome` parameter. Every exception caught there becomes `ReadFailed(reason)`, where `reason` is the exception's text.
- ContainerSecurityChecker.ContainerConfigChecker.RunChecks: the source returns the checker's own list object, so an earlier returned list keeps growing when the checker runs again. The model returns the list's value at that moment. The accumulation across runs is still captured, in `RunTwice`.
- Findings are the `Finding` values, not strings. `Finding.Text()` gives the exact string the source appends, and `TextInjective` shows that nothing is lost by this.
- Text.Lower: only the ASCII letters A-Z are lower-cased. Python's `str.lower` also maps non-ASCII letters. That makes no difference to finding "latest" or "scratch", except for non-ASCII characters whose lower-case form is an ASCII letter (such as the Kelvin sign, which lower-cases to 'k'). None of those characters occurs in either word.
- The whitespace set used by strip and the line-break set used by splitlines are the ones CPython's `str` uses. Python strings may hold lone surrogates, which Dafny's `char` cannot represent.
- The `__main__` block (lines 49-54) prints a report for a file named `Dockerfile`. That is console output and is not modelled.
- The unused `os`/`json` imports and the `Dict` return annotation of load_config (which actually returns a string) have no behaviour to model.
- A whole-manifest worked example on concrete text is not stated as one lemma, because Dafny unfolds the string functions on concrete text too far to prove it. `RunOnJoinedLines` and `RunOnUnterminatedLines` tie any manifest text to its lines. The per-line examples and `FindingsCount` cover the rest.
