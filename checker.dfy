/**
 * The checker object: it owns a list of findings that its three rule
 * methods append to, and `RunChecks` loads the manifest, splits it into
 * lines and runs the rules in their fixed order.
 */
module ContainerSecurityChecker {
  import opened Text
  import opened Reporting
  import opened Rules

  /** What opening and reading the manifest file yields: its text, or the reason the read failed. */
  datatype ReadOutcome = Read(content: string) | ReadFailed(reason: string)

  /** The one error the checker raises: the manifest could not be read. */
  datatype LoadError = FileNotFound(message: string)

  datatype Result<T> = Ok(value: T) | Err(error: LoadError)

  const LoadErrorPrefix: string := "Error reading config file: "

  /** Loading the manifest passes its text through and turns every read failure into `FileNotFound`. */
  function LoadConfig(read: ReadOutcome): (r: Result<string>)
    ensures r.Ok? <==> read.Read?
    ensures r.Ok? ==> r.value == read.content
    ensures r.Err? ==>
      StartsWith(r.error.message, LoadErrorPrefix) && r.error.message[|LoadErrorPrefix|..] == read.reason
  {
    match read
    case Read(content) => Ok(content)
    case ReadFailed(reason) => Err(FileNotFound(LoadErrorPrefix + reason))
  }

  /** Regrouping the findings appended by the three rules. */
  lemma AppendThree<T>(a: seq<T>, b: seq<T>, c: seq<T>, d: seq<T>)
    ensures a + b + c + d == a + (b + c + d)
  {
  }

  class ContainerConfigChecker {
    var configPath: string
    var findings: seq<Finding>

    /** A new checker for the manifest at `configPath`, with no findings yet. */
    constructor (configPath: string)
      ensures this.configPath == configPath && findings == []
    {
      this.configPath := configPath;
      findings := [];
    }

    /** Appends the base-image findings for `lines`, line by line; nothing else changes. */
    method CheckBaseImage(lines: seq<string>)
      modifies this`findings
      ensures findings == old(findings) + BaseImageFindings(lines)
    {
      for i := 0 to |lines|
        invariant findings == old(findings) + BaseImageFindings(lines[..i])
      {
        var line := lines[i];
        if StartsWith(line, "FROM") {
          if Contains(Lower(line), "latest") {
            findings := findings + [LatestTag];
          }
          if Contains(Lower(line), "scratch") {
            findings := findings + [ScratchImage];
          }
        }
        assert lines[..i + 1][..i] == lines[..i];
      }
      assert lines[..|lines|] == lines;
    }

    /** Appends the missing-USER warning exactly when no line mentions USER; nothing else changes. */
    method CheckUserInstruction(lines: seq<string>)
      modifies this`findings
      ensures findings == old(findings) + UserFindings(lines)
    {
      var found := false;
      var i := 0;
      while i < |lines| && !found
        invariant 0 <= i <= |lines|
        invariant found <==> exists j :: 0 <= j < i && MentionsUser(lines[j])
      {
        found := Contains(lines[i], "USER");
        i := i + 1;
      }
      if !found {
        findings := findings + [NoUser];
      }
    }

    /** Appends one ADD warning per ADD line, in line order; nothing else changes. */
    method CheckAddVsCopy(lines: seq<string>)
      modifies this`findings
      ensures findings == old(findings) + AddFindings(lines)
    {
      for i := 0 to |lines|
        invariant findings == old(findings) + AddFindings(lines[..i])
      {
        if StartsWith(Strip(lines[i]), "ADD") {
          findings := findings + [AddInsteadOfCopy];
        }
        assert lines[..i + 1][..i] == lines[..i];
      }
      assert lines[..|lines|] == lines;
    }

    /**
     * Loads the manifest, then runs the three rules over its lines in order
     * and returns the whole accumulated list. A failed load
     * returns the error and leaves the findings as they were.
     */
    method RunChecks(read: ReadOutcome) returns (r: Result<seq<Finding>>)
      modifies this`findings
      ensures read.ReadFailed? ==> findings == old(findings) && r == Err(LoadConfig(read).error)
      ensures read.Read? ==> findings == old(findings) + RunFindings(read.content) && r == Ok(findings)
    {
      var loaded := LoadConfig(read);
      if loaded.Err? {
        return Err(loaded.error);
      }
      var lines := SplitLines(loaded.value);
      ghost var before := findings;
      CheckBaseImage(lines);
      CheckUserInstruction(lines);
      CheckAddVsCopy(lines);
      AppendThree(before, BaseImageFindings(lines), UserFindings(lines), AddFindings(lines));
      r := Ok(findings);
    }
  }

  /**
   * Running the checks twice on one checker: nothing resets the list, so the
   * second result is the first one followed by a second copy of it.
   */
  method RunTwice(configPath: string, read: ReadOutcome) returns (first: Result<seq<Finding>>, second: Result<seq<Finding>>)
    ensures first.Ok? <==> read.Read?
    ensures second.Ok? <==> read.Read?
    ensures read.Read? ==> first.value == RunFindings(read.content)
    ensures read.Read? ==> second.value == first.value + first.value
  {
    var checker := new ContainerConfigChecker(configPath);
    first := checker.RunChecks(read);
    ghost var once := checker.findings;
    second := checker.RunChecks(read);
    if read.Read? {
      ghost var f := RunFindings(read.content);
      assert once == [] + f == f;
    }
  }

  /** Two fresh checkers given the same manifest report the same findings. */
  method FreshRunsAgree(configPath: string, read: ReadOutcome) returns (a: Result<seq<Finding>>, b: Result<seq<Finding>>)
    ensures a == b
    ensures a.Ok? <==> read.Read?
    ensures read.Read? ==> a.value == RunFindings(read.content)
  {
    var one := new ContainerConfigChecker(configPath);
    var two := new ContainerConfigChecker(configPath);
    a := one.RunChecks(read);
    b := two.RunChecks(read);
  }
}
