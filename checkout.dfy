/**
 * Checking files out: cvs_checkout_rev fetches one revision of one file,
 * cvs_checkout_branch every file of a branch. The server answers a "co"
 * request with, per file, a "Created" or "Updated" line followed by the
 * file's path, its Entry line, its mode, its size and that many bytes of
 * contents, or a "Removed"/"Remove-entry" line followed by the path; the
 * reply ends with "ok" or "error".
 */
module Checkout {
  import opened Wrappers
  import opened Text
  import opened Revision
  import opened Stream
  import opened Files

  /**
   * What the checkout code reads from the transport besides the input:
   * the module name, the full module path in the repository, the
   * repository path, and fileMemoryLimit, the largest body kept in memory.
   */
  datatype CheckoutContext = CheckoutContext(moduleName: string, fullModulePath: string,
                                             repoPath: string, memoryLimit: nat)

  /** "Directory .", the repository path and the co command, which end both checkout requests. */
  function CoLines(repoPath: string): string
  {
    "Directory .\n" + repoPath + "\nco\n"
  }

  /** The arguments of cvs_checkout_rev: no shortening, pruning, -kk, the revision, then module/file. */
  function CheckoutRevArguments(revision: string, moduleName: string, file: string): seq<string>
  {
    ["-N", "-P", "-kk", "-r", revision, "--", moduleName + "/" + file]
  }

  /** The request cvs_checkout_rev writes, in one flushed write. */
  function CheckoutRevRequest(ctx: CheckoutContext, file: string, revision: string): string
  {
    ArgumentLines(CheckoutRevArguments(revision, ctx.moduleName, file)) + CoLines(ctx.repoPath)
  }

  /** The arguments of cvs_checkout_branch: the optional date, the fixed flags, the optional branch, the module. */
  function CheckoutBranchArguments(branch: Option<string>, date: Option<string>, moduleName: string): (r: seq<string>)
    ensures |r| >= 5 && r[|r| - 2..] == ["--", moduleName]
    ensures date.Some? <==> r[0] == "-D"
    ensures date.Some? ==> r[1] == date.value
  {
    DateArguments(date) + ["-N", "-P", "-kk"] + BranchArguments(branch) + ["--", moduleName]
  }

  /** The request cvs_checkout_branch writes (`date` is the rendered date, None when it is 0). */
  function CheckoutBranchRequest(ctx: CheckoutContext, branch: Option<string>, date: Option<string>): string
  {
    ArgumentLines(CheckoutBranchArguments(branch, date, ctx.moduleName)) + CoLines(ctx.repoPath)
  }

  /** HEAD is the default branch: asking for it sends no -r argument. */
  lemma CheckoutHeadBranch(date: Option<string>, moduleName: string)
    ensures CheckoutBranchArguments(Some("HEAD"), date, moduleName) == CheckoutBranchArguments(None, date, moduleName)
  {
  }

  /** The path the server reports for `file`: a directory completed with '/', then the file. */
  function FilePath(dir: string, file: string): string
  {
    CompleteLine(dir, '/') + file
  }

  const SizeModulus: nat := 0x1_0000_0000_0000_0000

  /** The size_t that atoi's result is stored in: a negative value wraps around. */
  function SizeT(n: int): (r: nat)
    ensures r < SizeModulus
    ensures 0 <= n < SizeModulus ==> r == n
    ensures -(SizeModulus as int) <= n < 0 ==> r == n + SizeModulus
  {
    n % SizeModulus
  }

  /**
   * The mode and size lines of a file block: the parsed mode, the size
   * and the size line itself. A mode parse_mode rejects, or a size that
   * reads as 0 from a line other than "0", is fatal.
   */
  function ModeAndSize(input: string): (r: Parsed<(set<Perm>, nat, string)>)
    ensures r.result.Ok? ==> |r.rest| < |input|
    ensures r.result.Error? ==> r.rest == []
    ensures r.result.Ok? ==> r.result.value.1 == SizeT(Atoi(r.result.value.2))
    ensures r.result.Ok? && r.result.value.1 == 0 ==> r.result.value.2 == "0"
  {
    match NextLine(input)
    case None => Parsed(Error, [])
    case Some((line, r1)) =>
      match ParseMode(line)
      case None => Parsed(Fatal("Cannot parse checked out file mode " + line), [])
      case Some(mode) =>
        match NextLine(r1)
        case None => Parsed(Error, [])
        case Some((sizeLine, r2)) =>
          var size := SizeT(Atoi(sizeLine));
          if size == 0 && sizeLine != "0" then Parsed(Fatal("Cannot parse file size " + sizeLine), [])
          else Parsed(Ok((mode, size, sizeLine)), r2)
  }

  /** cvs_read_full of a file body: `size` bytes, or fatal when the input ends first. */
  function Body(size: nat, input: string): (r: Parsed<string>)
    ensures !r.result.Error?
    ensures r.result.Ok? <==> size <= |input|
    ensures r.result.Ok? ==> r.result.value + r.rest == input && |r.result.value| == size
  {
    if |input| < size then
      Parsed(Fatal("Cannot checkout buf: truncated: " + Itoa(|input|) + " read out of " + Itoa(size)), [])
    else
      Parsed(Ok(input[..size]), input[size..])
  }

  /** Read the mode and size lines, as ModeAndSize. */
  method ReadModeAndSize(t: Transport) returns (r: Outcome<(set<Perm>, nat, string)>)
    requires t.Valid()
    modifies t, t.data
    ensures Reading(t)
    ensures var s := ModeAndSize(old(t.Input())); r == s.result && (!r.Fatal? ==> t.Input() == s.rest)
  {
    ghost var input := t.Input();
    var line := t.ReadLine();
    if line.None? {
      return Error;
    }
    var mode := ParseMode(line.value);
    if mode.None? {
      return Fatal("Cannot parse checked out file mode " + line.value);
    }
    var sizeLine := t.ReadLine();
    if sizeLine.None? {
      return Error;
    }
    var size := SizeT(Atoi(sizeLine.value));
    if size == 0 && sizeLine.value != "0" {
      return Fatal("Cannot parse file size " + sizeLine.value);
    }
    return Ok((mode.value, size, sizeLine.value));
  }

  /** Read a file body, as Body. */
  method ReadBody(t: Transport, size: nat) returns (r: Outcome<string>)
    requires t.Valid()
    modifies t, t.data
    ensures Reading(t)
    ensures var s := Body(size, old(t.Input())); r == s.result && (!r.Fatal? ==> t.Input() == s.rest)
  {
    var got := t.ReadFull(size);
    if |got| < size {
      return Fatal("Cannot checkout buf: truncated: " + Itoa(|got|) + " read out of " + Itoa(size));
    }
    return Ok(got);
  }

  // ---------------------------------------------------------------------
  // cvs_checkout_rev

  /** The reported path names the requested file, under the full module path or the module name. */
  predicate RevPathMatches(ctx: CheckoutContext, file: string, path: string)
  {
    path == FilePath(ctx.fullModulePath, file) || path == FilePath(ctx.moduleName, file)
  }

  /** The content being filled in, and rc == 0: whether a file block has been seen. */
  datatype RevState = RevState(content: CvsFile, found: bool)

  /** A content that the loop may hand back: for the requested file and revision, its body within the limit. */
  predicate RevContent(ctx: CheckoutContext, file: string, revision: string, c: CvsFile)
  {
    c.path == file && c.revision == revision && |c.file| <= ctx.memoryLimit
  }

  /**
   * The mode and body of a "Created"/"Updated" block: mode and isexec
   * from the mode line; a non-empty body within the memory limit becomes
   * the content, one beyond it is fatal.
   */
  function RevBody(ctx: CheckoutContext, file: string, revision: string, content: CvsFile,
                   mode: set<Perm>, size: nat, input: string): (r: Parsed<CvsFile>)
    ensures !r.result.Error?
    ensures r.result.Ok? ==> |r.rest| <= |input|
    ensures r.result.Ok? ==> r.result.value.mode == ModeValue(mode) && r.result.value.isexec == IsExecutable(mode)
    ensures r.result.Ok? && size > 0 ==> r.result.value.ismem && |r.result.value.file| == size <= ctx.memoryLimit
    ensures r.result.Ok? && RevContent(ctx, file, revision, content) ==> RevContent(ctx, file, revision, r.result.value)
  {
    var c := content.(mode := ModeValue(mode), isexec := IsExecutable(mode));
    if size == 0 then Parsed(Ok(c), input)
    else if size <= ctx.memoryLimit then
      var b := Body(size, input);
      if b.result.Ok? then Parsed(Ok(c.(ismem := true, file := b.result.value)), b.rest)
      else Parsed(Propagate(b.result), [])
    else
      Parsed(Fatal("Cannot checkout big file " + file + " rev " + revision + " size " + Itoa(size)), [])
  }

  /** The mode, size and body lines of a "Created"/"Updated" block, with the size line read last. */
  function RevModeBody(ctx: CheckoutContext, file: string, revision: string, content: CvsFile,
                       input: string): (r: Parsed<(CvsFile, string)>)
    ensures r.result.Ok? ==> |r.rest| < |input|
    ensures r.result.Error? ==> r.rest == []
    ensures r.result.Ok? && RevContent(ctx, file, revision, content) ==> RevContent(ctx, file, revision, r.result.value.0)
  {
    var ms := ModeAndSize(input);
    if !ms.result.Ok? then Parsed(Propagate(ms.result), ms.rest)
    else
      var b := RevBody(ctx, file, revision, content, ms.result.value.0, ms.result.value.1, ms.rest);
      if b.result.Ok? then Parsed(Ok((b.result.value, ms.result.value.2)), b.rest)
      else Parsed(Propagate(b.result), [])
  }

  /**
   * The lines after "Created"/"Updated": the path, which must name the
   * requested file; the Entry line, whose revision must pass
   * verify_revision; then mode, size and body. The result holds the
   * content and the size line, the last line read.
   */
  function RevFileBlock(ctx: CheckoutContext, file: string, revision: string, content: CvsFile,
                        input: string): (r: Parsed<(CvsFile, string)>)
    ensures r.result.Ok? ==> |r.rest| < |input|
    ensures r.result.Error? ==> r.rest == []
    ensures r.result.Ok? && RevContent(ctx, file, revision, content) ==> RevContent(ctx, file, revision, r.result.value.0)
  {
    match NextLine(input)
    case None => Parsed(Error, [])
    case Some((path, r1)) =>
      if !RevPathMatches(ctx, file, path) then
        Parsed(Fatal("Checked out file name doesn't match " + path + " " + FilePath(ctx.fullModulePath, file)), [])
      else
        match NextLine(r1)
        case None => Parsed(Error, [])
        case Some((entry, r2)) =>
          if !VerifyRevision(revision, entry) then
            Parsed(Fatal("Checked out file revision doesn't match the one requested " + revision + " " + entry), [])
          else
            RevModeBody(ctx, file, revision, content, r2)
  }

  /** A "Created"/"Updated" line starts a file block and sets rc to 0; other lines pass through. */
  function RevUpdated(ctx: CheckoutContext, file: string, revision: string, st: RevState,
                      line: string, rest: string): (r: Parsed<(RevState, string)>)
    ensures r.result.Ok? ==> |r.rest| <= |rest|
    ensures r.result.Error? ==> r.rest == []
    ensures r.result.Ok? && RevContent(ctx, file, revision, st.content) ==> RevContent(ctx, file, revision, r.result.value.0.content)
  {
    if "Created" <= line || "Updated" <= line then
      var b := RevFileBlock(ctx, file, revision, st.content, rest);
      if b.result.Ok? then Parsed(Ok((RevState(b.result.value.0, true), b.result.value.1)), b.rest)
      else Parsed(Propagate(b.result), b.rest)
    else
      Parsed(Ok((st, line)), rest)
  }

  /** A "Removed"/"Remove-entry" line and the path after it mark the file dead and set rc to 0. */
  function RevRemoved(ctx: CheckoutContext, file: string, st: RevState,
                      line: string, rest: string): (r: Parsed<(RevState, string)>)
    ensures r.result.Ok? ==> |r.rest| <= |rest|
    ensures r.result.Error? ==> r.rest == []
    ensures r.result.Ok? ==> r.result.value.0.content == st.content
                             || r.result.value.0.content == st.content.(isdead := true)
    ensures !("Removed" <= line || "Remove-entry" <= line) ==> r == Parsed(Ok((st, line)), rest)
    ensures ("Removed" <= line || "Remove-entry" <= line) ==>
      match NextLine(rest)
      case None => r == Parsed(Error, [])
      case Some((path, r1)) =>
        if RevPathMatches(ctx, file, path) then r == Parsed(Ok((RevState(st.content.(isdead := true), true), path)), r1)
        else r.result.Fatal?
  {
    if "Removed" <= line || "Remove-entry" <= line then
      match NextLine(rest)
      case None => Parsed(Error, [])
      case Some((path, r1)) =>
        if !RevPathMatches(ctx, file, path) then
          Parsed(Fatal("Checked out file name doesn't match " + path + " " + FilePath(ctx.fullModulePath, file)), [])
        else
          Parsed(Ok((RevState(st.content.(isdead := true), true), path)), r1)
    else
      Parsed(Ok((st, line)), rest)
  }

  /**
   * One pass of the cvs_checkout_rev loop: read a line, handle a file
   * block and a removal, and stop (true) at "ok" or at an "error" line.
   */
  function RevStep(ctx: CheckoutContext, file: string, revision: string, st: RevState,
                   input: string): (r: Parsed<(RevState, bool)>)
    ensures r.result.Ok? ==> |r.rest| < |input|
    ensures r.result.Error? ==> r.rest == []
    ensures r.result.Ok? && RevContent(ctx, file, revision, st.content) ==> RevContent(ctx, file, revision, r.result.value.0.content)
  {
    match NextLine(input)
    case None => Parsed(Error, [])
    case Some((line, rest)) =>
      var u := RevUpdated(ctx, file, revision, st, line, rest);
      if !u.result.Ok? then Parsed(Propagate(u.result), u.rest)
      else
        var d := RevRemoved(ctx, file, u.result.value.0, u.result.value.1, u.rest);
        if !d.result.Ok? then Parsed(Propagate(d.result), d.rest)
        else
          var cur := d.result.value.1;
          Parsed(Ok((d.result.value.0, cur == "ok" || "error" <= cur)), d.rest)
  }

  /** The loop of cvs_checkout_rev: rc is 0 (the content) when a block was seen before "ok" or "error". */
  function RevLoop(ctx: CheckoutContext, file: string, revision: string, st: RevState,
                   input: string): (r: Parsed<CvsFile>)
    ensures r.result.Ok? && RevContent(ctx, file, revision, st.content) ==> RevContent(ctx, file, revision, r.result.value)
    decreases |input|
  {
    var s := RevStep(ctx, file, revision, st, input);
    if !s.result.Ok? then Parsed(Propagate(s.result), s.rest)
    else if !s.result.value.1 then RevLoop(ctx, file, revision, s.result.value.0, s.rest)
    else if s.result.value.0.found then Parsed(Ok(s.result.value.0.content), s.rest)
    else Parsed(Error, s.rest)
  }

  /** The content cvs_checkout_rev starts from: reset, with the requested path and revision. */
  function RevStart(content: CvsFile, file: string, revision: string): RevState
  {
    RevState(Reset(content).(path := file, revision := revision), false)
  }

  /**
   * The reply to cvs_checkout_rev. A content handed back is always the
   * requested file at the requested revision, with a body no larger than
   * the memory limit.
   */
  function CheckoutRevReply(ctx: CheckoutContext, file: string, revision: string, content: CvsFile,
                            input: string): (r: Parsed<CvsFile>)
    ensures r.result.Ok? ==> RevContent(ctx, file, revision, r.result.value)
  {
    RevLoop(ctx, file, revision, RevStart(content, file, revision), input)
  }

  /** "%zu" of a size is a line of digits. */
  lemma DecimalLine(n: nat)
    ensures Itoa(n) != [] && '\n' !in Itoa(n) && IsDigit(Itoa(n)[0])
  {
    assert Itoa(n) == NatToString(n);
  }

  /** A mode line and a size line the server writes are read back as that mode and size. */
  lemma ModeAndSizeOf(modeLine: string, n: nat, rest: string)
    requires '\n' !in modeLine && ParseMode(modeLine).Some?
    requires 0 < n < SizeModulus
    ensures ModeAndSize(Then(modeLine, Then(Itoa(n), rest)))
         == Parsed(Ok((ParseMode(modeLine).value, n, Itoa(n))), rest)
  {
    NextLineOf(modeLine, Then(Itoa(n), rest));
    DecimalLine(n);
    NextLineOf(Itoa(n), rest);
    AtoiItoa(n);
  }

  /** The mode strings are single lines. */
  lemma ModeStringLine(isExec: bool)
    ensures '\n' !in ModeString(isExec)
  {
  }

  /**
   * A file block for the requested file at the requested revision, with a
   * body within the memory limit, fills in the mode, the execute flag and
   * the body.
   */
  lemma RevFileBlockOf(ctx: CheckoutContext, file: string, revision: string, content: CvsFile,
                       name: string, fields: string, isExec: bool, body: string, rest: string)
    requires '\n' !in FilePath(ctx.fullModulePath, file)
    requires '/' !in name && '/' !in revision && '\n' !in EntryLine(name, revision, fields)
    requires 0 < |body| <= ctx.memoryLimit && |body| < SizeModulus
    ensures ParseMode(ModeString(isExec)).Some?
    ensures RevFileBlock(ctx, file, revision, content,
              Then(FilePath(ctx.fullModulePath, file), Then(EntryLine(name, revision, fields),
              Then(ModeString(isExec), Then(Itoa(|body|), body + rest)))))
         == Parsed(Ok((content.(mode := ModeValue(ParseMode(ModeString(isExec)).value), isexec := isExec,
                                ismem := true, file := body), Itoa(|body|))), rest)
  {
    var path := FilePath(ctx.fullModulePath, file);
    var entry := EntryLine(name, revision, fields);
    var modeText := Then(ModeString(isExec), Then(Itoa(|body|), body + rest));
    NextLineOf(path, Then(entry, modeText));
    NextLineOf(entry, modeText);
    VerifyRevisionAccepts(name, revision, fields);
    RevModeBodyOf(ctx, file, revision, content, isExec, body, rest);
  }

  /** The mode, size and body lines of a block within the memory limit fill in the file. */
  lemma RevModeBodyOf(ctx: CheckoutContext, file: string, revision: string, content: CvsFile,
                      isExec: bool, body: string, rest: string)
    requires 0 < |body| <= ctx.memoryLimit && |body| < SizeModulus
    ensures ParseMode(ModeString(isExec)).Some?
    ensures RevModeBody(ctx, file, revision, content, Then(ModeString(isExec), Then(Itoa(|body|), body + rest)))
         == Parsed(Ok((content.(mode := ModeValue(ParseMode(ModeString(isExec)).value), isexec := isExec,
                                ismem := true, file := body), Itoa(|body|))), rest)
  {
    ModeStringRoundTrip(isExec);
    ModeStringLine(isExec);
    ModeAndSizeOf(ModeString(isExec), |body|, body + rest);
    assert (body + rest)[..|body|] == body && (body + rest)[|body|..] == rest;
  }

  /** A file block is one pass of the loop when the size line is not a final line. */
  lemma RevStepBlock(ctx: CheckoutContext, file: string, revision: string, st: RevState,
                     head: string, block: string, c: CvsFile, cur: string, rest: string)
    requires ("Created" <= head || "Updated" <= head) && '\n' !in head
    requires RevFileBlock(ctx, file, revision, st.content, block) == Parsed(Ok((c, cur)), rest)
    requires cur != [] && IsDigit(cur[0])
    ensures RevStep(ctx, file, revision, st, Then(head, block)) == Parsed(Ok((RevState(c, true), false)), rest)
  {
    NextLineOf(head, block);
    var st' := RevState(c, true);
    assert RevUpdated(ctx, file, revision, st, head, block) == Parsed(Ok((st', cur)), rest);
    assert !("Removed" <= cur || "Remove-entry" <= cur) by {
      assert "Removed"[0] == 'R' && "Remove-entry"[0] == 'R';
    }
    assert RevRemoved(ctx, file, st', cur, rest) == Parsed(Ok((st', cur)), rest);
    assert !("error" <= cur) && cur != "ok" by {
      assert "error"[0] == 'e' && "ok"[0] == 'o';
    }
  }

  /** An "ok" line ends the loop and changes nothing. */
  lemma RevStepOk(ctx: CheckoutContext, file: string, revision: string, st: RevState, after: string)
    ensures RevStep(ctx, file, revision, st, Then("ok", after)) == Parsed(Ok((st, true)), after)
  {
    NextLineOf("ok", after);
  }

  /**
   * A reply holding one "Created"/"Updated" block for the requested file
   * at the requested revision, then "ok", hands back that file: its body,
   * its execute flag and the mode 0775 or 0664, under the requested path
   * and revision; the rest of the input is left unread.
   */
  lemma CheckoutRevUpdated(ctx: CheckoutContext, file: string, revision: string, content: CvsFile,
                           head: string, name: string, fields: string, isExec: bool, body: string, after: string)
    requires ("Created" <= head || "Updated" <= head) && '\n' !in head
    requires '\n' !in FilePath(ctx.fullModulePath, file)
    requires '/' !in name && '/' !in revision && '\n' !in EntryLine(name, revision, fields)
    requires 0 < |body| <= ctx.memoryLimit && |body| < SizeModulus
    ensures CheckoutRevReply(ctx, file, revision, content,
              Then(head, Then(FilePath(ctx.fullModulePath, file), Then(EntryLine(name, revision, fields),
              Then(ModeString(isExec), Then(Itoa(|body|), body + Then("ok", after)))))))
         == Parsed(Ok(RevStart(content, file, revision).content.(mode := if isExec then 509 else 436,
                      isexec := isExec, ismem := true, file := body)), after)
  {
    var st := RevStart(content, file, revision);
    var rest := Then("ok", after);
    var block := Then(FilePath(ctx.fullModulePath, file), Then(EntryLine(name, revision, fields),
                 Then(ModeString(isExec), Then(Itoa(|body|), body + rest))));
    var c := st.content.(mode := if isExec then 509 else 436, isexec := isExec, ismem := true, file := body);
    assert RevFileBlock(ctx, file, revision, st.content, block) == Parsed(Ok((c, Itoa(|body|))), rest) by {
      RevFileBlockOf(ctx, file, revision, st.content, name, fields, isExec, body, rest);
      if isExec { ExecModeString(); } else { PlainModeString(); }
    }
    DecimalLine(|body|);
    RevStepBlock(ctx, file, revision, st, head, block, c, Itoa(|body|), rest);
    RevStepOk(ctx, file, revision, RevState(c, true), after);
    assert RevLoop(ctx, file, revision, RevState(c, true), rest) == Parsed(Ok(c), after);
    assert RevLoop(ctx, file, revision, st, Then(head, block)) == Parsed(Ok(c), after);
  }

  /**
   * A reply holding a "Removed"/"Remove-entry" line for the requested
   * file, then "ok", hands back the file marked dead under the requested
   * path and revision.
   */
  lemma CheckoutRevRemovedReply(ctx: CheckoutContext, file: string, revision: string, content: CvsFile,
                                head: string, path: string, after: string)
    requires ("Removed" <= head || "Remove-entry" <= head) && '\n' !in head
    requires RevPathMatches(ctx, file, path) && '\n' !in path
    requires path != "ok" && !("error" <= path)
    ensures CheckoutRevReply(ctx, file, revision, content, Then(head, Then(path, Then("ok", after))))
         == Parsed(Ok(RevStart(content, file, revision).content.(isdead := true)), after)
  {
    var st := RevStart(content, file, revision);
    var rest := Then(path, Then("ok", after));
    NextLineOf(head, rest);
    NextLineOf(path, Then("ok", after));
    assert !("Created" <= head || "Updated" <= head) by {
      assert head[0] == 'R';
    }
    var st' := RevState(st.content.(isdead := true), true);
    assert RevStep(ctx, file, revision, st, Then(head, rest)) == Parsed(Ok((st', false)), Then("ok", after));
    RevStepOk(ctx, file, revision, st', after);
    assert RevLoop(ctx, file, revision, st', Then("ok", after)) == Parsed(Ok(st'.content), after);
  }

  /** A reply that reaches "ok" without a file block makes cvs_checkout_rev return -1. */
  lemma CheckoutRevNoFile(ctx: CheckoutContext, file: string, revision: string, content: CvsFile, after: string)
    ensures CheckoutRevReply(ctx, file, revision, content, Then("ok", after)) == Parsed(Error, after)
  {
    NextLineOf("ok", after);
  }

  /** A file block naming another file is fatal. */
  lemma CheckoutRevWrongFile(ctx: CheckoutContext, file: string, revision: string, content: CvsFile,
                             head: string, path: string, rest: string)
    requires ("Created" <= head || "Updated" <= head) && '\n' !in head && '\n' !in path
    requires !RevPathMatches(ctx, file, path)
    ensures CheckoutRevReply(ctx, file, revision, content, Then(head, Then(path, rest))).result
         == Fatal("Checked out file name doesn't match " + path + " " + FilePath(ctx.fullModulePath, file))
  {
    NextLineOf(head, Then(path, rest));
    NextLineOf(path, rest);
  }

  /** Read the mode, size and body, as RevModeBody. */
  method ReadRevModeBody(t: Transport, ctx: CheckoutContext, file: string, revision: string, content: CvsFile)
    returns (r: Outcome<(CvsFile, string)>)
    requires t.Valid()
    modifies t, t.data
    ensures Reading(t)
    ensures var s := RevModeBody(ctx, file, revision, content, old(t.Input()));
      r == s.result && (!r.Fatal? ==> t.Input() == s.rest)
  {
    var ms := ReadModeAndSize(t);
    if !ms.Ok? {
      return Propagate(ms);
    }
    var mode, size, sizeLine := ms.value.0, ms.value.1, ms.value.2;
    var c := content.(mode := ModeValue(mode), isexec := IsExecutable(mode));
    if size > 0 {
      if size > ctx.memoryLimit {
        return Fatal("Cannot checkout big file " + file + " rev " + revision + " size " + Itoa(size));
      }
      var body := ReadBody(t, size);
      if !body.Ok? {
        return Propagate(body);
      }
      c := c.(ismem := true, file := body.value);
    }
    return Ok((c, sizeLine));
  }

  /** Read a "Created"/"Updated" block, as RevFileBlock. */
  method ReadRevFileBlock(t: Transport, ctx: CheckoutContext, file: string, revision: string, content: CvsFile)
    returns (r: Outcome<(CvsFile, string)>)
    requires t.Valid()
    modifies t, t.data
    ensures Reading(t)
    ensures var s := RevFileBlock(ctx, file, revision, content, old(t.Input()));
      r == s.result && (!r.Fatal? ==> t.Input() == s.rest)
  {
    var path := t.ReadLine();
    if path.None? {
      return Error;
    }
    if !RevPathMatches(ctx, file, path.value) {
      return Fatal("Checked out file name doesn't match " + path.value + " " + FilePath(ctx.fullModulePath, file));
    }
    var entry := t.ReadLine();
    if entry.None? {
      return Error;
    }
    if !VerifyRevision(revision, entry.value) {
      return Fatal("Checked out file revision doesn't match the one requested " + revision + " " + entry.value);
    }
    r := ReadRevModeBody(t, ctx, file, revision, content);
  }

  /** Handle a "Created"/"Updated" line, as RevUpdated. */
  method ReadRevUpdated(t: Transport, ctx: CheckoutContext, file: string, revision: string, st: RevState, line: string)
    returns (r: Outcome<(RevState, string)>)
    requires t.Valid()
    modifies t, t.data
    ensures Reading(t)
    ensures var s := RevUpdated(ctx, file, revision, st, line, old(t.Input()));
      r == s.result && (!r.Fatal? ==> t.Input() == s.rest)
  {
    if "Created" <= line || "Updated" <= line {
      var b := ReadRevFileBlock(t, ctx, file, revision, st.content);
      if !b.Ok? {
        return Propagate(b);
      }
      return Ok((RevState(b.value.0, true), b.value.1));
    }
    return Ok((st, line));
  }

  /** Handle a "Removed"/"Remove-entry" line, as RevRemoved. */
  method ReadRevRemoved(t: Transport, ctx: CheckoutContext, file: string, st: RevState, line: string)
    returns (r: Outcome<(RevState, string)>)
    requires t.Valid()
    modifies t, t.data
    ensures Reading(t)
    ensures var s := RevRemoved(ctx, file, st, line, old(t.Input()));
      r == s.result && (!r.Fatal? ==> t.Input() == s.rest)
  {
    if "Removed" <= line || "Remove-entry" <= line {
      var path := t.ReadLine();
      if path.None? {
        return Error;
      }
      if !RevPathMatches(ctx, file, path.value) {
        return Fatal("Checked out file name doesn't match " + path.value + " " + FilePath(ctx.fullModulePath, file));
      }
      return Ok((RevState(st.content.(isdead := true), true), path.value));
    }
    return Ok((st, line));
  }

  /** RevStep once its line has been read. */
  lemma RevStepOf(ctx: CheckoutContext, file: string, revision: string, st: RevState, input: string, line: string, after: string)
    requires NextLine(input) == Some((line, after))
    ensures var u := RevUpdated(ctx, file, revision, st, line, after);
      RevStep(ctx, file, revision, st, input) ==
        if !u.result.Ok? then Parsed(Propagate(u.result), u.rest)
        else
          var d := RevRemoved(ctx, file, u.result.value.0, u.result.value.1, u.rest);
          if !d.result.Ok? then Parsed(Propagate(d.result), d.rest)
          else Parsed(Ok((d.result.value.0, d.result.value.1 == "ok" || "error" <= d.result.value.1)), d.rest)
  {
  }

  /** One pass of the loop, as RevStep. */
  method RevRound(t: Transport, ctx: CheckoutContext, file: string, revision: string, st: RevState)
    returns (r: Outcome<(RevState, bool)>)
    requires t.Valid()
    modifies t, t.data
    ensures Reading(t)
    ensures var s := RevStep(ctx, file, revision, st, old(t.Input()));
      r == s.result && (!r.Fatal? ==> t.Input() == s.rest)
  {
    ghost var input := t.Input();
    var line := t.ReadLine();
    if line.None? {
      return Error;
    }
    ghost var afterLine := t.Input();
    RevStepOf(ctx, file, revision, st, input, line.value, afterLine);
    ghost var us := RevUpdated(ctx, file, revision, st, line.value, afterLine);
    var u := ReadRevUpdated(t, ctx, file, revision, st, line.value);
    assert u == us.result;
    if !u.Ok? {
      return Propagate(u);
    }
    ghost var ds := RevRemoved(ctx, file, u.value.0, u.value.1, us.rest);
    var d := ReadRevRemoved(t, ctx, file, u.value.0, u.value.1);
    assert d == ds.result;
    if !d.Ok? {
      return Propagate(d);
    }
    var cur := d.value.1;
    return Ok((d.value.0, cur == "ok" || "error" <= cur));
  }

  /**
   * cvs_checkout_rev: send the request, then read the reply as
   * CheckoutRevReply describes it; Ok(content) is rc 0, Error is -1.
   */
  method CheckoutRev(t: Transport, ctx: CheckoutContext, file: string, revision: string, content: CvsFile)
    returns (r: Outcome<CvsFile>)
    requires t.Valid()
    modifies t, t.data
    ensures t.Valid() && t.data == old(t.data)
    ensures t.Output() == old(t.Output()) + CheckoutRevRequest(ctx, file, revision) && t.wrBuf == []
    ensures var s := CheckoutRevReply(ctx, file, revision, content, old(t.Input()));
      r == s.result && (!r.Fatal? ==> t.Input() == s.rest)
  {
    ghost var input := t.Input();
    t.Write(true, CheckoutRevRequest(ctx, file, revision));
    assert t.Input() == input;
    ghost var out := t.Output();
    var st := RevStart(content, file, revision);
    while true
      invariant t.Valid() && t.data == old(t.data) && t.Output() == out && t.wrBuf == []
      invariant RevLoop(ctx, file, revision, st, t.Input()) == CheckoutRevReply(ctx, file, revision, content, input)
      decreases |t.Input()|
    {
      var s := RevRound(t, ctx, file, revision, st);
      if !s.Ok? {
        return Propagate(s);
      }
      st := s.value.0;
      if s.value.1 {
        return if st.found then Ok(st.content) else Error;
      }
    }
  }

  // ---------------------------------------------------------------------
  // cvs_checkout_branch

  /**
   * The path of a checked-out file relative to the module: what follows
   * the full module path, or else what follows the module name completed
   * with '/'; None when the line starts with neither.
   */
  function ModuleRelative(ctx: CheckoutContext, line: string): (r: Option<string>)
    ensures r.Some? ==> ctx.fullModulePath + r.value == line || CompleteLine(ctx.moduleName, '/') + r.value == line
    ensures r.None? <==> !(ctx.fullModulePath <= line) && !(CompleteLine(ctx.moduleName, '/') <= line)
  {
    var modPath := CompleteLine(ctx.moduleName, '/');
    if ctx.fullModulePath <= line then
      assert line == ctx.fullModulePath + line[|ctx.fullModulePath|..];
      Some(line[|ctx.fullModulePath|..])
    else if modPath <= line then
      assert line == modPath + line[|modPath|..];
      Some(line[|modPath|..])
    else None
  }

  /**
   * The file being filled in, the pending Mod-time (0 when there is none),
   * and the files handed to the callback so far.
   */
  datatype BranchState = BranchState(file: CvsFile, modTime: int, files: seq<CvsFile>)

  /** A file the callback may receive: kept in memory, alive, with a body within the limit. */
  predicate Delivered(ctx: CheckoutContext, f: CvsFile)
  {
    f.ismem && !f.isdead && |f.file| <= ctx.memoryLimit
  }

  /** Every file handed to the callback is one it may receive. */
  predicate AllDelivered(ctx: CheckoutContext, files: seq<CvsFile>)
  {
    forall i :: 0 <= i < |files| ==> Delivered(ctx, files[i])
  }

  /** The path line of a block: the file gets the module-relative path; a path outside the module is fatal. */
  function BranchPath(ctx: CheckoutContext, f: CvsFile, input: string): (r: Parsed<(CvsFile, string)>)
    ensures r.result.Ok? ==> |r.rest| < |input|
    ensures r.result.Error? ==> r.rest == []
    ensures r.result.Ok? ==> r.result.value.0 == f.(path := r.result.value.0.path)
  {
    match NextLine(input)
    case None => Parsed(Error, [])
    case Some((line, rest)) =>
      match ModuleRelative(ctx, line)
      case None =>
        Parsed(Fatal("Checked out file name doesn't start with module path " + line + " " + ctx.fullModulePath), [])
      case Some(p) => Parsed(Ok((f.(path := p), line)), rest)
  }

  /**
   * The body of a block of cvs_checkout_branch: a non-empty body within
   * the memory limit becomes the contents of a live file in memory, one
   * beyond it is fatal; an empty body leaves the file in memory as it is.
   * The fatal message names f.file, which the reset has emptied.
   */
  function BranchBody(ctx: CheckoutContext, f: CvsFile, size: nat, input: string): (r: Parsed<CvsFile>)
    ensures !r.result.Error?
    ensures r.result.Ok? ==> |r.rest| <= |input|
    ensures r.result.Ok? && size > 0 ==> r.result.value == f.(ismem := true, isdead := false, file := r.result.value.file)
    ensures r.result.Ok? && size > 0 ==> |r.result.value.file| == size <= ctx.memoryLimit
    ensures r.result.Ok? && size == 0 ==> r.result.value == f.(ismem := true)
  {
    if size == 0 then Parsed(Ok(f.(ismem := true)), input)
    else if size <= ctx.memoryLimit then
      var b := Body(size, input);
      if b.result.Ok? then Parsed(Ok(f.(ismem := true, isdead := false, file := b.result.value)), b.rest)
      else Parsed(Propagate(b.result), [])
    else
      Parsed(Fatal("Cannot checkout big file " + f.file + " rev " + f.revision + " size " + Itoa(size)), [])
  }

  /** The mode, size and body lines of a block of cvs_checkout_branch, with the size line read last. */
  function BranchModeBody(ctx: CheckoutContext, f: CvsFile, input: string): (r: Parsed<(CvsFile, string)>)
    ensures r.result.Ok? ==> |r.rest| < |input|
    ensures r.result.Error? ==> r.rest == []
    ensures r.result.Ok? && |f.file| <= ctx.memoryLimit && !f.isdead ==> Delivered(ctx, r.result.value.0)
    ensures r.result.Ok? ==> r.result.value.0.path == f.path && r.result.value.0.revision == f.revision
  {
    var ms := ModeAndSize(input);
    if !ms.result.Ok? then Parsed(Propagate(ms.result), ms.rest)
    else
      var mode := ms.result.value.0;
      var f' := f.(mode := ModeValue(mode), isexec := IsExecutable(mode));
      var b := BranchBody(ctx, f', ms.result.value.1, ms.rest);
      if b.result.Ok? then Parsed(Ok((b.result.value, ms.result.value.2)), b.rest)
      else Parsed(Propagate(b.result), [])
  }

  /**
   * The lines after "Created"/"Updated" in cvs_checkout_branch: the path,
   * the Entry line, whose revision field becomes the file's revision (an
   * Entry line parse_entry rejects is fatal), then mode, size and body.
   */
  function BranchFileBlock(ctx: CheckoutContext, f: CvsFile, input: string): (r: Parsed<(CvsFile, string)>)
    ensures r.result.Ok? ==> |r.rest| < |input|
    ensures r.result.Error? ==> r.rest == []
    ensures r.result.Ok? && |f.file| <= ctx.memoryLimit && !f.isdead ==> Delivered(ctx, r.result.value.0)
  {
    var p := BranchPath(ctx, f, input);
    if !p.result.Ok? then Parsed(Propagate(p.result), p.rest)
    else
      match NextLine(p.rest)
      case None => Parsed(Error, [])
      case Some((entry, r2)) =>
        match ParseEntry(entry)
        case None => Parsed(Fatal("Cannot parse checked out file entry line " + entry), [])
        case Some(rev) => BranchModeBody(ctx, p.result.value.0.(revision := rev), r2)
  }

  /**
   * A "Created"/"Updated" line: reset the file, give it the pending
   * Mod-time (which is then used up), read the block and hand the file to
   * the callback. Other lines pass through.
   */
  function BranchUpdated(ctx: CheckoutContext, st: BranchState, line: string, rest: string)
    : (r: (BranchState, Parsed<string>))
    ensures r.1.result.Ok? ==> |r.1.rest| <= |rest|
    ensures r.1.result.Error? ==> r.1.rest == []
    ensures DeliversAtMostOne(ctx, st.files, r.0.files)
  {
    if "Created" <= line || "Updated" <= line then
      var f := if st.modTime != 0 then Reset(st.file).(timestamp := st.modTime) else Reset(st.file);
      var b := BranchFileBlock(ctx, f, rest);
      if b.result.Ok? then
        (BranchState(b.result.value.0, 0, st.files + [b.result.value.0]), Parsed(Ok(b.result.value.1), b.rest))
      else
        (BranchState(f, 0, st.files), Parsed(Propagate(b.result), b.rest))
    else
      (st, Parsed(Ok(line), rest))
  }

  /** A "Removed"/"Remove-entry" line: reset the file, take its path and mark it dead; no callback. */
  function BranchRemoved(ctx: CheckoutContext, st: BranchState, line: string, rest: string)
    : (r: (BranchState, Parsed<string>))
    ensures r.1.result.Ok? ==> |r.1.rest| <= |rest|
    ensures r.1.result.Error? ==> r.1.rest == []
    ensures r.0.files == st.files
  {
    if "Removed" <= line || "Remove-entry" <= line then
      var f := Reset(st.file);
      var p := BranchPath(ctx, f, rest);
      if p.result.Ok? then
        (st.(file := p.result.value.0.(isdead := true)), Parsed(Ok(p.result.value.1), p.rest))
      else
        (st.(file := f), Parsed(Propagate(p.result), p.rest))
    else
      (st, Parsed(Ok(line), rest))
  }

  /** The files handed over grow by at most one file the callback may receive. */
  predicate DeliversAtMostOne(ctx: CheckoutContext, before: seq<CvsFile>, after: seq<CvsFile>)
  {
    after == before || (|after| == |before| + 1 && after[..|before|] == before && Delivered(ctx, after[|before|]))
  }

  /** Handing over at most one deliverable file keeps every handed-over file deliverable. */
  lemma DeliversAtMostOneKeeps(ctx: CheckoutContext, before: seq<CvsFile>, after: seq<CvsFile>)
    requires DeliversAtMostOne(ctx, before, after)
    ensures before <= after
    ensures AllDelivered(ctx, before) ==> AllDelivered(ctx, after)
  {
    if after != before && AllDelivered(ctx, before) {
      forall i | 0 <= i < |after|
        ensures Delivered(ctx, after[i])
      {
        if i < |before| {
          assert after[i] == after[..|before|][i];
        }
      }
    }
  }

  /** The handling of one line of the reply after its Mod-time has been noted. */
  function BranchLine(ctx: CheckoutContext, st: BranchState, line: string, rest: string)
    : (r: (BranchState, Parsed<bool>))
    ensures r.1.result.Ok? ==> |r.1.rest| <= |rest|
    ensures DeliversAtMostOne(ctx, st.files, r.0.files)
  {
    var u := BranchUpdated(ctx, st, line, rest);
    if !u.1.result.Ok? then (u.0, Parsed(Propagate(u.1.result), u.1.rest))
    else
      var d := BranchRemoved(ctx, u.0, u.1.result.value, u.1.rest);
      if !d.1.result.Ok? then (d.0, Parsed(Propagate(d.1.result), d.1.rest))
      else
        var cur := d.1.result.value;
        if cur == "ok" then (d.0, Parsed(Ok(true), d.1.rest))
        else if "error" <= cur then (d.0, Parsed(Error, d.1.rest))
        else (d.0, Parsed(Ok(false), d.1.rest))
  }

  /**
   * One pass of the cvs_checkout_branch loop: read a line, note a
   * Mod-time, handle a file block and a removal; "ok" ends the loop with
   * rc 0 (true), an "error" line with rc -1 (Error).
   */
  function BranchStep(ctx: CheckoutContext, modTimeOf: string -> int, st: BranchState, input: string)
    : (r: (BranchState, Parsed<bool>))
    ensures r.1.result.Ok? ==> |r.1.rest| < |input|
    ensures DeliversAtMostOne(ctx, st.files, r.0.files)
  {
    match NextLine(input)
    case None => (st, Parsed(Error, []))
    case Some((line, rest)) =>
      var st0 := if "Mod-time " <= line then st.(modTime := modTimeOf(line[9..])) else st;
      BranchLine(ctx, st0, line, rest)
  }

  /** What cvs_checkout_branch ends with: the files handed to the callback, rc, and the input left. */
  datatype BranchReply = BranchReply(files: seq<CvsFile>, result: Outcome<()>, rest: string)

  /** The loop of cvs_checkout_branch. */
  function BranchLoop(ctx: CheckoutContext, modTimeOf: string -> int, st: BranchState, input: string)
    : (r: BranchReply)
    ensures AllDelivered(ctx, st.files) ==> AllDelivered(ctx, r.files)
    ensures st.files <= r.files
    decreases |input|
  {
    var s := BranchStep(ctx, modTimeOf, st, input);
    DeliversAtMostOneKeeps(ctx, st.files, s.0.files);
    if s.1.result == Ok(false) then BranchLoop(ctx, modTimeOf, s.0, s.1.rest)
    else BranchReply(s.0.files, if s.1.result.Ok? then Ok(()) else Propagate(s.1.result), s.1.rest)
  }

  /**
   * The reply to cvs_checkout_branch. Every file handed to the callback
   * is in memory, alive, and has a body within the memory limit; files
   * handed over before a failure stay handed over.
   */
  function CheckoutBranchReply(ctx: CheckoutContext, modTimeOf: string -> int, input: string): (r: BranchReply)
    ensures AllDelivered(ctx, r.files)
  {
    BranchLoop(ctx, modTimeOf, BranchState(EmptyFile, 0, []), input)
  }

  /** cvs_checkout_branch's request: the arguments are buffered, the module argument and the command flush. */
  method SendCheckoutBranch(t: Transport, ctx: CheckoutContext, branch: Option<string>, date: Option<string>)
    modifies t
    ensures t.Output() == old(t.Output()) + CheckoutBranchRequest(ctx, branch, date)
    ensures t.wrBuf == []
    ensures t.data == old(t.data) && t.buf == old(t.buf) && t.len == old(t.len) && t.incoming == old(t.incoming)
  {
    ghost var out0 := t.Output();
    assert out0 + ArgumentLines([]) == out0;
    if date.Some? {
      SendArguments(t, out0, [], DateArguments(date));
    }
    assert [] + DateArguments(date) == DateArguments(date);
    ghost var args := DateArguments(date);
    SendArguments(t, out0, args, ["-N", "-P", "-kk"]);
    args := args + ["-N", "-P", "-kk"];
    if branch.Some? && branch.value != "HEAD" {
      SendArguments(t, out0, args, BranchArguments(branch));
    }
    args := Extend(args, BranchArguments(branch));
    var last := ArgumentLines(["--", ctx.moduleName]) + CoLines(ctx.repoPath);
    t.Write(true, last);
    ArgumentLinesAppend(args, ["--", ctx.moduleName]);
    Associative(out0, ArgumentLines(args), last);
    Associative(ArgumentLines(args), ArgumentLines(["--", ctx.moduleName]), CoLines(ctx.repoPath));
  }

  /** Read a path line, as BranchPath. */
  method ReadBranchPath(t: Transport, ctx: CheckoutContext, f: CvsFile) returns (r: Outcome<(CvsFile, string)>)
    requires t.Valid()
    modifies t, t.data
    ensures Reading(t)
    ensures var s := BranchPath(ctx, f, old(t.Input())); r == s.result && (!r.Fatal? ==> t.Input() == s.rest)
  {
    var line := t.ReadLine();
    if line.None? {
      return Error;
    }
    var p := ModuleRelative(ctx, line.value);
    if p.None? {
      return Fatal("Checked out file name doesn't start with module path " + line.value + " " + ctx.fullModulePath);
    }
    return Ok((f.(path := p.value), line.value));
  }

  /** Read the mode, size and body, as BranchModeBody. */
  method ReadBranchModeBody(t: Transport, ctx: CheckoutContext, f: CvsFile) returns (r: Outcome<(CvsFile, string)>)
    requires t.Valid()
    modifies t, t.data
    ensures Reading(t)
    ensures var s := BranchModeBody(ctx, f, old(t.Input())); r == s.result && (!r.Fatal? ==> t.Input() == s.rest)
  {
    var ms := ReadModeAndSize(t);
    if !ms.Ok? {
      return Propagate(ms);
    }
    var mode, size, sizeLine := ms.value.0, ms.value.1, ms.value.2;
    var g := f.(mode := ModeValue(mode), isexec := IsExecutable(mode));
    if size > 0 {
      if size > ctx.memoryLimit {
        return Fatal("Cannot checkout big file " + g.file + " rev " + g.revision + " size " + Itoa(size));
      }
      var body := ReadBody(t, size);
      if !body.Ok? {
        return Propagate(body);
      }
      g := g.(ismem := true, isdead := false, file := body.value);
    } else {
      g := g.(ismem := true);
    }
    return Ok((g, sizeLine));
  }

  /** Read a file block, as BranchFileBlock. */
  method ReadBranchFileBlock(t: Transport, ctx: CheckoutContext, f: CvsFile) returns (r: Outcome<(CvsFile, string)>)
    requires t.Valid()
    modifies t, t.data
    ensures Reading(t)
    ensures var s := BranchFileBlock(ctx, f, old(t.Input())); r == s.result && (!r.Fatal? ==> t.Input() == s.rest)
  {
    var p := ReadBranchPath(t, ctx, f);
    if !p.Ok? {
      return Propagate(p);
    }
    var entry := t.ReadLine();
    if entry.None? {
      return Error;
    }
    var rev := ParseEntry(entry.value);
    if rev.None? {
      return Fatal("Cannot parse checked out file entry line " + entry.value);
    }
    r := ReadBranchModeBody(t, ctx, p.value.0.(revision := rev.value));
  }

  /** Handle a "Created"/"Updated" line, as BranchUpdated. */
  method ReadBranchUpdated(t: Transport, ctx: CheckoutContext, st: BranchState, line: string)
    returns (st': BranchState, r: Outcome<string>)
    requires t.Valid()
    modifies t, t.data
    ensures Reading(t)
    ensures var s := BranchUpdated(ctx, st, line, old(t.Input()));
      st' == s.0 && r == s.1.result && (!r.Fatal? ==> t.Input() == s.1.rest)
  {
    if "Created" <= line || "Updated" <= line {
      var f := Reset(st.file);
      if st.modTime != 0 {
        f := f.(timestamp := st.modTime);
      }
      var b := ReadBranchFileBlock(t, ctx, f);
      if !b.Ok? {
        return BranchState(f, 0, st.files), Propagate(b);
      }
      return BranchState(b.value.0, 0, st.files + [b.value.0]), Ok(b.value.1);
    }
    return st, Ok(line);
  }

  /** Handle a "Removed"/"Remove-entry" line, as BranchRemoved. */
  method ReadBranchRemoved(t: Transport, ctx: CheckoutContext, st: BranchState, line: string)
    returns (st': BranchState, r: Outcome<string>)
    requires t.Valid()
    modifies t, t.data
    ensures Reading(t)
    ensures var s := BranchRemoved(ctx, st, line, old(t.Input()));
      st' == s.0 && r == s.1.result && (!r.Fatal? ==> t.Input() == s.1.rest)
  {
    if "Removed" <= line || "Remove-entry" <= line {
      var f := Reset(st.file);
      var p := ReadBranchPath(t, ctx, f);
      if !p.Ok? {
        return st.(file := f), Propagate(p);
      }
      return st.(file := p.value.0.(isdead := true)), Ok(p.value.1);
    }
    return st, Ok(line);
  }

  /** Handle one line after its Mod-time has been noted, as BranchLine. */
  method ReadBranchLine(t: Transport, ctx: CheckoutContext, st: BranchState, line: string)
    returns (st': BranchState, r: Outcome<bool>)
    requires t.Valid()
    modifies t, t.data
    ensures Reading(t)
    ensures var s := BranchLine(ctx, st, line, old(t.Input()));
      st' == s.0 && r == s.1.result && (!r.Fatal? ==> t.Input() == s.1.rest)
  {
    var cur;
    st', cur := ReadBranchUpdated(t, ctx, st, line);
    if !cur.Ok? {
      return st', Propagate(cur);
    }
    st', cur := ReadBranchRemoved(t, ctx, st', cur.value);
    if !cur.Ok? {
      return st', Propagate(cur);
    }
    if cur.value == "ok" {
      return st', Ok(true);
    }
    if "error" <= cur.value {
      return st', Error;
    }
    return st', Ok(false);
  }

  /** One pass of the loop, as BranchStep. */
  method BranchRound(t: Transport, ctx: CheckoutContext, modTimeOf: string -> int, st: BranchState)
    returns (st': BranchState, r: Outcome<bool>)
    requires t.Valid()
    modifies t, t.data
    ensures Reading(t)
    ensures var s := BranchStep(ctx, modTimeOf, st, old(t.Input()));
      st' == s.0 && r == s.1.result && (!r.Fatal? ==> t.Input() == s.1.rest)
  {
    var line := t.ReadLine();
    if line.None? {
      return st, Error;
    }
    st' := st;
    if "Mod-time " <= line.value {
      st' := st'.(modTime := modTimeOf(line.value[9..]));
    }
    st', r := ReadBranchLine(t, ctx, st', line.value);
  }

  /**
   * cvs_checkout_branch: send the request, then read the reply as
   * CheckoutBranchReply describes it; `files` are the files handed to the
   * callback, in order. `date` is the rendered date (None for 0) and
   * `modTimeOf` stands for rfc2822_date_to_unixtime.
   */
  method CheckoutBranch(t: Transport, ctx: CheckoutContext, branch: Option<string>, date: Option<string>,
                        modTimeOf: string -> int)
    returns (files: seq<CvsFile>, r: Outcome<()>)
    requires t.Valid()
    modifies t, t.data
    ensures t.Valid() && t.data == old(t.data)
    ensures t.Output() == old(t.Output()) + CheckoutBranchRequest(ctx, branch, date) && t.wrBuf == []
    ensures var s := CheckoutBranchReply(ctx, modTimeOf, old(t.Input()));
      files == s.files && r == s.result && (!r.Fatal? ==> t.Input() == s.rest)
  {
    ghost var input := t.Input();
    SendCheckoutBranch(t, ctx, branch, date);
    assert t.Input() == input;
    ghost var out := t.Output();
    var st := BranchState(EmptyFile, 0, []);
    while true
      invariant t.Valid() && t.data == old(t.data) && t.Output() == out && t.wrBuf == []
      invariant BranchLoop(ctx, modTimeOf, st, t.Input()) == CheckoutBranchReply(ctx, modTimeOf, input)
      decreases |t.Input()|
    {
      var s;
      st, s := BranchRound(t, ctx, modTimeOf, st);
      if s != Ok(false) {
        return st.files, if s.Ok? then Ok(()) else Propagate(s);
      }
    }
  }

  /**
   * A file block for a path under the full module path, with a body within
   * the memory limit, gives the file its module-relative path, the Entry
   * line's revision, its mode and its body.
   */
  lemma BranchFileBlockOf(ctx: CheckoutContext, f: CvsFile, p: string, name: string, rev: string, fields: string,
                          isExec: bool, body: string, rest: string)
    requires '\n' !in ctx.fullModulePath + p
    requires '/' !in name && '/' !in rev && '\n' !in EntryLine(name, rev, fields)
    requires 0 < |body| <= ctx.memoryLimit && |body| < SizeModulus
    ensures BranchFileBlock(ctx, f, Then(ctx.fullModulePath + p, Then(EntryLine(name, rev, fields),
              Then(ModeString(isExec), Then(Itoa(|body|), body + rest)))))
         == Parsed(Ok((f.(path := p, revision := rev, mode := if isExec then 509 else 436, isexec := isExec,
                          ismem := true, isdead := false, file := body), Itoa(|body|))), rest)
  {
    var path := ctx.fullModulePath + p;
    var entry := EntryLine(name, rev, fields);
    var modeText := Then(ModeString(isExec), Then(Itoa(|body|), body + rest));
    assert ModuleRelative(ctx, path) == Some(p) by {
      assert path[|ctx.fullModulePath|..] == p;
    }
    NextLineOf(path, Then(entry, modeText));
    NextLineOf(entry, modeText);
    ParseEntryLine(name, rev, fields);
    ModeStringRoundTrip(isExec);
    ModeStringLine(isExec);
    ModeAndSizeOf(ModeString(isExec), |body|, body + rest);
    if isExec { ExecModeString(); } else { PlainModeString(); }
    assert (body + rest)[..|body|] == body && (body + rest)[|body|..] == rest;
  }

  /** A Mod-time line records its date for the next file and is one pass of the loop. */
  lemma BranchStepModTime(ctx: CheckoutContext, modTimeOf: string -> int, st: BranchState, date: string, rest: string)
    requires '\n' !in date
    ensures BranchStep(ctx, modTimeOf, st, Then("Mod-time " + date, rest))
         == (st.(modTime := modTimeOf(date)), Parsed(Ok(false), rest))
  {
    var line := "Mod-time " + date;
    NextLineOf(line, rest);
    assert line[9..] == date;
    assert line[0] == 'M';
    assert !("Created" <= line || "Updated" <= line || "Removed" <= line || "Remove-entry" <= line || "error" <= line) by {
      assert "Created"[0] == 'C' && "Updated"[0] == 'U' && "Removed"[0] == 'R' && "Remove-entry"[0] == 'R';
      assert "error"[0] == 'e';
    }
    assert line != "ok" by {
      assert "ok"[0] == 'o';
    }
  }

  /** A file block is one pass of the loop that hands the file to the callback. */
  lemma BranchStepBlock(ctx: CheckoutContext, modTimeOf: string -> int, st: BranchState,
                        head: string, block: string, f: CvsFile, cur: string, rest: string)
    requires ("Created" <= head || "Updated" <= head) && '\n' !in head
    requires var f0 := if st.modTime != 0 then Reset(st.file).(timestamp := st.modTime) else Reset(st.file);
      BranchFileBlock(ctx, f0, block) == Parsed(Ok((f, cur)), rest)
    requires cur != [] && IsDigit(cur[0])
    ensures BranchStep(ctx, modTimeOf, st, Then(head, block))
         == (BranchState(f, 0, st.files + [f]), Parsed(Ok(false), rest))
  {
    var st' := BranchState(f, 0, st.files + [f]);
    assert BranchLine(ctx, st, head, block) == (st', Parsed(Ok(false), rest)) by {
      assert BranchUpdated(ctx, st, head, block) == (st', Parsed(Ok(cur), rest));
      assert !("Removed" <= cur || "Remove-entry" <= cur) by {
        assert "Removed"[0] == 'R' && "Remove-entry"[0] == 'R';
      }
      assert BranchRemoved(ctx, st', cur, rest) == (st', Parsed(Ok(cur), rest));
      assert !("error" <= cur) && cur != "ok" by {
        assert "error"[0] == 'e' && "ok"[0] == 'o';
      }
    }
    assert BranchStep(ctx, modTimeOf, st, Then(head, block)) == BranchLine(ctx, st, head, block) by {
      NextLineOf(head, block);
      assert !("Mod-time " <= head) by {
        assert "Mod-time "[0] == 'M' && "Created"[0] == 'C' && "Updated"[0] == 'U';
      }
    }
  }

  /** An "ok" line ends the loop with rc 0. */
  lemma BranchStepOk(ctx: CheckoutContext, modTimeOf: string -> int, st: BranchState, after: string)
    ensures BranchStep(ctx, modTimeOf, st, Then("ok", after)) == (st, Parsed(Ok(true), after))
  {
    NextLineOf("ok", after);
  }

  /**
   * A reply with a Mod-time line, one "Created"/"Updated" block for a file
   * under the full module path, then "ok", hands exactly that file to the
   * callback: its module-relative path, the Entry line's revision, its
   * mode and execute flag, the Mod-time as timestamp, and its body.
   */
  lemma CheckoutBranchOneFile(ctx: CheckoutContext, modTimeOf: string -> int, date: string, head: string,
                              p: string, name: string, rev: string, fields: string,
                              isExec: bool, body: string, after: string)
    requires '\n' !in date && modTimeOf(date) != 0
    requires ("Created" <= head || "Updated" <= head) && '\n' !in head
    requires '\n' !in ctx.fullModulePath + p
    requires '/' !in name && '/' !in rev && '\n' !in EntryLine(name, rev, fields)
    requires 0 < |body| <= ctx.memoryLimit && |body| < SizeModulus
    ensures CheckoutBranchReply(ctx, modTimeOf,
              Then("Mod-time " + date, Then(head, Then(ctx.fullModulePath + p, Then(EntryLine(name, rev, fields),
              Then(ModeString(isExec), Then(Itoa(|body|), body + Then("ok", after))))))))
         == BranchReply([CvsFile(p, rev, isExec, false, true, if isExec then 509 else 436, modTimeOf(date),
                                 body, false, false)], Ok(()), after)
  {
    var rest := Then("ok", after);
    var block := Then(ctx.fullModulePath + p, Then(EntryLine(name, rev, fields),
                 Then(ModeString(isExec), Then(Itoa(|body|), body + rest))));
    var st0 := BranchState(EmptyFile, 0, []);
    var st1 := st0.(modTime := modTimeOf(date));
    BranchStepModTime(ctx, modTimeOf, st0, date, Then(head, block));
    var f0 := Reset(EmptyFile).(timestamp := modTimeOf(date));
    var f := CvsFile(p, rev, isExec, false, true, if isExec then 509 else 436, modTimeOf(date), body, false, false);
    assert BranchFileBlock(ctx, f0, block) == Parsed(Ok((f, Itoa(|body|))), rest) by {
      BranchFileBlockOf(ctx, f0, p, name, rev, fields, isExec, body, rest);
    }
    DecimalLine(|body|);
    BranchStepBlock(ctx, modTimeOf, st1, head, block, f, Itoa(|body|), rest);
    var st2 := BranchState(f, 0, [f]);
    assert st1.files + [f] == [f];
    BranchStepOk(ctx, modTimeOf, st2, after);
    assert BranchLoop(ctx, modTimeOf, st2, rest) == BranchReply([f], Ok(()), after);
    assert BranchLoop(ctx, modTimeOf, st1, Then(head, block)) == BranchReply([f], Ok(()), after);
  }
}
