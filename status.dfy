/**
 * Reading the reply to a "status" request (parse_update_cvs_status). The
 * server prints, per file, a block of "M " lines: a separator line of
 * '=' signs, "File: <name>\tStatus: <status>", "Working revision:" and
 * "Repository revision:" lines; "E cvs status: Examining <dir>" lines
 * name the directory of the files without a repository file. Each block
 * about a requested file marks that file handled and may set the result
 * to 1; the reply ends with "ok" or "error", and a requested file
 * without a block is fatal.
 */
module Status {
  import opened Wrappers
  import opened Text
  import opened Revision
  import opened Stream
  import opened Files

  /** NEED_START_STATUS .. NEED_REPOSITORY_REVISION: what the parser waits for. */
  datatype Phase = NeedStartStatus | NeedFileStatus | NeedWorkingRevision | NeedRepositoryRevision

  /**
   * The parser's state between lines: its phase, the directory last
   * examined, the file's base name, status text and working revision,
   * and rc so far (0, or 1 once a file's status is not acceptable).
   */
  datatype StatusState = StatusState(phase: Phase, currentDir: string, basename: string,
                                     status: string, localRev: string, rc: int)

  const Initial := StatusState(NeedStartStatus, [], [], [], [], 0)

  /** `n` copies of `c`. */
  function Repeat(c: char, n: nat): (r: string)
    ensures |r| == n && forall k :: 0 <= k < n ==> r[k] == c
  {
    if n == 0 then [] else [c] + Repeat(c, n - 1)
  }

  /** CVS_FILE_STATUS_START: 67 '=' signs. */
  const FileStatusStart: string := Repeat('=', 67)

  /**
   * The statuses a requested file may have without the result becoming 1:
   * up to date, added and new, or added again after removal with the
   * repository revision the file records.
   */
  predicate Acceptable(f: CvsFile, st: CvsStatus, remoteRev: string)
  {
    st == UpToDate
    || (st == LocallyAdded && !f.isdead && f.isnew)
    || (st == LocallyAdded && f.isdead && f.revision == remoteRev)
  }

  /** The switch on the parsed status: whether this block sets rc to 1. */
  function Complains(f: CvsFile, st: CvsStatus, remoteRev: string): (c: bool)
    ensures c <==> !Acceptable(f, st, remoteRev)
  {
    match st
    case UpToDate => false
    case LocallyAdded =>
      if f.isdead then f.revision != remoteRev
      else !f.isnew
    case _ => true
  }

  /** Cut a string at its first tab, if it has one. */
  function CutAtTab(s: string): (r: string)
    ensures r <= s && '\t' !in r
    ensures '\t' !in s ==> r == s
  {
    match IndexOf(s, '\t')
    case None => s
    case Some(k) => s[..k]
  }

  /**
   * The path part of a "Repository revision:" value, from the tab on:
   * trimmed, without ",v", without its first "/Attic", and relative to the
   * full module path, which it must start with.
   */
  function RepositoryPath(fullModulePath: string, p: string): (r: Outcome<string>)
    ensures !r.Error?
    ensures r.Ok? ==> fullModulePath + r.value == WithoutAttic(WithoutRcsSuffix(Trim(p)))
    ensures r.Fatal? <==> !(fullModulePath <= WithoutAttic(WithoutRcsSuffix(Trim(p))))
  {
    var q := WithoutAttic(WithoutRcsSuffix(Trim(p)));
    if fullModulePath <= q then
      assert q == fullModulePath + q[|fullModulePath|..];
      Ok(q[|fullModulePath|..])
    else Fatal("File status path does not start with repository path")
  }

  /** An RCS file name without its ",v", if it has one. */
  function WithoutRcsSuffix(p: string): (r: string)
    ensures r == p || r + ",v" == p
  {
    if EndsWith(p, ",v") then
      assert p == p[..|p| - 2] + ",v";
      p[..|p| - 2]
    else p
  }

  lemma WithoutRcsSuffixOf(p: string)
    ensures WithoutRcsSuffix(p + ",v") == p
  {
    var x := p + ",v";
    assert x[|x| - 2..] == ",v";
    assert x[..|x| - 2] == p;
  }

  /** A path with its first "/Attic" removed, if it has a "/Attic/". */
  function WithoutAttic(p: string): (r: string)
    ensures Find(p, "/Attic/").None? ==> r == p
  {
    match Find(p, "/Attic/")
    case Some(q) => p[..q] + p[q + 6..]
    case None => p
  }

  /**
   * The path and the repository revision a "Repository revision:" line
   * names, from its trimmed value: with a tab, the revision before it and
   * the repository path after it; without one (a file not yet in the
   * repository), the whole value and the base name in the examined
   * directory, or no path when no directory was examined.
   */
  function RecordPath(fullModulePath: string, st: StatusState, value: string): (r: Outcome<(string, string)>)
    ensures !r.Error?
    ensures r.Ok? ==> '\t' !in r.value.1 || '\t' !in value
    ensures r.Ok? ==> r.value.1 <= value
    ensures '\t' !in value ==> r == Ok((ExaminedPath(st.currentDir, st.basename), value))
  {
    match IndexOf(value, '\t')
    case Some(k) =>
      var p := RepositoryPath(fullModulePath, value[k..]);
      if p.Fatal? then Fatal(p.reason) else Ok((p.value, value[..k]))
    case None =>
      Ok((ExaminedPath(st.currentDir, st.basename), value))
  }

  /**
   * The path of a file with no repository file: its base name in the
   * directory the last "Examining" line named, the base name alone for
   * ".", and no path when no directory was examined.
   */
  function ExaminedPath(currentDir: string, basename: string): (r: string)
    ensures currentDir == [] ==> r == []
    ensures currentDir == "." ==> r == basename
    ensures currentDir != [] && currentDir != "." ==> r == currentDir + "/" + basename
  {
    if currentDir == [] then []
    else if currentDir == "." then basename
    else currentDir + "/" + basename
  }

  /**
   * The end of a block: the requested file with that path is marked
   * handled and rc becomes 1 unless its status is acceptable; a block
   * about a file that was not requested changes nothing and makes the
   * parser skip the end-of-reply checks for this line (true).
   */
  function Record(st: StatusState, files: seq<CvsFile>, path: string, remoteRev: string)
    : (r: (StatusState, seq<CvsFile>, bool))
    ensures r.0 == st.(phase := NeedStartStatus, rc := r.0.rc)
    ensures FindPath(files, path).None? ==> r.1 == files && r.0.rc == st.rc && r.2
    ensures FindPath(files, path).Some? ==>
      var i := FindPath(files, path).value;
      r.1 == files[i := files[i].(handled := true)] && !r.2 &&
      r.0.rc == (if Acceptable(files[i], ParseStatusState(st.status), remoteRev) then st.rc else 1)
    ensures OnlyMarks(files, r.1)
  {
    match FindPath(files, path)
    case None => (st.(phase := NeedStartStatus), files, true)
    case Some(i) =>
      var rc := if Complains(files[i], ParseStatusState(st.status), remoteRev) then 1 else st.rc;
      MarkOne(files, i);
      (st.(phase := NeedStartStatus, rc := rc), files[i := files[i].(handled := true)], false)
  }

  /** Marking one file handled changes nothing else. */
  lemma MarkOne(files: seq<CvsFile>, i: nat)
    requires i < |files|
    ensures OnlyMarks(files, files[i := files[i].(handled := true)])
  {
  }

  /**
   * A "File:" line: the base name before the tab, trimmed, and the status
   * after "Status: "; a line without a tab or without "Status: " after it
   * is fatal.
   */
  function FileLine(st: StatusState, m: string): (r: Outcome<StatusState>)
    ensures !r.Error?
    ensures r.Ok? ==> r.value == st || r.value.phase == NeedWorkingRevision
    ensures r.Ok? ==> r.value.rc == st.rc
  {
    if "File: " <= m then
      var buf := m[6..];
      match IndexOf(buf, '\t')
      case None => Fatal("Cannot parse CVS status line file " + m)
      case Some(p) => StatusField(st, m, Trim(buf[..p]), buf[p + 1..])
    else Ok(st)
  }

  /** The part of a "File:" line after the tab: "Status: " and the status text. */
  function StatusField(st: StatusState, m: string, name: string, after: string): (r: Outcome<StatusState>)
    ensures !r.Error?
    ensures r.Ok? ==> r.value.phase == NeedWorkingRevision && r.value.rc == st.rc
  {
    if "Status: " <= after then Ok(st.(phase := NeedWorkingRevision, basename := name, status := after[8..]))
    else Fatal("Cannot parse CVS status line status " + m)
  }

  /** A "Working revision:" line: its value up to a tab, which the parser keeps but does not use. */
  function WorkingLine(st: StatusState, m: string): (r: StatusState)
    ensures r == st || (r.phase == NeedRepositoryRevision && r == st.(phase := r.phase, localRev := r.localRev))
  {
    var l := Trim(m);
    if "Working revision:" <= l then st.(phase := NeedRepositoryRevision, localRev := CutAtTab(Trim(l[17..])))
    else st
  }

  /** A "Repository revision:" line ends the block; other lines are passed over. */
  function RepositoryLine(fullModulePath: string, st: StatusState, files: seq<CvsFile>, m: string)
    : (r: (Outcome<(StatusState, bool)>, seq<CvsFile>))
    ensures !r.0.Error?
    ensures r.0.Fatal? ==> r.1 == files
    ensures OnlyMarks(files, r.1)
    ensures r.0.Ok? ==> r.0.value.0.rc == st.rc || r.0.value.0.rc == 1
  {
    var l := Trim(m);
    if "Repository revision:" <= l then
      match RecordPath(fullModulePath, st, Trim(l[20..]))
      case Fatal(reason) => (Fatal(reason), files)
      case Ok((path, remoteRev)) =>
        var r := Record(st, files, path, remoteRev);
        (Ok((r.0, r.2)), r.1)
    else (Ok((st, false)), files)
  }

  /** The text of an "M " line, by phase; the files change only at the end of a block. */
  function MessageLine(fullModulePath: string, st: StatusState, files: seq<CvsFile>, m: string)
    : (r: (Outcome<(StatusState, bool)>, seq<CvsFile>))
    ensures !r.0.Error?
    ensures r.0.Fatal? ==> r.1 == files
    ensures OnlyMarks(files, r.1)
    ensures r.0.Ok? ==> r.0.value.0.rc == st.rc || r.0.value.0.rc == 1
    ensures st.phase != NeedRepositoryRevision ==> r.1 == files
  {
    match st.phase
    case NeedStartStatus =>
      if FileStatusStart <= m then
        (Ok((st.(phase := NeedFileStatus, basename := [], status := [], localRev := []), false)), files)
      else (Ok((st, false)), files)
    case NeedFileStatus =>
      var f := FileLine(st, m);
      (if f.Fatal? then Fatal(f.reason) else Ok((f.value, false)), files)
    case NeedWorkingRevision => (Ok((WorkingLine(st, m), false)), files)
    case NeedRepositoryRevision => RepositoryLine(fullModulePath, st, files, m)
  }

  /** One line of the reply: an "Examining" line sets the directory, an "M " line goes to MessageLine. */
  function StatusLine(fullModulePath: string, st: StatusState, files: seq<CvsFile>, line: string)
    : (r: (Outcome<(StatusState, bool)>, seq<CvsFile>))
    ensures !r.0.Error?
    ensures r.0.Fatal? ==> r.1 == files
    ensures OnlyMarks(files, r.1)
    ensures r.0.Ok? ==> r.0.value.0.rc == st.rc || r.0.value.0.rc == 1
  {
    var st1 := if ExaminingPrefix <= line then st.(currentDir := line[|ExaminingPrefix|..]) else st;
    if "M " <= line then MessageLine(fullModulePath, st1, files, line[2..])
    else (Ok((st1, false)), files)
  }

  /** The stderr line naming the directory the server is about to report on. */
  const ExaminingPrefix: string := "E cvs status: Examining "

  /** The files marked handled and no other change. */
  predicate OnlyMarks(before: seq<CvsFile>, after: seq<CvsFile>)
  {
    |after| == |before| &&
    forall i :: 0 <= i < |before| ==> after[i] == before[i] || after[i] == before[i].(handled := true)
  }

  /** How the check after the loop names a file without a block. */
  const StatusComplaint := "Did not get status for file: "

  /** What one pass of the loop does: go on with a new state, or stop with a result. */
  datatype Step =
    | Continue(st: StatusState, files: seq<CvsFile>, rest: string)
    | Stop(files: seq<CvsFile>, result: Outcome<int>, rest: string)

  /**
   * One pass of the loop: read a line (none: rc -1), handle it, then stop
   * on "ok" with rc, or on a line starting with "error" with -1; the line
   * of a block about an unrequested file goes straight on.
   */
  function StatusStep(fullModulePath: string, st: StatusState, files: seq<CvsFile>, input: string): (r: Step)
    ensures r.Continue? ==> |r.rest| < |input| && OnlyMarks(files, r.files)
    ensures r.Continue? ==> r.st.rc == st.rc || r.st.rc == 1
    ensures r.Stop? ==> OnlyMarks(files, r.files)
    ensures r.Stop? && r.result.Ok? ==> r.result.value == st.rc || r.result.value == 1
  {
    match NextLine(input)
    case None => Stop(files, Error, [])
    case Some((line, rest)) =>
      var (o, files') := StatusLine(fullModulePath, st, files, line);
      if o.Fatal? then Stop(files, Fatal(o.reason), [])
      else
        var (st', skip) := o.value;
        if skip then Continue(st', files', rest)
        else if line == "ok" then Stop(files', Ok(st'.rc), rest)
        else if "error" <= line then Stop(files', Error, rest)
        else Continue(st', files', rest)
  }

  /** What parse_update_cvs_status ends with: the files, its result and the input left. */
  datatype StatusReply = StatusReply(files: seq<CvsFile>, result: Outcome<int>, rest: string)

  /**
   * The loop of parse_update_cvs_status and the check after it. Only the
   * handled flags change; a result that is not fatal means every file
   * got its block; rc is 0 only if it was 0 before and no block set it.
   */
  function StatusLoop(fullModulePath: string, st: StatusState, files: seq<CvsFile>, input: string)
    : (r: StatusReply)
    ensures OnlyMarks(files, r.files)
    ensures !r.result.Fatal? ==> AllHandled(r.files)
    ensures r.result.Ok? ==> r.result.value == st.rc || r.result.value == 1
    decreases |input|
  {
    match StatusStep(fullModulePath, st, files, input)
    case Continue(st', files', rest) => StatusLoop(fullModulePath, st', files', rest)
    case Stop(files', result, rest) =>
      var f := if result.Fatal? then result else Finish(files', StatusComplaint, result);
      StatusReply(files', f, if f.Fatal? then [] else rest)
  }

  /**
   * The reply to a status request about `files`. When it is not fatal
   * every file was reported on, and only the handled flags changed; its
   * result is Ok(0) or Ok(1) (1: some file's status is not acceptable),
   * or Error for an "error" line or a reply cut short.
   */
  function ParseUpdateCvsStatus(fullModulePath: string, files: seq<CvsFile>, input: string): (r: StatusReply)
    ensures OnlyMarks(files, r.files)
    ensures !r.result.Fatal? ==> AllHandled(r.files)
    ensures r.result.Ok? ==> r.result.value == 0 || r.result.value == 1
    ensures r.result.Ok? ==> (r.result.value == 1 <==> SomeFileFlagged(fullModulePath, Initial, files, input))
  {
    LoopFlags(fullModulePath, Initial, files, input);
    StatusLoop(fullModulePath, Initial, files, input)
  }

  /**
   * Whether `line`, read in state `st`, ends a block about a requested
   * file whose status is not acceptable: the "Repository revision:" line
   * of a block whose path names one of `files`.
   */
  predicate FlagsFile(fullModulePath: string, st: StatusState, files: seq<CvsFile>, line: string)
  {
    st.phase == NeedRepositoryRevision && "M " <= line && FlagsRecord(fullModulePath, st, files, Trim(line[2..]))
  }

  /** The trimmed text `l` of an "M " line is a "Repository revision:" line that flags a requested file. */
  predicate FlagsRecord(fullModulePath: string, st: StatusState, files: seq<CvsFile>, l: string)
  {
    "Repository revision:" <= l &&
    match RecordPath(fullModulePath, st, Trim(l[20..]))
    case Fatal(_) => false
    case Ok((path, remoteRev)) =>
      match FindPath(files, path)
      case None => false
      case Some(i) => !Acceptable(files[i], ParseStatusState(st.status), remoteRev)
  }

  /** Whether some line the loop reads before it stops flags a requested file. */
  predicate SomeFileFlagged(fullModulePath: string, st: StatusState, files: seq<CvsFile>, input: string)
    decreases |input|
  {
    match NextLine(input)
    case None => false
    case Some((line, _)) =>
      FlagsFile(fullModulePath, st, files, line) ||
      match StatusStep(fullModulePath, st, files, input)
      case Continue(st', files', rest) => SomeFileFlagged(fullModulePath, st', files', rest)
      case Stop(_, _, _) => false
  }

  /** A line sets rc to 1 exactly when it flags a requested file, and leaves it alone otherwise. */
  lemma LineRc(fullModulePath: string, st: StatusState, files: seq<CvsFile>, line: string)
    ensures var o := StatusLine(fullModulePath, st, files, line).0;
      o.Ok? ==> o.value.0.rc == (if FlagsFile(fullModulePath, st, files, line) then 1 else st.rc)
  {
    if "M " <= line {
      assert !(ExaminingPrefix <= line) by { assert line[0] != ExaminingPrefix[0]; }
      var m := line[2..];
      assert line == "M " + m;
      match st.phase
      case NeedStartStatus =>
      case NeedFileStatus =>
      case NeedWorkingRevision =>
      case NeedRepositoryRevision =>
        assert StatusLine(fullModulePath, st, files, line) == RepositoryLine(fullModulePath, st, files, m);
        RepositoryLineRc(fullModulePath, st, files, m);
    }
  }

  /** The "Repository revision:" line sets rc to 1 exactly when its block is about a requested file it flags. */
  lemma RepositoryLineRc(fullModulePath: string, st: StatusState, files: seq<CvsFile>, m: string)
    requires st.phase == NeedRepositoryRevision
    ensures var o := RepositoryLine(fullModulePath, st, files, m).0;
      o.Ok? ==> o.value.0.rc == (if FlagsFile(fullModulePath, st, files, "M " + m) then 1 else st.rc)
  {
    assert ("M " + m)[2..] == m;
    assert FlagsFile(fullModulePath, st, files, "M " + m) == FlagsRecord(fullModulePath, st, files, Trim(m));
    var l := Trim(m);
    if "Repository revision:" <= l {
      match RecordPath(fullModulePath, st, Trim(l[20..]))
      case Fatal(_) =>
      case Ok((path, remoteRev)) =>
        match FindPath(files, path)
        case None =>
        case Some(i) =>
    }
  }

  /**
   * One pass of the loop: when it goes on, rc becomes 1 exactly if the line
   * flags a requested file; when it stops with a result, that is rc and
   * the line flagged nothing.
   */
  lemma StepRc(fullModulePath: string, st: StatusState, files: seq<CvsFile>, input: string)
    requires NextLine(input).Some?
    ensures var line := NextLine(input).value.0;
      var s := StatusStep(fullModulePath, st, files, input);
      (s.Continue? ==> s.st.rc == (if FlagsFile(fullModulePath, st, files, line) then 1 else st.rc)) &&
      (s.Stop? && s.result.Ok? ==> s.result.value == st.rc && !FlagsFile(fullModulePath, st, files, line))
  {
    var (line, rest) := NextLine(input).value;
    var (o, files') := StatusLine(fullModulePath, st, files, line);
    LineRc(fullModulePath, st, files, line);
    if !o.Fatal? {
      var (st', skip) := o.value;
      assert StatusStep(fullModulePath, st, files, input)
        == if skip then Continue(st', files', rest)
           else if line == "ok" then Stop(files', Ok(st'.rc), rest)
           else if "error" <= line then Stop(files', Error, rest)
           else Continue(st', files', rest);
      if line == "ok" {
        assert !FlagsFile(fullModulePath, st, files, line) by { assert line[0] != 'M'; }
      }
    }
  }

  /**
   * From rc 0, a result that is not an error or fatal is 1 exactly when
   * some block the loop reads flags a requested file.
   */
  lemma {:induction false} LoopFlags(fullModulePath: string, st: StatusState, files: seq<CvsFile>, input: string)
    requires st.rc == 0
    ensures var r := StatusLoop(fullModulePath, st, files, input);
      r.result.Ok? ==> (r.result.value == 1 <==> SomeFileFlagged(fullModulePath, st, files, input))
    decreases |input|
  {
    match NextLine(input)
    case None =>
    case Some((line, _)) =>
      StepRc(fullModulePath, st, files, input);
      match StatusStep(fullModulePath, st, files, input)
      case Continue(st', files', rest) =>
        if !FlagsFile(fullModulePath, st, files, line) {
          LoopFlags(fullModulePath, st', files', rest);
        }
      case Stop(_, _, _) =>
  }

  /** The end of a block on the caller's array: cvsfile_find, then the handled flag set in place. */
  method RecordOn(files: array<CvsFile>, st: StatusState, path: string, remoteRev: string)
    returns (st': StatusState, skip: bool)
    modifies files
    ensures (st', files[..], skip) == Record(st, old(files[..]), path, remoteRev)
  {
    var found := FindFile(files, files.Length, path);
    assert files[..files.Length] == files[..];
    if found.None? {
      return st.(phase := NeedStartStatus), true;
    }
    var i := found.value;
    var rc := st.rc;
    if Complains(files[i], ParseStatusState(st.status), remoteRev) {
      rc := 1;
    }
    files[i] := files[i].(handled := true);
    return st.(phase := NeedStartStatus, rc := rc), false;
  }

  /** One line of the reply, as StatusLine, with the files in the caller's array. */
  method StatusLineOn(files: array<CvsFile>, fullModulePath: string, st: StatusState, line: string)
    returns (r: Outcome<(StatusState, bool)>)
    modifies files
    ensures (r, files[..]) == StatusLine(fullModulePath, st, old(files[..]), line)
  {
    var st1 := st;
    if ExaminingPrefix <= line {
      st1 := st1.(currentDir := line[|ExaminingPrefix|..]);
    }
    if !("M " <= line) {
      return Ok((st1, false));
    }
    var m := line[2..];
    assert StatusLine(fullModulePath, st, files[..], line) == MessageLine(fullModulePath, st1, files[..], m);
    if st1.phase != NeedRepositoryRevision {
      var s := MessageLine(fullModulePath, st1, files[..], m);
      return s.0;
    }
    assert MessageLine(fullModulePath, st1, files[..], m) == RepositoryLine(fullModulePath, st1, files[..], m);
    r := RepositoryLineOn(files, fullModulePath, st1, m);
  }

  /** The "Repository revision:" line, as RepositoryLine, with the files in the caller's array. */
  method RepositoryLineOn(files: array<CvsFile>, fullModulePath: string, st: StatusState, m: string)
    returns (r: Outcome<(StatusState, bool)>)
    modifies files
    ensures (r, files[..]) == RepositoryLine(fullModulePath, st, old(files[..]), m)
  {
    var l := Trim(m);
    if !("Repository revision:" <= l) {
      return Ok((st, false));
    }
    var p := RecordPath(fullModulePath, st, Trim(l[20..]));
    if p.Fatal? {
      return Fatal(p.reason);
    }
    var st', skip := RecordOn(files, st, p.value.0, p.value.1);
    return Ok((st', skip));
  }

  /** One pass of the loop, as StatusStep: None to go on, or the result to stop with. */
  method StatusRound(t: Transport, files: array<CvsFile>, fullModulePath: string, st: StatusState)
    returns (st': StatusState, stop: Option<Outcome<int>>)
    requires t.Valid()
    modifies t, t.data, files
    ensures Reading(t)
    ensures var s := StatusStep(fullModulePath, st, old(files[..]), old(t.Input()));
      files[..] == s.files && (s.Continue? <==> stop.None?) &&
      (s.Continue? ==> st' == s.st && t.Input() == s.rest) &&
      (s.Stop? ==> stop == Some(s.result) && (!s.result.Fatal? ==> t.Input() == s.rest))
  {
    var line := t.ReadLine();
    if line.None? {
      return st, Some(Error);
    }
    ghost var rest := t.Input();
    var o := StatusLineOn(files, fullModulePath, st, line.value);
    assert t.Input() == rest;
    if o.Fatal? {
      return st, Some(Fatal(o.reason));
    }
    st' := o.value.0;
    if o.value.1 {
      return st', None;
    }
    if line.value == "ok" {
      return st', Some(Ok(st'.rc));
    }
    if "error" <= line.value {
      return st', Some(Error);
    }
    return st', None;
  }

  /**
   * parse_update_cvs_status: read the reply as ParseUpdateCvsStatus
   * describes it, marking the caller's files handled in place.
   */
  method ParseStatus(t: Transport, fullModulePath: string, files: array<CvsFile>) returns (r: Outcome<int>)
    requires t.Valid()
    modifies t, t.data, files
    ensures Reading(t)
    ensures var s := ParseUpdateCvsStatus(fullModulePath, old(files[..]), old(t.Input()));
      r == s.result && files[..] == s.files && (!r.Fatal? ==> t.Input() == s.rest)
  {
    var st := Initial;
    while true
      invariant t.Valid() && t.data == old(t.data) && t.wrBuf == old(t.wrBuf) && t.sent == old(t.sent)
      invariant StatusLoop(fullModulePath, st, files[..], t.Input())
        == ParseUpdateCvsStatus(fullModulePath, old(files[..]), old(t.Input()))
      decreases |t.Input()|
    {
      var stop;
      st, stop := StatusRound(t, files, fullModulePath, st);
      if stop.Some? {
        if stop.value.Fatal? {
          return stop.value;
        }
        r := FinishOn(files, StatusComplaint, stop.value);
        return;
      }
    }
  }

  /** A repository path that comes down to the full module path and `rel` gives `rel`. */
  lemma RepositoryPathOf(fullModulePath: string, p: string, rel: string)
    requires WithoutAttic(WithoutRcsSuffix(Trim(p))) == fullModulePath + rel
    ensures RepositoryPath(fullModulePath, p) == Ok(rel)
  {
    var r := RepositoryPath(fullModulePath, p);
    assert fullModulePath <= fullModulePath + rel;
    assert fullModulePath + r.value == fullModulePath + rel;
    assert r.value == (fullModulePath + r.value)[|fullModulePath|..];
  }

  /** A live file's repository path gives its path below the module. */
  lemma RepositoryPathLive(fullModulePath: string, path: string)
    requires fullModulePath != [] && !IsSpace(fullModulePath[0])
    requires Find(fullModulePath + path, "/Attic/").None?
    ensures RepositoryPath(fullModulePath, "\t" + fullModulePath + path + ",v") == Ok(path)
  {
    var p := "\t" + fullModulePath + path + ",v";
    assert WithoutAttic(WithoutRcsSuffix(Trim(p))) == fullModulePath + path by {
      var x := fullModulePath + path + ",v";
      assert p == "\t" + x;
      TrimPadded("\t", x);
      WithoutRcsSuffixOf(fullModulePath + path);
    }
    RepositoryPathOf(fullModulePath, p, path);
  }

  /** A removed file, kept in the Attic, is reported at the path it had when alive. */
  lemma RepositoryPathAttic(fullModulePath: string, dir: string, name: string)
    requires fullModulePath != [] && !IsSpace(fullModulePath[0])
    requires Find(fullModulePath + dir + "/Attic/" + name, "/Attic/") == Some(|fullModulePath| + |dir|)
    ensures RepositoryPath(fullModulePath, "\t" + fullModulePath + dir + "/Attic/" + name + ",v")
      == Ok(dir + "/" + name)
  {
    var f := fullModulePath + dir + "/Attic/" + name;
    var p := "\t" + fullModulePath + dir + "/Attic/" + name + ",v";
    assert Trim(p) == f + ",v" by {
      assert p == "\t" + (f + ",v");
      RcsFileTrim(f);
    }
    assert WithoutRcsSuffix(f + ",v") == f by {
      WithoutRcsSuffixOf(f);
    }
    assert WithoutAttic(f) == fullModulePath + (dir + "/" + name) by {
      WithoutAtticAt(fullModulePath + dir, name);
      Associative(fullModulePath, dir, "/");
      Associative(fullModulePath, dir + "/", name);
    }
    RepositoryPathOf(fullModulePath, p, dir + "/" + name);
  }

  /** The tab before a repository file name is trimmed away. */
  lemma RcsFileTrim(f: string)
    requires f != [] && !IsSpace(f[0])
    ensures Trim("\t" + (f + ",v")) == f + ",v"
  {
    TrimPadded("\t", f + ",v");
  }

  /** The first "/Attic" is cut out of a path. */
  lemma WithoutAtticAt(prefix: string, name: string)
    requires Find(prefix + "/Attic/" + name, "/Attic/") == Some(|prefix|)
    ensures WithoutAttic(prefix + "/Attic/" + name) == prefix + "/" + name
  {
    var f := prefix + "/Attic/" + name;
    assert f[..|prefix|] == prefix;
    assert f[|prefix| + 6..] == "/" + name;
  }

  /** A "Repository revision:" value with a revision, a tab and a live file's repository path. */
  lemma RecordPathRepository(fullModulePath: string, st: StatusState, remoteRev: string, path: string)
    requires remoteRev != [] && '\t' !in remoteRev
    requires fullModulePath != [] && !IsSpace(fullModulePath[0])
    requires Find(fullModulePath + path, "/Attic/").None?
    ensures RecordPath(fullModulePath, st, remoteRev + "\t" + fullModulePath + path + ",v") == Ok((path, remoteRev))
  {
    var tail := "\t" + fullModulePath + path + ",v";
    var value := remoteRev + tail;
    assert remoteRev + "\t" + fullModulePath + path + ",v" == value;
    assert value[|remoteRev|] == '\t' && value[..|remoteRev|] == remoteRev;
    IndexOfAt(value, '\t', |remoteRev|);
    assert value[|remoteRev|..] == tail;
    RepositoryPathLive(fullModulePath, path);
  }

  /** The text of the lines the server prints about one file; `pad` indents the revision lines. */
  function FileStatusText(name: string, statusText: string): string
  {
    "File: " + name + "\t" + "Status: " + statusText
  }

  function WorkingRevisionText(pad: string, localRev: string): string
  {
    pad + "Working revision:" + "\t" + localRev
  }

  function RepositoryRevisionText(pad: string, remoteRev: string, repoFile: string): string
  {
    pad + "Repository revision:" + "\t" + remoteRev + "\t" + repoFile
  }

  /** A file's status block: the separator, the File, Working and Repository lines, then `rest`. */
  function StatusBlock(name: string, status: CvsStatus, pad: string, localRev: string, remoteRev: string,
                       repoFile: string, rest: string): string
    requires status != Unknown
  {
    Then("M " + FileStatusStart, Then("M " + FileStatusText(name, StatusName(status)),
      Then("M " + WorkingRevisionText(pad, localRev), Then("M " + RepositoryRevisionText(pad, remoteRev, repoFile), rest))))
  }

  /** A word the trims leave alone: not empty, no white space at either end, no tab or newline. */
  predicate Word(s: string)
  {
    s != [] && !IsSpace(s[0]) && !IsSpace(s[|s| - 1]) && '\t' !in s && '\n' !in s
  }

  predicate Spaces(pad: string)
  {
    forall k :: 0 <= k < |pad| ==> pad[k] == ' '
  }

  /** The fields of a block the lemmas below read back: a name without tab, revisions that are words. */
  predicate BlockFields(name: string, pad: string, localRev: string, remoteRev: string)
  {
    '\t' !in name && '\n' !in name && Spaces(pad) && Word(localRev) && Word(remoteRev)
  }

  /** A live file below the full module path: its repository path has no "/Attic/" and no newline. */
  predicate LiveFile(fullModulePath: string, path: string)
  {
    fullModulePath != [] && !IsSpace(fullModulePath[0]) && '\n' !in fullModulePath + path
    && Find(fullModulePath + path, "/Attic/").None?
  }

  lemma StatusNameText(status: CvsStatus)
    requires status != Unknown
    ensures '\n' !in StatusName(status)
  {
  }

  /**
   * A line that is neither "ok" nor an "error" line and that StatusLine
   * handles without dying lets the loop go on with StatusLine's state.
   */
  lemma StepOfLine(fullModulePath: string, st: StatusState, files: seq<CvsFile>, line: string, rest: string)
    requires '\n' !in line && line != "ok" && !("error" <= line)
    requires StatusLine(fullModulePath, st, files, line).0.Ok?
    ensures var s := StatusLine(fullModulePath, st, files, line);
      StatusStep(fullModulePath, st, files, Then(line, rest)) == Continue(s.0.value.0, s.1, rest)
  {
    NextLineOf(line, rest);
  }

  /** A message line goes to MessageLine, and is neither "ok" nor an "error" line. */
  lemma MessageLineOf(fullModulePath: string, st: StatusState, files: seq<CvsFile>, m: string)
    ensures StatusLine(fullModulePath, st, files, "M " + m) == MessageLine(fullModulePath, st, files, m)
    ensures "M " + m != "ok" && !("error" <= "M " + m)
  {
    var line := "M " + m;
    assert line[0] == 'M' && line[2..] == m;
  }

  /** The separator line starts a block. */
  lemma SeparatorOf(fullModulePath: string, st: StatusState, files: seq<CvsFile>)
    requires st.phase == NeedStartStatus
    ensures MessageLine(fullModulePath, st, files, FileStatusStart)
      == (Ok((st.(phase := NeedFileStatus, basename := [], status := [], localRev := []), false)), files)
  {
  }

  /** A "File:" line gives the base name, trimmed, and the status text. */
  lemma FileLineOf(st: StatusState, name: string, statusText: string)
    requires '\t' !in name
    ensures FileLine(st, FileStatusText(name, statusText))
      == Ok(st.(phase := NeedWorkingRevision, basename := Trim(name), status := statusText))
  {
    var m := FileStatusText(name, statusText);
    var after := "Status: " + statusText;
    assert m == "File: " + (name + "\t" + after);
    FileTab(m, name, after);
    StatusFieldOf(st, m, Trim(name), statusText);
  }

  /** Past "File: ", the tab after the name is the first one. */
  lemma FileTab(m: string, name: string, after: string)
    requires '\t' !in name && m == "File: " + (name + "\t" + after)
    ensures "File: " <= m && m[6..] == name + "\t" + after
    ensures IndexOf(m[6..], '\t') == Some(|name|)
    ensures m[6..][..|name|] == name && m[6..][|name| + 1..] == after
  {
    var buf := name + "\t" + after;
    assert buf[|name|] == '\t' && buf[..|name|] == name;
    IndexOfAt(buf, '\t', |name|);
  }

  /** "Status: " and the status text. */
  lemma StatusFieldOf(st: StatusState, m: string, name: string, statusText: string)
    ensures StatusField(st, m, name, "Status: " + statusText)
      == Ok(st.(phase := NeedWorkingRevision, basename := name, status := statusText))
  {
    var after := "Status: " + statusText;
    assert "Status: " <= after && after[8..] == statusText;
  }

  /** A "Working revision:" line moves on to the repository revision. */
  lemma WorkingLineOf(st: StatusState, pad: string, localRev: string)
    requires Spaces(pad) && Word(localRev)
    ensures WorkingLine(st, WorkingRevisionText(pad, localRev))
      == st.(phase := NeedRepositoryRevision, localRev := localRev)
  {
    var text := "Working revision:" + ("\t" + localRev);
    TrimWorkingRevision(pad, localRev);
    assert "Working revision:" <= text;
    assert text[17..] == "\t" + localRev;
    TrimTab(localRev);
  }

  lemma TrimWorkingRevision(pad: string, localRev: string)
    requires Spaces(pad) && Word(localRev)
    ensures Trim(WorkingRevisionText(pad, localRev)) == "Working revision:" + ("\t" + localRev)
  {
    var text := "Working revision:" + ("\t" + localRev);
    assert WorkingRevisionText(pad, localRev) == pad + text;
    TrimPadded(pad, text);
  }

  lemma TrimRepositoryRevision(pad: string, value: string)
    requires Spaces(pad) && value != [] && !IsSpace(value[|value| - 1])
    ensures Trim(pad + "Repository revision:" + "\t" + value) == "Repository revision:" + ("\t" + value)
  {
    var text := "Repository revision:" + ("\t" + value);
    assert pad + "Repository revision:" + "\t" + value == pad + text;
    TrimPadded(pad, text);
  }

  /** The tab before a word is trimmed away. */
  lemma TrimTab(x: string)
    requires x != [] && !IsSpace(x[0]) && !IsSpace(x[|x| - 1])
    ensures Trim("\t" + x) == x
  {
    TrimPadded("\t", x);
  }

  /** A "Repository revision:" line naming a live file's repository path ends the block with Record. */
  lemma RepositoryLineOf(fullModulePath: string, st: StatusState, files: seq<CvsFile>, pad: string,
                         remoteRev: string, path: string)
    requires Spaces(pad) && Word(remoteRev)
    requires fullModulePath != [] && !IsSpace(fullModulePath[0])
    requires Find(fullModulePath + path, "/Attic/").None?
    ensures var r := Record(st, files, path, remoteRev);
      RepositoryLine(fullModulePath, st, files, RepositoryRevisionText(pad, remoteRev, fullModulePath + path + ",v"))
      == (Ok((r.0, r.2)), r.1)
  {
    var value := remoteRev + "\t" + fullModulePath + path + ",v";
    var text := "Repository revision:" + ("\t" + value);
    assert RepositoryRevisionText(pad, remoteRev, fullModulePath + path + ",v")
      == pad + "Repository revision:" + "\t" + value;
    TrimRepositoryRevision(pad, value);
    assert "Repository revision:" <= text;
    assert text[20..] == "\t" + value;
    TrimTab(value);
    RecordPathRepository(fullModulePath, st, remoteRev, path);
  }

  /** The separator line, in the loop. */
  lemma LoopSeparator(fullModulePath: string, st: StatusState, files: seq<CvsFile>, rest: string)
    requires st.phase == NeedStartStatus
    ensures StatusLoop(fullModulePath, st, files, Then("M " + FileStatusStart, rest))
      == StatusLoop(fullModulePath, st.(phase := NeedFileStatus, basename := [], status := [], localRev := []), files, rest)
  {
    var line := "M " + FileStatusStart;
    assert '\n' !in line by {
      assert forall k :: 2 <= k < |line| ==> line[k] == FileStatusStart[k - 2];
    }
    MessageLineOf(fullModulePath, st, files, FileStatusStart);
    SeparatorOf(fullModulePath, st, files);
    StepOfLine(fullModulePath, st, files, line, rest);
  }

  /** The "File:" line, in the loop. */
  lemma LoopFileStatus(fullModulePath: string, st: StatusState, files: seq<CvsFile>, name: string,
                       statusText: string, rest: string)
    requires st.phase == NeedFileStatus && '\t' !in name && '\n' !in name && '\n' !in statusText
    ensures StatusLoop(fullModulePath, st, files, Then("M " + FileStatusText(name, statusText), rest))
      == StatusLoop(fullModulePath, st.(phase := NeedWorkingRevision, basename := Trim(name), status := statusText),
                    files, rest)
  {
    var m := FileStatusText(name, statusText);
    FileStatusTextLine(name, statusText);
    MessageLineOf(fullModulePath, st, files, m);
    assert MessageLine(fullModulePath, st, files, m).0 == Ok((st.(phase := NeedWorkingRevision, basename := Trim(name), status := statusText), false)) by {
      FileLineOf(st, name, statusText);
    }
    StepOfLine(fullModulePath, st, files, "M " + m, rest);
  }

  lemma FileStatusTextLine(name: string, statusText: string)
    requires '\n' !in name && '\n' !in statusText
    ensures '\n' !in "M " + FileStatusText(name, statusText)
  {
  }

  /** The "Working revision:" line, in the loop. */
  lemma LoopWorkingRevision(fullModulePath: string, st: StatusState, files: seq<CvsFile>, pad: string,
                            localRev: string, rest: string)
    requires st.phase == NeedWorkingRevision && Spaces(pad) && Word(localRev)
    ensures StatusLoop(fullModulePath, st, files, Then("M " + WorkingRevisionText(pad, localRev), rest))
      == StatusLoop(fullModulePath, st.(phase := NeedRepositoryRevision, localRev := localRev), files, rest)
  {
    var line := "M " + WorkingRevisionText(pad, localRev);
    assert '\n' !in line;
    MessageLineOf(fullModulePath, st, files, WorkingRevisionText(pad, localRev));
    WorkingLineOf(st, pad, localRev);
    StepOfLine(fullModulePath, st, files, line, rest);
  }

  /** The "Repository revision:" line, in the loop. */
  lemma LoopRepositoryRevision(fullModulePath: string, st: StatusState, files: seq<CvsFile>, pad: string,
                               remoteRev: string, path: string, rest: string)
    requires st.phase == NeedRepositoryRevision && Spaces(pad) && Word(remoteRev)
    requires fullModulePath != [] && !IsSpace(fullModulePath[0]) && '\n' !in fullModulePath + path
    requires Find(fullModulePath + path, "/Attic/").None?
    ensures var r := Record(st, files, path, remoteRev);
      StatusLoop(fullModulePath, st, files, Then("M " + RepositoryRevisionText(pad, remoteRev, fullModulePath + path + ",v"), rest))
      == StatusLoop(fullModulePath, r.0, r.1, rest)
  {
    var text := RepositoryRevisionText(pad, remoteRev, fullModulePath + path + ",v");
    var line := "M " + text;
    assert '\n' !in line;
    MessageLineOf(fullModulePath, st, files, text);
    RepositoryLineOf(fullModulePath, st, files, pad, remoteRev, path);
    StepOfLine(fullModulePath, st, files, line, rest);
  }

  /**
   * A whole block about a live file, read from the start of a block:
   * the file with that path, if it was requested, is marked handled and
   * rc becomes 1 unless its status is acceptable; Record says so.
   */
  lemma LoopStatusBlock(fullModulePath: string, st: StatusState, files: seq<CvsFile>, name: string,
                        status: CvsStatus, pad: string, localRev: string, remoteRev: string, path: string, rest: string)
    requires st.phase == NeedStartStatus && status != Unknown
    requires BlockFields(name, pad, localRev, remoteRev) && LiveFile(fullModulePath, path)
    ensures var r := Record(st.(phase := NeedRepositoryRevision, basename := Trim(name), status := StatusName(status),
                                localRev := localRev), files, path, remoteRev);
      StatusLoop(fullModulePath, st, files, StatusBlock(name, status, pad, localRev, remoteRev, fullModulePath + path + ",v", rest))
      == StatusLoop(fullModulePath, r.0, r.1, rest)
  {
    var st1 := st.(phase := NeedFileStatus, basename := [], status := [], localRev := []);
    var st2 := st1.(phase := NeedWorkingRevision, basename := Trim(name), status := StatusName(status));
    var st3 := st2.(phase := NeedRepositoryRevision, localRev := localRev);
    var repo := Then("M " + RepositoryRevisionText(pad, remoteRev, fullModulePath + path + ",v"), rest);
    var working := Then("M " + WorkingRevisionText(pad, localRev), repo);
    var file := Then("M " + FileStatusText(name, StatusName(status)), working);
    LoopSeparator(fullModulePath, st, files, file);
    StatusNameText(status);
    LoopFileStatus(fullModulePath, st1, files, name, StatusName(status), working);
    LoopWorkingRevision(fullModulePath, st2, files, pad, localRev, repo);
    LoopRepositoryRevision(fullModulePath, st3, files, pad, remoteRev, path, rest);
  }

  /** An "E cvs status: Examining" line names the directory of the blocks after it. */
  lemma LoopExamining(fullModulePath: string, st: StatusState, files: seq<CvsFile>, dir: string, rest: string)
    requires '\n' !in dir
    ensures StatusLoop(fullModulePath, st, files, Then(ExaminingPrefix + dir, rest))
      == StatusLoop(fullModulePath, st.(currentDir := dir), files, rest)
  {
    var line := ExaminingPrefix + dir;
    assert line[0] == 'E' && line[..24] == ExaminingPrefix && line[24..] == dir;
    assert StatusLine(fullModulePath, st, files, line) == (Ok((st.(currentDir := dir), false)), files);
    StepOfLine(fullModulePath, st, files, line, rest);
  }

  /** A "Repository revision:" line without a tab names the file by the examined directory. */
  lemma RepositoryLineNewFile(fullModulePath: string, st: StatusState, files: seq<CvsFile>, pad: string, value: string)
    requires Spaces(pad) && Word(value)
    ensures var r := Record(st, files, ExaminedPath(st.currentDir, st.basename), value);
      RepositoryLine(fullModulePath, st, files, pad + "Repository revision:" + "\t" + value) == (Ok((r.0, r.2)), r.1)
  {
    var text := "Repository revision:" + ("\t" + value);
    TrimRepositoryRevision(pad, value);
    assert "Repository revision:" <= text;
    assert text[20..] == "\t" + value;
    TrimTab(value);
  }

  /** The tab-free "Repository revision:" line, in the loop. */
  lemma LoopRepositoryNewFile(fullModulePath: string, st: StatusState, files: seq<CvsFile>, pad: string,
                              value: string, rest: string)
    requires st.phase == NeedRepositoryRevision && Spaces(pad) && Word(value)
    ensures var r := Record(st, files, ExaminedPath(st.currentDir, st.basename), value);
      StatusLoop(fullModulePath, st, files, Then("M " + pad + "Repository revision:" + "\t" + value, rest))
      == StatusLoop(fullModulePath, r.0, r.1, rest)
  {
    var text := pad + "Repository revision:" + "\t" + value;
    assert "M " + pad + "Repository revision:" + "\t" + value == "M " + text;
    assert '\n' !in "M " + text;
    MessageLineOf(fullModulePath, st, files, text);
    RepositoryLineNewFile(fullModulePath, st, files, pad, value);
    StepOfLine(fullModulePath, st, files, "M " + text, rest);
  }

  /** The block about a file with no repository file: its "Repository revision:" value has no tab. */
  function NewFileBlock(name: string, status: CvsStatus, pad: string, localRev: string, value: string,
                        rest: string): string
    requires status != Unknown
  {
    Then("M " + FileStatusStart, Then("M " + FileStatusText(name, StatusName(status)),
      Then("M " + WorkingRevisionText(pad, localRev), Then("M " + pad + "Repository revision:" + "\t" + value, rest))))
  }

  /**
   * A whole block about a file with no repository file: the file named by
   * the examined directory and the block's base name, if it was
   * requested, is marked handled as Record says.
   */
  lemma LoopNewFileBlock(fullModulePath: string, st: StatusState, files: seq<CvsFile>, name: string,
                         status: CvsStatus, pad: string, localRev: string, value: string, rest: string)
    requires st.phase == NeedStartStatus && status != Unknown
    requires BlockFields(name, pad, localRev, value)
    ensures var st3 := st.(phase := NeedRepositoryRevision, basename := Trim(name), status := StatusName(status),
                           localRev := localRev);
      var r := Record(st3, files, ExaminedPath(st.currentDir, Trim(name)), value);
      StatusLoop(fullModulePath, st, files, NewFileBlock(name, status, pad, localRev, value, rest))
      == StatusLoop(fullModulePath, r.0, r.1, rest)
  {
    var st1 := st.(phase := NeedFileStatus, basename := [], status := [], localRev := []);
    var st2 := st1.(phase := NeedWorkingRevision, basename := Trim(name), status := StatusName(status));
    var st3 := st2.(phase := NeedRepositoryRevision, localRev := localRev);
    var repo := Then("M " + pad + "Repository revision:" + "\t" + value, rest);
    var working := Then("M " + WorkingRevisionText(pad, localRev), repo);
    var file := Then("M " + FileStatusText(name, StatusName(status)), working);
    LoopSeparator(fullModulePath, st, files, file);
    StatusNameText(status);
    LoopFileStatus(fullModulePath, st1, files, name, StatusName(status), working);
    LoopWorkingRevision(fullModulePath, st2, files, pad, localRev, repo);
    LoopRepositoryNewFile(fullModulePath, st3, files, pad, value, rest);
  }

  /**
   * A file added in a new directory, every other file having been
   * reported on: "E cvs status: Examining <dir>", then its block with no
   * repository file, then "ok", marks the file <dir>/<name> handled, with
   * result 0 exactly when its status is acceptable.
   */
  lemma StatusOfNewFileInDirectory(fullModulePath: string, files: seq<CvsFile>, i: nat, dir: string,
                                   name: string, status: CvsStatus, pad: string, localRev: string,
                                   value: string, after: string)
    requires dir != [] && dir != "." && '\n' !in dir
    requires FindPath(files, dir + "/" + Trim(name)) == Some(i)
    requires forall j :: 0 <= j < |files| && j != i ==> files[j].handled
    requires status != Unknown && BlockFields(name, pad, localRev, value)
    ensures ParseUpdateCvsStatus(fullModulePath, files,
              Then(ExaminingPrefix + dir, NewFileBlock(name, status, pad, localRev, value, Then("ok", after))))
      == StatusReply(files[i := files[i].(handled := true)],
                     Ok(if Acceptable(files[i], status, value) then 0 else 1), after)
  {
    var st0 := Initial.(currentDir := dir);
    LoopExamining(fullModulePath, Initial, files, dir, NewFileBlock(name, status, pad, localRev, value, Then("ok", after)));
    LoopNewFileBlock(fullModulePath, st0, files, name, status, pad, localRev, value, Then("ok", after));
    var st3 := st0.(phase := NeedRepositoryRevision, basename := Trim(name), status := StatusName(status),
                    localRev := localRev);
    RecordOfRequested(st3, files, i, dir + "/" + Trim(name), status, value);
    var files' := files[i := files[i].(handled := true)];
    MarkLast(files, i);
    LoopOk(fullModulePath, st3.(phase := NeedStartStatus, rc := if Acceptable(files[i], status, value) then 0 else 1),
           files', after);
  }

  /** "ok" ends the reply: rc when every file was reported on, fatal otherwise. */
  lemma LoopOk(fullModulePath: string, st: StatusState, files: seq<CvsFile>, after: string)
    ensures var r := StatusLoop(fullModulePath, st, files, Then("ok", after));
      r.files == files && (r.result.Fatal? <==> !AllHandled(files)) &&
      (AllHandled(files) ==> r.result == Ok(st.rc) && r.rest == after)
  {
    NextLineOf("ok", after);
    assert StatusLine(fullModulePath, st, files, "ok") == (Ok((st, false)), files);
  }

  /**
   * The reply about one requested file, every other file having been
   * reported on already: a live file's block then "ok" marks the file
   * handled, with result 0 exactly when its status is acceptable.
   */
  lemma StatusOfOneFile(fullModulePath: string, files: seq<CvsFile>, i: nat, name: string, status: CvsStatus,
                        pad: string, localRev: string, remoteRev: string, path: string, after: string)
    requires FindPath(files, path) == Some(i)
    requires forall j :: 0 <= j < |files| && j != i ==> files[j].handled
    requires status != Unknown && BlockFields(name, pad, localRev, remoteRev) && LiveFile(fullModulePath, path)
    ensures ParseUpdateCvsStatus(fullModulePath, files,
              StatusBlock(name, status, pad, localRev, remoteRev, fullModulePath + path + ",v", Then("ok", after)))
      == StatusReply(files[i := files[i].(handled := true)],
                     Ok(if Acceptable(files[i], status, remoteRev) then 0 else 1), after)
  {
    var files' := files[i := files[i].(handled := true)];
    var st := Initial.(basename := Trim(name), status := StatusName(status), localRev := localRev,
                       rc := if Acceptable(files[i], status, remoteRev) then 0 else 1);
    BlockOfRequested(fullModulePath, Initial, files, i, name, status, pad, localRev, remoteRev, path, Then("ok", after));
    MarkLast(files, i);
    LoopOk(fullModulePath, st, files', after);
  }

  /** A live file's block about requested file `i` marks it handled and sets rc as Record does. */
  lemma BlockOfRequested(fullModulePath: string, st: StatusState, files: seq<CvsFile>, i: nat, name: string,
                         status: CvsStatus, pad: string, localRev: string, remoteRev: string, path: string, rest: string)
    requires st.phase == NeedStartStatus && FindPath(files, path) == Some(i) && status != Unknown
    requires BlockFields(name, pad, localRev, remoteRev) && LiveFile(fullModulePath, path)
    ensures StatusLoop(fullModulePath, st, files,
              StatusBlock(name, status, pad, localRev, remoteRev, fullModulePath + path + ",v", rest))
      == StatusLoop(fullModulePath,
                    st.(basename := Trim(name), status := StatusName(status), localRev := localRev,
                        rc := if Acceptable(files[i], status, remoteRev) then st.rc else 1),
                    files[i := files[i].(handled := true)], rest)
  {
    LoopStatusBlock(fullModulePath, st, files, name, status, pad, localRev, remoteRev, path, rest);
    RecordOfRequested(st.(phase := NeedRepositoryRevision, basename := Trim(name), status := StatusName(status),
                          localRev := localRev), files, i, path, status, remoteRev);
  }

  /**
   * A live file's block about requested file `i` whose status is not
   * acceptable, wherever it comes in the reply: the result is then 1
   * unless the reply ends in an error or aborts.
   */
  lemma UnacceptableBlockRulesOutZero(fullModulePath: string, st: StatusState, files: seq<CvsFile>, i: nat,
                                      name: string, status: CvsStatus, pad: string, localRev: string,
                                      remoteRev: string, path: string, rest: string)
    requires st.phase == NeedStartStatus && FindPath(files, path) == Some(i) && status != Unknown
    requires BlockFields(name, pad, localRev, remoteRev) && LiveFile(fullModulePath, path)
    requires !Acceptable(files[i], status, remoteRev)
    ensures var r := StatusLoop(fullModulePath, st, files,
              StatusBlock(name, status, pad, localRev, remoteRev, fullModulePath + path + ",v", rest));
      r.result.Ok? ==> r.result == Ok(1)
  {
    BlockOfRequested(fullModulePath, st, files, i, name, status, pad, localRev, remoteRev, path, rest);
  }

  /** Marking the one file not yet handled leaves every file handled. */
  lemma MarkLast(files: seq<CvsFile>, i: nat)
    requires i < |files| && forall j :: 0 <= j < |files| && j != i ==> files[j].handled
    ensures AllHandled(files[i := files[i].(handled := true)])
  {
  }

  /** The end of a block about requested file `i` whose status text is that of `status`. */
  lemma RecordOfRequested(st: StatusState, files: seq<CvsFile>, i: nat, path: string, status: CvsStatus,
                          remoteRev: string)
    requires FindPath(files, path) == Some(i) && status != Unknown && st.status == StatusName(status)
    ensures Record(st, files, path, remoteRev)
      == (st.(phase := NeedStartStatus, rc := if Acceptable(files[i], status, remoteRev) then st.rc else 1),
          files[i := files[i].(handled := true)], false)
  {
    ParseStatusStateName(status);
  }

  /** A block about a file that was not requested changes nothing: the reply reads as if it were absent. */
  lemma StatusOfUnrequested(fullModulePath: string, st: StatusState, files: seq<CvsFile>, name: string,
                            status: CvsStatus, pad: string, localRev: string, remoteRev: string, path: string, rest: string)
    requires st.phase == NeedStartStatus && FindPath(files, path).None?
    requires status != Unknown && BlockFields(name, pad, localRev, remoteRev) && LiveFile(fullModulePath, path)
    ensures StatusLoop(fullModulePath, st, files,
              StatusBlock(name, status, pad, localRev, remoteRev, fullModulePath + path + ",v", rest))
      == StatusLoop(fullModulePath, st.(basename := Trim(name), status := StatusName(status), localRev := localRev),
                    files, rest)
  {
    LoopStatusBlock(fullModulePath, st, files, name, status, pad, localRev, remoteRev, path, rest);
  }
}
