/**
 * Reading the reply to a "ci" request (parse_cvs_checkin_reply). For each
 * file the server prints an "M" line naming the repository file
 * ("<repository>/<module>/<path>,v  <--  <name>"), then an "M" line with
 * the new revision ("new revision: N; previous revision: P", or "initial
 * revision: N" for an added file), then a "Checked-in" or "Remove-entry"
 * response. The revision line confirms the file: it must be one of the
 * requested files, and unless it is new its revision must be the reported
 * previous one; it then takes the new revision and is marked handled. The
 * reply ends with "ok" or "error", and a requested file left unconfirmed
 * is fatal.
 */
module Checkin {
  import opened Wrappers
  import opened Text
  import opened Revision
  import opened Stream
  import opened Files

  /**
   * NEED_CHECK_IN, NEED_NEW_REVISION and NEED_DONE. The path the C code
   * keeps in a buffer beside the state is only set while a revision line
   * is awaited and is emptied once the file is confirmed, so it lives in
   * that phase.
   */
  datatype Phase = NeedCheckIn | NeedNewRevision(path: string) | NeedDone

  /** repo_mod_path: the repository path and the module, each followed by '/'. */
  function RepoModulePath(repoPath: string, moduleName: string): string
  {
    repoPath + "/" + moduleName + "/"
  }

  /** What separates the repository file from the working file name on a check-in line. */
  const Arrow := ",v  <--  "
  const NewRevisionTag := "new revision: "
  const PreviousTag := "; previous revision: "
  const InitialTag := "initial revision: "

  /** The first "Attic/" in a path cut out. */
  function WithoutAtticDir(p: string): (r: string)
    ensures Find(p, "Attic/").None? ==> r == p
    ensures Find(p, "Attic/").Some? ==> |r| + 6 == |p|
  {
    match Find(p, "Attic/")
    case Some(j) => p[..j] + p[j + 6..]
    case None => p
  }

  /**
   * The file a check-in line below the module names: the text before the
   * arrow, without "Attic/"; None when there is no arrow.
   */
  function CheckinPath(rel: string): (r: Option<string>)
    ensures r.None? <==> Find(rel, Arrow).None?
    ensures r.Some? ==> |r.value| <= |rel|
  {
    match Find(rel, Arrow)
    case Some(k) => Some(WithoutAtticDir(rel[..k]))
    case None => None
  }

  /** The new revision a removal reports ("delete"): the previous one plus one, or unchanged if that fails. */
  function DeletedRevision(oldRev: string): (r: string)
    ensures IncRevision(oldRev).None? ==> r == oldRev
    ensures IncRevision(oldRev).Some? ==> StripLastRevNum(r) == (StripLastRevNum(oldRev).0 + 1, StripLastRevNum(oldRev).1)
  {
    IncRevisionStrip(oldRev);
    match IncRevision(oldRev)
    case Some(n) => n
    case None => oldRev
  }

  /**
   * The new and previous revisions after "new revision: ": the text up to
   * ';' and the text after "; previous revision: " (empty without it);
   * both empty when there is no ';'; "delete" stands for the previous
   * revision plus one.
   */
  function NewRevision(buf: string): (r: (string, string))
    ensures ';' !in buf ==> r == ([], [])
    ensures |r.1| <= |buf| && (r.1 == [] || r.1 == buf[|buf| - |r.1|..])
  {
    match IndexOf(buf, ';')
    case None => ([], [])
    case Some(k) =>
      var oldRev := if PreviousTag <= buf[k..] then buf[k + |PreviousTag|..] else [];
      var newRev := buf[..k];
      (if newRev == "delete" then DeletedRevision(oldRev) else newRev, oldRev)
  }

  /**
   * Confirming the file at `path` with its new and previous revision: a
   * path no requested file has, or a file that is not new and whose
   * revision is not the previous one, is fatal; otherwise that file alone
   * takes the new revision and is marked handled.
   */
  function Confirm(files: seq<CvsFile>, path: string, newRev: string, oldRev: string): (r: Outcome<seq<CvsFile>>)
    ensures !r.Error?
    ensures r.Ok? <==> FindPath(files, path).Some? &&
                       (files[FindPath(files, path).value].isnew || files[FindPath(files, path).value].revision == oldRev)
    ensures r.Ok? ==> var i := FindPath(files, path).value;
                      r.value == files[i := files[i].(revision := newRev, handled := true)]
  {
    match FindPath(files, path)
    case None => Fatal("Checkin file info found for not requested file: " + path)
    case Some(i) =>
      if files[i].revision != oldRev && !files[i].isnew then
        Fatal("Checkin file " + path + " old revision " + files[i].revision + ", but " + oldRev + " is reported")
      else
        Ok(files[i := files[i].(revision := newRev, handled := true)])
  }

  /** Only revisions change, and only of files that are marked handled. */
  predicate OnlyConfirmations(before: seq<CvsFile>, after: seq<CvsFile>)
  {
    |after| == |before| &&
    forall i :: 0 <= i < |before| ==>
      after[i] == before[i] || after[i] == before[i].(revision := after[i].revision, handled := true)
  }

  /** A "M" message while a check-in line is awaited: one below the module path starts a file. */
  function CheckInLine(repoModulePath: string, m: string): (r: Outcome<Phase>)
    ensures !r.Error?
    ensures r.Ok? ==> (r.value == NeedCheckIn <==> !(repoModulePath <= m))
    ensures r.Ok? && r.value.NeedNewRevision? ==> Some(r.value.path) == CheckinPath(m[|repoModulePath|..])
    ensures r.Fatal? <==> repoModulePath <= m && CheckinPath(m[|repoModulePath|..]).None?
  {
    if !(repoModulePath <= m) then Ok(NeedCheckIn)
    else
      match CheckinPath(m[|repoModulePath|..])
      case None => Fatal("checkin path doesn't match expected pattern: '" + m + "'")
      case Some(p) => Ok(NeedNewRevision(p))
  }

  /** The revisions a "M" message reports, if it is a revision line. */
  function RevisionsOf(m: string): (r: Option<(string, string)>)
    ensures r.None? <==> !(NewRevisionTag <= m) && !(InitialTag <= m)
    ensures !(NewRevisionTag <= m) && InitialTag <= m ==> r == Some((m[|InitialTag|..], []))
  {
    if NewRevisionTag <= m then Some(NewRevision(m[|NewRevisionTag|..]))
    else if InitialTag <= m then Some((m[|InitialTag|..], []))
    else None
  }

  /**
   * A "M" message while the revision of `path` is awaited: a revision
   * line confirms the file and the parser waits for the end of its entry;
   * any other message is passed over.
   */
  function RevisionLine(path: string, files: seq<CvsFile>, m: string): (r: (Outcome<Phase>, seq<CvsFile>))
    ensures !r.0.Error?
    ensures r.0.Fatal? ==> r.1 == files
    ensures RevisionsOf(m).None? ==> r == (Ok(NeedNewRevision(path)), files)
    ensures RevisionsOf(m).Some? ==>
      var c := Confirm(files, path, RevisionsOf(m).value.0, RevisionsOf(m).value.1);
      (r.0.Ok? <==> c.Ok?) && (c.Ok? ==> r == (Ok(NeedDone), c.value))
  {
    match RevisionsOf(m)
    case None => (Ok(NeedNewRevision(path)), files)
    case Some((newRev, oldRev)) =>
      var c := Confirm(files, path, newRev, oldRev);
      if c.Fatal? then (Fatal(c.reason), files) else (Ok(NeedDone), c.value)
  }

  /** A "M" message, by phase; once the file is confirmed, messages are passed over. */
  function MessageLine(repoModulePath: string, phase: Phase, files: seq<CvsFile>, m: string)
    : (r: (Outcome<Phase>, seq<CvsFile>))
    ensures !r.0.Error?
    ensures r.0.Fatal? ==> r.1 == files
    ensures OnlyConfirmations(files, r.1)
  {
    match phase
    case NeedCheckIn => (CheckInLine(repoModulePath, m), files)
    case NeedNewRevision(path) => RevisionLine(path, files, m)
    case NeedDone => (Ok(phase), files)
  }

  /** A line ending a file's entry: "Checked-in" or "Remove-entry". */
  predicate EndsEntry(line: string)
  {
    "Checked-in " <= line || "Remove-entry " <= line
  }

  /**
   * One line of the reply: an entry that ends before the file was
   * confirmed is fatal, and one that ends after it lets the next file
   * start; "M" lines are handled by phase; any other line is passed over.
   */
  function CheckinLine(repoModulePath: string, phase: Phase, files: seq<CvsFile>, line: string)
    : (r: (Outcome<Phase>, seq<CvsFile>))
    ensures !r.0.Error?
    ensures r.0.Fatal? ==> r.1 == files
    ensures OnlyConfirmations(files, r.1)
    ensures EndsEntry(line) ==> (r.0.Fatal? <==> phase != NeedDone)
  {
    if EndsEntry(line) && phase != NeedDone then
      (Fatal("skipped file during parsing checkin reply"), files)
    else
      var phase1 := if EndsEntry(line) then NeedCheckIn else phase;
      if "M " <= line then
        assert line[0] == 'M' && !EndsEntry(line);
        MessageLine(repoModulePath, phase1, files, line[2..])
      else (Ok(phase1), files)
  }

  /** How the check after the loop names a file the server did not confirm. */
  const CheckinComplaint := "Did not get checking confirmation for file: "

  /** What one pass of the loop does: go on in a phase, or stop with a result. */
  datatype Step =
    | Continue(phase: Phase, files: seq<CvsFile>, rest: string)
    | Stop(files: seq<CvsFile>, result: Outcome<int>, rest: string)

  /**
   * One pass of the loop: read a line (none: rc -1), handle it, then stop
   * on "ok" with 0, or on a line starting with "error" with -1.
   */
  function CheckinStep(repoModulePath: string, phase: Phase, files: seq<CvsFile>, input: string): (r: Step)
    ensures OnlyConfirmations(files, r.files)
    ensures r.Continue? ==> |r.rest| < |input|
    ensures r.Stop? && r.result.Ok? ==> r.result.value == 0
  {
    match NextLine(input)
    case None => Stop(files, Error, [])
    case Some((line, rest)) =>
      var (o, files') := CheckinLine(repoModulePath, phase, files, line);
      if o.Fatal? then Stop(files, Fatal(o.reason), [])
      else if line == "ok" then Stop(files', Ok(0), rest)
      else if "error" <= line then Stop(files', Error, rest)
      else Continue(o.value, files', rest)
  }

  /** A pass of the loop that read `line`, by what CheckinLine makes of it. */
  lemma StepOfLine(repoModulePath: string, phase: Phase, files: seq<CvsFile>, input: string, line: string, rest: string)
    requires NextLine(input) == Some((line, rest))
    ensures var (o, files') := CheckinLine(repoModulePath, phase, files, line);
      CheckinStep(repoModulePath, phase, files, input)
      == if o.Fatal? then Stop(files, Fatal(o.reason), [])
         else if line == "ok" then Stop(files', Ok(0), rest)
         else if "error" <= line then Stop(files', Error, rest)
         else Continue(o.value, files', rest)
  {
  }

  /** What parse_cvs_checkin_reply ends with: the files, its result and the input left. */
  datatype CheckinReply = CheckinReply(files: seq<CvsFile>, result: Outcome<int>, rest: string)

  /** OnlyConfirmations chains. */
  lemma OnlyConfirmationsTransitive(a: seq<CvsFile>, b: seq<CvsFile>, c: seq<CvsFile>)
    requires OnlyConfirmations(a, b) && OnlyConfirmations(b, c)
    ensures OnlyConfirmations(a, c)
  {
    forall i | 0 <= i < |a|
      ensures c[i] == a[i] || c[i] == a[i].(revision := c[i].revision, handled := true)
    {
      assert b[i] == a[i] || b[i] == a[i].(revision := b[i].revision, handled := true);
      assert c[i] == b[i] || c[i] == b[i].(revision := c[i].revision, handled := true);
    }
  }

  /**
   * The loop of parse_cvs_checkin_reply and the check after it. Only
   * revisions change, of files marked handled; a result that is not fatal
   * means every file was confirmed; Ok is always Ok(0).
   */
  function CheckinLoop(repoModulePath: string, phase: Phase, files: seq<CvsFile>, input: string)
    : (r: CheckinReply)
    ensures OnlyConfirmations(files, r.files)
    ensures !r.result.Fatal? ==> AllHandled(r.files)
    ensures r.result.Ok? ==> r.result.value == 0
    decreases |input|
  {
    match CheckinStep(repoModulePath, phase, files, input)
    case Continue(phase', files', rest) =>
      var r := CheckinLoop(repoModulePath, phase', files', rest);
      OnlyConfirmationsTransitive(files, files', r.files);
      r
    case Stop(files', result, rest) =>
      var f := if result.Fatal? then result else Finish(files', CheckinComplaint, result);
      CheckinReply(files', f, if f.Fatal? then [] else rest)
  }

  /**
   * The reply to a check-in of `files`. When it is not fatal every file
   * was confirmed; only revisions and handled flags change; its result is
   * Ok(0), or Error for an "error" line or a reply cut short.
   */
  function ParseCvsCheckinReply(repoModulePath: string, files: seq<CvsFile>, input: string): (r: CheckinReply)
    ensures OnlyConfirmations(files, r.files)
    ensures !r.result.Fatal? ==> AllHandled(r.files)
    ensures r.result.Ok? ==> r.result.value == 0
  {
    CheckinLoop(repoModulePath, NeedCheckIn, files, input)
  }

  /** Confirm on the caller's array: cvsfile_find, the revision check, then the file updated in place. */
  method ConfirmOn(files: array<CvsFile>, path: string, newRev: string, oldRev: string) returns (r: Outcome<()>)
    modifies files
    ensures var c := Confirm(old(files[..]), path, newRev, oldRev);
      (c.Fatal? ==> r == Fatal(c.reason) && files[..] == old(files[..])) &&
      (c.Ok? ==> r == Ok(()) && files[..] == c.value)
  {
    var found := FindFile(files, files.Length, path);
    assert files[..files.Length] == files[..];
    if found.None? {
      return Fatal("Checkin file info found for not requested file: " + path);
    }
    var i := found.value;
    if files[i].revision != oldRev && !files[i].isnew {
      return Fatal("Checkin file " + path + " old revision " + files[i].revision + ", but " + oldRev + " is reported");
    }
    files[i] := files[i].(revision := newRev, handled := true);
    return Ok(());
  }

  /** One line of the reply, as CheckinLine, with the files in the caller's array. */
  method CheckinLineOn(files: array<CvsFile>, repoModulePath: string, phase: Phase, line: string)
    returns (r: Outcome<Phase>)
    modifies files
    ensures (r, files[..]) == CheckinLine(repoModulePath, phase, old(files[..]), line)
  {
    var phase1 := phase;
    if EndsEntry(line) {
      if phase != NeedDone {
        return Fatal("skipped file during parsing checkin reply");
      }
      phase1 := NeedCheckIn;
    }
    if !("M " <= line) {
      return Ok(phase1);
    }
    assert line[0] == 'M' && !EndsEntry(line);
    var m := line[2..];
    if !phase1.NeedNewRevision? {
      return MessageLine(repoModulePath, phase1, files[..], m).0;
    }
    var revs := RevisionsOf(m);
    if revs.None? {
      return Ok(phase1);
    }
    var c := ConfirmOn(files, phase1.path, revs.value.0, revs.value.1);
    if c.Fatal? {
      return Fatal(c.reason);
    }
    return Ok(NeedDone);
  }

  /** One pass of the loop, as CheckinStep: None to go on, or the result to stop with. */
  method CheckinRound(t: Transport, files: array<CvsFile>, repoModulePath: string, phase: Phase)
    returns (phase': Phase, stop: Option<Outcome<int>>)
    requires t.Valid()
    modifies t, t.data, files
    ensures Reading(t)
    ensures var s := CheckinStep(repoModulePath, phase, old(files[..]), old(t.Input()));
      files[..] == s.files && (s.Continue? <==> stop.None?) &&
      (s.Continue? ==> phase' == s.phase && t.Input() == s.rest) &&
      (s.Stop? ==> stop == Some(s.result) && (!s.result.Fatal? ==> t.Input() == s.rest))
  {
    ghost var before := files[..];
    var line := t.ReadLine();
    if line.None? {
      return phase, Some(Error);
    }
    ghost var rest := t.Input();
    var o := CheckinLineOn(files, repoModulePath, phase, line.value);
    assert t.Input() == rest;
    StepOfLine(repoModulePath, phase, before, old(t.Input()), line.value, rest);
    if o.Fatal? {
      return phase, Some(Fatal(o.reason));
    }
    phase' := o.value;
    if line.value == "ok" {
      return phase', Some(Ok(0));
    }
    if "error" <= line.value {
      return phase', Some(Error);
    }
    return phase', None;
  }

  /**
   * parse_cvs_checkin_reply: read the reply as ParseCvsCheckinReply
   * describes it, updating the caller's files in place.
   */
  method ParseCheckin(t: Transport, repoModulePath: string, files: array<CvsFile>) returns (r: Outcome<int>)
    requires t.Valid()
    modifies t, t.data, files
    ensures Reading(t)
    ensures var s := ParseCvsCheckinReply(repoModulePath, old(files[..]), old(t.Input()));
      r == s.result && files[..] == s.files && (!r.Fatal? ==> t.Input() == s.rest)
  {
    var phase := NeedCheckIn;
    while true
      invariant t.Valid() && t.data == old(t.data) && t.wrBuf == old(t.wrBuf) && t.sent == old(t.sent)
      invariant CheckinLoop(repoModulePath, phase, files[..], t.Input())
        == ParseCvsCheckinReply(repoModulePath, old(files[..]), old(t.Input()))
      decreases |t.Input()|
    {
      var stop;
      phase, stop := CheckinRound(t, files, repoModulePath, phase);
      if stop.Some? {
        if stop.value.Fatal? {
          return stop.value;
        }
        r := FinishOn(files, CheckinComplaint, stop.value);
        return;
      }
    }
  }

  /** The arrow right after a path without ',' is the first one. */
  lemma ArrowAfter(path: string, name: string)
    requires ',' !in path
    ensures Find(path + Arrow + name, Arrow) == Some(|path|)
  {
    var s := path + Arrow + name;
    assert IsAt(s, Arrow, |path|) by {
      assert s[|path|..|path| + |Arrow|] == Arrow;
    }
    forall j | 0 <= j < |path|
      ensures !IsAt(s, Arrow, j)
    {
      assert s[j] == path[j];
    }
  }

  /** A check-in line about a live file gives the file's path. */
  lemma CheckinPathLive(path: string, name: string)
    requires ',' !in path && Find(path, "Attic/").None?
    ensures CheckinPath(path + Arrow + name) == Some(path)
  {
    ArrowAfter(path, name);
    assert (path + Arrow + name)[..|path|] == path;
  }

  /** A check-in line about a file in the Attic gives the path it had when alive. */
  lemma CheckinPathAttic(dir: string, base: string, name: string)
    requires ',' !in dir + "Attic/" + base
    requires Find(dir + "Attic/" + base, "Attic/") == Some(|dir|)
    ensures CheckinPath(dir + "Attic/" + base + Arrow + name) == Some(dir + base)
  {
    var p := dir + "Attic/" + base;
    ArrowAfter(p, name);
    assert (p + Arrow + name)[..|p|] == p;
    assert p[..|dir|] == dir && p[|dir| + 6..] == base;
  }

  /** A "new revision" value with a previous revision gives both back. */
  lemma NewRevisionOf(newRev: string, oldRev: string)
    requires ';' !in newRev && newRev != "delete"
    ensures NewRevision(newRev + PreviousTag + oldRev) == (newRev, oldRev)
  {
    var buf := newRev + PreviousTag + oldRev;
    assert buf[|newRev|] == ';';
    IndexOfAt(buf, ';', |newRev|);
    assert buf[|newRev|..] == PreviousTag + oldRev;
    assert buf[..|newRev|] == newRev;
  }

  /** A removal's "delete" gives the previous revision plus one. */
  lemma NewRevisionDeleted(oldRev: string)
    ensures NewRevision("delete" + PreviousTag + oldRev) == (DeletedRevision(oldRev), oldRev)
  {
    var buf := "delete" + PreviousTag + oldRev;
    assert buf[6] == ';';
    IndexOfAt(buf, ';', 6);
    assert buf[6..] == PreviousTag + oldRev;
    assert buf[..6] == "delete";
  }

  /** Removing a file at revision prefix.n reports revision prefix.(n+1). */
  lemma DeletedRevisionNumber(prefix: string, n: nat)
    requires n > 0
    ensures DeletedRevision(prefix + "." + NatToString(n)) == prefix + "." + NatToString(n + 1)
  {
    IncRevisionNumber(prefix, n);
  }

  /** A "new revision" line gives what NewRevision reads from the rest of it. */
  lemma RevisionsOfNewRevision(buf: string)
    ensures RevisionsOf(NewRevisionTag + buf) == Some(NewRevision(buf))
  {
    assert (NewRevisionTag + buf)[|NewRevisionTag|..] == buf;
  }

  /** The revisions of a "new revision" line about a changed file. */
  lemma RevisionsOfNew(newRev: string, oldRev: string)
    requires ';' !in newRev && newRev != "delete"
    ensures RevisionsOf(NewRevisionTag + (newRev + PreviousTag + oldRev)) == Some((newRev, oldRev))
  {
    RevisionsOfNewRevision(newRev + PreviousTag + oldRev);
    NewRevisionOf(newRev, oldRev);
  }

  /** The revisions of a "new revision: delete" line about a removed file. */
  lemma RevisionsOfDelete(oldRev: string)
    ensures RevisionsOf(NewRevisionTag + ("delete" + PreviousTag + oldRev)) == Some((DeletedRevision(oldRev), oldRev))
  {
    RevisionsOfNewRevision("delete" + PreviousTag + oldRev);
    NewRevisionDeleted(oldRev);
  }

  /** The revisions of an "initial revision" line about an added file: no previous one. */
  lemma RevisionsOfInitial(newRev: string)
    ensures RevisionsOf(InitialTag + newRev) == Some((newRev, []))
  {
    var m := InitialTag + newRev;
    assert m[1] != NewRevisionTag[1];
    assert m[|InitialTag|..] == newRev;
  }

  /** A "M" line is not "ok", does not start with "error" and ends no entry. */
  lemma MessageIsNotEnd(m: string)
    ensures var line := "M " + m;
      line != "ok" && !("error" <= line) && !EndsEntry(line) && "M " <= line && line[2..] == m
  {
    var line := "M " + m;
    assert line[0] == 'M';
  }

  /** A "M" line read in `phase`: the loop goes on as MessageLine says, unless that is fatal. */
  lemma LoopMessage(repoModulePath: string, phase: Phase, files: seq<CvsFile>, m: string, rest: string)
    requires '\n' !in m
    ensures var (o, files') := MessageLine(repoModulePath, phase, files, m);
      CheckinLoop(repoModulePath, phase, files, Then("M " + m, rest))
      == if o.Fatal? then CheckinReply(files, Fatal(o.reason), [])
         else CheckinLoop(repoModulePath, o.value, files', rest)
  {
    var line := "M " + m;
    assert '\n' !in line by {
      assert forall k :: 2 <= k < |line| ==> line[k] == m[k - 2];
    }
    NextLineOf(line, rest);
    MessageIsNotEnd(m);
    StepOfLine(repoModulePath, phase, files, Then(line, rest), line, rest);
  }

  /** A check-in line below the module path starts the file it names. */
  lemma LoopCheckInLine(repoModulePath: string, files: seq<CvsFile>, rel: string, path: string, rest: string)
    requires CheckinPath(rel) == Some(path) && '\n' !in repoModulePath + rel
    ensures CheckinLoop(repoModulePath, NeedCheckIn, files, Then("M " + (repoModulePath + rel), rest))
      == CheckinLoop(repoModulePath, NeedNewRevision(path), files, rest)
  {
    var m := repoModulePath + rel;
    assert m[|repoModulePath|..] == rel;
    LoopMessage(repoModulePath, NeedCheckIn, files, m, rest);
  }

  /**
   * A revision line about the file awaited: Confirm decides; if it
   * accepts, the loop goes on with the confirmed files, else it is fatal.
   */
  lemma LoopRevisionLine(repoModulePath: string, path: string, files: seq<CvsFile>, m: string,
                         newRev: string, oldRev: string, rest: string)
    requires '\n' !in m && RevisionsOf(m) == Some((newRev, oldRev))
    ensures var c := Confirm(files, path, newRev, oldRev);
      var r := CheckinLoop(repoModulePath, NeedNewRevision(path), files, Then("M " + m, rest));
      (c.Ok? ==> r == CheckinLoop(repoModulePath, NeedDone, c.value, rest)) &&
      (c.Fatal? ==> r == CheckinReply(files, Fatal(c.reason), []))
  {
    LoopMessage(repoModulePath, NeedNewRevision(path), files, m, rest);
  }

  /** A line ending an entry: the next file may start once this one was confirmed. */
  lemma LoopEndOfEntry(repoModulePath: string, files: seq<CvsFile>, line: string, rest: string)
    requires EndsEntry(line) && '\n' !in line
    ensures CheckinLoop(repoModulePath, NeedDone, files, Then(line, rest))
      == CheckinLoop(repoModulePath, NeedCheckIn, files, rest)
  {
    assert line[0] == 'C' || line[0] == 'R';
    NextLineOf(line, rest);
    StepOfLine(repoModulePath, NeedDone, files, Then(line, rest), line, rest);
  }

  /** A line ending an entry before its file was confirmed is fatal. */
  lemma LoopSkipped(repoModulePath: string, phase: Phase, files: seq<CvsFile>, line: string, rest: string)
    requires EndsEntry(line) && '\n' !in line && phase != NeedDone
    ensures CheckinLoop(repoModulePath, phase, files, Then(line, rest))
      == CheckinReply(files, Fatal("skipped file during parsing checkin reply"), [])
  {
    NextLineOf(line, rest);
    StepOfLine(repoModulePath, phase, files, Then(line, rest), line, rest);
  }

  /** "ok" ends the reply: 0 when every file was confirmed, fatal otherwise. */
  lemma LoopOk(repoModulePath: string, phase: Phase, files: seq<CvsFile>, after: string)
    ensures var r := CheckinLoop(repoModulePath, phase, files, Then("ok", after));
      r.files == files && (r.result.Fatal? <==> !AllHandled(files)) &&
      (AllHandled(files) ==> r.result == Ok(0) && r.rest == after)
  {
    NextLineOf("ok", after);
    StepOfLine(repoModulePath, phase, files, Then("ok", after), "ok", after);
    assert CheckinLine(repoModulePath, phase, files, "ok") == (Ok(phase), files);
  }

  /** The reply about one file: its check-in line, its revision line, the line ending its entry, then `rest`. */
  function CheckinBlock(repoModulePath: string, rel: string, revisionLine: string, end: string, rest: string): string
  {
    Then("M " + (repoModulePath + rel), Then("M " + revisionLine, Then(end, rest)))
  }

  /** The lines of a block that the lemmas below read: one line each, with a path and revisions. */
  predicate BlockLines(repoModulePath: string, rel: string, path: string, revisionLine: string,
                       newRev: string, oldRev: string, end: string)
  {
    CheckinPath(rel) == Some(path) && '\n' !in repoModulePath + rel &&
    '\n' !in revisionLine && RevisionsOf(revisionLine) == Some((newRev, oldRev)) &&
    EndsEntry(end) && '\n' !in end
  }

  /**
   * A block about a requested file that is new or whose revision is the
   * reported previous one confirms it: the file takes the new revision
   * and is marked handled, and the loop goes on with the next file.
   */
  lemma LoopConfirmed(repoModulePath: string, files: seq<CvsFile>, i: nat, rel: string, path: string,
                      revisionLine: string, newRev: string, oldRev: string, end: string, rest: string)
    requires BlockLines(repoModulePath, rel, path, revisionLine, newRev, oldRev, end)
    requires FindPath(files, path) == Some(i) && (files[i].isnew || files[i].revision == oldRev)
    ensures CheckinLoop(repoModulePath, NeedCheckIn, files, CheckinBlock(repoModulePath, rel, revisionLine, end, rest))
      == CheckinLoop(repoModulePath, NeedCheckIn, files[i := files[i].(revision := newRev, handled := true)], rest)
  {
    var files' := files[i := files[i].(revision := newRev, handled := true)];
    LoopCheckInLine(repoModulePath, files, rel, path, Then("M " + revisionLine, Then(end, rest)));
    LoopRevisionLine(repoModulePath, path, files, revisionLine, newRev, oldRev, Then(end, rest));
    assert Confirm(files, path, newRev, oldRev) == Ok(files');
    LoopEndOfEntry(repoModulePath, files', end, rest);
  }

  /** Marking the one file not yet handled leaves every file handled. */
  lemma ConfirmLast(files: seq<CvsFile>, i: nat, newRev: string)
    requires i < |files| && forall j :: 0 <= j < |files| && j != i ==> files[j].handled
    ensures AllHandled(files[i := files[i].(revision := newRev, handled := true)])
  {
  }

  /**
   * The reply confirming the one file still awaited, then "ok": that file
   * takes the new revision, every file is handled, and the result is 0.
   */
  lemma CheckinOfOneFile(repoModulePath: string, files: seq<CvsFile>, i: nat, rel: string, path: string,
                         revisionLine: string, newRev: string, oldRev: string, end: string, after: string)
    requires BlockLines(repoModulePath, rel, path, revisionLine, newRev, oldRev, end)
    requires FindPath(files, path) == Some(i) && (files[i].isnew || files[i].revision == oldRev)
    requires forall j :: 0 <= j < |files| && j != i ==> files[j].handled
    ensures ParseCvsCheckinReply(repoModulePath, files,
              CheckinBlock(repoModulePath, rel, revisionLine, end, Then("ok", after)))
      == CheckinReply(files[i := files[i].(revision := newRev, handled := true)], Ok(0), after)
  {
    LoopConfirmed(repoModulePath, files, i, rel, path, revisionLine, newRev, oldRev, end, Then("ok", after));
    ConfirmLast(files, i, newRev);
    LoopOk(repoModulePath, NeedCheckIn, files[i := files[i].(revision := newRev, handled := true)], after);
  }

  /** A revision line about a file that is not new and was at another revision is fatal. */
  lemma CheckinOfStaleFile(repoModulePath: string, files: seq<CvsFile>, i: nat, rel: string, path: string,
                           revisionLine: string, newRev: string, oldRev: string, rest: string)
    requires CheckinPath(rel) == Some(path) && '\n' !in repoModulePath + rel
    requires '\n' !in revisionLine && RevisionsOf(revisionLine) == Some((newRev, oldRev))
    requires FindPath(files, path) == Some(i) && !files[i].isnew && files[i].revision != oldRev
    ensures ParseCvsCheckinReply(repoModulePath, files, Then("M " + (repoModulePath + rel), Then("M " + revisionLine, rest)))
      == CheckinReply(files, Fatal("Checkin file " + path + " old revision " + files[i].revision + ", but "
                                   + oldRev + " is reported"), [])
  {
    LoopCheckInLine(repoModulePath, files, rel, path, Then("M " + revisionLine, rest));
    LoopRevisionLine(repoModulePath, path, files, revisionLine, newRev, oldRev, rest);
  }

  /** A revision line about a file that was not requested is fatal. */
  lemma CheckinOfUnrequestedFile(repoModulePath: string, files: seq<CvsFile>, rel: string, path: string,
                                 revisionLine: string, newRev: string, oldRev: string, rest: string)
    requires CheckinPath(rel) == Some(path) && '\n' !in repoModulePath + rel
    requires '\n' !in revisionLine && RevisionsOf(revisionLine) == Some((newRev, oldRev))
    requires FindPath(files, path).None?
    ensures ParseCvsCheckinReply(repoModulePath, files, Then("M " + (repoModulePath + rel), Then("M " + revisionLine, rest)))
      == CheckinReply(files, Fatal("Checkin file info found for not requested file: " + path), [])
  {
    LoopCheckInLine(repoModulePath, files, rel, path, Then("M " + revisionLine, rest));
    LoopRevisionLine(repoModulePath, path, files, revisionLine, newRev, oldRev, rest);
  }

  /** An entry that ends before the server reported its revision is fatal. */
  lemma CheckinWithoutRevision(repoModulePath: string, files: seq<CvsFile>, rel: string, path: string,
                               end: string, rest: string)
    requires CheckinPath(rel) == Some(path) && '\n' !in repoModulePath + rel
    requires EndsEntry(end) && '\n' !in end
    ensures ParseCvsCheckinReply(repoModulePath, files, Then("M " + (repoModulePath + rel), Then(end, rest)))
      == CheckinReply(files, Fatal("skipped file during parsing checkin reply"), [])
  {
    LoopCheckInLine(repoModulePath, files, rel, path, Then(end, rest));
    LoopSkipped(repoModulePath, NeedNewRevision(path), files, end, rest);
  }
}
