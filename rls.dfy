/**
 * The rlist reply parser (parse_cvs_rls) and its request (cvs_rls): the
 * server lists each directory of the module as "<module>/<dir>:" followed
 * by one "/name/revision/date/..." entry line per file and an empty line.
 */
module Rls {
  import opened Wrappers
  import opened Text
  import opened Stream

  /** The -d argument, when dead revisions are wanted. */
  function DeadArguments(showDead: bool): seq<string>
  {
    if showDead then ["-d"] else []
  }

  /** The arguments cvs_rls sends: -e and -R, then the optional -d, -r and -D, then the module. */
  function RlsArguments(branch: Option<string>, showDead: bool, date: Option<string>, moduleName: string): (r: seq<string>)
    ensures |r| >= 4 && r[..2] == ["-e", "-R"] && r[|r| - 2..] == ["--", moduleName]
    ensures showDead <==> r[2] == "-d"
  {
    ["-e", "-R"] + DeadArguments(showDead) + BranchArguments(branch) + DateArguments(date) + ["--", moduleName]
  }

  /** HEAD is the default branch: asking for it sends no -r argument. */
  lemma RlsHeadBranch(showDead: bool, date: Option<string>, moduleName: string)
    ensures RlsArguments(Some("HEAD"), showDead, date, moduleName) == RlsArguments(None, showDead, date, moduleName)
  {
  }

  /** The request cvs_rls writes: its arguments and the rlist command. */
  function RlsRequest(branch: Option<string>, showDead: bool, date: Option<string>, moduleName: string): string
  {
    ArgumentLines(RlsArguments(branch, showDead, date, moduleName)) + "rlist\n"
  }

  /**
   * cvs_rls's request on the connection (`date` is the rendered date):
   * the arguments are buffered, the module argument and the command flush.
   */
  method SendRls(t: Transport, branch: Option<string>, showDead: bool, date: Option<string>, moduleName: string)
    modifies t
    ensures t.Output() == old(t.Output()) + RlsRequest(branch, showDead, date, moduleName)
    ensures t.wrBuf == []
    ensures t.data == old(t.data) && t.buf == old(t.buf) && t.len == old(t.len) && t.incoming == old(t.incoming)
  {
    ghost var out0 := t.Output();
    ghost var args: seq<string> := ["-e", "-R"];
    t.Write(false, ArgumentLines(["-e", "-R"]));
    if showDead {
      SendArguments(t, out0, args, DeadArguments(showDead));
    }
    args := Extend(args, DeadArguments(showDead));
    if branch.Some? && branch.value != "HEAD" {
      SendArguments(t, out0, args, BranchArguments(branch));
    }
    args := Extend(args, BranchArguments(branch));
    if date.Some? {
      SendArguments(t, out0, args, DateArguments(date));
    }
    args := Extend(args, DateArguments(date));
    var last := ArgumentLines(["--", moduleName]) + "rlist\n";
    t.Write(true, last);
    ArgumentLinesAppend(args, ["--", moduleName]);
    Associative(out0, ArgumentLines(args), last);
    Associative(ArgumentLines(args), ArgumentLines(["--", moduleName]), "rlist\n");
  }

  /** The parser states: waiting for a directory line, or reading its entries. */
  datatype RlsPhase = NeedDir | NeedFiles

  /** The state and the current directory, relative to the module ("" or ending in '/'). */
  datatype RlsState = RlsState(phase: RlsPhase, dir: string)

  /** One call of the on_rev_fn_t callback: a file, its revision and its date. */
  datatype RlsEntry = RlsEntry(path: string, revision: string, timestamp: int)

  /** A directory prefix: empty, or ending in '/'. */
  predicate DirPrefix(dir: string)
  {
    dir == [] || dir[|dir| - 1] == '/'
  }

  /**
   * A directory line "<module>/<dir>:": the directory relative to the
   * module with a trailing '/', or "" for the module itself.
   */
  function DirectoryLine(moduleName: string, line: string): (r: Outcome<string>)
    requires line != []
    ensures !r.Error?
    ensures r.Fatal? <==> line[0] == '/' || !EndsWith(line, ":") || !(moduleName <= line) || |line| == |moduleName|
    ensures r.Ok? ==> DirPrefix(r.value)
  {
    if line[0] == '/' || !EndsWith(line, ":") then
      Fatal("cvs rls parse failed: waiting for directory, got: " + line)
    else if !(moduleName <= line) || |line| == |moduleName| then
      Fatal("cvs rls directory does not contain module path: " + line)
    else
      var d := line[|moduleName|..|line| - 1];
      Ok(if d == [] then [] else CompleteLine(d[1..], '/'))
  }

  /** The module's own directory line gives "", a sub-directory's gives its path and a '/'. */
  lemma DirectoryLineOf(moduleName: string, sub: string)
    requires moduleName != [] && moduleName[0] != '/'
    ensures DirectoryLine(moduleName, moduleName + ":") == Ok([])
    ensures DirectoryLine(moduleName, moduleName + "/" + sub + ":") == Ok(CompleteLine(sub, '/'))
  {
    var top := moduleName + ":";
    assert top[..|moduleName|] == moduleName && top[|moduleName|..|top| - 1] == [];
    var line := moduleName + "/" + sub + ":";
    assert line[..|moduleName|] == moduleName;
    assert line[|moduleName|..|line| - 1] == "/" + sub;
    assert ("/" + sub)[1..] == sub;
  }

  /**
   * An entry line "/name/revision/date/...": the file is `dir` followed by
   * the name, and the date goes through entry_date_to_unixtime (`date`).
   */
  function EntryLine(dir: string, date: string -> int, line: string): (r: Outcome<RlsEntry>)
    requires line != [] && line[0] == '/'
    ensures !r.Error?
    ensures r.Ok? ==> dir <= r.value.path && '/' !in r.value.path[|dir|..] && '/' !in r.value.revision
  {
    var s := line[1..];
    match IndexOf(s, '/')
    case None => Fatal("malformed file entry: " + line)
    case Some(i) =>
      var rest := s[i + 1..];
      match IndexOf(rest, '/')
      case None => Fatal("malformed rev entry: " + rest)
      case Some(j) =>
        var after := rest[j + 1..];
        match IndexOf(after, '/')
        case None => Fatal("malformed date entry: " + after)
        case Some(k) =>
          assert (dir + s[..i])[|dir|..] == s[..i];
          Ok(RlsEntry(dir + s[..i], rest[..j], date(after[..k])))
  }

  /** The first '/' of `x/rest` is the one after a slash-free `x`. */
  lemma SlashAfter(x: string, rest: string)
    requires '/' !in x
    ensures var s := x + "/" + rest;
      IndexOf(s, '/') == Some(|x|) && s[..|x|] == x && s[|x| + 1..] == rest
  {
    var s := x + "/" + rest;
    assert s[|x|] == '/' && s[..|x|] == x;
    IndexOfAt(s, '/', |x|);
  }

  /** An entry line reads back the name, revision and date it was written with. */
  lemma EntryLineOf(dir: string, date: string -> int, name: string, rev: string, d: string, rest: string)
    requires '/' !in name && '/' !in rev && '/' !in d
    ensures EntryLine(dir, date, "/" + name + "/" + rev + "/" + d + "/" + rest) == Ok(RlsEntry(dir + name, rev, date(d)))
  {
    var line := "/" + name + "/" + rev + "/" + d + "/" + rest;
    var r2 := d + "/" + rest;
    var r1 := rev + "/" + r2;
    var s := name + "/" + r1;
    assert line[1..] == s;
    SlashAfter(name, r1);
    SlashAfter(rev, r2);
    SlashAfter(d, rest);
  }

  /** One line of parse_cvs_rls: the new state and the reported entry, if any. */
  function RlsStep(moduleName: string, date: string -> int, st: RlsState, line: string): (r: Outcome<(RlsState, Option<RlsEntry>)>)
    ensures !r.Error?
    ensures r.Ok? && DirPrefix(st.dir) ==> DirPrefix(r.value.0.dir)
    ensures r.Ok? && r.value.1.Some? ==> st.phase == NeedFiles && r.value.0 == st && line != [] && line[0] == '/'
    ensures line == [] ==> r == Ok((st.(phase := NeedDir), None))
    ensures line != [] && st.phase == NeedDir ==>
      (r.Ok? <==> DirectoryLine(moduleName, line).Ok?) &&
      (r.Ok? ==> r.value == (RlsState(NeedFiles, DirectoryLine(moduleName, line).value), None))
    ensures line != [] && st.phase == NeedFiles && line[0] != '/' ==> r == Ok((st, None))
    ensures line != [] && st.phase == NeedFiles && line[0] == '/' ==>
      (r.Ok? <==> EntryLine(st.dir, date, line).Ok?) &&
      (r.Ok? ==> r.value == (st, Some(EntryLine(st.dir, date, line).value)))
  {
    if line == [] then Ok((st.(phase := NeedDir), None))
    else
      match st.phase
      case NeedDir =>
        (match DirectoryLine(moduleName, line)
         case Ok(d) => Ok((RlsState(NeedFiles, d), None))
         case Error => Error
         case Fatal(m) => Fatal(m))
      case NeedFiles =>
        if line[0] != '/' then Ok((st, None))
        else
          (match EntryLine(st.dir, date, line)
           case Ok(e) => Ok((st, Some(e)))
           case Error => Error
           case Fatal(m) => Fatal(m))
  }

  /** The entries reported so far and how the parse stands. */
  datatype RlsRun = RlsRun(entries: seq<RlsEntry>, outcome: Outcome<RlsState>)

  /** The parser over a sequence of "M " texts; a fatal line stops it. */
  function RlsLines(moduleName: string, date: string -> int, lines: seq<string>, st: RlsState): (r: RlsRun)
    ensures !r.outcome.Error?
    ensures |r.entries| <= |lines|
    ensures DirPrefix(st.dir) && r.outcome.Ok? ==> DirPrefix(r.outcome.value.dir)
    decreases |lines|
  {
    if lines == [] then RlsRun([], Ok(st))
    else
      match RlsStep(moduleName, date, st, lines[0])
      case Ok((next, e)) =>
        var rest := RlsLines(moduleName, date, lines[1..], next);
        RlsRun((if e.Some? then [e.value] else []) + rest.entries, rest.outcome)
      case Error => RlsRun([], Error)
      case Fatal(m) => RlsRun([], Fatal(m))
  }

  /** The reply is parsed line by line: a prefix that ends in state `mid`
    * reports its entries, and the rest of the lines continue from `mid`. */
  lemma {:induction false} RlsLinesAppend(moduleName: string, date: string -> int, l1: seq<string>, l2: seq<string>, st: RlsState)
    ensures var a := RlsLines(moduleName, date, l1, st);
      a.outcome.Ok? ==>
        var b := RlsLines(moduleName, date, l2, a.outcome.value);
        RlsLines(moduleName, date, l1 + l2, st) == RlsRun(a.entries + b.entries, b.outcome)
    ensures !RlsLines(moduleName, date, l1, st).outcome.Ok? ==>
      RlsLines(moduleName, date, l1 + l2, st) == RlsLines(moduleName, date, l1, st)
    decreases |l1|
  {
    if l1 == [] {
      assert l1 + l2 == l2;
    } else {
      var l := l1 + l2;
      assert l[0] == l1[0] && l[1..] == l1[1..] + l2;
      var step := RlsStep(moduleName, date, st, l1[0]);
      if step.Ok? {
        var (next, e) := step.value;
        RlsLinesAppend(moduleName, date, l1[1..], l2, next);
        var first := if e.Some? then [e.value] else [];
        var a := RlsLines(moduleName, date, l1[1..], next);
        if a.outcome.Ok? {
          var b := RlsLines(moduleName, date, l2, a.outcome.value);
          assert first + a.entries + b.entries == first + (a.entries + b.entries);
        }
      }
    }
  }

  /** The reported entries and the outcome of a whole rlist reply. */
  datatype RlsResult = RlsResult(entries: seq<RlsEntry>, outcome: Outcome<()>)

  /** The state parse_cvs_rls starts in. */
  const RlsStart := RlsState(NeedDir, [])

  /**
   * parse_cvs_rls over the server's input: the "M " lines up to "ok" go
   * through the parser; an "error" line or the end of the stream gives -1
   * after the entries reported so far.
   */
  function RlsReply(moduleName: string, date: string -> int, input: string): (r: RlsResult)
    ensures r.outcome.Ok? <==> ScanM(input, "").code == 1 && RlsLines(moduleName, date, ScanM(input, "").lines, RlsStart).outcome.Ok?
    ensures r.entries == RlsLines(moduleName, date, ScanM(input, "").lines, RlsStart).entries
  {
    var m := ScanM(input, "");
    var run := RlsLines(moduleName, date, m.lines, RlsStart);
    match run.outcome
    case Fatal(msg) => RlsResult(run.entries, Fatal(msg))
    case Error => RlsResult(run.entries, Error)
    case Ok(_) => RlsResult(run.entries, if m.code == -1 then Error else Ok(()))
  }

  /**
   * A reply naming one sub-directory of the module and one file in it,
   * then "ok", reports exactly that file, with its revision and date, and
   * succeeds.
   */
  lemma RlsReplyOneEntry(moduleName: string, date: string -> int, sub: string,
                         name: string, rev: string, d: string, fields: string, after: string)
    requires moduleName != [] && moduleName[0] != '/'
    requires '\n' !in moduleName && '\n' !in sub
    requires '/' !in name && '/' !in rev && '/' !in d
    requires '\n' !in name && '\n' !in rev && '\n' !in d && '\n' !in fields
    ensures RlsReply(moduleName, date,
              MText([moduleName + "/" + sub + ":", "/" + name + "/" + rev + "/" + d + "/" + fields]) + "ok\n" + after)
         == RlsResult([RlsEntry(CompleteLine(sub, '/') + name, rev, date(d))], Ok(()))
  {
    var dirLine := moduleName + "/" + sub + ":";
    var entryLine := "/" + name + "/" + rev + "/" + d + "/" + fields;
    var lines := [dirLine, entryLine];
    assert '\n' !in dirLine && '\n' !in entryLine;
    ScanMLines(lines, after);
    DirectoryLineOf(moduleName, sub);
    var dir := CompleteLine(sub, '/');
    EntryLineOf(dir, date, name, rev, d, fields);
    var st := RlsState(NeedFiles, dir);
    var e := RlsEntry(dir + name, rev, date(d));
    assert RlsStep(moduleName, date, RlsStart, dirLine) == Ok((st, None));
    assert RlsStep(moduleName, date, st, entryLine) == Ok((st, Some(e)));
    assert lines[1..] == [entryLine] && lines[1..][1..] == [];
    assert RlsLines(moduleName, date, [entryLine], st) == RlsRun([e], Ok(st));
    assert RlsLines(moduleName, date, lines, RlsStart) == RlsRun([e], Ok(st));
  }

  /** The entries of a line, before those of the lines after it. */
  function Reported(e: Option<RlsEntry>, run: RlsRun): RlsRun
  {
    RlsRun((if e.Some? then [e.value] else []) + run.entries, run.outcome)
  }

  /**
   * One round of parse_cvs_rls's loop: read up to the next "M " line and,
   * when there is one, feed it to the parser.
   */
  method RlsRound(t: Transport, moduleName: string, date: string -> int, st: RlsState, reply: string)
    returns (code: int, line: string, out: Outcome<(RlsState, Option<RlsEntry>)>)
    requires t.Valid()
    modifies t, t.data
    ensures t.Valid() && t.data == old(t.data)
    ensures var m := ScanM(old(t.Input()), reply);
      code != 0 ==> m.lines == [] && m.code == code
    ensures code == 0 ==> |t.Input()| < |old(t.Input())|
    ensures code == 0 ==> ScanM(t.Input(), line).code == ScanM(old(t.Input()), reply).code
    ensures var run := RlsLines(moduleName, date, ScanM(old(t.Input()), reply).lines, st);
      code == 0 && out.Fatal? ==> run == RlsRun([], Fatal(out.reason))
    ensures var run := RlsLines(moduleName, date, ScanM(old(t.Input()), reply).lines, st);
      code == 0 && !out.Fatal? ==>
        out.Ok? && run == Reported(out.value.1, RlsLines(moduleName, date, ScanM(t.Input(), line).lines, out.value.0))
  {
    ghost var before := t.Input();
    var printed;
    code, line, printed := t.GetReplyFirstMatch("M ", reply);
    out := Error;
    if code != 0 {
      return;
    }
    ghost var tail := ScanM(t.Input(), line).lines;
    assert ScanM(before, reply).lines == [line] + tail;
    assert ([line] + tail)[1..] == tail;
    out := RlsStep(moduleName, date, st, line);
  }

  /**
   * parse_cvs_rls on the connection: "M " lines are read one at a time and
   * fed to the parser until "ok", an "error" line or the end of the
   * stream; what it reports and returns is what RlsReply gives for the input.
   */
  method ParseRls(t: Transport, moduleName: string, date: string -> int) returns (entries: seq<RlsEntry>, r: Outcome<()>)
    requires t.Valid()
    modifies t, t.data
    ensures t.Valid() && t.data == old(t.data)
    ensures RlsReply(moduleName, date, old(t.Input())) == RlsResult(entries, r)
  {
    ghost var m0 := ScanM(t.Input(), "");
    ghost var run0 := RlsLines(moduleName, date, m0.lines, RlsStart);
    var st := RlsStart;
    var reply := "";
    entries := [];
    while true
      invariant t.Valid() && t.data == old(t.data)
      invariant ScanM(t.Input(), reply).code == m0.code
      invariant var run := RlsLines(moduleName, date, ScanM(t.Input(), reply).lines, st);
        run0 == RlsRun(entries + run.entries, run.outcome)
      decreases |t.Input()|
    {
      var code, line, out := RlsRound(t, moduleName, date, st, reply);
      if code == -1 {
        assert entries + [] == entries;
        return entries, Error;
      } else if code == 1 {
        break;
      }
      match out {
        case Error =>
          assert false;
        case Fatal(msg) =>
          assert entries + [] == entries;
          return entries, Fatal(msg);
        case Ok((st', e)) =>
          var reported := if e.Some? then [e.value] else [];
          ghost var rest := RlsLines(moduleName, date, ScanM(t.Input(), line).lines, st').entries;
          Associative(entries, reported, rest);
          entries := entries + reported;
          st := st';
      }
      reply := line;
    }
    assert entries + [] == entries;
    r := Ok(());
  }
}
