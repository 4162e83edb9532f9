/**
 * The requests that act on a list of files or directories: status (cvs_status),
 * ci (cvs_checkin), tag (cvs_tag) and add (cvs_create_directories). The
 * file requests walk the list in order and announce a file's directory
 * ("Directory <dir>" and its repository path, with "Sticky T<branch>" off
 * HEAD) only when it differs from the previous file's, then describe the
 * file by an Entry line and its state. The add request announces every
 * ancestor of the new directories, sorted and without repetition.
 */
module Requests {
  import opened Wrappers
  import opened Text
  import opened Revision
  import opened Stream
  import opened Files
  import Status
  import Checkin

  /** Where requests point: the repository path, the module, and the module's full path in the repository. */
  datatype RequestContext = RequestContext(repoPath: string, moduleName: string, fullModulePath: string)

  /** "<repository>/<module>": the module's directory as the requests name it. */
  function ModuleRoot(ctx: RequestContext): string
  {
    ctx.repoPath + "/" + ctx.moduleName
  }

  /** A directory of the module in the repository: the module itself for ".". */
  function RepositoryDir(ctx: RequestContext, dir: string): string
  {
    if dir == "." then ModuleRoot(ctx) else ModuleRoot(ctx) + "/" + dir
  }

  /** The sticky tag of a branch other than HEAD. */
  function StickyTag(branch: string): (r: string)
    ensures branch == "HEAD" <==> r == []
  {
    if branch != "HEAD" then "T" + branch else []
  }

  /** The "Sticky" line following a directory, off HEAD. */
  function StickyLines(branch: string): (r: string)
    ensures branch == "HEAD" <==> r == []
  {
    if branch != "HEAD" then "Sticky " + StickyTag(branch) + "\n" else []
  }

  /** A directory announcement: "Directory <dir>", its repository path, then `sticky`. */
  function DirectoryLines(ctx: RequestContext, dir: string, sticky: string): string
  {
    "Directory " + dir + "\n" + RepositoryDir(ctx, dir) + "\n" + sticky
  }

  /** The three requests that describe files one by one. */
  datatype Command = StatusCommand | CheckinCommand | TagCommand

  /** The tag request announces directories without a sticky tag. */
  function DirectorySticky(cmd: Command, branch: string): string
  {
    if cmd == TagCommand then [] else StickyLines(branch)
  }

  /** The revision field of a status Entry: "0" for a dead file or one without a revision. */
  function StatusRevision(f: CvsFile): (r: string)
    ensures !f.isdead && f.revision != [] ==> r == f.revision
    ensures f.isdead || f.revision == [] ==> r == "0"
    ensures r != []
  {
    if !f.isdead && f.revision != [] then f.revision else "0"
  }

  /** The revision field of a check-in Entry: "0" for a file without one, "-<revision>" for a removal. */
  function CheckinRevision(f: CvsFile): (r: string)
    ensures f.isdead ==> r == "-" + f.revision
    ensures !f.isdead ==> r == (if f.revision != [] then f.revision else "0")
  {
    if f.isdead then "-" + f.revision
    else if f.revision != [] then f.revision else "0"
  }

  /** The "Modified" and mode lines of a file a check-in sends. */
  function ModifiedLines(f: CvsFile): string
  {
    "Modified " + Basename(f.path) + "\n" + ModeString(f.isexec) + "\n"
  }

  /** The size line that precedes a modified file's contents. */
  function SizeLine(f: CvsFile): string
  {
    NatToString(|f.file|) + "\n"
  }

  /** The revision field each request puts in a file's Entry line. */
  function SentRevision(cmd: Command, f: CvsFile): string
  {
    match cmd
    case StatusCommand => StatusRevision(f)
    case CheckinCommand => CheckinRevision(f)
    case TagCommand => f.revision
  }

  /** The fields after the revision: keyword expansion -kk and the sticky tag, or none for a tag request. */
  function EntryOptions(cmd: Command, branch: string): string
  {
    if cmd == TagCommand then "//" else "/-kk/" + StickyTag(branch)
  }

  /** The Entry line of a file: its base name, then the revision and options each request uses. */
  function EntryHead(cmd: Command, branch: string, f: CvsFile): string
  {
    "Entry " + EntryLine(Basename(f.path), SentRevision(cmd, f), EntryOptions(cmd, branch)) + "\n"
  }

  /**
   * What follows the Entry line: "Unchanged" (status, tag), "Modified"
   * with the mode, size and contents (check-in of a live file) or
   * nothing (check-in of a removal).
   */
  function EntryTail(cmd: Command, f: CvsFile): string
  {
    var base := Basename(f.path);
    match cmd
    case CheckinCommand =>
      if f.isdead then [] else ModifiedLines(f) + SizeLine(f) + f.file
    case _ => "Unchanged " + base + "\n"
  }

  /** What a request says about one file after its directory. */
  function EntryLines(cmd: Command, branch: string, f: CvsFile): string
  {
    EntryHead(cmd, branch, f) + EntryTail(cmd, f)
  }

  /** One file's lines: its directory's announcement when it is not `dir`, then its entry. */
  function FileChunk(ctx: RequestContext, cmd: Command, branch: string, dir: string, f: CvsFile): string
  {
    DirectoryChange(ctx, cmd, branch, dir, f) + EntryLines(cmd, branch, f)
  }

  /** The announcement of a file's directory, when it is not `dir`. */
  function DirectoryChange(ctx: RequestContext, cmd: Command, branch: string, dir: string, f: CvsFile): string
  {
    var d := Dirname(f.path);
    if d != dir then DirectoryLines(ctx, d, DirectorySticky(cmd, branch)) else []
  }

  /**
   * The lines about `files` after a directory `dir` was announced (the
   * empty string: none yet): each file's chunk, its directory compared
   * with the previous file's.
   */
  function FileLines(ctx: RequestContext, cmd: Command, branch: string, dir: string, files: seq<CvsFile>): string
    decreases |files|
  {
    if files == [] then []
    else FileChunk(ctx, cmd, branch, dir, files[0]) + FileLines(ctx, cmd, branch, Dirname(files[0].path), files[1..])
  }

  /** The directory announced last after `files`. */
  function LastDir(dir: string, files: seq<CvsFile>): string
  {
    if files == [] then dir else Dirname(files[|files| - 1].path)
  }

  /** The directory file `i` is compared with: the previous file's, or `dir` for the first. */
  function PreviousDir(dir: string, files: seq<CvsFile>, i: nat): string
    requires i <= |files|
  {
    if i == 0 then dir else Dirname(files[i - 1].path)
  }

  /** The lines of two runs of files: the second run continues from the last directory of the first. */
  lemma {:induction false} FileLinesAppend(ctx: RequestContext, cmd: Command, branch: string, dir: string,
                                           a: seq<CvsFile>, b: seq<CvsFile>)
    ensures FileLines(ctx, cmd, branch, dir, a + b)
      == FileLines(ctx, cmd, branch, dir, a) + FileLines(ctx, cmd, branch, LastDir(dir, a), b)
    decreases |a|
  {
    if a == [] {
      assert a + b == b;
    } else {
      var d0 := Dirname(a[0].path);
      assert (a + b)[0] == a[0];
      assert (a + b)[1..] == a[1..] + b;
      FileLinesAppend(ctx, cmd, branch, d0, a[1..], b);
      assert LastDir(d0, a[1..]) == LastDir(dir, a);
      Associative(FileChunk(ctx, cmd, branch, dir, a[0]), FileLines(ctx, cmd, branch, d0, a[1..]),
                  FileLines(ctx, cmd, branch, LastDir(dir, a), b));
    }
  }

  /**
   * Where file i stands in the file lines: after the lines of the files
   * before it comes its chunk, which announces its directory exactly when
   * that differs from the previous file's (from `dir` for the first file),
   * then the lines of the files after it.
   */
  lemma FileLinesAt(ctx: RequestContext, cmd: Command, branch: string, dir: string, files: seq<CvsFile>, i: nat)
    requires i < |files|
    ensures FileLines(ctx, cmd, branch, dir, files)
      == FileLines(ctx, cmd, branch, dir, files[..i])
         + FileChunk(ctx, cmd, branch, PreviousDir(dir, files, i), files[i])
         + FileLines(ctx, cmd, branch, Dirname(files[i].path), files[i + 1..])
  {
    assert files == files[..i] + files[i..];
    FileLinesAppend(ctx, cmd, branch, dir, files[..i], files[i..]);
    assert files[i..][0] == files[i];
    assert files[i..][1..] == files[i + 1..];
    assert LastDir(dir, files[..i]) == PreviousDir(dir, files, i);
    Associative(FileLines(ctx, cmd, branch, dir, files[..i]),
                FileChunk(ctx, cmd, branch, PreviousDir(dir, files, i), files[i]),
                FileLines(ctx, cmd, branch, Dirname(files[i].path), files[i + 1..]));
  }

  /** The paths of the files, in order. */
  function Paths(files: seq<CvsFile>): (r: seq<string>)
    ensures |r| == |files| && forall i :: 0 <= i < |files| ==> r[i] == files[i].path
  {
    seq(|files|, i requires 0 <= i < |files| => files[i].path)
  }

  /** The request cvs_status writes: every file unchanged, then the module directory and "status". */
  function StatusRequest(ctx: RequestContext, branch: string, files: seq<CvsFile>): string
  {
    ArgumentLines(["--"]) + FileLines(ctx, StatusCommand, branch, [], files)
    + DirectoryLines(ctx, ".", StickyLines(branch)) + "status\n"
  }

  /** The message, line by line: "Argument" for the first line, "Argumentx" for the others, each right-trimmed. */
  function MessageLine(i: nat, piece: string): string
  {
    (if i == 0 then "Argument " else "Argumentx ") + RTrim(piece) + "\n"
  }

  function MessageLinesFrom(pieces: seq<string>, i: nat): string
    requires i <= |pieces|
    decreases |pieces| - i
  {
    if i == |pieces| then [] else MessageLine(i, pieces[i]) + MessageLinesFrom(pieces, i + 1)
  }

  /** The lines of a message, as strbuf_split_buf cuts it (each piece with its '\n'). */
  function MessagePieces(message: string): seq<string>
  {
    SplitTerminated(message, '\n', 0, 0)
  }

  /** strbuf_split_buf cuts a first line without '\n' off with its '\n'. */
  lemma SplitFirstLine(line: string, rest: string, nr: nat)
    requires '\n' !in line
    ensures SplitTerminated(line + "\n" + rest, '\n', 0, nr) == [line + "\n"] + SplitTerminated(rest, '\n', 0, nr + 1)
  {
    var s := line + "\n" + rest;
    var k := |line|;
    assert s[..k] == line;
    IndexOfAt(s, '\n', k);
    assert s[..k + 1] == line + "\n";
    assert s[k + 1..] == rest;
  }

  /** A last line without '\n' is one piece. */
  lemma SplitLastLine(line: string, nr: nat)
    requires line != [] && '\n' !in line
    ensures SplitTerminated(line, '\n', 0, nr) == [line]
  {
    assert line[..|line|] == line;
    assert line[|line|..] == [];
    assert SplitTerminated([], '\n', 0, nr + 1) == [];
  }

  /** Joined lines are the first, a '\n', and the others joined. */
  lemma JoinFirst(lines: seq<string>)
    requires |lines| >= 2
    ensures Join(lines, '\n') == lines[0] + "\n" + Join(lines[1..], '\n')
  {
  }

  /** Each line with its '\n', but the last. */
  function Terminated(lines: seq<string>): (r: seq<string>)
    requires lines != []
    ensures |r| == |lines|
  {
    if |lines| == 1 then lines else [lines[0] + "\n"] + Terminated(lines[1..])
  }

  /** The pieces of Terminated: line j with its '\n', the last one as it is. */
  lemma {:induction false} TerminatedAt(lines: seq<string>, j: nat)
    requires j < |lines|
    ensures Terminated(lines)[j] == if j == |lines| - 1 then lines[j] else lines[j] + "\n"
  {
    if j > 0 {
      TerminatedAt(lines[1..], j - 1);
    }
  }

  /** strbuf_split_buf on lines joined by '\n': one piece per line, each but the last keeping its '\n'. */
  lemma {:induction false} PiecesOfLines(lines: seq<string>, nr: nat)
    requires lines != [] && lines[|lines| - 1] != []
    requires forall j :: 0 <= j < |lines| ==> '\n' !in lines[j]
    ensures SplitTerminated(Join(lines, '\n'), '\n', 0, nr) == Terminated(lines)
    decreases |lines|
  {
    if |lines| == 1 {
      SplitLastLine(lines[0], nr);
    } else {
      JoinFirst(lines);
      SplitFirstLine(lines[0], Join(lines[1..], '\n'), nr);
      PiecesOfLines(lines[1..], nr + 1);
      assert Terminated(lines) == [lines[0] + "\n"] + Terminated(lines[1..]);
    }
  }

  /** Pieces that trim to the same text as the lines give the same message lines. */
  lemma {:induction false} MessageLinesTrimmed(pieces: seq<string>, lines: seq<string>, i: nat)
    requires |pieces| == |lines| && i <= |lines|
    requires forall j :: 0 <= j < |lines| ==> RTrim(pieces[j]) == RTrim(lines[j])
    ensures MessageLinesFrom(pieces, i) == MessageLinesFrom(lines, i)
    decreases |lines| - i
  {
    if i < |lines| {
      MessageLinesTrimmed(pieces, lines, i + 1);
    }
  }

  /** Trailing blanks and the line's '\n' are trimmed alike. */
  lemma RTrimNewline(line: string)
    ensures RTrim(line + "\n") == RTrim(line)
  {
    assert (line + "\n")[..|line|] == line;
  }

  /**
   * A message of several lines is sent one argument per line, in order,
   * the first as "Argument" and the others as "Argumentx", each without
   * its trailing blanks.
   */
  lemma MessageOfLines(lines: seq<string>)
    requires lines != [] && lines[|lines| - 1] != []
    requires forall j :: 0 <= j < |lines| ==> '\n' !in lines[j]
    ensures MessageLinesFrom(MessagePieces(Join(lines, '\n')), 0) == MessageLinesFrom(lines, 0)
  {
    var pieces := MessagePieces(Join(lines, '\n'));
    PiecesOfLines(lines, 0);
    forall j | 0 <= j < |lines|
      ensures RTrim(pieces[j]) == RTrim(lines[j])
    {
      TerminatedAt(lines, j);
      if j < |lines| - 1 {
        RTrimNewline(lines[j]);
      }
    }
    MessageLinesTrimmed(pieces, lines, 0);
  }

  /** The request cvs_checkin writes: the message, every file, the module directory, the paths, then "ci". */
  function CheckinRequest(ctx: RequestContext, branch: string, message: string, files: seq<CvsFile>): string
  {
    ArgumentLines(["-m"]) + MessageLinesFrom(MessagePieces(message), 0) + ArgumentLines(["--"])
    + FileLines(ctx, CheckinCommand, branch, [], files) + DirectoryLines(ctx, ".", StickyLines(branch))
    + ArgumentLines(Paths(files)) + "ci\n"
  }

  /** The arguments of the tag request: -b for a branch, then the name. */
  function TagArguments(branch: string, istag: bool): (r: seq<string>)
    ensures istag <==> r == ["--", branch]
    ensures !istag <==> r == ["-b", "--", branch]
  {
    (if istag then [] else ["-b"]) + ["--", branch]
  }

  /** The request cvs_tag writes: its arguments, every file, the module directory (never sticky), then "tag". */
  function TagRequest(ctx: RequestContext, branch: string, istag: bool, files: seq<CvsFile>): string
  {
    ArgumentLines(TagArguments(branch, istag)) + FileLines(ctx, TagCommand, branch, [], files)
    + DirectoryLines(ctx, ".", []) + "tag\n"
  }

  /** The rest of a writer's contract: it leaves the reading side alone. */
  twostate predicate Unread(t: Transport)
    reads t
  {
    t.data == old(t.data) && t.buf == old(t.buf) && t.len == old(t.len) && t.incoming == old(t.incoming)
  }

  /** Write a modified file: its mode unflushed, its size flushed, then its contents when there are any. */
  method SendModified(t: Transport, f: CvsFile)
    requires !f.isdead
    modifies t
    ensures t.Output() == old(t.Output()) + EntryTail(CheckinCommand, f)
    ensures Unread(t)
  {
    ghost var out0 := t.Output();
    t.Write(false, ModifiedLines(f));
    t.Write(true, SizeLine(f));
    if f.file != [] {
      t.WriteFull(f.file);
    }
    Associative(out0, ModifiedLines(f), SizeLine(f));
    Associative(out0, ModifiedLines(f) + SizeLine(f), f.file);
  }

  /** Write what a request says about one file. */
  method SendEntry(t: Transport, cmd: Command, branch: string, f: CvsFile)
    modifies t
    ensures t.Output() == old(t.Output()) + EntryLines(cmd, branch, f)
    ensures Unread(t)
  {
    ghost var out0 := t.Output();
    var head := EntryHead(cmd, branch, f);
    t.Write(false, head);
    if cmd == CheckinCommand && !f.isdead {
      SendModified(t, f);
    } else {
      t.Write(false, EntryTail(cmd, f));
    }
    Associative(out0, head, EntryTail(cmd, f));
  }

  /** Write one file's chunk: its directory when it differs from `dir`, then its entry. */
  method SendChunk(t: Transport, ctx: RequestContext, cmd: Command, branch: string, dir: string, f: CvsFile)
    modifies t
    ensures t.Output() == old(t.Output()) + FileChunk(ctx, cmd, branch, dir, f)
    ensures Unread(t)
  {
    ghost var out0 := t.Output();
    var header := DirectoryChange(ctx, cmd, branch, dir, f);
    t.Write(false, header);
    SendEntry(t, cmd, branch, f);
    Associative(out0, header, EntryLines(cmd, branch, f));
  }

  /** One more file: its chunk follows, and its directory becomes the last one announced. */
  lemma FileLinesStep(ctx: RequestContext, cmd: Command, branch: string, files: seq<CvsFile>, i: nat)
    requires i < |files|
    ensures FileLines(ctx, cmd, branch, [], files[..i + 1])
      == FileLines(ctx, cmd, branch, [], files[..i]) + FileChunk(ctx, cmd, branch, LastDir([], files[..i]), files[i])
    ensures LastDir([], files[..i + 1]) == Dirname(files[i].path)
  {
    assert files[..i + 1] == files[..i] + [files[i]];
    FileLinesAppend(ctx, cmd, branch, [], files[..i], [files[i]]);
    FileLinesOne(ctx, cmd, branch, LastDir([], files[..i]), files[i]);
  }

  /** A single file's lines are its chunk. */
  lemma FileLinesOne(ctx: RequestContext, cmd: Command, branch: string, dir: string, f: CvsFile)
    ensures FileLines(ctx, cmd, branch, dir, [f]) == FileChunk(ctx, cmd, branch, dir, f)
  {
    assert FileLines(ctx, cmd, branch, dir, [f]) == FileChunk(ctx, cmd, branch, dir, f) + [];
  }

  /**
   * The file loop of the three file requests: the directory last
   * announced is kept, and a file in another directory announces its own.
   */
  method SendFiles(t: Transport, ctx: RequestContext, cmd: Command, branch: string, files: array<CvsFile>)
    modifies t
    ensures t.Output() == old(t.Output()) + FileLines(ctx, cmd, branch, [], files[..])
    ensures Unread(t)
  {
    ghost var out0 := t.Output();
    var dir: string := [];
    var i := 0;
    while i < files.Length
      invariant i <= files.Length
      invariant dir == LastDir([], files[..i])
      invariant t.Output() == out0 + FileLines(ctx, cmd, branch, [], files[..i])
      invariant Unread(t)
    {
      SendChunk(t, ctx, cmd, branch, dir, files[i]);
      FileLinesStep(ctx, cmd, branch, files[..], i);
      Associative(out0, FileLines(ctx, cmd, branch, [], files[..i]), FileChunk(ctx, cmd, branch, dir, files[i]));
      dir := Dirname(files[i].path);
      i := i + 1;
    }
    assert files[..i] == files[..];
  }

  /** Write the request cvs_status sends, flushed. */
  method SendStatus(t: Transport, ctx: RequestContext, branch: string, files: array<CvsFile>)
    modifies t
    ensures t.Output() == old(t.Output()) + StatusRequest(ctx, branch, files[..])
    ensures t.wrBuf == [] && Unread(t)
  {
    ghost var out0 := t.Output();
    var head := ArgumentLines(["--"]);
    t.Write(false, head);
    SendFiles(t, ctx, StatusCommand, branch, files);
    var tail := DirectoryLines(ctx, ".", StickyLines(branch)) + "status\n";
    t.Write(true, tail);
    Associative(out0 + head, FileLines(ctx, StatusCommand, branch, [], files[..]), tail);
    Associative(head, FileLines(ctx, StatusCommand, branch, [], files[..]), tail);
    Associative(out0, head, FileLines(ctx, StatusCommand, branch, [], files[..]) + tail);
    Associative(head + FileLines(ctx, StatusCommand, branch, [], files[..]), DirectoryLines(ctx, ".", StickyLines(branch)), "status\n");
  }

  /**
   * cvs_status: send the status request for `files`, then read the
   * server's answer with the status parser, which marks each file it
   * reports on.
   */
  method CvsStatus(t: Transport, ctx: RequestContext, branch: string, files: array<CvsFile>) returns (r: Outcome<int>)
    requires t.Valid()
    modifies t, t.data, files
    ensures t.sent == old(t.Output()) + StatusRequest(ctx, branch, old(files[..])) && t.wrBuf == []
    ensures t.Valid()
    ensures var s := Status.ParseUpdateCvsStatus(ctx.fullModulePath, old(files[..]), old(t.Input()));
      r == s.result && files[..] == s.files && (!r.Fatal? ==> t.Input() == s.rest)
  {
    SendStatus(t, ctx, branch, files);
    r := Status.ParseStatus(t, ctx.fullModulePath, files);
  }

  /** Write the message lines: the first after "Argument", the others after "Argumentx". */
  method SendMessage(t: Transport, message: string)
    modifies t
    ensures t.Output() == old(t.Output()) + MessageLinesFrom(MessagePieces(message), 0)
    ensures Unread(t)
  {
    ghost var out0 := t.Output();
    var pieces := MessagePieces(message);
    var i := 0;
    while i < |pieces|
      invariant i <= |pieces|
      invariant t.Output() + MessageLinesFrom(pieces, i) == out0 + MessageLinesFrom(pieces, 0)
      invariant Unread(t)
    {
      ghost var before := t.Output();
      t.Write(false, MessageLine(i, pieces[i]));
      Associative(before, MessageLine(i, pieces[i]), MessageLinesFrom(pieces, i + 1));
      i := i + 1;
    }
  }

  /** Write one "Argument" line per file path. */
  method SendPaths(t: Transport, files: array<CvsFile>)
    modifies t
    ensures t.Output() == old(t.Output()) + ArgumentLines(Paths(files[..]))
    ensures Unread(t)
  {
    ghost var out0 := t.Output();
    var i := 0;
    while i < files.Length
      invariant i <= files.Length
      invariant t.Output() == out0 + ArgumentLines(Paths(files[..i]))
      invariant Unread(t)
    {
      SendArguments(t, out0, Paths(files[..i]), [files[i].path]);
      assert Paths(files[..i]) + [files[i].path] == Paths(files[..i + 1]);
      i := i + 1;
    }
    assert files[..i] == files[..];
  }

  /** Write the request cvs_checkin sends, flushed. */
  method SendCheckin(t: Transport, ctx: RequestContext, branch: string, message: string, files: array<CvsFile>)
    modifies t
    ensures t.Output() == old(t.Output()) + CheckinRequest(ctx, branch, message, files[..])
    ensures t.wrBuf == [] && Unread(t)
  {
    ghost var out0 := t.Output();
    ghost var fs := files[..];
    t.Write(false, ArgumentLines(["-m"]));
    SendMessage(t, message);
    t.Write(false, ArgumentLines(["--"]));
    SendFiles(t, ctx, CheckinCommand, branch, files);
    t.Write(false, DirectoryLines(ctx, ".", StickyLines(branch)));
    SendPaths(t, files);
    t.Write(true, "ci\n");
    CheckinRequestParts(out0, ctx, branch, message, fs);
  }

  /** The pieces SendCheckin writes, one after the other, make up the check-in request. */
  lemma CheckinRequestParts(out0: string, ctx: RequestContext, branch: string, message: string, files: seq<CvsFile>)
    ensures out0 + ArgumentLines(["-m"]) + MessageLinesFrom(MessagePieces(message), 0) + ArgumentLines(["--"])
      + FileLines(ctx, CheckinCommand, branch, [], files) + DirectoryLines(ctx, ".", StickyLines(branch))
      + ArgumentLines(Paths(files)) + "ci\n"
      == out0 + CheckinRequest(ctx, branch, message, files)
  {
    var a := ArgumentLines(["-m"]);
    var b := MessageLinesFrom(MessagePieces(message), 0);
    var c := ArgumentLines(["--"]);
    var d := FileLines(ctx, CheckinCommand, branch, [], files);
    var e := DirectoryLines(ctx, ".", StickyLines(branch));
    var f := ArgumentLines(Paths(files));
    var g := "ci\n";
    assert CheckinRequest(ctx, branch, message, files) == a + b + c + d + e + f + g;
    Associative(out0, a + b + c + d + e + f, g);
    Associative(out0, a + b + c + d + e, f);
    Associative(out0, a + b + c + d, e);
    Associative(out0, a + b + c, d);
    Associative(out0, a + b, c);
    Associative(out0, a, b);
  }

  /**
   * cvs_checkin: send the check-in request with the message and the
   * contents of the modified files, then read the server's confirmations
   * with the check-in parser, which records each file's new revision.
   */
  method CvsCheckin(t: Transport, ctx: RequestContext, branch: string, message: string, files: array<CvsFile>)
    returns (r: Outcome<int>)
    requires t.Valid()
    modifies t, t.data, files
    ensures t.sent == old(t.Output()) + CheckinRequest(ctx, branch, message, old(files[..])) && t.wrBuf == []
    ensures t.Valid()
    ensures var s := Checkin.ParseCvsCheckinReply(Checkin.RepoModulePath(ctx.repoPath, ctx.moduleName), old(files[..]), old(t.Input()));
      r == s.result && files[..] == s.files && (!r.Fatal? ==> t.Input() == s.rest)
  {
    SendCheckin(t, ctx, branch, message, files);
    r := Checkin.ParseCheckin(t, Checkin.RepoModulePath(ctx.repoPath, ctx.moduleName), files);
  }

  /** Write the request cvs_tag sends, flushed. */
  method SendTag(t: Transport, ctx: RequestContext, branch: string, istag: bool, files: array<CvsFile>)
    modifies t
    ensures t.Output() == old(t.Output()) + TagRequest(ctx, branch, istag, files[..])
    ensures t.wrBuf == [] && Unread(t)
  {
    ghost var out0 := t.Output();
    var head := ArgumentLines(TagArguments(branch, istag));
    if !istag {
      t.Write(false, ArgumentLines(["-b"]));
    }
    t.Write(false, ArgumentLines(["--", branch]));
    if !istag {
      ArgumentLinesAppend(["-b"], ["--", branch]);
      assert ["-b"] + ["--", branch] == TagArguments(branch, istag);
      Associative(out0, ArgumentLines(["-b"]), ArgumentLines(["--", branch]));
    }
    SendFiles(t, ctx, TagCommand, branch, files);
    var tail := DirectoryLines(ctx, ".", []) + "tag\n";
    t.Write(true, tail);
    Associative(out0 + head, FileLines(ctx, TagCommand, branch, [], files[..]), tail);
    Associative(head, FileLines(ctx, TagCommand, branch, [], files[..]), tail);
    Associative(out0, head, FileLines(ctx, TagCommand, branch, [], files[..]) + tail);
    Associative(head + FileLines(ctx, TagCommand, branch, [], files[..]), DirectoryLines(ctx, ".", []), "tag\n");
  }

  /**
   * The reply to a tag request: "M " lines are printed and skipped, "ok"
   * gives 0, and an error or the end of the input gives -1.
   */
  function TagReply(input: string): (r: Parsed<int>)
    ensures r.result == Ok(0) || r.result == Error
  {
    var m := ScanM(input, "");
    Parsed(if m.code == 1 then Ok(0) else Error, m.rest)
  }

  /** Any number of "M " lines and then "ok": the tag succeeded, and reading stops after the "ok". */
  lemma TagReplyOk(lines: seq<string>, rest: string)
    requires forall i :: 0 <= i < |lines| ==> '\n' !in lines[i]
    ensures TagReply(MText(lines) + "ok\n" + rest) == Parsed(Ok(0), rest)
  {
    ScanMLines(lines, rest);
  }

  /** An "error" reply fails the tag. */
  lemma TagReplyError(line: string, rest: string)
    requires '\n' !in line && "error" <= line
    ensures TagReply(line + "\n" + rest) == Parsed(Error, rest)
  {
    NextLineOf(line, rest);
  }

  /** Read the tag reply: cvs_getreply_firstmatch on "M " until it gives -1 or 1. */
  method ReadTagReply(t: Transport) returns (r: Outcome<int>)
    requires t.Valid()
    modifies t, t.data
    ensures Reading(t)
    ensures TagReply(old(t.Input())) == Parsed(r, t.Input())
  {
    ghost var m0 := ScanM(t.Input(), "");
    var sb: string := [];
    while true
      invariant Reading(t)
      invariant ScanM(t.Input(), sb).code == m0.code && ScanM(t.Input(), sb).rest == m0.rest
      decreases |t.Input()|
    {
      var code, sb', printed := t.GetReplyFirstMatch("M ", sb);
      if code == -1 {
        return Error;
      } else if code == 1 {
        return Ok(0);
      }
      sb := sb';
    }
  }

  /** cvs_tag: send the tag request for `files`, then read the reply to its end. */
  method CvsTag(t: Transport, ctx: RequestContext, branch: string, istag: bool, files: array<CvsFile>)
    returns (r: Outcome<int>)
    requires t.Valid()
    modifies t, t.data
    ensures t.sent == old(t.Output()) + TagRequest(ctx, branch, istag, files[..]) && t.wrBuf == []
    ensures t.Valid() && TagReply(old(t.Input())) == Parsed(r, t.Input())
  {
    SendTag(t, ctx, branch, istag, files);
    r := ReadTagReply(t);
  }

  /** The text after "Entry " in an Entry line reads back its revision field. */
  lemma EntryParse(name: string, rev: string, rest: string)
    requires '/' !in name && '/' !in rev
    ensures var e := "Entry " + EntryLine(name, rev, rest) + "\n";
      |e| > 6 && e[..6] == "Entry " && ParseEntry(e[6..]) == Some(rev)
  {
    var e := "Entry " + EntryLine(name, rev, rest) + "\n";
    assert e[6..] == EntryLine(name, rev, rest + "\n");
    ParseEntryLine(name, rev, rest + "\n");
  }

  /**
   * The Entry line of a file with a plain path names its base name and
   * carries the revision field the request intends: read back by
   * parse_entry, it gives that field.
   */
  lemma EntryRevision(cmd: Command, branch: string, f: CvsFile)
    requires PlainPath(f.path) && '/' !in f.revision
    ensures |EntryHead(cmd, branch, f)| > 6 && EntryHead(cmd, branch, f)[..6] == "Entry "
    ensures ParseEntry(EntryHead(cmd, branch, f)[6..]) == Some(SentRevision(cmd, f))
  {
    DirnameOfPlain(f.path);
    EntryParse(Basename(f.path), SentRevision(cmd, f), EntryOptions(cmd, branch));
  }

  /**
   * The directories the add request walks for one new directory `d`: `d`
   * and then each dirname of it, up to (and without) the module's ".".
   */
  function Ancestors(d: string): (r: seq<string>)
    requires Relative(d)
    ensures r != [] && r[0] == d
    decreases |d|
  {
    var up := Dirname(d);
    if up == "." then [d]
    else
      DirnameOfRelative(d);
      [d] + Ancestors(up)
  }

  /** Strictly increasing by strcmp: sorted, without repetition. */
  predicate Sorted(list: seq<string>)
  {
    forall i, j :: 0 <= i < j < |list| ==> Less(list[i], list[j])
  }

  /** string_list_insert into a sorted list: `s` goes in its place unless it is there already. */
  function Insert(list: seq<string>, s: string): seq<string>
  {
    if list == [] then [s]
    else if s == list[0] then list
    else if Less(s, list[0]) then [s] + list
    else [list[0]] + Insert(list[1..], s)
  }

  /** Inserting keeps the list sorted, and adds `s` and nothing else. */
  lemma {:induction false} InsertSorted(list: seq<string>, s: string)
    requires Sorted(list)
    ensures Sorted(Insert(list, s))
    ensures forall x :: x in Insert(list, s) <==> x in list || x == s
  {
    if list == [] {
    } else if s == list[0] {
    } else if Less(s, list[0]) {
      var r := [s] + list;
      forall i, j | 0 <= i < j < |r|
        ensures Less(r[i], r[j])
      {
        if i == 0 && j > 1 {
          LessTransitive(s, list[0], list[j - 1]);
        }
      }
    } else {
      LessTotal(s, list[0]);
      InsertSorted(list[1..], s);
      var rest := Insert(list[1..], s);
      var r := [list[0]] + rest;
      forall i, j | 0 <= i < j < |r|
        ensures Less(r[i], r[j])
      {
        if i == 0 {
          assert rest[j - 1] in list[1..] || rest[j - 1] == s;
        }
      }
      assert list == [list[0]] + list[1..];
    }
  }

  /** Insert each of `ds`, in order. */
  function InsertAll(list: seq<string>, ds: seq<string>): seq<string>
    decreases |ds|
  {
    if ds == [] then list else InsertAll(Insert(list, ds[0]), ds[1..])
  }

  /** Inserting several keeps the list sorted, and adds exactly them. */
  lemma {:induction false} InsertAllSorted(list: seq<string>, ds: seq<string>)
    requires Sorted(list)
    ensures Sorted(InsertAll(list, ds))
    ensures forall x :: x in InsertAll(list, ds) <==> x in list || x in ds
    decreases |ds|
  {
    if ds != [] {
      InsertSorted(list, ds[0]);
      InsertAllSorted(Insert(list, ds[0]), ds[1..]);
      assert ds == [ds[0]] + ds[1..];
    }
  }

  /** Every new directory's ancestors, inserted one new directory after the other. */
  function TraversalFrom(list: seq<string>, newDirs: seq<string>): seq<string>
    requires forall i :: 0 <= i < |newDirs| ==> Relative(newDirs[i])
    decreases |newDirs|
  {
    if newDirs == [] then list else TraversalFrom(InsertAll(list, Ancestors(newDirs[0])), newDirs[1..])
  }

  /**
   * The directory traversal list of cvs_create_directories. Sorting it and
   * removing duplicates afterwards changes nothing, as it is sorted
   * without repetition already (TraversalSorted).
   */
  function Traversal(newDirs: seq<string>): seq<string>
    requires forall i :: 0 <= i < |newDirs| ==> Relative(newDirs[i])
  {
    TraversalFrom([], newDirs)
  }

  /** A directory is in some new directory's chain: in the first one's, or in one of the others'. */
  lemma InSomeChain(newDirs: seq<string>, x: string)
    requires forall i :: 0 <= i < |newDirs| ==> Relative(newDirs[i])
    requires newDirs != []
    ensures (exists i :: 0 <= i < |newDirs| && x in Ancestors(newDirs[i])) <==>
      x in Ancestors(newDirs[0]) || exists i :: 0 <= i < |newDirs[1..]| && x in Ancestors(newDirs[1..][i])
  {
    if exists i :: 0 <= i < |newDirs| && x in Ancestors(newDirs[i]) {
      var i :| 0 <= i < |newDirs| && x in Ancestors(newDirs[i]);
      if i > 0 {
        assert x in Ancestors(newDirs[1..][i - 1]);
      }
    }
    if exists i :: 0 <= i < |newDirs[1..]| && x in Ancestors(newDirs[1..][i]) {
      var i :| 0 <= i < |newDirs[1..]| && x in Ancestors(newDirs[1..][i]);
      assert x in Ancestors(newDirs[i + 1]);
    }
  }

  lemma {:induction false} TraversalFromSorted(list: seq<string>, newDirs: seq<string>)
    requires forall i :: 0 <= i < |newDirs| ==> Relative(newDirs[i])
    requires Sorted(list)
    ensures Sorted(TraversalFrom(list, newDirs))
    ensures forall x :: x in TraversalFrom(list, newDirs) <==>
      x in list || exists i :: 0 <= i < |newDirs| && x in Ancestors(newDirs[i])
    decreases |newDirs|
  {
    if newDirs != [] {
      InsertAllSorted(list, Ancestors(newDirs[0]));
      TraversalFromSorted(InsertAll(list, Ancestors(newDirs[0])), newDirs[1..]);
      forall x
        ensures x in TraversalFrom(list, newDirs) <==>
          x in list || exists i :: 0 <= i < |newDirs| && x in Ancestors(newDirs[i])
      {
        InSomeChain(newDirs, x);
      }
    }
  }

  /**
   * The traversal is sorted by strcmp without repetition, and holds exactly
   * the new directories and all their parents below the module.
   */
  lemma TraversalSorted(newDirs: seq<string>)
    requires forall i :: 0 <= i < |newDirs| ==> Relative(newDirs[i])
    ensures Sorted(Traversal(newDirs))
    ensures forall x :: x in Traversal(newDirs) <==> exists i :: 0 <= i < |newDirs| && x in Ancestors(newDirs[i])
  {
    TraversalFromSorted([], newDirs);
  }

  /**
   * The chain is `d` and then each dirname in turn: every directory of
   * it is relative, and its parent follows it unless that parent is the
   * module's ".".
   */
  lemma {:induction false} ParentInAncestors(d: string, x: string)
    requires Relative(d) && x in Ancestors(d)
    ensures Relative(x)
    ensures Dirname(x) != "." ==> Dirname(x) in Ancestors(d)
    decreases |d|
  {
    var up := Dirname(d);
    if up != "." {
      DirnameOfRelative(d);
      assert Ancestors(d) == [d] + Ancestors(up);
      if x != d {
        ParentInAncestors(up, x);
      }
    }
  }

  /** The parent of a directory of the traversal is in it too, and sorts before it. */
  lemma ParentInTraversal(newDirs: seq<string>, x: string)
    requires forall i :: 0 <= i < |newDirs| ==> Relative(newDirs[i])
    requires x in Traversal(newDirs) && Dirname(x) != "."
    ensures Dirname(x) in Traversal(newDirs) && Less(Dirname(x), x)
  {
    TraversalSorted(newDirs);
    var n :| 0 <= n < |newDirs| && x in Ancestors(newDirs[n]);
    ParentInAncestors(newDirs[n], x);
    assert Dirname(x) in Ancestors(newDirs[n]);
    DirnameOfRelative(x);
    LessPrefix(Dirname(x), x);
  }

  /** In a sorted list, what sorts first comes first. */
  lemma SortedOrder(list: seq<string>, i: nat, j: nat)
    requires Sorted(list) && i < |list| && j < |list| && Less(list[i], list[j])
    ensures i < j
  {
    LessIrreflexive(list[j]);
    if i > j {
      LessTransitive(list[j], list[i], list[j]);
    }
  }

  /**
   * Parents come first: a directory of the traversal below another one
   * has that parent earlier in the list, so the server hears of every
   * directory before its subdirectories.
   */
  lemma ParentsFirst(newDirs: seq<string>, j: nat)
    requires forall i :: 0 <= i < |newDirs| ==> Relative(newDirs[i])
    requires j < |Traversal(newDirs)| && Dirname(Traversal(newDirs)[j]) != "."
    ensures exists i :: 0 <= i < j && Traversal(newDirs)[i] == Dirname(Traversal(newDirs)[j])
  {
    var list := Traversal(newDirs);
    ParentInTraversal(newDirs, list[j]);
    TraversalSorted(newDirs);
    var i :| 0 <= i < |list| && list[i] == Dirname(list[j]);
    SortedOrder(list, i, j);
  }

  /** The inner loop of cvs_create_directories: insert `dir` and its parents, as the do-while walks them. */
  method InsertAncestors(list0: seq<string>, d: string) returns (list: seq<string>)
    requires Relative(d)
    ensures list == InsertAll(list0, Ancestors(d))
  {
    var dir := d;
    list := Insert(list0, dir);
    DirnameOfRelative(dir);
    dir := Dirname(dir);
    while dir != "."
      invariant Relative(dir)
      invariant dir != "." ==> InsertAll(list, Ancestors(dir)) == InsertAll(list0, Ancestors(d))
      invariant dir == "." ==> list == InsertAll(list0, Ancestors(d))
      decreases if dir == "." then 0 else |dir| + 1
    {
      list := Insert(list, dir);
      DirnameOfRelative(dir);
      dir := Dirname(dir);
    }
  }

  /** The outer loop of cvs_create_directories: every new directory in turn. */
  method BuildTraversal(newDirs: seq<string>) returns (list: seq<string>)
    requires forall i :: 0 <= i < |newDirs| ==> Relative(newDirs[i])
    ensures list == Traversal(newDirs)
  {
    list := [];
    var i := 0;
    while i < |newDirs|
      invariant i <= |newDirs|
      invariant TraversalFrom(list, newDirs[i..]) == Traversal(newDirs)
    {
      list := InsertAncestors(list, newDirs[i]);
      assert newDirs[i..][1..] == newDirs[i + 1..];
      i := i + 1;
    }
  }

  /** One directory of the traversal: its name and its path in the repository (even for "."), then sticky. */
  function TraversalDirectory(ctx: RequestContext, item: string, sticky: string): (r: string)
    ensures item != "." ==> r == DirectoryLines(ctx, item, sticky)
  {
    "Directory " + item + "\n" + ModuleRoot(ctx) + "/" + item + "\n" + sticky
  }

  /**
   * The traversal as the add request writes it: each directory, preceded
   * by the module directory whenever it does not start with the last
   * directory so preceded (`prefix`, "." at first). The test compares
   * text, not path components.
   */
  function TraversalLines(ctx: RequestContext, sticky: string, items: seq<string>, prefix: string): string
    decreases |items|
  {
    if items == [] then []
    else
      var reset := !(prefix <= items[0]);
      (if reset then DirectoryLines(ctx, ".", sticky) else []) + TraversalDirectory(ctx, items[0], sticky)
      + TraversalLines(ctx, sticky, items[1..], if reset then items[0] else prefix)
  }

  /** The request cvs_create_directories writes. */
  function AddRequest(ctx: RequestContext, branch: string, newDirs: seq<string>): string
    requires forall i :: 0 <= i < |newDirs| ==> Relative(newDirs[i])
  {
    ArgumentLines(["--"]) + TraversalLines(ctx, StickyLines(branch), Traversal(newDirs), ".")
    + DirectoryLines(ctx, ".", StickyLines(branch)) + ArgumentLines(newDirs) + "add\n"
  }

  /** Whether the module directory is announced again before `item`, after the last one so announced. */
  function Reset(prefix: string, item: string): bool
  {
    !(prefix <= item)
  }

  /** The lines for one directory of the traversal, after the last directory `prefix` that reset. */
  function TraversalItem(ctx: RequestContext, sticky: string, prefix: string, item: string): string
  {
    (if Reset(prefix, item) then DirectoryLines(ctx, ".", sticky) else []) + TraversalDirectory(ctx, item, sticky)
  }

  /** The traversal from its i-th directory: that directory's lines, then the rest. */
  lemma TraversalLinesStep(ctx: RequestContext, sticky: string, items: seq<string>, i: nat, prefix: string)
    requires i < |items|
    ensures TraversalLines(ctx, sticky, items[i..], prefix)
      == TraversalItem(ctx, sticky, prefix, items[i])
         + TraversalLines(ctx, sticky, items[i + 1..], if Reset(prefix, items[i]) then items[i] else prefix)
  {
    assert items[i..][1..] == items[i + 1..];
  }

  /** Write one directory of the traversal, and give the prefix for the next. */
  method SendTraversalItem(t: Transport, ctx: RequestContext, sticky: string, prefix: string, item: string)
    returns (prefix': string)
    modifies t
    ensures t.Output() == old(t.Output()) + TraversalItem(ctx, sticky, prefix, item)
    ensures prefix' == if Reset(prefix, item) then item else prefix
    ensures Unread(t)
  {
    ghost var out0 := t.Output();
    var header: string := [];
    prefix' := prefix;
    if Reset(prefix, item) {
      header := DirectoryLines(ctx, ".", sticky);
      t.Write(false, header);
      prefix' := item;
    }
    t.Write(false, TraversalDirectory(ctx, item, sticky));
    Associative(out0, header, TraversalDirectory(ctx, item, sticky));
  }

  /** Write the traversal. */
  method SendTraversal(t: Transport, ctx: RequestContext, sticky: string, items: seq<string>)
    modifies t
    ensures t.Output() == old(t.Output()) + TraversalLines(ctx, sticky, items, ".")
    ensures Unread(t)
  {
    ghost var out0 := t.Output();
    var prefix := ".";
    var i := 0;
    while i < |items|
      invariant i <= |items|
      invariant t.Output() + TraversalLines(ctx, sticky, items[i..], prefix) == out0 + TraversalLines(ctx, sticky, items, ".")
      invariant Unread(t)
    {
      ghost var before := t.Output();
      TraversalLinesStep(ctx, sticky, items, i, prefix);
      ghost var item := TraversalItem(ctx, sticky, prefix, items[i]);
      prefix := SendTraversalItem(t, ctx, sticky, prefix, items[i]);
      Associative(before, item, TraversalLines(ctx, sticky, items[i + 1..], prefix));
      i := i + 1;
    }
  }

  /** Five pieces written one after the other. */
  lemma Sequence5(out0: string, a: string, b: string, c: string, d: string, e: string)
    ensures out0 + a + b + c + d + e == out0 + (a + b + c + d + e)
  {
    Associative(out0, a + b + c + d, e);
    Associative(out0, a + b + c, d);
    Associative(out0, a + b, c);
    Associative(out0, a, b);
  }

  /** Write the add request, flushed. */
  method SendAdd(t: Transport, ctx: RequestContext, branch: string, newDirs: seq<string>)
    requires forall i :: 0 <= i < |newDirs| ==> Relative(newDirs[i])
    modifies t
    ensures t.Output() == old(t.Output()) + AddRequest(ctx, branch, newDirs)
    ensures t.wrBuf == [] && Unread(t)
  {
    ghost var out0 := t.Output();
    var sticky := StickyLines(branch);
    var head := ArgumentLines(["--"]);
    t.Write(false, head);
    var items := BuildTraversal(newDirs);
    SendTraversal(t, ctx, sticky, items);
    var top := DirectoryLines(ctx, ".", sticky);
    t.Write(false, top);
    var args := ArgumentLines(newDirs);
    t.Write(false, args);
    t.Write(true, "add\n");
    Sequence5(out0, head, TraversalLines(ctx, sticky, items, "."), top, args, "add\n");
  }

  /**
   * The reply to an add request, read by cvs_getreply up to "ok": 0 when
   * the reply ends with "ok", -1 on an error or the end of the input.
   */
  function AddReply(input: string): (r: Parsed<int>)
    ensures r.result == Ok(0) || r.result == Error
  {
    var s := ScanReply(input, "ok", [], false);
    Parsed(if s.code == 0 then Ok(0) else Error, s.rest)
  }

  /** The server's "M " lines about the new directories, then "ok": the directories were added. */
  lemma {:induction false} AddReplyScan(lines: seq<string>, sb: string, rest: string)
    requires forall i :: 0 <= i < |lines| ==> '\n' !in lines[i]
    ensures var s := ScanReply(MText(lines) + "ok\n" + rest, "ok", sb, false); s.code == 0 && s.rest == rest
    decreases |lines|
  {
    if lines == [] {
      assert MText(lines) + "ok\n" + rest == "ok" + "\n" + rest;
      NextLineOf("ok", rest);
    } else {
      var tail := MText(lines[1..]) + "ok\n" + rest;
      var line := "M " + lines[0];
      assert MText(lines) + "ok\n" + rest == line + "\n" + tail;
      NextLineOf(line, tail);
      assert !("ok" <= line) && !("error" <= line) && line != "ok";
      AddReplyScan(lines[1..], sb, rest);
    }
  }

  /** Any number of "M " lines and then "ok": the add succeeded, and reading stops after the "ok". */
  lemma AddReplyOk(lines: seq<string>, rest: string)
    requires forall i :: 0 <= i < |lines| ==> '\n' !in lines[i]
    ensures AddReply(MText(lines) + "ok\n" + rest) == Parsed(Ok(0), rest)
  {
    AddReplyScan(lines, [], rest);
  }

  /** An "error" reply fails the add. */
  lemma AddReplyError(line: string, rest: string)
    requires '\n' !in line && "error" <= line
    ensures AddReply(line + "\n" + rest).result == Error
  {
    NextLineOf(line, rest);
    assert !("ok" <= line) && line != "ok";
  }

  /**
   * cvs_create_directories: announce every new directory and its parents
   * to the server, sorted, then ask it to add the new directories.
   */
  method CvsCreateDirectories(t: Transport, ctx: RequestContext, branch: string, newDirs: seq<string>)
    returns (r: Outcome<int>)
    requires t.Valid()
    requires forall i :: 0 <= i < |newDirs| ==> Relative(newDirs[i])
    modifies t, t.data
    ensures t.sent == old(t.Output()) + AddRequest(ctx, branch, newDirs) && t.wrBuf == []
    ensures t.Valid() && AddReply(old(t.Input())) == Parsed(r, t.Input())
  {
    SendAdd(t, ctx, branch, newDirs);
    var code, reply, printed := t.GetReply("ok", []);
    if code != 0 {
      return Error;
    }
    return Ok(0);
  }
}
