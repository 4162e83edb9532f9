/**
 * The rlog reply parser (parse_cvs_rlog) and the branch lookup of a single
 * revision (cvs_get_rev_branch): state machines over the text of the
 * server's "M " lines.
 */
module Rlog {
  import opened Wrappers
  import opened Text
  import opened Revision
  import opened SymbolTable
  import opened Stream

  /** The line between two revisions of a file. */
  const LogBoundary: string := "----------------------------"

  /** The line after the last revision of a file: 77 '=' characters. */
  const FileBoundary: string := Repeat('=', 77)

  /** `n` copies of `c`. */
  function Repeat(c: char, n: nat): (r: string)
    ensures |r| == n && forall i :: 0 <= i < n ==> r[i] == c
  {
    if n == 0 then [] else [c] + Repeat(c, n - 1)
  }

  /** The parser states, in the order of their C numbers. */
  datatype Phase = NeedRcsFile | NeedWorkingFile | NeedSyms | NeedEos | NeedStartLog
                 | NeedRevision | NeedDateAuthorState | NeedEom | SkipLines

  /** The number the source prints for a state. */
  function PhaseNumber(p: Phase): (n: nat)
    ensures n <= 8
    ensures n == 0 <==> p == NeedRcsFile
  {
    match p
    case NeedRcsFile => 0
    case NeedWorkingFile => 1
    case NeedSyms => 2
    case NeedEos => 3
    case NeedStartLog => 4
    case NeedRevision => 5
    case NeedDateAuthorState => 6
    case NeedEom => 7
    case SkipLines => 8
  }

  /** One call of the add_rev_fn_t callback: a revision of a file. */
  datatype Event = Event(branch: string, path: string, revision: string, author: string,
                         message: string, timestamp: int, isDead: bool)

  /**
   * What parse_cvs_rlog takes from its caller: the full module path of the
   * connection, whether branch and tag lists are wanted, and date_to_unixtime
   * (0 for a date it cannot read).
   */
  datatype RlogContext = RlogContext(fullModulePath: string, wantBranches: bool, wantTags: bool,
                                     date: string -> int)

  /**
   * The parser's variables apart from the per-file symbol table: the state,
   * the current file, revision, branch, author, message, timestamp and
   * dead flag, have_log, skip_unknown, and the branch and tag hash tables
   * (hash_str value to name).
   */
  datatype RlogState = RlogState(phase: Phase, file: string, revision: string, branch: string,
                                 author: string, message: string, timestamp: int, isDead: bool,
                                 haveLog: bool, skipUnknown: bool,
                                 branchHash: map<nat, string>, tagHash: map<nat, string>)

  const Start := RlogState(NeedRcsFile, "", "", "", "", "", 0, false, false, false, map[], map[])

  /**
   * The path an RCS file name stands for: ",v" dropped, the first "/Attic"
   * removed, then the full module path cut off the front.
   */
  function RcsPath(fullModulePath: string, file: string): (r: Outcome<string>)
    ensures !r.Error?
    ensures r.Fatal? <==> !EndsWith(file, ",v") || |file| - 2 - (if Find(file[..|file| - 2], "/Attic/").Some? then 6 else 0) < |fullModulePath|
  {
    if !EndsWith(file, ",v") then Fatal("RCS file name does not end with ,v")
    else
      var f := file[..|file| - 2];
      var g := match Find(f, "/Attic/") case None => f case Some(k) => f[..k] + f[k + 6..];
      if |g| < |fullModulePath| then Fatal("strbuf_remove: range is outside the buffer")
      else Ok(g[|fullModulePath|..])
  }

  /** A live file's RCS name gives its path below the module. */
  lemma RcsPathLive(fullModulePath: string, path: string)
    requires Find(fullModulePath + path, "/Attic/").None?
    ensures RcsPath(fullModulePath, fullModulePath + path + ",v") == Ok(path)
  {
    var file := fullModulePath + path + ",v";
    assert file[..|file| - 2] == fullModulePath + path;
    assert (fullModulePath + path)[|fullModulePath|..] == path;
  }

  /** A file in the Attic is reported at the path it had when alive. */
  lemma RcsPathAttic(fullModulePath: string, dir: string, name: string)
    requires forall j :: 0 <= j < |fullModulePath| + |dir| ==> !IsAt(fullModulePath + dir + "/Attic/" + name, "/Attic/", j)
    ensures RcsPath(fullModulePath, fullModulePath + dir + "/Attic/" + name + ",v") == Ok(dir + "/" + name)
  {
    var f := fullModulePath + dir + "/Attic/" + name;
    var file := f + ",v";
    var k := |fullModulePath| + |dir|;
    assert file[..|file| - 2] == f;
    assert EndsWith(file, ",v");
    AtticFound(f, k);
    AtticDropped(fullModulePath, dir, name);
  }

  /** The first "/Attic/" is the one at `k` when none starts before it. */
  lemma AtticFound(f: string, k: nat)
    requires IsAt(f, "/Attic/", k)
    requires forall j :: 0 <= j < k ==> !IsAt(f, "/Attic/", j)
    ensures Find(f, "/Attic/") == Some(k)
  {
    var found := Find(f, "/Attic/");
    assert found.Some? && found.value >= k;
  }

  /** Removing "/Attic" leaves the directory, '/' and the name. */
  lemma AtticDropped(fullModulePath: string, dir: string, name: string)
    ensures var f := fullModulePath + dir + "/Attic/" + name;
      var k := |fullModulePath| + |dir|;
      IsAt(f, "/Attic/", k) && f[..k] + f[k + 6..] == fullModulePath + (dir + "/" + name)
  {
    var f := fullModulePath + dir + "/Attic/" + name;
    var k := |fullModulePath| + |dir|;
    assert f[k..k + 7] == "/Attic/";
    assert f[..k] == fullModulePath + dir;
    assert f[k + 6..] == "/" + name;
  }

  /** Every name in a hash table sits under its own hash. */
  predicate Keyed(h: map<nat, string>)
  {
    forall k :: k in h ==> HashStr(h[k]) == k
  }

  /** The names held by a hash table. */
  function Names(h: map<nat, string>): set<string>
  {
    set k | k in h :: h[k]
  }

  /**
   * add_branch_hash: insert a name under its hash; another name already
   * under that hash ends the program.
   */
  function AddHash(h: map<nat, string>, name: string): (r: Outcome<map<nat, string>>)
    ensures !r.Error?
    ensures r.Fatal? <==> HashStr(name) in h && h[HashStr(name)] != name
    ensures r.Ok? ==> Names(r.value) == Names(h) + {name}
    ensures r.Ok? && Keyed(h) ==> Keyed(r.value)
  {
    var k := HashStr(name);
    if k in h then
      if h[k] != name then Fatal("branch name hash collision " + h[k] + " " + name)
      else Ok(h)
    else
      var h' := h[k := name];
      assert Names(h') == Names(h) + {name} by {
        forall n | n in Names(h') ensures n in Names(h) + {name} {
          var j :| j in h' && h'[j] == n;
          if j != k { assert j in h; }
        }
        forall n | n in Names(h) ensures n in Names(h') {
          var j :| j in h && h[j] == n;
          assert j in h' && h'[j] == n;
        }
        assert k in h' && h'[k] == name;
      }
      Ok(h')
  }

  /** The per-file symbol table's answer for a revision's branch prefix. */
  function BranchFor(symbols: seq<BranchRev>, prefix: string): (r: (string, bool))
    ensures '.' !in prefix ==> r == ("HEAD", false)
    ensures '.' in prefix && FindIndex(symbols, prefix).None? ==> r == ("UNKNOWN", true)
    ensures '.' in prefix && FindIndex(symbols, prefix).Some? ==>
      r == (symbols[FindIndex(symbols, prefix).value].name, false)
  {
    if '.' !in prefix then ("HEAD", false)
    else
      match FindIndex(symbols, prefix)
      case None => ("UNKNOWN", true)
      case Some(i) => (symbols[i].name, false)
  }

  /** The fields of a "date: ...; author: ...; state: ...;" line. */
  datatype DateFields = DateFields(timestamp: int, author: string, isDead: bool)

  /** The text of a trimmed field after its key, with one trailing ';' dropped. */
  function FieldValue(field: string, key: string): Option<string>
  {
    var f := Trim(field);
    if key <= f then Some(RTrimChar(f[|key|..], ';')) else None
  }

  /**
   * The date line split at ';' into at most four pieces. A missing key ends
   * the program; so does a date that date_to_unixtime rejects. A line with
   * fewer than three pieces makes the source dereference a NULL piece,
   * which is modelled as the end of the program.
   */
  function DateLine(date: string -> int, line: string): (r: Outcome<DateFields>)
    ensures !r.Error?
    ensures r.Ok? ==> r.value.timestamp != 0
  {
    var tokens := SplitTerminated(line, ';', 4, 0);
    if |tokens| == 0 then Fatal("Cannot parse CVS rlog: date")
    else
      match FieldValue(tokens[0], "date: ")
      case None => Fatal("Cannot parse CVS rlog: date")
      case Some(d) =>
        if date(d) == 0 then Fatal("Cannot parse CVS rlog date: " + d)
        else if |tokens| < 2 then Fatal("Cannot parse CVS rlog: no author field")
        else
          match FieldValue(tokens[1], "author: ")
          case None => Fatal("Cannot parse CVS rlog: author")
          case Some(author) =>
            if |tokens| < 3 then Fatal("Cannot parse CVS rlog: no state field")
            else
              match FieldValue(tokens[2], "state: ")
              case None => Fatal("Cannot parse CVS rlog: state")
              case Some(state) => Ok(DateFields(date(d), author, state == "dead"))
  }

  /** A date line field: its key, its value and the closing ';'. */
  function DateField(key: string, value: string): string
  {
    key + value + ";"
  }

  /**
   * A date line as rlog prints it (the fields padded with blanks, the rest
   * of the line kept whole in the fourth piece) gives the converted date,
   * the author, and dead exactly when the state is "dead".
   */
  lemma DateLineOf(date: string -> int, d: string, a: string, s: string, pad1: string, pad2: string, rest: string)
    requires ';' !in d && ';' !in a && ';' !in s && date(d) != 0
    requires forall i :: 0 <= i < |pad1| ==> pad1[i] == ' '
    requires forall i :: 0 <= i < |pad2| ==> pad2[i] == ' '
    ensures DateLine(date, DateField("date: ", d) + pad1 + DateField("author: ", a) + pad2 + DateField("state: ", s) + rest)
      == Ok(DateFields(date(d), a, s == "dead"))
  {
    var line := DateField("date: ", d) + pad1 + DateField("author: ", a) + pad2 + DateField("state: ", s) + rest;
    DateFieldValues(d, a, s, pad1, pad2, rest);
    DateLineOfFields(date, line, d, a, s);
  }

  /** The three pieces of such a date line read back `d`, `a` and `s`. */
  lemma DateFieldValues(d: string, a: string, s: string, pad1: string, pad2: string, rest: string)
    requires ';' !in d && ';' !in a && ';' !in s
    requires forall i :: 0 <= i < |pad1| ==> pad1[i] == ' '
    requires forall i :: 0 <= i < |pad2| ==> pad2[i] == ' '
    ensures var tokens := SplitTerminated(DateField("date: ", d) + pad1 + DateField("author: ", a) + pad2 + DateField("state: ", s) + rest, ';', 4, 0);
      |tokens| >= 3 && FieldValue(tokens[0], "date: ") == Some(d) && FieldValue(tokens[1], "author: ") == Some(a)
      && FieldValue(tokens[2], "state: ") == Some(s)
  {
    DatePieceValues(d, a, s, pad1, pad2);
    assert ';' !in pad1 && ';' !in pad2;
    DateTokens(d, a, s, pad1, pad2, rest);
  }

  /** Each padded piece of such a date line reads back its value. */
  lemma DatePieceValues(d: string, a: string, s: string, pad1: string, pad2: string)
    requires forall i :: 0 <= i < |pad1| ==> pad1[i] == ' '
    requires forall i :: 0 <= i < |pad2| ==> pad2[i] == ' '
    ensures FieldValue(DateField("date: ", d), "date: ") == Some(d)
    ensures FieldValue(pad1 + DateField("author: ", a), "author: ") == Some(a)
    ensures FieldValue(pad2 + DateField("state: ", s), "state: ") == Some(s)
  {
    FieldValueBare("date: ", d);
    FieldValueOf(pad1, "author: ", a);
    FieldValueOf(pad2, "state: ", s);
  }

  /** A date line whose three fields read back `d`, `a` and `s`. */
  lemma DateLineOfFields(date: string -> int, line: string, d: string, a: string, s: string)
    requires var tokens := SplitTerminated(line, ';', 4, 0);
      |tokens| >= 3 && FieldValue(tokens[0], "date: ") == Some(d) && FieldValue(tokens[1], "author: ") == Some(a)
      && FieldValue(tokens[2], "state: ") == Some(s)
    requires date(d) != 0
    ensures DateLine(date, line) == Ok(DateFields(date(d), a, s == "dead"))
  {
  }

  /** The date line splits into its three fields, each with its padding, and the rest. */
  lemma DateTokens(d: string, a: string, s: string, pad1: string, pad2: string, rest: string)
    requires ';' !in d && ';' !in a && ';' !in s && ';' !in pad1 && ';' !in pad2
    ensures var tokens := SplitTerminated(DateField("date: ", d) + pad1 + DateField("author: ", a) + pad2 + DateField("state: ", s) + rest, ';', 4, 0);
      |tokens| >= 3 && tokens[0] == DateField("date: ", d) && tokens[1] == pad1 + DateField("author: ", a)
      && tokens[2] == pad2 + DateField("state: ", s)
  {
    var t0 := DateField("date: ", d);
    var t1 := pad1 + DateField("author: ", a);
    var t2 := pad2 + DateField("state: ", s);
    Associative(t0, pad1, DateField("author: ", a));
    Associative(t0 + t1, pad2, DateField("state: ", s));
    Associative(t0 + t1, t2, rest);
    Associative(t0, t1, t2 + rest);
    FieldTerminated([], "date: ", d);
    assert [] + t0 == t0;
    FieldTerminated(pad1, "author: ", a);
    FieldTerminated(pad2, "state: ", s);
    ThreeTokens(t0, t1, t2, rest);
  }

  /** A piece that ends with its only ';'. */
  predicate Terminated(t: string)
  {
    t != [] && t[|t| - 1] == ';' && ';' !in t[..|t| - 1]
  }

  lemma FieldTerminated(pad: string, key: string, value: string)
    requires ';' !in pad && ';' !in key && ';' !in value
    ensures Terminated(pad + DateField(key, value))
  {
    var t := pad + DateField(key, value);
    assert t[..|t| - 1] == pad + key + value;
  }

  /** Three terminated pieces come first in a split into at most four. */
  lemma ThreeTokens(t0: string, t1: string, t2: string, rest: string)
    requires Terminated(t0) && Terminated(t1) && Terminated(t2)
    ensures var tokens := SplitTerminated(t0 + (t1 + (t2 + rest)), ';', 4, 0);
      |tokens| >= 3 && tokens[0] == t0 && tokens[1] == t1 && tokens[2] == t2
  {
    var x0, x1, x2 := t0[..|t0| - 1], t1[..|t1| - 1], t2[..|t2| - 1];
    assert t0 == x0 + [';'];
    assert t1 == x1 + [';'];
    assert t2 == x2 + [';'];
    ThreePieces(x0, x1, x2, rest);
  }

  lemma ThreePieces(x0: string, x1: string, x2: string, rest: string)
    requires ';' !in x0 && ';' !in x1 && ';' !in x2
    ensures var tokens := SplitTerminated(x0 + [';'] + (x1 + [';'] + (x2 + [';'] + rest)), ';', 4, 0);
      |tokens| >= 3 && tokens[0] == x0 + [';'] && tokens[1] == x1 + [';'] && tokens[2] == x2 + [';']
  {
    SplitTerminatedAt(x0, x1 + [';'] + (x2 + [';'] + rest), ';', 4, 0);
    SplitTerminatedAt(x1, x2 + [';'] + rest, ';', 4, 1);
    SplitTerminatedAt(x2, rest, ';', 4, 2);
  }

  /** A padded field reads back the value after its key. */
  lemma FieldValueOf(pad: string, key: string, value: string)
    requires forall i :: 0 <= i < |pad| ==> pad[i] == ' '
    requires key != [] && !IsSpace(key[0])
    ensures FieldValue(pad + DateField(key, value), key) == Some(value)
  {
    var f := DateField(key, value);
    assert Trim(pad + f) == f by {
      assert f == key + (value + [';']);
      assert f[0] == key[0] && f[|f| - 1] == ';';
      assert forall i :: 0 <= i < |pad| ==> IsSpace(pad[i]);
      TrimPadded(pad, f);
    }
    assert key <= f && f[|key|..] == value + [';'] by {
      assert f == key + (value + [';']);
    }
    assert RTrimChar(value + [';'], ';') == value by {
      assert (value + [';'])[..|value|] == value;
    }
  }

  /** The same for a field with no padding in front. */
  lemma FieldValueBare(key: string, value: string)
    requires key != [] && !IsSpace(key[0])
    ensures FieldValue(DateField(key, value), key) == Some(value)
  {
    var f := DateField(key, value);
    assert Trim(f) == f by {
      assert f == key + (value + [';']);
      assert f[0] == key[0] && f[|f| - 1] == ';';
      assert RTrim(f) == f;
      assert LTrim(f) == f;
    }
    assert key <= f && f[|key|..] == value + [';'] by {
      assert f == key + (value + [';']);
    }
    assert RTrimChar(value + [';'], ';') == value by {
      assert (value + [';'])[..|value|] == value;
    }
  }


  /** A dead revision whose message says the file was (initially) added on a branch. */
  predicate DeadAddOnBranch(st: RlogState)
  {
    && st.isDead && "file " <= st.message
    && (Find(st.message, "was initially added on branch").Some? || Find(st.message, "was added on branch").Some?)
  }

  /** The callback arguments of the current revision. */
  function EventOf(st: RlogState): Event
  {
    Event(st.branch, st.file, st.revision, st.author, st.message, st.timestamp, st.isDead)
  }

  /** The revision is reported unless its branch is unknown or it is a dead add on a branch. */
  function Emitted(st: RlogState): (e: Option<Event>)
    ensures e.Some? <==> !st.skipUnknown && !DeadAddOnBranch(st)
    ensures e.Some? ==> e.value == EventOf(st)
  {
    if DeadAddOnBranch(st) || st.skipUnknown then None else Some(EventOf(st))
  }

  /** What one line does: the new state, the new symbol table and the reported revision. */
  datatype Stepped = Stepped(st: RlogState, symbols: seq<BranchRev>, event: Option<Event>)

  /** NEED_RCS_FILE: a new file clears the symbol table; a file outside the module waits for its Working file line. */
  function RcsFileStep(ctx: RlogContext, st: RlogState, symbols: seq<BranchRev>, line: string): (r: Outcome<RlogState>)
    requires st.phase == NeedRcsFile
    ensures !r.Error?
    ensures r.Ok? ==> r.value.phase in {NeedRcsFile, NeedWorkingFile, NeedSyms}
    ensures !("RCS file: " <= line) ==> r == Ok(st)
    ensures "RCS file: " <= line && !(ctx.fullModulePath <= line[10..]) ==>
      r == Ok(st.(phase := NeedWorkingFile, file := line[10..]))
    ensures "RCS file: " <= line && ctx.fullModulePath <= line[10..] ==>
      (r.Ok? <==> RcsPath(ctx.fullModulePath, line[10..]).Ok?)
      && (r.Ok? ==> r.value == st.(phase := NeedSyms, file := RcsPath(ctx.fullModulePath, line[10..]).value))
  {
    if "RCS file: " <= line then
      var file := line[10..];
      if ctx.fullModulePath <= file then
        match RcsPath(ctx.fullModulePath, file)
        case Ok(p) => Ok(st.(phase := NeedSyms, file := p))
        case Error => Error
        case Fatal(m) => Fatal(m)
      else Ok(st.(phase := NeedWorkingFile, file := file))
    else Ok(st)
  }

  /** Whether a line opens a new file, which clears the symbol table. */
  predicate OpensFile(st: RlogState, line: string)
  {
    st.phase == NeedRcsFile && "RCS file: " <= line
  }

  /**
   * A symbol's entry in the hash tables: a branch joins the branch hash
   * when branches are wanted, a tag the tag hash when tags are wanted.
   */
  function SymbolHash(ctx: RlogContext, st: RlogState, sym: Symbol): (r: Outcome<RlogState>)
    ensures !r.Error?
    ensures r.Ok? ==> r.value.phase == st.phase
    ensures r.Ok? && sym.kind == Branch && ctx.wantBranches ==> Names(r.value.branchHash) == Names(st.branchHash) + {sym.name}
    ensures r.Ok? && sym.kind == Tag && ctx.wantTags ==> Names(r.value.tagHash) == Names(st.tagHash) + {sym.name}
    ensures r.Ok? && Keyed(st.branchHash) && Keyed(st.tagHash) ==> Keyed(r.value.branchHash) && Keyed(r.value.tagHash)
  {
    if sym.kind == Branch && ctx.wantBranches then
      match AddHash(st.branchHash, sym.name)
      case Ok(b) => Ok(st.(branchHash := b))
      case Error => Error
      case Fatal(m) => Fatal(m)
    else if sym.kind == Tag && ctx.wantTags then
      match AddHash(st.tagHash, sym.name)
      case Ok(g) => Ok(st.(tagHash := g))
      case Error => Error
      case Fatal(m) => Fatal(m)
    else Ok(st)
  }

  /** The symbol table after a symbol: branches are pushed, tags are not kept. */
  function PushBranch(symbols: seq<BranchRev>, sym: Symbol): (r: seq<BranchRev>)
    ensures sym.kind == Branch ==> r == symbols + [BranchRev(sym.name, sym.rev)]
    ensures sym.kind != Branch ==> r == symbols
  {
    if sym.kind == Branch then symbols + [BranchRev(sym.name, sym.rev)] else symbols
  }

  /** A symbol line of the list, white space already trimmed. */
  function SymbolLine(ctx: RlogContext, st: RlogState, symbols: seq<BranchRev>, text: string): (r: Outcome<(RlogState, seq<BranchRev>)>)
    ensures !r.Error?
    ensures r.Ok? ==> r.value.0.phase == st.phase
    ensures r.Ok? ==> ParseSym(text).Ok? && r.value.1 == PushBranch(symbols, ParseSym(text).value)
  {
    match ParseSym(text)
    case Error => Error
    case Fatal(m) => Fatal(m)
    case Ok(sym) =>
      match SymbolHash(ctx, st, sym)
      case Error => Error
      case Fatal(m) => Fatal(m)
      case Ok(s) => Ok((s, PushBranch(symbols, sym)))
  }

  /**
   * NEED_EOS: an indented line is a symbol, which goes into the hash tables
   * and, for a branch, onto the symbol table. The first unindented line
   * ends the list.
   */
  function EosStep(ctx: RlogContext, st: RlogState, symbols: seq<BranchRev>, line: string): (r: Outcome<(RlogState, seq<BranchRev>)>)
    requires st.phase == NeedEos
    ensures !r.Error?
    ensures line == [] || !IsSpace(line[0]) ==> r == Ok((st.(phase := NeedStartLog), symbols))
    ensures line != [] && IsSpace(line[0]) ==> r == SymbolLine(ctx, st, symbols, LTrim(line))
  {
    if line == [] || !IsSpace(line[0]) then Ok((st.(phase := NeedStartLog), symbols))
    else SymbolLine(ctx, st, symbols, LTrim(line))
  }

  /**
   * NEED_REVISION: a "revision" line starts a new revision; its branch is
   * HEAD for a single-component prefix, the symbol table's name for it,
   * or UNKNOWN (then skipped) when the table has none.
   */
  function RevisionStep(st: RlogState, symbols: seq<BranchRev>, line: string): (r: Outcome<RlogState>)
    requires st.phase == NeedRevision
    ensures !r.Error?
    ensures !("revision " <= line) ==> r == Ok(st)
    ensures "revision " <= line ==> (r.Fatal? <==> '.' !in TrimRevision(line[9..]))
    ensures "revision " <= line && r.Ok? ==>
      var rev := TrimRevision(line[9..]);
      var b := BranchFor(symbols, StripLastRevNum(rev).1);
      r.value == st.(phase := NeedDateAuthorState, revision := rev, branch := b.0, author := [], message := [],
                     timestamp := 0, isDead := false, skipUnknown := st.skipUnknown || b.1)
  {
    if "revision " <= line then
      var rev := TrimRevision(line[9..]);
      StripRevisionNumber(rev);
      var (num, prefix) := StripLastRevNum(rev);
      if num == -1 then Fatal("Cannot parse revision: " + rev)
      else
        var (branch, skip) := BranchFor(symbols, prefix);
        Ok(st.(phase := NeedDateAuthorState, revision := rev, branch := branch, author := [], message := [],
               timestamp := 0, isDead := false, skipUnknown := st.skipUnknown || skip))
    else Ok(st)
  }

  /**
   * NEED_EOM: a boundary line ends the revision, which is reported then
   * (unless skipped); any other line belongs to the message once a line
   * that is not "key: value;" metadata has been seen.
   */
  function EomStep(st: RlogState, line: string): (r: (RlogState, Option<Event>))
    requires st.phase == NeedEom
    ensures line == LogBoundary ==> r == (st.(phase := NeedRevision, skipUnknown := false), Emitted(st))
    ensures line == FileBoundary ==> r == (st.(phase := NeedRcsFile, skipUnknown := false), Emitted(st))
    ensures line != LogBoundary && line != FileBoundary ==> r.1.None? && r.0.phase == NeedEom
    ensures line != LogBoundary && line != FileBoundary && (st.haveLog || !IsRevisionMetadata(line)) ==>
      r.0 == st.(haveLog := true, message := st.message + line + "\n")
    ensures line != LogBoundary && line != FileBoundary && !st.haveLog && IsRevisionMetadata(line) ==> r.0 == st
  {
    if line == LogBoundary then (st.(phase := NeedRevision, skipUnknown := false), Emitted(st))
    else if line == FileBoundary then (st.(phase := NeedRcsFile, skipUnknown := false), Emitted(st))
    else if st.haveLog || !IsRevisionMetadata(line) then (st.(haveLog := true, message := st.message + line + "\n"), None)
    else (st, None)
  }

  /** The states whose lines use the symbol table. */
  predicate UsesSymbols(p: Phase)
  {
    p == NeedRcsFile || p == NeedEos || p == NeedRevision
  }

  /** The lines of the states that leave the symbol table alone. */
  function PlainStep(ctx: RlogContext, st: RlogState, line: string): (r: Outcome<(RlogState, Option<Event>)>)
    requires !UsesSymbols(st.phase)
    ensures !r.Error?
    ensures r.Ok? && r.value.1.Some? ==> st.phase == NeedEom
    ensures st.phase == NeedEom ==> r == Ok(EomStep(st, line))
    ensures st.phase == NeedWorkingFile ==> (r.Fatal? <==> "Working file: " <= line)
    ensures st.phase == NeedWorkingFile && r.Ok? ==> r.value.0 == st.(phase := NeedRcsFile)
    ensures st.phase == NeedDateAuthorState && !("date: " <= line) ==> r == Ok((st, None))
    ensures st.phase == NeedDateAuthorState && "date: " <= line ==>
      (r.Ok? <==> DateLine(ctx.date, line).Ok?) &&
      (r.Ok? ==> var d := DateLine(ctx.date, line).value;
        r.value == (st.(phase := NeedEom, timestamp := d.timestamp, author := d.author,
                        isDead := st.isDead || d.isDead, haveLog := false), None))
  {
    match st.phase
    case NeedWorkingFile =>
      if "Working file: " <= line then Fatal("Working file: " + line[14..])
      else Ok((st.(phase := NeedRcsFile), None))
    case NeedSyms =>
      Ok((if "symbolic names:" <= line then st.(phase := NeedEos) else st, None))
    case NeedStartLog =>
      var next := if line == LogBoundary then st.(phase := NeedRevision)
                  else if line == FileBoundary then st.(phase := NeedRcsFile)
                  else st;
      Ok((next, None))
    case NeedDateAuthorState =>
      if "date: " <= line then
        match DateLine(ctx.date, line)
        case Error => Error
        case Fatal(m) => Fatal(m)
        case Ok(d) =>
          Ok((st.(phase := NeedEom, timestamp := d.timestamp, author := d.author,
                  isDead := st.isDead || d.isDead, haveLog := false), None))
      else Ok((st, None))
    case NeedEom => Ok(EomStep(st, line))
    case SkipLines => Ok((st, None))
  }

  /** One line of parse_cvs_rlog. */
  function Step(ctx: RlogContext, st: RlogState, symbols: seq<BranchRev>, line: string): (r: Outcome<Stepped>)
    ensures !r.Error?
    ensures r.Ok? && r.value.event.Some? <==>
      st.phase == NeedEom && (line == LogBoundary || line == FileBoundary) && !st.skipUnknown && !DeadAddOnBranch(st)
    ensures r.Ok? && r.value.event.Some? ==> r.value.event.value == EventOf(st)
    ensures r.Ok? && st.phase == NeedEom && r.value.st.phase != NeedEom ==> !r.value.st.skipUnknown
  {
    match st.phase
    case NeedRcsFile =>
      (match RcsFileStep(ctx, st, symbols, line)
       case Ok(s) => Ok(Stepped(s, if "RCS file: " <= line then [] else symbols, None))
       case Error => Error
       case Fatal(m) => Fatal(m))
    case NeedEos =>
      (match EosStep(ctx, st, symbols, line)
       case Ok((s, syms)) => Ok(Stepped(s, syms, None))
       case Error => Error
       case Fatal(m) => Fatal(m))
    case NeedRevision =>
      (match RevisionStep(st, symbols, line)
       case Ok(s) => Ok(Stepped(s, symbols, None))
       case Error => Error
       case Fatal(m) => Fatal(m))
    case _ =>
      (match PlainStep(ctx, st, line)
       case Ok((s, e)) => Ok(Stepped(s, symbols, e))
       case Error => Error
       case Fatal(m) => Fatal(m))
  }

  /** The revisions reported so far and how the parse stands. */
  datatype Run = Run(events: seq<Event>, outcome: Outcome<(RlogState, seq<BranchRev>)>)

  function EventList(e: Option<Event>): (r: seq<Event>)
    ensures |r| <= 1
  {
    if e.Some? then [e.value] else []
  }

  /** The parser over a sequence of "M " texts; a fatal line stops it. */
  function RlogLines(ctx: RlogContext, lines: seq<string>, st: RlogState, symbols: seq<BranchRev>): (r: Run)
    ensures !r.outcome.Error?
    decreases |lines|
  {
    if lines == [] then Run([], Ok((st, symbols)))
    else
      match Step(ctx, st, symbols, lines[0])
      case Error => Run([], Error)
      case Fatal(m) => Run([], Fatal(m))
      case Ok(s) =>
        var rest := RlogLines(ctx, lines[1..], s.st, s.symbols);
        Run(EventList(s.event) + rest.events, rest.outcome)
  }

  /** The branch and tag names collected, when asked for. */
  datatype Lists = Lists(branches: set<string>, tags: set<string>)

  /** The end of parse_cvs_rlog: it must stop between files. */
  function Finish(st: RlogState): (r: Outcome<Lists>)
    ensures !r.Error?
    ensures r.Ok? <==> st.phase == NeedRcsFile
    ensures r.Ok? ==> r == Ok(Lists(Names(st.branchHash), Names(st.tagHash)))
  {
    if st.phase != NeedRcsFile then Fatal("Cannot parse rlog, parser state " + Itoa(PhaseNumber(st.phase)))
    else Ok(Lists(Names(st.branchHash), Names(st.tagHash)))
  }

  /** The reported revisions and the outcome of a whole rlog reply. */
  datatype RlogResult = RlogResult(events: seq<Event>, outcome: Outcome<Lists>)

  /**
   * parse_cvs_rlog over the server's input: the "M " lines up to "ok" go
   * through the parser; an "error" line or the end of the stream gives -1.
   */
  function RlogReply(ctx: RlogContext, input: string): (r: RlogResult)
    ensures r.outcome.Ok? ==> ScanM(input, "").code == 1
    ensures r.outcome.Ok? ==> RlogLines(ctx, ScanM(input, "").lines, Start, []).outcome.Ok?
  {
    var m := ScanM(input, "");
    var run := RlogLines(ctx, m.lines, Start, []);
    match run.outcome
    case Fatal(msg) => RlogResult(run.events, Fatal(msg))
    case Error => RlogResult(run.events, Error)
    case Ok((st, _)) => RlogResult(run.events, if m.code == -1 then Error else Finish(st))
  }

  /** A run with `events` reported before it. */
  function Prepend(events: seq<Event>, run: Run): (r: Run)
    ensures r.events == events + run.events && r.outcome == run.outcome
  {
    Run(events + run.events, run.outcome)
  }

  /** NEED_RCS_FILE on the connection: a new file clears the symbol table in place. */
  method RcsFileLine(list: BranchRevList, ctx: RlogContext, st: RlogState, line: string) returns (r: Outcome<RlogState>)
    requires list.Valid() && st.phase == NeedRcsFile
    modifies list
    ensures list.Valid() && list.slots == old(list.slots)
    ensures r == RcsFileStep(ctx, st, old(list.Items()), line)
    ensures list.Items() == if "RCS file: " <= line then [] else old(list.Items())
  {
    r := Ok(st);
    if "RCS file: " <= line {
      list.Clear();
      var file := line[10..];
      if ctx.fullModulePath <= file {
        var path := RcsPath(ctx.fullModulePath, file);
        match path {
          case Ok(p) => r := Ok(st.(phase := NeedSyms, file := p));
          case Error => r := Error;
          case Fatal(m) => r := Fatal(m);
        }
      } else {
        r := Ok(st.(phase := NeedWorkingFile, file := file));
      }
    }
  }

  /** NEED_EOS on the connection: a branch symbol is pushed onto the symbol table. */
  method EosLine(list: BranchRevList, ctx: RlogContext, st: RlogState, line: string) returns (r: Outcome<RlogState>)
    requires list.Valid() && st.phase == NeedEos
    modifies list, list.slots
    ensures list.Valid() && (list.slots == old(list.slots) || fresh(list.slots))
    ensures var e := EosStep(ctx, st, old(list.Items()), line);
      (r.Ok? <==> e.Ok?) && (e.Fatal? ==> r == Fatal(e.reason))
      && (e.Ok? ==> r.value == e.value.0 && list.Items() == e.value.1)
  {
    if line == [] || !IsSpace(line[0]) {
      return Ok(st.(phase := NeedStartLog));
    }
    r := SymbolLineOn(list, ctx, st, LTrim(line));
  }

  /** A symbol line on the connection, as SymbolLine gives it. */
  method SymbolLineOn(list: BranchRevList, ctx: RlogContext, st: RlogState, text: string) returns (r: Outcome<RlogState>)
    requires list.Valid()
    modifies list, list.slots
    ensures list.Valid() && (list.slots == old(list.slots) || fresh(list.slots))
    ensures var e := SymbolLine(ctx, st, old(list.Items()), text);
      (r.Ok? <==> e.Ok?) && (e.Fatal? ==> r == Fatal(e.reason))
      && (e.Ok? ==> r.value == e.value.0 && list.Items() == e.value.1)
  {
    var sym := ParseSym(text);
    match sym {
      case Error => r := Error;
      case Fatal(m) => r := Fatal(m);
      case Ok(s) =>
        r := SymbolHash(ctx, st, s);
        if r.Ok? && s.kind == Branch {
          var oldName, oldRev := list.Push(s.name, s.rev);
        }
    }
  }

  /** NEED_REVISION on the connection: the branch comes from a search of the symbol table. */
  method RevisionLine(list: BranchRevList, st: RlogState, line: string) returns (r: Outcome<RlogState>)
    requires list.Valid() && st.phase == NeedRevision
    ensures r == RevisionStep(st, list.Items(), line)
  {
    if !("revision " <= line) {
      return Ok(st);
    }
    var rev := TrimRevision(line[9..]);
    var (num, prefix) := StripLastRevNum(rev);
    if num == -1 {
      return Fatal("Cannot parse revision: " + rev);
    }
    var branch, skip := "HEAD", false;
    if '.' in prefix {
      var found, name := list.Find(prefix, prefix);
      if found {
        branch := name;
      } else {
        branch, skip := "UNKNOWN", true;
      }
    }
    r := Ok(st.(phase := NeedDateAuthorState, revision := rev, branch := branch, author := [], message := [],
                timestamp := 0, isDead := false, skipUnknown := st.skipUnknown || skip));
  }

  /** One line of parse_cvs_rlog on the connection, as Step gives it, with the symbol table kept in place. */
  method RlogLine(list: BranchRevList, ctx: RlogContext, st: RlogState, line: string)
    returns (r: Outcome<(RlogState, Option<Event>)>)
    requires list.Valid()
    modifies list, list.slots
    ensures list.Valid() && (list.slots == old(list.slots) || fresh(list.slots))
    ensures var s := Step(ctx, st, old(list.Items()), line);
      (r.Ok? <==> s.Ok?) && (s.Fatal? ==> r == Fatal(s.reason))
      && (s.Ok? ==> r.value == (s.value.st, s.value.event) && list.Items() == s.value.symbols)
  {
    match st.phase {
      case NeedRcsFile =>
        r := RcsFileRound(list, ctx, st, line);
      case NeedEos =>
        r := EosRound(list, ctx, st, line);
      case NeedRevision =>
        r := RevisionRound(list, ctx, st, line);
      case _ =>
        r := PlainStep(ctx, st, line);
    }
  }

  /** RlogLine in NEED_RCSFILE. */
  method RcsFileRound(list: BranchRevList, ctx: RlogContext, st: RlogState, line: string)
    returns (r: Outcome<(RlogState, Option<Event>)>)
    requires list.Valid() && st.phase == NeedRcsFile
    modifies list
    ensures list.Valid() && list.slots == old(list.slots)
    ensures var s := Step(ctx, st, old(list.Items()), line);
      (r.Ok? <==> s.Ok?) && (s.Fatal? ==> r == Fatal(s.reason))
      && (s.Ok? ==> r.value == (s.value.st, s.value.event) && list.Items() == s.value.symbols)
  {
    var s := RcsFileLine(list, ctx, st, line);
    r := if s.Ok? then Ok((s.value, None)) else if s.Fatal? then Fatal(s.reason) else Error;
  }

  /** RlogLine in NEED_EOS. */
  method EosRound(list: BranchRevList, ctx: RlogContext, st: RlogState, line: string)
    returns (r: Outcome<(RlogState, Option<Event>)>)
    requires list.Valid() && st.phase == NeedEos
    modifies list, list.slots
    ensures list.Valid() && (list.slots == old(list.slots) || fresh(list.slots))
    ensures var s := Step(ctx, st, old(list.Items()), line);
      (r.Ok? <==> s.Ok?) && (s.Fatal? ==> r == Fatal(s.reason))
      && (s.Ok? ==> r.value == (s.value.st, s.value.event) && list.Items() == s.value.symbols)
  {
    ghost var symbols := list.Items();
    StepEos(ctx, st, symbols, line);
    var s := EosLine(list, ctx, st, line);
    r := if s.Ok? then Ok((s.value, None)) else if s.Fatal? then Fatal(s.reason) else Error;
  }

  /** In NEED_EOS, Step is EosStep with no event. */
  lemma StepEos(ctx: RlogContext, st: RlogState, symbols: seq<BranchRev>, line: string)
    requires st.phase == NeedEos
    ensures var e := EosStep(ctx, st, symbols, line);
      Step(ctx, st, symbols, line) == if e.Ok? then Ok(Stepped(e.value.0, e.value.1, None)) else if e.Fatal? then Fatal(e.reason) else Error
  {
    assert Step(ctx, st, symbols, line)
      == (match EosStep(ctx, st, symbols, line)
          case Ok((s, syms)) => Ok(Stepped(s, syms, None))
          case Error => Error
          case Fatal(m) => Fatal(m));
  }

  /** RlogLine in NEED_REVISION. */
  method RevisionRound(list: BranchRevList, ctx: RlogContext, st: RlogState, line: string)
    returns (r: Outcome<(RlogState, Option<Event>)>)
    requires list.Valid() && st.phase == NeedRevision
    ensures var s := Step(ctx, st, list.Items(), line);
      (r.Ok? <==> s.Ok?) && (s.Fatal? ==> r == Fatal(s.reason))
      && (s.Ok? ==> r.value == (s.value.st, s.value.event) && list.Items() == s.value.symbols)
  {
    var s := RevisionLine(list, st, line);
    StepRevision(ctx, st, list.Items(), line);
    r := if s.Ok? then Ok((s.value, None)) else if s.Fatal? then Fatal(s.reason) else Error;
  }

  /** In NEED_REVISION, Step is RevisionStep with the symbol table unchanged and no event. */
  lemma StepRevision(ctx: RlogContext, st: RlogState, symbols: seq<BranchRev>, line: string)
    requires st.phase == NeedRevision
    ensures var e := RevisionStep(st, symbols, line);
      Step(ctx, st, symbols, line) == if e.Ok? then Ok(Stepped(e.value, symbols, None)) else if e.Fatal? then Fatal(e.reason) else Error
  {
  }

  /**
   * One round of parse_cvs_rlog's loop: read up to the next "M " line and,
   * when there is one, feed it to the parser.
   */
  method RlogRound(t: Transport, list: BranchRevList, ctx: RlogContext, st: RlogState, reply: string)
    returns (code: int, line: string, out: Outcome<(RlogState, Option<Event>)>)
    requires t.Valid() && list.Valid()
    modifies t, t.data, list, list.slots
    ensures t.Valid() && t.data == old(t.data)
    ensures list.Valid() && (list.slots == old(list.slots) || fresh(list.slots))
    ensures var m := ScanM(old(t.Input()), reply);
      code != 0 ==> m.lines == [] && m.code == code && m.rest == t.Input()
    ensures code == 0 ==> |t.Input()| < |old(t.Input())|
    ensures var m, m' := ScanM(old(t.Input()), reply), ScanM(t.Input(), line);
      code == 0 ==> m'.code == m.code && m'.rest == m.rest
    ensures var run := RlogLines(ctx, ScanM(old(t.Input()), reply).lines, st, old(list.Items()));
      code == 0 && out.Fatal? ==> run == Run([], Fatal(out.reason))
    ensures var run := RlogLines(ctx, ScanM(old(t.Input()), reply).lines, st, old(list.Items()));
      code == 0 && !out.Fatal? ==>
        out.Ok? && run == Prepend(EventList(out.value.1), RlogLines(ctx, ScanM(t.Input(), line).lines, out.value.0, list.Items()))
  {
    ghost var before := t.Input();
    var printed;
    code, line, printed := t.GetReplyFirstMatch("M ", reply);
    out := Error;
    if code != 0 {
      return;
    }
    ghost var after := t.Input();
    ghost var tail := ScanM(after, line);
    assert ScanM(before, reply).lines == [line] + tail.lines;
    ghost var symbols := list.Items();
    out := RlogLine(list, ctx, st, line);
    assert t.Input() == after;
    if out.Fatal? {
      RlogLinesFatal(ctx, line, tail.lines, st, symbols);
    } else {
      RlogLinesCons(ctx, line, tail.lines, st, symbols);
    }
  }

  /**
   * parse_cvs_rlog on the connection: "M " lines are read one at a time and
   * fed to the parser until "ok", an "error" line or the end of the stream;
   * the revisions are reported in order. What it reports and returns is
   * what RlogReply gives for the input.
   */
  method ParseRlog(t: Transport, ctx: RlogContext) returns (events: seq<Event>, r: Outcome<Lists>)
    requires t.Valid()
    modifies t, t.data
    ensures t.Valid() && t.data == old(t.data)
    ensures RlogReply(ctx, old(t.Input())) == RlogResult(events, r)
    ensures !r.Fatal? ==> t.Input() == ScanM(old(t.Input()), "").rest
  {
    ghost var m0 := ScanM(t.Input(), "");
    ghost var run0 := RlogLines(ctx, m0.lines, Start, []);
    var list := new BranchRevList.Init();
    var st := Start;
    var reply := "";
    events := [];
    while true
      invariant t.Valid() && t.data == old(t.data)
      invariant list.Valid() && fresh(list) && fresh(list.slots)
      invariant ScanM(t.Input(), reply).code == m0.code && ScanM(t.Input(), reply).rest == m0.rest
      invariant run0 == Prepend(events, RlogLines(ctx, ScanM(t.Input(), reply).lines, st, list.Items()))
      decreases |t.Input()|
    {
      var code, line, out := RlogRound(t, list, ctx, st, reply);
      if code == -1 {
        r := Error;
        return;
      } else if code == 1 {
        break;
      }
      match out {
        case Error =>
          assert false;
        case Fatal(m) =>
          assert events + [] == events;
          r := Fatal(m);
          return;
        case Ok((st', e)) =>
          PrependTwice(events, EventList(e), RlogLines(ctx, ScanM(t.Input(), line).lines, st', list.Items()));
          events := events + EventList(e);
          st := st';
      }
      reply := line;
    }
    r := Finish(st);
  }

  /** A line the parser accepts reports its revision before those of the lines after it. */
  lemma RlogLinesCons(ctx: RlogContext, line: string, tail: seq<string>, st: RlogState, symbols: seq<BranchRev>)
    requires Step(ctx, st, symbols, line).Ok?
    ensures var s := Step(ctx, st, symbols, line).value;
      RlogLines(ctx, [line] + tail, st, symbols) == Prepend(EventList(s.event), RlogLines(ctx, tail, s.st, s.symbols))
  {
    assert ([line] + tail)[1..] == tail;
  }

  /** A fatal line stops the parser. */
  lemma RlogLinesFatal(ctx: RlogContext, line: string, tail: seq<string>, st: RlogState, symbols: seq<BranchRev>)
    requires Step(ctx, st, symbols, line).Fatal?
    ensures RlogLines(ctx, [line] + tail, st, symbols) == Run([], Fatal(Step(ctx, st, symbols, line).reason))
  {
  }

  lemma PrependTwice(a: seq<Event>, b: seq<Event>, run: Run)
    ensures Prepend(a, Prepend(b, run)) == Prepend(a + b, run)
  {
    assert a + (b + run.events) == (a + b) + run.events;
  }

  /** Whether a line may start a revision. */
  function RevisionMark(line: string): (n: nat)
    ensures n <= 1
  {
    if "revision " <= line then 1 else 0
  }

  /** The "revision " lines among `lines`. */
  function RevisionLines(lines: seq<string>): nat
  {
    if lines == [] then 0 else RevisionMark(lines[0]) + RevisionLines(lines[1..])
  }

  /** 1 while a revision has been started and not yet reported. */
  function Pending(st: RlogState): (n: nat)
    ensures n <= 1
  {
    if st.phase == NeedDateAuthorState || st.phase == NeedEom then 1 else 0
  }

  /**
   * A line starts at most one revision and reports at most the revision
   * that is open: only a "revision" line opens one, and only a boundary
   * line in NEED_EOM closes one.
   */
  lemma StepPending(ctx: RlogContext, st: RlogState, symbols: seq<BranchRev>, line: string)
    requires Step(ctx, st, symbols, line).Ok?
    ensures var s := Step(ctx, st, symbols, line).value;
      Pending(s.st) + |EventList(s.event)| <= Pending(st) + RevisionMark(line)
  {
    var s := Step(ctx, st, symbols, line).value;
    match st.phase {
      case NeedRcsFile =>
        assert s.st == RcsFileStep(ctx, st, symbols, line).value;
      case NeedEos =>
        assert s.st == EosStep(ctx, st, symbols, line).value.0;
      case NeedRevision =>
        assert s.st == RevisionStep(st, symbols, line).value;
      case _ =>
        var r := PlainStep(ctx, st, line);
        assert s == Stepped(r.value.0, symbols, r.value.1);
        PlainPending(ctx, st, line);
    }
  }

  /** The phases that do not use the symbol table open no revision and close at most the open one. */
  lemma PlainPending(ctx: RlogContext, st: RlogState, line: string)
    requires !UsesSymbols(st.phase) && PlainStep(ctx, st, line).Ok?
    ensures var r := PlainStep(ctx, st, line).value;
      Pending(r.0) + |EventList(r.1)| <= Pending(st)
  {
    if st.phase == NeedEom {
      var r := EomStep(st, line);
      assert r.1.Some? ==> r.0.phase != NeedEom;
    }
  }

  /** At most one revision is reported per "revision" line of the reply. */
  lemma {:induction false} EventsPerRevision(ctx: RlogContext, lines: seq<string>, st: RlogState, symbols: seq<BranchRev>)
    ensures |RlogLines(ctx, lines, st, symbols).events| + (if RlogLines(ctx, lines, st, symbols).outcome.Ok? then Pending(RlogLines(ctx, lines, st, symbols).outcome.value.0) else 0)
         <= RevisionLines(lines) + Pending(st)
    decreases |lines|
  {
    if lines != [] {
      var step := Step(ctx, st, symbols, lines[0]);
      if step.Ok? {
        StepPending(ctx, st, symbols, lines[0]);
        EventsPerRevision(ctx, lines[1..], step.value.st, step.value.symbols);
      }
    }
  }

  /** A whole reply reports no more revisions than it has "revision" lines. */
  lemma RlogReplyEvents(ctx: RlogContext, input: string)
    ensures |RlogReply(ctx, input).events| <= RevisionLines(ScanM(input, "").lines)
  {
    EventsPerRevision(ctx, ScanM(input, "").lines, Start, []);
  }

  /**
   * A "revision" line for prefix.n (followed by the locker text, if any)
   * opens revision prefix.n on the branch the symbol table gives for the
   * prefix: HEAD for a single number, UNKNOWN (to be skipped) when the
   * prefix is not a known branch.
   */
  lemma RevisionLineOf(st: RlogState, symbols: seq<BranchRev>, prefix: string, n: nat, rest: string)
    requires st.phase == NeedRevision
    requires forall i :: 0 <= i < |prefix| ==> IsRevisionChar(prefix[i])
    requires rest == [] || !IsRevisionChar(rest[0])
    ensures var rev := prefix + "." + Itoa(n);
      var b := BranchFor(symbols, prefix);
      RevisionStep(st, symbols, "revision " + rev + rest)
        == Ok(st.(phase := NeedDateAuthorState, revision := rev, branch := b.0, author := [], message := [],
                  timestamp := 0, isDead := false, skipUnknown := st.skipUnknown || b.1))
  {
    RevisionLineText(prefix, n, rest);
  }

  /** The text of such a "revision" line: its trimmed revision and that revision's prefix. */
  lemma RevisionLineText(prefix: string, n: nat, rest: string)
    requires forall i :: 0 <= i < |prefix| ==> IsRevisionChar(prefix[i])
    requires rest == [] || !IsRevisionChar(rest[0])
    ensures var rev := prefix + "." + Itoa(n);
      var line := "revision " + rev + rest;
      "revision " <= line && TrimRevision(line[9..]) == rev && StripLastRevNum(rev) == (n, prefix) && '.' in rev
  {
    var rev := prefix + "." + Itoa(n);
    var line := "revision " + rev + rest;
    assert "revision " <= line && line[9..] == rev + rest;
    assert rev[|prefix|] == '.';
    RevisionChars(prefix, n);
    TrimRevisionOf(rev, rest);
    StripLastRevNumAppend(prefix, n);
  }

  /** prefix.n is made of revision characters when the prefix is. */
  lemma RevisionChars(prefix: string, n: nat)
    requires forall i :: 0 <= i < |prefix| ==> IsRevisionChar(prefix[i])
    ensures var rev := prefix + "." + Itoa(n); forall i :: 0 <= i < |rev| ==> IsRevisionChar(rev[i])
  {
    var rev := prefix + "." + Itoa(n);
    var d := NatToString(n);
    assert Itoa(n) == d && AllDigits(d);
    forall i | 0 <= i < |rev| ensures IsRevisionChar(rev[i]) {
      if i > |prefix| { assert rev[i] == d[i - |prefix| - 1]; }
    }
  }

  /** The header lines of a file in the module with no symbols, up to its first revision. */
  function HeaderLines(fullModulePath: string, path: string, header: string): seq<string>
  {
    ["RCS file: " + fullModulePath + path + ",v", "symbolic names:", header, LogBoundary]
  }

  /**
   * A file's header: its RCS line (a live file in the module), an empty
   * symbol list ended by an unindented line, and the boundary before the
   * first revision. It clears the symbol table and reports nothing.
   */
  lemma RlogHeaderLines(ctx: RlogContext, st: RlogState, symbols: seq<BranchRev>, path: string, header: string, tail: seq<string>)
    requires st.phase == NeedRcsFile
    requires Find(ctx.fullModulePath + path, "/Attic/").None?
    requires header == [] || !IsSpace(header[0])
    ensures RlogLines(ctx, HeaderLines(ctx.fullModulePath, path, header) + tail, st, symbols)
      == RlogLines(ctx, tail, st.(phase := NeedRevision, file := path), [])
  {
    var fmp := ctx.fullModulePath;
    var l0 := "RCS file: " + fmp + path + ",v";
    var s1 := st.(phase := NeedSyms, file := path);
    var s2 := s1.(phase := NeedEos);
    var s3 := s2.(phase := NeedStartLog);
    var s4 := s3.(phase := NeedRevision);
    RcsFileLineStep(ctx, st, symbols, path);
    SymbolsHeaderStep(ctx, s1);
    EndSymbolsStep(ctx, s2, header);
    StartLogStep(ctx, s3);
    FourCons(l0, "symbolic names:", header, LogBoundary, tail);
    QuietCons(ctx, LogBoundary, tail, s3, [], s4, []);
    QuietCons(ctx, header, [LogBoundary] + tail, s2, [], s3, []);
    QuietCons(ctx, "symbolic names:", [header] + ([LogBoundary] + tail), s1, [], s2, []);
    QuietCons(ctx, l0, ["symbolic names:"] + ([header] + ([LogBoundary] + tail)), st, symbols, s1, []);
  }

  /** The RCS line of a live file in the module starts that file with an empty symbol table. */
  lemma RcsFileLineStep(ctx: RlogContext, st: RlogState, symbols: seq<BranchRev>, path: string)
    requires st.phase == NeedRcsFile
    requires Find(ctx.fullModulePath + path, "/Attic/").None?
    ensures Step(ctx, st, symbols, "RCS file: " + ctx.fullModulePath + path + ",v")
      == Ok(Stepped(st.(phase := NeedSyms, file := path), [], None))
  {
    var l0 := "RCS file: " + ctx.fullModulePath + path + ",v";
    assert "RCS file: " <= l0 && l0[10..] == ctx.fullModulePath + path + ",v";
    RcsPathLive(ctx.fullModulePath, path);
  }

  /** "symbolic names:" opens the symbol list. */
  lemma SymbolsHeaderStep(ctx: RlogContext, st: RlogState)
    requires st.phase == NeedSyms
    ensures Step(ctx, st, [], "symbolic names:") == Ok(Stepped(st.(phase := NeedEos), [], None))
  {
    assert "symbolic names:" <= "symbolic names:";
    PlainStepLifts(ctx, st, [], "symbolic names:", st.(phase := NeedEos));
  }

  /** An unindented line ends the symbol list. */
  lemma EndSymbolsStep(ctx: RlogContext, st: RlogState, header: string)
    requires st.phase == NeedEos
    requires header == [] || !IsSpace(header[0])
    ensures Step(ctx, st, [], header) == Ok(Stepped(st.(phase := NeedStartLog), [], None))
  {
  }

  /** The log boundary opens the first revision. */
  lemma StartLogStep(ctx: RlogContext, st: RlogState)
    requires st.phase == NeedStartLog
    ensures Step(ctx, st, [], LogBoundary) == Ok(Stepped(st.(phase := NeedRevision), [], None))
  {
    PlainStepLifts(ctx, st, [], LogBoundary, st.(phase := NeedRevision));
  }

  lemma PrependNone(run: Run)
    ensures Prepend(EventList(None), run) == run
  {
    assert [] + run.events == run.events;
  }

  /** The date line rlog prints, with two blanks before each further field. */
  function DateText(d: string, a: string, s: string): string
  {
    DateField("date: ", d) + "  " + DateField("author: ", a) + "  " + DateField("state: ", s)
  }

  /** A trunk revision prefix.n, its date line, a one-line message and the end of the file. */
  function TrunkRevisionLines(prefix: string, n: nat, d: string, a: string, s: string, m: string): seq<string>
  {
    ["revision " + prefix + "." + Itoa(n), DateText(d, a, s), m, FileBoundary]
  }

  /** What a one-line trunk revision leaves in the parser's state. */
  function AfterRevision(st: RlogState, date: string -> int, prefix: string, n: nat, d: string, a: string, s: string, m: string): RlogState
  {
    st.(phase := NeedRcsFile, revision := prefix + "." + Itoa(n), branch := "HEAD", author := a, message := m + "\n",
        timestamp := date(d), isDead := s == "dead", haveLog := true, skipUnknown := false)
  }

  /** The preconditions of RlogRevisionBlock on the revision's own text. */
  predicate TrunkRevision(date: string -> int, prefix: string, d: string, a: string, s: string, m: string)
  {
    && prefix != [] && (forall i :: 0 <= i < |prefix| ==> IsDigit(prefix[i]))
    && ';' !in d && ';' !in a && ';' !in s && date(d) != 0
    && !IsRevisionMetadata(m) && m != LogBoundary && m != FileBoundary && !("file " <= m + "\n")
  }

  /** The state once a trunk revision's "revision" line has been read. */
  function OpenedRevision(st: RlogState, prefix: string, n: nat): RlogState
  {
    st.(phase := NeedDateAuthorState, revision := prefix + "." + Itoa(n), branch := "HEAD", author := [], message := [],
        timestamp := 0, isDead := false, skipUnknown := false)
  }

  /** The state once its date line has been read. */
  function DatedRevision(st: RlogState, date: string -> int, prefix: string, n: nat, d: string, a: string, s: string): RlogState
  {
    OpenedRevision(st, prefix, n).(phase := NeedEom, timestamp := date(d), author := a, isDead := s == "dead", haveLog := false)
  }

  /** A trunk "revision" line opens the revision on HEAD. */
  lemma TrunkRevisionStep(ctx: RlogContext, st: RlogState, symbols: seq<BranchRev>, prefix: string, n: nat)
    requires st.phase == NeedRevision && !st.skipUnknown
    requires prefix != [] && forall i :: 0 <= i < |prefix| ==> IsDigit(prefix[i])
    ensures Step(ctx, st, symbols, "revision " + prefix + "." + Itoa(n)) == Ok(Stepped(OpenedRevision(st, prefix, n), symbols, None))
  {
    var rev := prefix + "." + Itoa(n);
    var line := "revision " + prefix + "." + Itoa(n);
    assert RevisionStep(st, symbols, line) == Ok(OpenedRevision(st, prefix, n)) by {
      assert line == "revision " + rev + [];
      assert forall i :: 0 <= i < |prefix| ==> IsRevisionChar(prefix[i]);
      RevisionLineOf(st, symbols, prefix, n, []);
      assert '.' !in prefix;
    }
    RevisionStepLifts(ctx, st, symbols, line, OpenedRevision(st, prefix, n));
  }

  /** A "revision" line step keeps the symbol table and reports nothing. */
  lemma RevisionStepLifts(ctx: RlogContext, st: RlogState, symbols: seq<BranchRev>, line: string, next: RlogState)
    requires st.phase == NeedRevision && RevisionStep(st, symbols, line) == Ok(next)
    ensures Step(ctx, st, symbols, line) == Ok(Stepped(next, symbols, None))
  {
    var r := RevisionStep(st, symbols, line);
    assert r == Ok(next);
    assert Step(ctx, st, symbols, line) == (match r case Ok(s) => Ok(Stepped(s, symbols, None)) case Error => Error case Fatal(m) => Fatal(m));
  }

  /** The date line records the date, the author and the dead flag. */
  lemma DateStep(ctx: RlogContext, st: RlogState, symbols: seq<BranchRev>, prefix: string, n: nat, d: string, a: string, s: string)
    requires ';' !in d && ';' !in a && ';' !in s && ctx.date(d) != 0
    ensures Step(ctx, OpenedRevision(st, prefix, n), symbols, DateText(d, a, s))
      == Ok(Stepped(DatedRevision(st, ctx.date, prefix, n, d, a, s), symbols, None))
  {
    var st1 := OpenedRevision(st, prefix, n);
    DateTextLine(ctx.date, d, a, s);
    DateLineStep(ctx, st1, symbols, DateText(d, a, s), DateFields(ctx.date(d), a, s == "dead"));
  }

  /** The date line rlog prints reads back its date, author and state. */
  lemma DateTextLine(date: string -> int, d: string, a: string, s: string)
    requires ';' !in d && ';' !in a && ';' !in s && date(d) != 0
    ensures "date: " <= DateText(d, a, s)
    ensures DateLine(date, DateText(d, a, s)) == Ok(DateFields(date(d), a, s == "dead"))
  {
    DateLineOf(date, d, a, s, "  ", "  ", []);
    assert DateText(d, a, s) + [] == DateText(d, a, s);
  }

  /** A date line that parses moves the revision to its message. */
  lemma DateLineStep(ctx: RlogContext, st: RlogState, symbols: seq<BranchRev>, line: string, f: DateFields)
    requires st.phase == NeedDateAuthorState && "date: " <= line && DateLine(ctx.date, line) == Ok(f)
    ensures Step(ctx, st, symbols, line)
      == Ok(Stepped(st.(phase := NeedEom, timestamp := f.timestamp, author := f.author, isDead := st.isDead || f.isDead, haveLog := false), symbols, None))
  {
    var next := st.(phase := NeedEom, timestamp := f.timestamp, author := f.author, isDead := st.isDead || f.isDead, haveLog := false);
    DatePlainStep(ctx, st, line, f);
    PlainStepLifts(ctx, st, symbols, line, next);
  }

  lemma DatePlainStep(ctx: RlogContext, st: RlogState, line: string, f: DateFields)
    requires st.phase == NeedDateAuthorState && "date: " <= line && DateLine(ctx.date, line) == Ok(f)
    ensures PlainStep(ctx, st, line)
      == Ok((st.(phase := NeedEom, timestamp := f.timestamp, author := f.author, isDead := st.isDead || f.isDead, haveLog := false), None))
  {
  }

  /** A quiet line of a state that leaves the symbol table alone is a quiet step. */
  lemma PlainStepLifts(ctx: RlogContext, st: RlogState, symbols: seq<BranchRev>, line: string, next: RlogState)
    requires !UsesSymbols(st.phase) && PlainStep(ctx, st, line) == Ok((next, None))
    ensures Step(ctx, st, symbols, line) == Ok(Stepped(next, symbols, None))
  {
  }

  /** A message line that is not metadata starts the message. */
  lemma MessageStep(ctx: RlogContext, st: RlogState, symbols: seq<BranchRev>, m: string)
    requires st.phase == NeedEom && !st.haveLog && st.message == []
    requires !IsRevisionMetadata(m) && m != LogBoundary && m != FileBoundary
    ensures Step(ctx, st, symbols, m) == Ok(Stepped(st.(haveLog := true, message := m + "\n"), symbols, None))
  {
    assert [] + m + "\n" == m + "\n";
  }

  /** The file boundary reports the open revision. */
  lemma BoundaryStep(ctx: RlogContext, st: RlogState, symbols: seq<BranchRev>)
    requires st.phase == NeedEom && !st.skipUnknown && !DeadAddOnBranch(st)
    ensures Step(ctx, st, symbols, FileBoundary) == Ok(Stepped(st.(phase := NeedRcsFile, skipUnknown := false), symbols, Some(EventOf(st))))
  {
  }

  /** A line that reports nothing hands the rest of the lines its new state. */
  lemma QuietCons(ctx: RlogContext, line: string, tail: seq<string>, st: RlogState, symbols: seq<BranchRev>,
                  next: RlogState, nextSymbols: seq<BranchRev>)
    requires Step(ctx, st, symbols, line) == Ok(Stepped(next, nextSymbols, None))
    ensures RlogLines(ctx, [line] + tail, st, symbols) == RlogLines(ctx, tail, next, nextSymbols)
  {
    RlogLinesCons(ctx, line, tail, st, symbols);
    PrependNone(RlogLines(ctx, tail, next, nextSymbols));
  }

  lemma FourCons<T>(a: T, b: T, c: T, d: T, tail: seq<T>)
    ensures [a, b, c, d] + tail == [a] + ([b] + ([c] + ([d] + tail)))
  {
  }

  /** Three quiet lines and a reporting one report that line's event. */
  lemma RlogLinesFour(ctx: RlogContext, l0: string, l1: string, l2: string, l3: string, tail: seq<string>,
                      st: RlogState, symbols: seq<BranchRev>, s1: RlogState, s2: RlogState, s3: RlogState, s4: RlogState, e: Event)
    requires Step(ctx, st, symbols, l0) == Ok(Stepped(s1, symbols, None))
    requires Step(ctx, s1, symbols, l1) == Ok(Stepped(s2, symbols, None))
    requires Step(ctx, s2, symbols, l2) == Ok(Stepped(s3, symbols, None))
    requires Step(ctx, s3, symbols, l3) == Ok(Stepped(s4, symbols, Some(e)))
    ensures RlogLines(ctx, [l0] + ([l1] + ([l2] + ([l3] + tail))), st, symbols) == Prepend([e], RlogLines(ctx, tail, s4, symbols))
  {
    var t3 := [l3] + tail;
    var t2 := [l2] + t3;
    var t1 := [l1] + t2;
    RlogLinesCons(ctx, l3, tail, s3, symbols);
    assert EventList(Some(e)) == [e];
    QuietCons(ctx, l2, t3, s2, symbols, s3, symbols);
    QuietCons(ctx, l1, t2, s1, symbols, s2, symbols);
    QuietCons(ctx, l0, t1, st, symbols, s1, symbols);
  }

  /**
   * A trunk revision with its date line, a one-line message and the file
   * boundary reports one revision of the current file on HEAD, carrying the
   * revision number, the author, the message, the converted date and
   * dead exactly when the state is "dead".
   */
  lemma RlogRevisionBlock(ctx: RlogContext, st: RlogState, symbols: seq<BranchRev>, prefix: string, n: nat,
                          d: string, a: string, s: string, m: string, tail: seq<string>)
    requires st.phase == NeedRevision && !st.skipUnknown
    requires TrunkRevision(ctx.date, prefix, d, a, s, m)
    ensures RlogLines(ctx, TrunkRevisionLines(prefix, n, d, a, s, m) + tail, st, symbols)
      == Prepend([Event("HEAD", st.file, prefix + "." + Itoa(n), a, m + "\n", ctx.date(d), s == "dead")],
                 RlogLines(ctx, tail, AfterRevision(st, ctx.date, prefix, n, d, a, s, m), symbols))
  {
    var s1 := OpenedRevision(st, prefix, n);
    var s2 := DatedRevision(st, ctx.date, prefix, n, d, a, s);
    var s3 := s2.(haveLog := true, message := m + "\n");
    var s4 := s3.(phase := NeedRcsFile, skipUnknown := false);
    TrunkRevisionStep(ctx, st, symbols, prefix, n);
    DateStep(ctx, st, symbols, prefix, n, d, a, s);
    MessageStep(ctx, s2, symbols, m);
    BoundaryStep(ctx, s3, symbols);
    assert EventOf(s3) == Event("HEAD", st.file, prefix + "." + Itoa(n), a, m + "\n", ctx.date(d), s == "dead");
    assert s4 == AfterRevision(st, ctx.date, prefix, n, d, a, s, m);
    var l0 := "revision " + prefix + "." + Itoa(n);
    var l1 := DateText(d, a, s);
    RlogLinesFour(ctx, l0, l1, m, FileBoundary, tail, st, symbols, s1, s2, s3, s4, EventOf(s3));
    FourCons(l0, l1, m, FileBoundary, tail);
  }

  /**
   * The whole reply for one live file of the module with no symbols and a
   * single trunk revision: exactly that revision is reported, with the
   * file's path, HEAD as its branch, its revision number, author,
   * converted date, message and dead flag, and the parse succeeds with no
   * branch or tag names.
   */
  lemma RlogOneRevision(ctx: RlogContext, path: string, header: string, prefix: string, n: nat,
                        d: string, a: string, s: string, m: string, after: string)
    requires Find(ctx.fullModulePath + path, "/Attic/").None?
    requires header == [] || !IsSpace(header[0])
    requires TrunkRevision(ctx.date, prefix, d, a, s, m)
    requires '\n' !in ctx.fullModulePath + path && '\n' !in header && '\n' !in d + a + s && '\n' !in m
    ensures RlogReply(ctx, MText(HeaderLines(ctx.fullModulePath, path, header) + TrunkRevisionLines(prefix, n, d, a, s, m)) + "ok\n" + after)
      == RlogResult([Event("HEAD", path, prefix + "." + Itoa(n), a, m + "\n", ctx.date(d), s == "dead")], Ok(Lists({}, {})))
  {
    var lines := HeaderLines(ctx.fullModulePath, path, header) + TrunkRevisionLines(prefix, n, d, a, s, m);
    NoNewlineLines(ctx.fullModulePath, path, header, prefix, n, d, a, s, m);
    ScanMLines(lines, after);
    var fin := RlogLinesOneRevision(ctx, path, header, prefix, n, d, a, s, m);
    assert Names(map[]) == {};
    assert Finish(fin) == Ok(Lists({}, {}));
  }

  /** The parser over the lines of that reply reports the revision and ends between files. */
  lemma RlogLinesOneRevision(ctx: RlogContext, path: string, header: string, prefix: string, n: nat,
                             d: string, a: string, s: string, m: string) returns (fin: RlogState)
    requires Find(ctx.fullModulePath + path, "/Attic/").None?
    requires header == [] || !IsSpace(header[0])
    requires TrunkRevision(ctx.date, prefix, d, a, s, m)
    ensures fin.phase == NeedRcsFile && fin.branchHash == map[] && fin.tagHash == map[]
    ensures RlogLines(ctx, HeaderLines(ctx.fullModulePath, path, header) + TrunkRevisionLines(prefix, n, d, a, s, m), Start, [])
      == Run([Event("HEAD", path, prefix + "." + Itoa(n), a, m + "\n", ctx.date(d), s == "dead")], Ok((fin, [])))
  {
    var block := TrunkRevisionLines(prefix, n, d, a, s, m);
    RlogHeaderLines(ctx, Start, [], path, header, block);
    var st := Start.(phase := NeedRevision, file := path);
    RlogRevisionBlock(ctx, st, [], prefix, n, d, a, s, m, []);
    assert block + [] == block;
    fin := AfterRevision(st, ctx.date, prefix, n, d, a, s, m);
    assert RlogLines(ctx, [], fin, []) == Run([], Ok((fin, [])));
  }

  /** None of the lines of a one-revision reply holds a newline. */
  lemma NoNewlineLines(fmp: string, path: string, header: string, prefix: string, n: nat,
                       d: string, a: string, s: string, m: string)
    requires forall i :: 0 <= i < |prefix| ==> IsDigit(prefix[i])
    requires '\n' !in fmp + path && '\n' !in header && '\n' !in d + a + s && '\n' !in m
    ensures var lines := HeaderLines(fmp, path, header) + TrunkRevisionLines(prefix, n, d, a, s, m);
      forall i :: 0 <= i < |lines| ==> '\n' !in lines[i]
  {
    var h := HeaderLines(fmp, path, header);
    var b := TrunkRevisionLines(prefix, n, d, a, s, m);
    HeaderNoNewline(fmp, path, header);
    TrunkNoNewline(prefix, n, d, a, s, m);
    forall i | 0 <= i < |h + b| ensures '\n' !in (h + b)[i] {
      if i < 4 { assert (h + b)[i] == h[i]; } else { assert (h + b)[i] == b[i - 4]; }
    }
  }

  lemma HeaderNoNewline(fmp: string, path: string, header: string)
    requires '\n' !in fmp + path && '\n' !in header
    ensures var h := HeaderLines(fmp, path, header); |h| == 4 && forall i :: 0 <= i < 4 ==> '\n' !in h[i]
  {
    assert '\n' !in fmp && '\n' !in path;
  }

  lemma TrunkNoNewline(prefix: string, n: nat, d: string, a: string, s: string, m: string)
    requires forall i :: 0 <= i < |prefix| ==> IsDigit(prefix[i])
    requires '\n' !in d + a + s && '\n' !in m
    ensures var b := TrunkRevisionLines(prefix, n, d, a, s, m); |b| == 4 && forall i :: 0 <= i < 4 ==> '\n' !in b[i]
  {
    assert '\n' !in "revision " + prefix + "." + Itoa(n) by { RevisionLineNoNewline(prefix, n); }
    assert '\n' !in DateText(d, a, s) by { DateTextNoNewline(d, a, s); }
    assert '\n' !in FileBoundary by { BoundaryNoNewline(); }
  }

  lemma RevisionLineNoNewline(prefix: string, n: nat)
    requires forall i :: 0 <= i < |prefix| ==> IsDigit(prefix[i])
    ensures '\n' !in "revision " + prefix + "." + Itoa(n)
  {
    var digits := NatToString(n);
    assert Itoa(n) == digits && AllDigits(digits);
    assert '\n' !in "revision " && '\n' !in ".";
  }

  lemma DateTextNoNewline(d: string, a: string, s: string)
    requires '\n' !in d + a + s
    ensures '\n' !in DateText(d, a, s)
  {
    assert '\n' !in d && '\n' !in a && '\n' !in s;
    assert '\n' !in "date: " && '\n' !in "author: " && '\n' !in "state: " && '\n' !in "  " && '\n' !in ";";
  }

  lemma BoundaryNoNewline()
    ensures '\n' !in FileBoundary
  {
    assert forall i :: 0 <= i < |FileBoundary| ==> FileBoundary[i] == '=';
  }


  /**
   * The arguments cvs_rlog sends: a -d range from the rendered `since`
   * date (when there is one) to a fixed date in 2038, -S when the server
   * supports it, then the module.
   */
  function RlogArguments(since: Option<string>, rlogS: bool, moduleName: string): (r: seq<string>)
    ensures |r| == 2 + (if since.Some? then 2 else 0) + (if rlogS then 1 else 0)
    ensures r[|r| - 2..] == ["--", moduleName]
    ensures since.Some? <==> r[0] == "-d"
    ensures since.Some? ==> r[1] == since.value + RlogUntil
    ensures rlogS <==> |r| >= 3 && r[|r| - 3] == "-S"
  {
    match since
    case Some(d) =>
      if rlogS then ["-d", d + RlogUntil, "-S", "--", moduleName] else ["-d", d + RlogUntil, "--", moduleName]
    case None =>
      if rlogS then ["-S", "--", moduleName] else ["--", moduleName]
  }

  /** The upper end of the -d range: a fixed date in 2038. */
  const RlogUntil := "<1 Jan 2038 05:00:00 -0000"

  /** The -d argument lines for the rendered `since` date. */
  function SinceLines(since: Option<string>): string
  {
    if since.Some? then ArgumentLines(["-d", since.value + RlogUntil]) else []
  }

  /** The -S argument line, when the server supports it. */
  function SLines(rlogS: bool): string
  {
    if rlogS then ArgumentLines(["-S"]) else []
  }

  /** The module argument and the rlog command. */
  function ModuleLines(moduleName: string): string
  {
    ArgumentLines(["--", moduleName]) + "rlog\n"
  }

  /** The request cvs_rlog writes, in the three writes it makes. */
  function RlogRequest(since: Option<string>, rlogS: bool, moduleName: string): string
  {
    SinceLines(since) + SLines(rlogS) + ModuleLines(moduleName)
  }

  /** cvs_rlog's request is the argument lines of RlogArguments and the rlog command. */
  lemma RlogRequestArguments(since: Option<string>, rlogS: bool, moduleName: string)
    ensures RlogRequest(since, rlogS, moduleName) == ArgumentLines(RlogArguments(since, rlogS, moduleName)) + "rlog\n"
  {
    var dArgs := if since.Some? then ["-d", since.value + RlogUntil] else [];
    var sArgs := if rlogS then ["-S"] else [];
    var mArgs := ["--", moduleName];
    assert ArgumentLines(dArgs) == SinceLines(since);
    assert ArgumentLines(sArgs) == SLines(rlogS);
    ArgumentLinesAppend(dArgs, sArgs);
    ArgumentLinesAppend(dArgs + sArgs, mArgs);
    assert RlogArguments(since, rlogS, moduleName) == dArgs + sArgs + mArgs;
    Associative(ArgumentLines(dArgs) + ArgumentLines(sArgs), ArgumentLines(mArgs), "rlog\n");
  }

  /**
   * cvs_rlog's request on the connection: the optional -d and -S
   * arguments are buffered, the module argument and the command flush.
   */
  method SendRlog(t: Transport, since: Option<string>, rlogS: bool, moduleName: string)
    modifies t
    ensures t.Output() == old(t.Output()) + RlogRequest(since, rlogS, moduleName)
    ensures t.wrBuf == []
    ensures t.data == old(t.data) && t.buf == old(t.buf) && t.len == old(t.len) && t.incoming == old(t.incoming)
  {
    ghost var out0 := t.Output();
    var since' := SinceLines(since);
    var s := SLines(rlogS);
    var last := ModuleLines(moduleName);
    ghost var request := since' + s + last;
    assert request == RlogRequest(since, rlogS, moduleName);
    if since.Some? {
      t.Write(false, since');
    }
    assert t.Output() == out0 + since';
    if rlogS {
      t.Write(false, s);
    }
    Associative(out0, since', s);
    assert t.Output() == out0 + (since' + s);
    t.Write(true, last);
    Associative(out0, since' + s, last);
    assert t.Output() == out0 + request;
  }

  /** cvs_get_rev_branch's request: the header (-h) rlog of one file of the module. */
  function RevBranchRequest(moduleName: string, file: string): string
  {
    ArgumentLines(["-h", "--", moduleName + "/" + file]) + "rlog\n"
  }

  /** cvs_get_rev_branch's state and the branch name it has found. */
  datatype Lookup = Lookup(phase: Phase, found: Option<string>)

  /** An indented symbol line that names `name` as the branch `branch`. */
  predicate NamesBranch(line: string, branch: string, name: string)
  {
    line != [] && IsSpace(line[0]) && ParseSym(LTrim(line)) == Ok(Symbol(Branch, name, branch))
  }

  /** An indented symbol line that is not the branch `branch`. */
  predicate OtherSymbol(line: string, branch: string)
  {
    line != [] && IsSpace(line[0]) && ParseSym(LTrim(line)).Ok?
    && !(ParseSym(LTrim(line)).value.kind == Branch && ParseSym(LTrim(line)).value.rev == branch)
  }

  /**
   * One line of cvs_get_rev_branch: find the RCS file and the symbol list,
   * then stop at the first branch symbol whose revision is `branch`, or at
   * the end of the symbol list.
   */
  function RevBranchStep(branch: string, lk: Lookup, line: string): (r: Outcome<Lookup>)
    ensures !r.Error?
    ensures lk.phase == SkipLines ==> r == Ok(lk)
    ensures r.Ok? && r.value.found != lk.found ==>
      r.value.phase == SkipLines && r.value.found.Some? && NamesBranch(line, branch, r.value.found.value)
    ensures r.Ok? && r.value.phase != lk.phase ==> r.value.phase != NeedRcsFile
    ensures lk.phase == NeedEos && OtherSymbol(line, branch) ==> r == Ok(lk)
    ensures lk.phase == NeedEos && (line == [] || !IsSpace(line[0])) ==> r == Ok(lk.(phase := SkipLines))
  {
    match lk.phase
    case NeedRcsFile => Ok(if "RCS file: " <= line then lk.(phase := NeedSyms) else lk)
    case NeedSyms => Ok(if "symbolic names:" <= line then lk.(phase := NeedEos) else lk)
    case NeedEos =>
      if line == [] || !IsSpace(line[0]) then Ok(lk.(phase := SkipLines))
      else SymbolStep(branch, lk, ParseSym(LTrim(line)))
    case _ => Ok(lk)
  }

  /** A parsed symbol line: the branch `branch` ends the search with its name, any other symbol is passed over. */
  function SymbolStep(branch: string, lk: Lookup, sym: Outcome<Symbol>): (r: Outcome<Lookup>)
    ensures sym.Ok? && sym.value.kind == Branch && sym.value.rev == branch ==> r == Ok(Lookup(SkipLines, Some(sym.value.name)))
    ensures sym.Ok? && !(sym.value.kind == Branch && sym.value.rev == branch) ==> r == Ok(lk)
    ensures !sym.Ok? ==> !r.Ok?
  {
    match sym
    case Ok(s) => Ok(if s.kind == Branch && s.rev == branch then Lookup(SkipLines, Some(s.name)) else lk)
    case Error => Error
    case Fatal(m) => Fatal(m)
  }

  /** Some line of `lines` names `name` as the branch `branch`. */
  predicate SomeNamesBranch(lines: seq<string>, branch: string, name: string)
  {
    exists i :: 0 <= i < |lines| && NamesBranch(lines[i], branch, name)
  }

  lemma SomeNamesBranchCons(lines: seq<string>, branch: string, name: string)
    requires lines != []
    requires NamesBranch(lines[0], branch, name) || SomeNamesBranch(lines[1..], branch, name)
    ensures SomeNamesBranch(lines, branch, name)
  {
    if !NamesBranch(lines[0], branch, name) {
      var i :| 0 <= i < |lines[1..]| && NamesBranch(lines[1..][i], branch, name);
      assert NamesBranch(lines[i + 1], branch, name);
    }
  }

  /** cvs_get_rev_branch over a sequence of "M " texts; a fatal symbol line stops it. */
  function RevBranchLines(branch: string, lines: seq<string>, lk: Lookup): (r: Outcome<Lookup>)
    ensures !r.Error?
    ensures lk.phase == SkipLines ==> r == Ok(lk)
    ensures r.Ok? && r.value.found.Some? && lk.found.None? ==> SomeNamesBranch(lines, branch, r.value.found.value)
    decreases |lines|
  {
    if lines == [] then Ok(lk)
    else
      match RevBranchStep(branch, lk, lines[0])
      case Ok(next) =>
        var r := RevBranchLines(branch, lines[1..], next);
        assert r.Ok? && r.value.found.Some? && lk.found.None? ==> SomeNamesBranch(lines, branch, r.value.found.value) by {
          if r.Ok? && r.value.found.Some? && lk.found.None? {
            SomeNamesBranchCons(lines, branch, r.value.found.value);
          }
        }
        r
      case Error => Error
      case Fatal(m) => Fatal(m)
  }

  /** Symbol lines of other symbols leave the search where it was. */
  lemma {:induction false} RevBranchOthers(branch: string, syms: seq<string>, tail: seq<string>, lk: Lookup)
    requires lk.phase == NeedEos
    requires forall i :: 0 <= i < |syms| ==> OtherSymbol(syms[i], branch)
    ensures RevBranchLines(branch, syms + tail, lk) == RevBranchLines(branch, tail, lk)
    decreases |syms|
  {
    if syms != [] {
      var all := syms + tail;
      assert all[0] == syms[0] && all[1..] == syms[1..] + tail;
      assert RevBranchLines(branch, all, lk) == RevBranchLines(branch, all[1..], lk);
      RevBranchOthers(branch, syms[1..], tail, lk);
    } else {
      assert syms + tail == tail;
    }
  }

  /** The "RCS file:" and "symbolic names:" lines open the symbol list. */
  lemma RevBranchHeader(branch: string, rcs: string, header: string, tail: seq<string>)
    requires "RCS file: " <= rcs && "symbolic names:" <= header
    ensures RevBranchLines(branch, [rcs, header] + tail, Lookup(NeedRcsFile, None))
         == RevBranchLines(branch, tail, Lookup(NeedEos, None))
  {
    var all := [rcs, header] + tail;
    assert all[0] == rcs && all[1..][0] == header && all[1..][1..] == tail;
    assert RevBranchStep(branch, Lookup(NeedRcsFile, None), rcs) == Ok(Lookup(NeedSyms, None));
    assert RevBranchStep(branch, Lookup(NeedSyms, None), header) == Ok(Lookup(NeedEos, None));
  }

  /** The line that ends the search: a branch symbol for `branch`, or the end of the symbol list. */
  lemma RevBranchLast(branch: string, line: string, rest: seq<string>)
    ensures forall name :: NamesBranch(line, branch, name) ==>
      RevBranchLines(branch, [line] + rest, Lookup(NeedEos, None)) == Ok(Lookup(SkipLines, Some(name)))
    ensures line == [] || !IsSpace(line[0]) ==>
      RevBranchLines(branch, [line] + rest, Lookup(NeedEos, None)) == Ok(Lookup(SkipLines, None))
  {
    forall name | NamesBranch(line, branch, name)
      ensures RevBranchLines(branch, [line] + rest, Lookup(NeedEos, None)) == Ok(Lookup(SkipLines, Some(name)))
    {
      RevBranchFound(branch, line, name);
      RevBranchStop(branch, line, rest, Lookup(SkipLines, Some(name)));
    }
    if line == [] || !IsSpace(line[0]) {
      RevBranchStop(branch, line, rest, Lookup(SkipLines, None));
    }
  }

  /** A symbol line naming the branch `branch` ends the search with its name. */
  lemma RevBranchFound(branch: string, line: string, name: string)
    requires NamesBranch(line, branch, name)
    ensures RevBranchStep(branch, Lookup(NeedEos, None), line) == Ok(Lookup(SkipLines, Some(name)))
  {
    assert RevBranchStep(branch, Lookup(NeedEos, None), line) == SymbolStep(branch, Lookup(NeedEos, None), ParseSym(LTrim(line)));
  }

  /** A line that stops the search decides the outcome; the lines after it are skipped. */
  lemma RevBranchStop(branch: string, line: string, rest: seq<string>, last: Lookup)
    requires last.phase == SkipLines
    requires RevBranchStep(branch, Lookup(NeedEos, None), line) == Ok(last)
    ensures RevBranchLines(branch, [line] + rest, Lookup(NeedEos, None)) == Ok(last)
  {
    var all := [line] + rest;
    assert all[0] == line && all[1..] == rest;
    assert RevBranchLines(branch, rest, last) == Ok(last);
  }

  /**
   * After the "RCS file:" and "symbolic names:" lines, the first symbol
   * line that names a branch with the wanted revision gives its name;
   * the end of the symbol list before one does gives none.
   */
  lemma RevBranchSymbols(branch: string, rcs: string, header: string, syms: seq<string>, line: string, rest: seq<string>)
    requires "RCS file: " <= rcs && "symbolic names:" <= header
    requires forall i :: 0 <= i < |syms| ==> OtherSymbol(syms[i], branch)
    ensures forall name :: NamesBranch(line, branch, name) ==>
      RevBranchLines(branch, [rcs, header] + syms + [line] + rest, Lookup(NeedRcsFile, None)) == Ok(Lookup(SkipLines, Some(name)))
    ensures line == [] || !IsSpace(line[0]) ==>
      RevBranchLines(branch, [rcs, header] + syms + [line] + rest, Lookup(NeedRcsFile, None)) == Ok(Lookup(SkipLines, None))
  {
    var tail := [line] + rest;
    assert [rcs, header] + syms + [line] + rest == [rcs, header] + (syms + tail);
    RevBranchHeader(branch, rcs, header, syms + tail);
    RevBranchOthers(branch, syms, tail, Lookup(NeedEos, None));
    RevBranchLast(branch, line, rest);
  }

  /**
   * cvs_get_rev_branch over the server's input: the name of the branch
   * whose revision is `revision` without its last component, None when the
   * symbol list has no such branch, Error (NULL in the source) on an
   * "error" line or the end of the stream, and Fatal when the reply ends
   * before the symbol list does.
   */
  function RevBranchReply(revision: string, input: string): (r: Outcome<Option<string>>)
    ensures r.Ok? ==> ScanM(input, "").code == 1
    ensures r.Ok? && r.value.Some? ==>
      SomeNamesBranch(ScanM(input, "").lines, StripLastRevNum(revision).1, r.value.value)
  {
    var m := ScanM(input, "");
    match RevBranchLines(StripLastRevNum(revision).1, m.lines, Lookup(NeedRcsFile, None))
    case Fatal(msg) => Fatal(msg)
    case Error => Error
    case Ok(lk) =>
      if m.code == -1 then Error
      else if lk.phase != SkipLines then Fatal("Cannot parse revision rlog, parser state " + Itoa(PhaseNumber(lk.phase)))
      else Ok(lk.found)
  }

  /**
   * cvs_get_rev_branch on the connection: send the request, then read the
   * "M " lines one at a time until "ok", an "error" line or the end of
   * the stream.
   */
  method GetRevBranch(t: Transport, moduleName: string, file: string, revision: string) returns (r: Outcome<Option<string>>)
    requires t.Valid()
    modifies t, t.data
    ensures t.Valid() && t.data == old(t.data)
    ensures t.Output() == old(t.Output()) + RevBranchRequest(moduleName, file)
    ensures r == RevBranchReply(revision, old(t.Input()))
  {
    t.Write(true, RevBranchRequest(moduleName, file));
    ghost var out := t.Output();
    ghost var m0 := ScanM(t.Input(), "");
    var branch := StripLastRevNum(revision).1;
    ghost var run0 := RevBranchLines(branch, m0.lines, Lookup(NeedRcsFile, None));
    var lk := Lookup(NeedRcsFile, None);
    var reply := "";
    while true
      invariant t.Valid() && t.data == old(t.data) && t.Output() == out
      invariant ScanM(t.Input(), reply).code == m0.code
      invariant run0 == RevBranchLines(branch, ScanM(t.Input(), reply).lines, lk)
      decreases |t.Input()|
    {
      ghost var before := t.Input();
      var code, line, printed := t.GetReplyFirstMatch("M ", reply);
      if code == -1 {
        return Error;
      } else if code == 1 {
        break;
      }
      assert ScanM(before, reply).lines == [line] + ScanM(t.Input(), line).lines;
      assert ([line] + ScanM(t.Input(), line).lines)[1..] == ScanM(t.Input(), line).lines;
      var next := RevBranchStep(branch, lk, line);
      match next {
        case Error =>
          assert false;
        case Fatal(msg) =>
          return Fatal(msg);
        case Ok(lk') =>
          lk := lk';
      }
      reply := line;
    }
    if lk.phase != SkipLines {
      return Fatal("Cannot parse revision rlog, parser state " + Itoa(PhaseNumber(lk.phase)));
    }
    r := Ok(lk.found);
  }
}
