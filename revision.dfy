/**
 * Revision numbers, symbolic names, Entry lines, file modes and status
 * names: the small text helpers the reply parsers are built from.
 */
module Revision {
  import opened Wrappers
  import opened Text

  /** The kind of a symbolic name: sym_invalid, sym_branch or sym_tag. */
  datatype SymKind = Invalid | Branch | Tag

  /** A symbol line split into its kind, its name and its (normalised) revision. */
  datatype Symbol = Symbol(kind: SymKind, name: string, rev: string)

  /**
   * strip_last_rev_num: the value of the last component of `rev` and the
   * text before its last '.'; -1 and `rev` itself when there is no '.'.
   */
  function StripLastRevNum(rev: string): (r: (int, string))
    ensures '.' !in rev ==> r == (-1, rev)
    ensures '.' in rev ==>
      && |r.1| < |rev| && r.1 == rev[..|r.1|] && rev[|r.1|] == '.'
      && '.' !in rev[|r.1| + 1..] && r.0 == Atoi(rev[|r.1| + 1..])
  {
    match LastIndexOf(rev, '.')
    case None => (-1, rev)
    case Some(k) => (Atoi(rev[k + 1..]), rev[..k])
  }

  lemma {:induction false} NoDotInNatToString(n: nat)
    ensures '.' !in NatToString(n)
  {
    var s := NatToString(n);
    assert forall i :: 0 <= i < |s| ==> s[i] != '.';
  }

  lemma {:induction false} NoDotInItoa(n: int)
    ensures '.' !in Itoa(n)
  {
    NoDotInNatToString(if n < 0 then -n else n);
  }

  /** Stripping the last component undoes appending "." and a printed number. */
  lemma {:induction false} StripLastRevNumAppend(prefix: string, n: int)
    ensures StripLastRevNum(prefix + "." + Itoa(n)) == (n, prefix)
  {
    var rev := prefix + "." + Itoa(n);
    NoDotInItoa(n);
    var k := |prefix|;
    assert rev[k] == '.';
    assert rev[k + 1..] == Itoa(n);
    LastIndexOfAt(rev, '.', k);
    AtoiItoa(n);
    assert rev[..k] == prefix;
  }

  predicate IsEven(n: nat)
  {
    n % 2 == 0
  }

  /**
   * parse_branch_rev: classify the revision of a symbolic name and
   * normalise a magic branch number; a revision without '.' is fatal.
   */
  function ParseBranchRev(rev: string): (r: Outcome<(SymKind, string)>)
    ensures !r.Error?
    ensures r.Fatal? <==> '.' !in rev
    ensures r.Ok? ==> r.value.0 != Invalid
    ensures r.Ok? && r.value.0 == Tag ==> r.value.1 == rev
  {
    match LastIndexOf(rev, '.')
    case None => Fatal("Cannot parse branch revision")
    case Some(last) =>
      match LastIndexOf(rev[..last], '.')
      case None => Ok((Tag, rev))
      case Some(prev) =>
        if IsEven(Count(rev, '.')) then Ok((Branch, rev)) else MagicBranch(rev, prev, last)
  }

  /** An odd number of dots: "x.y.0.z" is the magic branch number of branch x.y.z. */
  function MagicBranch(rev: string, prev: nat, last: nat): (r: Outcome<(SymKind, string)>)
    requires prev < last <= |rev|
    ensures r.Ok? && r.value.0 != Invalid
  {
    if Atoi(rev[prev + 1..]) == 0 then Ok((Branch, rev[..prev] + rev[last..])) else Ok((Tag, rev))
  }

  lemma {:induction false} LeadingDigitsAppend(d: string, rest: string)
    requires AllDigits(d)
    requires rest == [] || !IsDigit(rest[0])
    ensures LeadingDigits(d + rest) == |d|
  {
    if d != [] {
      assert (d + rest)[1..] == d[1..] + rest;
      LeadingDigitsAppend(d[1..], rest);
    }
  }

  /** atoi reads a run of digits up to the first character that is not a digit. */
  lemma {:induction false} AtoiDigitsThen(d: string, rest: string)
    requires d != [] && AllDigits(d)
    requires rest == [] || !IsDigit(rest[0])
    ensures Atoi(d + rest) == DigitsValue(d)
  {
    var t := d + rest;
    assert !IsSpace(t[0]);
    LeadingDigitsAppend(d, rest);
    assert t[..|d|] == d;
  }

  /** Dropping the trailing `c` characters of a string whose last `c` is at `k`. */
  lemma {:induction false} CountAtLast(s: string, c: char, k: nat)
    requires LastIndexOf(s, c) == Some(k)
    ensures Count(s, c) == Count(s[..k], c) + 1
  {
    assert s == s[..k] + [c] + s[k + 1..];
    CountAppend(s[..k] + [c], s[k + 1..], c);
    CountAppend(s[..k], [c], c);
    CountZero(s[k + 1..], c);
  }

  /** One '.' (x.y) makes a tag. */
  lemma {:induction false} ParseBranchRevOneDot(rev: string)
    requires Count(rev, '.') == 1
    ensures ParseBranchRev(rev) == Ok((Tag, rev))
  {
    CountZero(rev, '.');
    var last := LastIndexOf(rev, '.').value;
    CountAtLast(rev, '.', last);
    CountZero(rev[..last], '.');
  }

  /** No '.' in a revision is fatal. */
  lemma {:induction false} ParseBranchRevNoDot(rev: string)
    requires Count(rev, '.') == 0
    ensures ParseBranchRev(rev).Fatal?
  {
    CountZero(rev, '.');
  }

  /** An even number of dots, at least two (x.y.z), makes a branch, left unchanged. */
  lemma {:induction false} ParseBranchRevEvenDots(rev: string)
    requires Count(rev, '.') >= 2 && IsEven(Count(rev, '.'))
    ensures ParseBranchRev(rev) == Ok((Branch, rev))
  {
    CountZero(rev, '.');
    var last := LastIndexOf(rev, '.').value;
    CountAtLast(rev, '.', last);
    CountZero(rev[..last], '.');
  }

  lemma StripAt(rev: string, k: nat)
    requires LastIndexOf(rev, '.') == Some(k)
    ensures StripLastRevNum(rev) == (Atoi(rev[k + 1..]), rev[..k])
  {
  }

  lemma DropSplit(s: string, i: nat, j: nat)
    requires i <= j <= |s|
    ensures s[i..] == s[..j][i..] + s[j..]
  {
  }

  lemma TakeTake(s: string, i: nat, j: nat)
    requires i <= j <= |s|
    ensures s[..j][..i] == s[..i]
  {
  }

  /** With an odd number of dots and the last two located, the penultimate component decides. */
  lemma {:induction false} ParseBranchRevOddAt(rev: string, last: nat, prev: nat)
    requires LastIndexOf(rev, '.') == Some(last)
    requires LastIndexOf(rev[..last], '.') == Some(prev)
    requires !IsEven(Count(rev, '.'))
    ensures ParseBranchRev(rev) == MagicBranch(rev, prev, last)
  {
  }

  /** The component between the last two dots reads the same with or without what follows it. */
  lemma StripSecond(rev: string, last: nat, prev: nat)
    requires last < |rev| && rev[last] == '.'
    requires LastIndexOf(rev[..last], '.') == Some(prev)
    ensures StripLastRevNum(rev[..last]) == (Atoi(rev[prev + 1..]), rev[..prev])
  {
    var p := rev[..last];
    DropSplit(rev, prev + 1, last);
    AtoiStopsAt(p[prev + 1..], rev[last..]);
    StripAt(p, prev);
    TakeTake(rev, prev, last);
  }

  /** The odd case once the last two dots are located, stated through strip_last_rev_num. */
  lemma {:induction false} ParseBranchRevOddStrip(rev: string, last: nat, prev: nat)
    requires LastIndexOf(rev, '.') == Some(last)
    requires LastIndexOf(rev[..last], '.') == Some(prev)
    requires !IsEven(Count(rev, '.'))
    ensures var p := StripLastRevNum(rev).1;
      var q := StripLastRevNum(p).1;
      ParseBranchRev(rev)
        == if StripLastRevNum(p).0 == 0 then Ok((Branch, q + rev[|p|..])) else Ok((Tag, rev))
  {
    StripAt(rev, last);
    var p := rev[..last];
    assert StripLastRevNum(rev).1 == p && |p| == last;
    StripSecond(rev, last, prev);
    ParseBranchRevOddAt(rev, last, prev);
  }

  /**
   * An odd number of dots, at least three: when the component before the
   * last reads as 0 (x.y.0.z) the symbol is a branch and that ".0" is
   * removed (x.y.z); otherwise it is a tag, unchanged.
   */
  lemma {:induction false} ParseBranchRevOddDots(rev: string)
    requires Count(rev, '.') >= 3 && !IsEven(Count(rev, '.'))
    ensures var p := StripLastRevNum(rev).1;
      var q := StripLastRevNum(p).1;
      ParseBranchRev(rev)
        == if StripLastRevNum(p).0 == 0 then Ok((Branch, q + rev[|p|..])) else Ok((Tag, rev))
  {
    CountZero(rev, '.');
    var last := LastIndexOf(rev, '.').value;
    CountAtLast(rev, '.', last);
    CountZero(rev[..last], '.');
    var prev := LastIndexOf(rev[..last], '.').value;
    ParseBranchRevOddStrip(rev, last, prev);
  }

  /**
   * parse_sym: split "name: rev" at the first ':', skip one white-space
   * character after it and classify the revision; a line without ':' is
   * an invalid symbol.
   */
  function ParseSym(reply: string): (r: Outcome<Symbol>)
    ensures !r.Error?
    ensures ':' !in reply ==> r == Ok(Symbol(Invalid, "", ""))
    ensures r.Ok? && r.value.kind != Invalid ==>
      |r.value.name| < |reply| && reply[..|r.value.name|] == r.value.name
      && reply[|r.value.name|] == ':' && ':' !in r.value.name
  {
    match IndexOf(reply, ':')
    case None => Ok(Symbol(Invalid, "", ""))
    case Some(i) =>
      var rest := reply[i + 1..];
      var rev := if rest != [] && IsSpace(rest[0]) then rest[1..] else rest;
      match ParseBranchRev(rev)
      case Ok(p) => Ok(Symbol(p.0, reply[..i], p.1))
      case Error => Error
      case Fatal(m) => Fatal(m)
  }

  /** A symbol line "name: rev" gives back the name and the classification of the revision. */
  lemma {:induction false} ParseSymLine(name: string, rev: string)
    requires ':' !in name
    requires rev == [] || !IsSpace(rev[0])
    ensures ParseBranchRev(rev).Ok? ==>
      ParseSym(name + ": " + rev)
        == Ok(Symbol(ParseBranchRev(rev).value.0, name, ParseBranchRev(rev).value.1))
    ensures ParseBranchRev(rev).Fatal? ==> ParseSym(name + ": " + rev).Fatal?
  {
    var line := name + ": " + rev;
    assert line[|name|] == ':';
    assert line[..|name|] == name;
    assert line[|name| + 1..] == " " + rev;
    assert (" " + rev)[1..] == rev;
  }

  predicate IsRevisionChar(c: char)
  {
    IsDigit(c) || c == '.'
  }

  /** trim_revision: keep the longest prefix made of digits and dots. */
  function TrimRevision(rev: string): (r: string)
    ensures r <= rev
    ensures forall i :: 0 <= i < |r| ==> IsRevisionChar(r[i])
    ensures |r| < |rev| ==> !IsRevisionChar(rev[|r|])
  {
    if rev != [] && IsRevisionChar(rev[0]) then
      var t := TrimRevision(rev[1..]);
      assert [rev[0]] + t <= rev;
      [rev[0]] + t
    else []
  }

  /** In a revision number, strip_last_rev_num reports -1 exactly when there is no '.'. */
  lemma StripRevisionNumber(rev: string)
    requires forall i :: 0 <= i < |rev| ==> IsRevisionChar(rev[i])
    ensures StripLastRevNum(rev).0 == -1 <==> '.' !in rev
  {
    if '.' in rev {
      var tail := rev[|StripLastRevNum(rev).1| + 1..];
      assert AllDigits(tail) by {
        forall i | 0 <= i < |tail| ensures IsDigit(tail[i]) {
          assert tail[i] == rev[|StripLastRevNum(rev).1| + 1 + i];
        }
      }
      if tail != [] {
        AtoiOfDigits(tail);
      }
    }
  }

  /** Trimming a revision followed by a non-revision character yields the revision. */
  lemma {:induction false} TrimRevisionOf(rev: string, rest: string)
    requires forall i :: 0 <= i < |rev| ==> IsRevisionChar(rev[i])
    requires rest == [] || !IsRevisionChar(rest[0])
    ensures TrimRevision(rev + rest) == rev
  {
    if rev != [] {
      assert (rev + rest)[1..] == rev[1..] + rest;
      TrimRevisionOf(rev[1..], rest);
      assert rev == [rev[0]] + rev[1..];
    }
  }

  /**
   * is_revision_metadata: the line has a ':' with no ' ' before the first
   * one, and ends with ';'.
   */
  predicate IsRevisionMetadata(reply: string)
  {
    match IndexOf(reply, ':')
    case None => false
    case Some(colon) =>
      (match IndexOf(reply, ' ')
       case Some(space) => space >= colon
       case None => true)
      && EndsWith(reply, ";")
  }

  /** A line "key: value;" with a key without spaces or colons is metadata. */
  lemma {:induction false} RevisionMetadataLine(key: string, value: string)
    requires ':' !in key && ' ' !in key
    ensures IsRevisionMetadata(key + ": " + value + ";")
  {
    var line := key + ": " + value + ";";
    assert line[..|key|] == key && line[..|key| + 1] == key + ":";
    IndexOfAt(line, ':', |key|);
    IndexOfAt(line, ' ', |key| + 1);
    assert line[|line| - 1..] == ";";
  }

  /** A line with a space before its first ':', or not ending with ';', is not metadata. */
  lemma {:induction false} NotRevisionMetadata(reply: string, i: nat)
    requires i < |reply| && reply[i] == ' ' && ':' !in reply[..i]
    ensures !IsRevisionMetadata(reply)
  {
  }

  /**
   * inc_revision: add one to the last component of a revision; None (the
   * C routine returns -1 and leaves the string) when there is no '.' or
   * the last component reads as 0.
   */
  function IncRevision(rev: string): (r: Option<string>)
  {
    var (n, prefix) := StripLastRevNum(rev);
    if '.' !in rev || n == 0 then None else Some(prefix + "." + Itoa(n + 1))
  }

  /**
   * inc_revision fails exactly when strip_last_rev_num finds no '.' or a 0,
   * and otherwise keeps the prefix and adds one to the last number.
   */
  lemma {:induction false} IncRevisionStrip(rev: string)
    ensures IncRevision(rev).None? <==> '.' !in rev || StripLastRevNum(rev).0 == 0
    ensures IncRevision(rev).Some? ==>
      StripLastRevNum(IncRevision(rev).value)
        == (StripLastRevNum(rev).0 + 1, StripLastRevNum(rev).1)
  {
    var (n, prefix) := StripLastRevNum(rev);
    StripLastRevNumAppend(prefix, n + 1);
  }

  /** prefix.n becomes prefix.(n+1) for a positive n. */
  lemma {:induction false} IncRevisionNumber(prefix: string, n: nat)
    requires n > 0
    ensures IncRevision(prefix + "." + NatToString(n)) == Some(prefix + "." + NatToString(n + 1))
  {
    var rev := prefix + "." + NatToString(n);
    StripLastRevNumAppend(prefix, n);
    assert Itoa(n) == NatToString(n);
    assert rev[..|prefix| + 1] == prefix + ".";
    IncRevisionStrip(rev);
  }

  /** An Entry line: "/name/revision/" followed by the remaining fields. */
  function EntryLine(name: string, rev: string, rest: string): string
  {
    "/" + name + "/" + rev + "/" + rest
  }

  /**
   * parse_entry: the revision field of an Entry line, the text between the
   * second and third '/'; None (-1) when the line does not start with '/'
   * or lacks either of the next two '/'.
   */
  function ParseEntry(entry: string): (r: Option<string>)
    ensures r.Some? ==> '/' !in r.value
    ensures entry == [] || entry[0] != '/' ==> r.None?
  {
    if entry == [] || entry[0] != '/' then None
    else
      match IndexOf(entry[1..], '/')
      case None => None
      case Some(i) =>
        var tail := entry[i + 2..];
        match IndexOf(tail, '/')
        case None => None
        case Some(j) => Some(tail[..j])
  }

  /** The revision written into an Entry line is the one parse_entry reads back. */
  lemma {:induction false} ParseEntryLine(name: string, rev: string, rest: string)
    requires '/' !in name && '/' !in rev
    ensures ParseEntry(EntryLine(name, rev, rest)) == Some(rev)
  {
    var e := EntryLine(name, rev, rest);
    var i := |name|;
    assert IndexOf(e[1..], '/') == Some(i) by {
      assert e[1..] == name + "/" + rev + "/" + rest;
      assert e[1..][i] == '/' && e[1..][..i] == name;
      IndexOfAt(e[1..], '/', i);
    }
    var tail := e[i + 2..];
    assert IndexOf(tail, '/') == Some(|rev|) && tail[..|rev|] == rev by {
      assert tail == rev + "/" + rest;
      assert tail[|rev|] == '/' && tail[..|rev|] == rev;
      IndexOfAt(tail, '/', |rev|);
    }
  }

  /** An Entry line with a missing field separator is rejected. */
  lemma {:induction false} ParseEntryMissingSeparator(name: string, rev: string)
    requires '/' !in name && '/' !in rev
    ensures ParseEntry("/" + name + "/" + rev).None?
    ensures ParseEntry("/" + name).None?
  {
    var e := "/" + name + "/" + rev;
    assert e[1..] == name + "/" + rev;
    assert e[1..][|name|] == '/' && e[1..][..|name|] == name;
    assert e[|name| + 2..] == rev;
    assert ("/" + name)[1..] == name;
  }

  /**
   * verify_revision: true (0) when the Entry line parses and its revision
   * field equals the first field-length characters of `revision`; the C
   * comparison is a strncmp bounded by the field's length.
   */
  predicate VerifyRevision(revision: string, entry: string)
  {
    match ParseEntry(entry)
    case None => false
    case Some(field) => field <= revision
  }

  /** An Entry line for the requested revision is accepted. */
  lemma {:induction false} VerifyRevisionAccepts(name: string, rev: string, rest: string)
    requires '/' !in name && '/' !in rev
    ensures VerifyRevision(rev, EntryLine(name, rev, rest))
  {
    ParseEntryLine(name, rev, rest);
  }

  /**
   * The check is a prefix test: an Entry line is accepted exactly when its
   * revision is a prefix of the requested one, so "1.1" passes for "1.10".
   */
  lemma {:induction false} VerifyRevisionIsPrefixTest(revision: string, name: string, rev: string, rest: string)
    requires '/' !in name && '/' !in rev
    ensures VerifyRevision(revision, EntryLine(name, rev, rest)) <==> rev <= revision
    ensures VerifyRevision("1.10", EntryLine(name, "1.1", rest))
  {
    ParseEntryLine(name, rev, rest);
    ParseEntryLine(name, "1.1", rest);
    assert "1.1" <= "1.10";
  }

  /**
   * The nine permission bits of a file mode. A mode is the set of its bits;
   * the octal masks of the C source are the sets below, `|` is union and
   * `&` intersection.
   */
  datatype Class = User | Group | Other
  datatype Kind = Read | Write | Exec
  datatype Perm = Perm(cls: Class, kind: Kind)

  /** 0700, 0070 and 0007. */
  function ClassBits(c: Class): set<Perm>
  {
    {Perm(c, Read), Perm(c, Write), Perm(c, Exec)}
  }

  /** 0444, 0222 and 0111. */
  function KindBits(k: Kind): set<Perm>
  {
    {Perm(User, k), Perm(Group, k), Perm(Other, k)}
  }

  /** The octal value of a mode, as the C int holds it. */
  function ModeValue(m: set<Perm>): (v: nat)
    ensures v < 512
  {
    (if Perm(User, Read) in m then 256 else 0) + (if Perm(User, Write) in m then 128 else 0)
    + (if Perm(User, Exec) in m then 64 else 0) + (if Perm(Group, Read) in m then 32 else 0)
    + (if Perm(Group, Write) in m then 16 else 0) + (if Perm(Group, Exec) in m then 8 else 0)
    + (if Perm(Other, Read) in m then 4 else 0) + (if Perm(Other, Write) in m then 2 else 0)
    + (if Perm(Other, Exec) in m then 1 else 0)
  }

  /** `mode & 0111` is non-zero: some execute bit is set. */
  predicate IsExecutable(m: set<Perm>)
  {
    m * KindBits(Exec) != {}
  }

  /** The characters a mode string may contain. */
  predicate IsModeChar(c: char)
  {
    c == ',' || c == 'u' || c == 'g' || c == 'o' || c == 'r' || c == 'w' || c == 'x' || c == '='
  }

  /** parse_mode's variables: the mode so far and the current clause's who (um) and what (mm) masks. */
  datatype ModeState = ModeState(mode: set<Perm>, um: set<Perm>, mm: set<Perm>)

  const ModeStart := ModeState({}, {}, {})

  /** One character of parse_mode's loop; None is the `return -1` for any other character. */
  function ModeStep(c: char, st: ModeState): (r: Option<ModeState>)
    ensures r.None? <==> !IsModeChar(c)
  {
    match c
    case ',' => Some(ModeState(st.mode + st.mm * st.um, {}, {}))
    case 'u' => Some(st.(um := st.um + ClassBits(User)))
    case 'g' => Some(st.(um := st.um + ClassBits(Group)))
    case 'o' => Some(st.(um := st.um + ClassBits(Other)))
    case 'r' => Some(st.(mm := st.mm + KindBits(Read)))
    case 'w' => Some(st.(mm := st.mm + KindBits(Write)))
    case 'x' => Some(st.(mm := st.mm + KindBits(Exec)))
    case '=' => Some(st)
    case _ => None
  }

  /** The loop of parse_mode over `s`, from state `st`. */
  function ModeSteps(s: string, st: ModeState): Option<ModeState>
  {
    if s == [] then Some(st)
    else
      match ModeStep(s[0], st)
      case None => None
      case Some(st') => ModeSteps(s[1..], st')
  }

  /**
   * parse_mode: the permission bits of a "u=rw,g=r,o=r" string, or None
   * (-1) for any other character. As written, the last clause is added as
   * `mm & mm`, so its permissions go to all three classes.
   */
  function ParseMode(s: string): (r: Option<set<Perm>>)
    ensures r.None? <==> exists i :: 0 <= i < |s| && !IsModeChar(s[i])
  {
    ModeStepsFails(s, ModeStart);
    match ModeSteps(s, ModeStart)
    case None => None
    case Some(st) => Some(st.mode + st.mm * st.mm)
  }

  lemma {:induction false} ModeStepsFails(s: string, st: ModeState)
    ensures ModeSteps(s, st).None? <==> exists i :: 0 <= i < |s| && !IsModeChar(s[i])
  {
    if s != [] && IsModeChar(s[0]) {
      ModeStepsFails(s[1..], ModeStep(s[0], st).value);
      assert forall i :: 1 <= i < |s| ==> s[i] == s[1..][i - 1];
    }
  }

  /** Running the loop over `a + b` runs it over `a`, then over `b`. */
  lemma {:induction false} ModeStepsAppend(a: string, b: string, st: ModeState)
    ensures ModeSteps(a + b, st)
         == match ModeSteps(a, st) case None => None case Some(t) => ModeSteps(b, t)
  {
    if a == [] {
      assert a + b == b;
    } else {
      assert (a + b)[0] == a[0] && (a + b)[1..] == a[1..] + b;
      match ModeStep(a[0], st)
      case None =>
      case Some(st') => ModeStepsAppend(a[1..], b, st');
    }
  }

  /** Without an 'x' the execute bits stay clear. */
  lemma {:induction false} ModeStepsNoExec(s: string, st: ModeState)
    requires 'x' !in s
    requires !IsExecutable(st.mode) && !IsExecutable(st.mm)
    ensures ModeSteps(s, st).Some? ==>
      !IsExecutable(ModeSteps(s, st).value.mode) && !IsExecutable(ModeSteps(s, st).value.mm)
  {
    if s != [] && IsModeChar(s[0]) {
      assert s[0] != 'x';
      ModeStepsNoExec(s[1..], ModeStep(s[0], st).value);
    }
  }

  /** A mode string without 'x' never makes a file executable. */
  lemma {:induction false} ParseModeNoExec(s: string)
    requires 'x' !in s
    ensures ParseMode(s).Some? ==> !IsExecutable(ParseMode(s).value)
  {
    ModeStepsNoExec(s, ModeStart);
  }

  /** Within a clause (no ','), the execute bits of `mm` are never cleared. */
  lemma {:induction false} ModeStepsKeepExec(s: string, st: ModeState)
    requires ',' !in s && KindBits(Exec) <= st.mm
    ensures ModeSteps(s, st).Some? ==> KindBits(Exec) <= ModeSteps(s, st).value.mm
  {
    if s != [] && IsModeChar(s[0]) {
      assert s[0] != ',';
      ModeStepsKeepExec(s[1..], ModeStep(s[0], st).value);
    }
  }

  /** An 'x' in a clause (no ',') sets the execute bits of `mm`. */
  lemma {:induction false} ModeStepsSetExec(s: string, st: ModeState)
    requires ',' !in s && 'x' in s
    ensures ModeSteps(s, st).Some? ==> KindBits(Exec) <= ModeSteps(s, st).value.mm
  {
    if IsModeChar(s[0]) {
      var st' := ModeStep(s[0], st).value;
      if s[0] == 'x' {
        ModeStepsKeepExec(s[1..], st');
      } else {
        assert s[0] != ',';
        ModeStepsSetExec(s[1..], st');
      }
    }
  }

  /**
   * The last clause's permissions go to every class: an 'x' after the last
   * ',' (even "o=x") makes the file executable for user, group and other.
   */
  lemma {:induction false} ParseModeLastClauseExec(first: string, last: string)
    requires ',' !in last && 'x' in last
    ensures ParseMode(first + "," + last).Some? ==>
      KindBits(Exec) <= ParseMode(first + "," + last).value
  {
    ModeStepsAppend(first, "," + last, ModeStart);
    assert first + "," + last == first + ("," + last);
    var pre := ModeSteps(first, ModeStart);
    if pre.Some? {
      assert ("," + last)[0] == ',' && ("," + last)[1..] == last;
      var st := ModeStep(',', pre.value).value;
      ModeStepsSetExec(last, st);
    }
  }

  /** One "who=perms" clause of a mode string. */
  datatype Clause = Clause(who: string, perms: string)

  /** Only 'u', 'g' and 'o'. */
  predicate WhoChars(w: string)
  {
    w == [] || ((w[0] == 'u' || w[0] == 'g' || w[0] == 'o') && WhoChars(w[1..]))
  }

  /** Only 'r', 'w' and 'x'. */
  predicate PermChars(p: string)
  {
    p == [] || ((p[0] == 'r' || p[0] == 'w' || p[0] == 'x') && PermChars(p[1..]))
  }

  predicate ValidClause(c: Clause)
  {
    WhoChars(c.who) && PermChars(c.perms)
  }

  /** The class bits of one of 'u', 'g', 'o'. */
  function WhoBit(c: char): set<Perm>
  {
    if c == 'u' then ClassBits(User) else if c == 'g' then ClassBits(Group)
    else if c == 'o' then ClassBits(Other) else {}
  }

  /** The permission bits of one of 'r', 'w', 'x'. */
  function PermBit(c: char): set<Perm>
  {
    if c == 'r' then KindBits(Read) else if c == 'w' then KindBits(Write)
    else if c == 'x' then KindBits(Exec) else {}
  }

  /** The classes a clause names. */
  function WhoBits(w: string): set<Perm>
  {
    if w == [] then {} else WhoBit(w[0]) + WhoBits(w[1..])
  }

  /** The permissions a clause grants. */
  function PermBits(p: string): set<Perm>
  {
    if p == [] then {} else PermBit(p[0]) + PermBits(p[1..])
  }

  /** The clauses written out, separated by ','. */
  function ClausesText(cs: seq<Clause>): string
    requires |cs| >= 1
  {
    var text := cs[0].who + "=" + cs[0].perms;
    if |cs| == 1 then text else text + "," + ClausesText(cs[1..])
  }

  /**
   * The mode parse_mode computes from clauses, as written: each clause but
   * the last grants its permissions to the classes it names, and the last
   * grants its permissions to every class.
   */
  function ClausesMode(cs: seq<Clause>, mode: set<Perm>): set<Perm>
    requires |cs| >= 1
  {
    if |cs| == 1 then mode + PermBits(cs[0].perms)
    else ClausesMode(cs[1..], mode + PermBits(cs[0].perms) * WhoBits(cs[0].who))
  }

  lemma {:induction false} WhoSteps(w: string, st: ModeState)
    requires WhoChars(w)
    ensures ModeSteps(w, st) == Some(st.(um := st.um + WhoBits(w)))
  {
    if w == [] {
      assert st.um + WhoBits(w) == st.um;
    } else {
      var st1 := st.(um := st.um + WhoBit(w[0]));
      assert ModeStep(w[0], st) == Some(st1);
      WhoSteps(w[1..], st1);
      assert WhoBits(w) == WhoBit(w[0]) + WhoBits(w[1..]);
      assert st1.um + WhoBits(w[1..]) == st.um + WhoBits(w);
    }
  }

  lemma {:induction false} PermSteps(p: string, st: ModeState)
    requires PermChars(p)
    ensures ModeSteps(p, st) == Some(st.(mm := st.mm + PermBits(p)))
  {
    if p == [] {
      assert st.mm + PermBits(p) == st.mm;
    } else {
      var st1 := st.(mm := st.mm + PermBit(p[0]));
      assert ModeStep(p[0], st) == Some(st1);
      PermSteps(p[1..], st1);
      assert PermBits(p) == PermBit(p[0]) + PermBits(p[1..]);
      assert st1.mm + PermBits(p[1..]) == st.mm + PermBits(p);
    }
  }

  /** A clause adds its classes to `um` and its permissions to `mm`. */
  lemma {:induction false} ClauseSteps(c: Clause, st: ModeState)
    requires ValidClause(c)
    ensures ModeSteps(c.who + "=" + c.perms, st)
         == Some(ModeState(st.mode, st.um + WhoBits(c.who), st.mm + PermBits(c.perms)))
  {
    ModeStepsAppend(c.who, "=" + c.perms, st);
    WhoSteps(c.who, st);
    var st1 := st.(um := st.um + WhoBits(c.who));
    assert ("=" + c.perms)[0] == '=' && ("=" + c.perms)[1..] == c.perms;
    PermSteps(c.perms, st1);
    assert c.who + "=" + c.perms == c.who + ("=" + c.perms);
  }

  lemma {:induction false} ClausesSteps(cs: seq<Clause>, mode: set<Perm>)
    requires |cs| >= 1 && forall i :: 0 <= i < |cs| ==> ValidClause(cs[i])
    ensures ModeSteps(ClausesText(cs), ModeState(mode, {}, {})).Some?
    ensures var st := ModeSteps(ClausesText(cs), ModeState(mode, {}, {})).value;
      st.mode + st.mm * st.mm == ClausesMode(cs, mode)
  {
    var c := cs[0];
    var text := c.who + "=" + c.perms;
    var st1 := ModeState(mode, WhoBits(c.who), PermBits(c.perms));
    assert ModeSteps(text, ModeState(mode, {}, {})) == Some(st1) by {
      ClauseSteps(c, ModeState(mode, {}, {}));
      assert {} + WhoBits(c.who) == WhoBits(c.who) && {} + PermBits(c.perms) == PermBits(c.perms);
    }
    if |cs| == 1 {
      assert ClausesText(cs) == text;
      assert st1.mm * st1.mm == st1.mm;
    } else {
      var rest := ClausesText(cs[1..]);
      var mode' := mode + PermBits(c.perms) * WhoBits(c.who);
      assert ModeSteps(ClausesText(cs), ModeState(mode, {}, {})) == ModeSteps(rest, ModeState(mode', {}, {})) by {
        assert ClausesText(cs) == text + ("," + rest);
        ModeStepsAppend(text, "," + rest, ModeState(mode, {}, {}));
        assert ("," + rest)[0] == ',' && ("," + rest)[1..] == rest;
        assert ModeStep(',', st1) == Some(ModeState(mode', {}, {}));
      }
      ClausesSteps(cs[1..], mode');
    }
  }

  /**
   * parse_mode accepts every well-formed mode string and computes its mode
   * clause by clause, with the last clause granted to every class.
   */
  lemma {:induction false} ParseModeClauses(cs: seq<Clause>)
    requires |cs| >= 1 && forall i :: 0 <= i < |cs| ==> ValidClause(cs[i])
    ensures ParseMode(ClausesText(cs)) == Some(ClausesMode(cs, {}))
  {
    ClausesSteps(cs, {});
  }

  /** The mode strings the check-in request writes for executable and plain files. */
  function ModeString(isExec: bool): string
  {
    if isExec then "u=rwx,g=rwx,o=rx" else "u=rw,g=rw,o=r"
  }

  /** The clauses of the two mode strings. */
  function ModeClauses(isExec: bool): (cs: seq<Clause>)
    ensures |cs| == 3 && forall i :: 0 <= i < |cs| ==> ValidClause(cs[i])
  {
    if isExec then [Clause("u", "rwx"), Clause("g", "rwx"), Clause("o", "rx")]
    else [Clause("u", "rw"), Clause("g", "rw"), Clause("o", "r")]
  }

  lemma {:induction false} ModeClausesText(isExec: bool)
    ensures ClausesText(ModeClauses(isExec)) == ModeString(isExec)
  {
    var cs := ModeClauses(isExec);
    assert cs[1..][1..] == [cs[2]];
    var last := ClausesText(cs[1..][1..]);
    assert last == cs[2].who + "=" + cs[2].perms;
    var mid := ClausesText(cs[1..]);
    assert mid == cs[1].who + "=" + cs[1].perms + "," + last;
    assert ClausesText(cs) == cs[0].who + "=" + cs[0].perms + "," + mid;
  }

  lemma {:induction false} ExecClausesMode()
    ensures ClausesMode(ModeClauses(true), {})
         == {Perm(User, Read), Perm(User, Write), Perm(User, Exec), Perm(Group, Read),
             Perm(Group, Write), Perm(Group, Exec), Perm(Other, Read), Perm(Other, Exec)}
  {
    var cs := ModeClauses(true);
    assert cs[1..][1..] == [cs[2]];
    assert WhoBits("u") == ClassBits(User) && WhoBits("g") == ClassBits(Group);
    assert PermBits("rwx") == KindBits(Read) + KindBits(Write) + KindBits(Exec);
    assert PermBits("rx") == KindBits(Read) + KindBits(Exec);
  }

  lemma {:induction false} PlainClausesMode()
    ensures ClausesMode(ModeClauses(false), {})
         == {Perm(User, Read), Perm(User, Write), Perm(Group, Read), Perm(Group, Write), Perm(Other, Read)}
  {
    var cs := ModeClauses(false);
    assert cs[1..][1..] == [cs[2]];
    assert WhoBits("u") == ClassBits(User) && WhoBits("g") == ClassBits(Group);
    assert PermBits("rw") == KindBits(Read) + KindBits(Write);
    assert PermBits("r") == KindBits(Read);
  }

  /** The executable mode string reads back as 0775. */
  lemma {:induction false} ExecModeString()
    ensures ParseMode(ModeString(true)).Some? && ModeValue(ParseMode(ModeString(true)).value) == 509
  {
    ModeClausesText(true);
    ParseModeClauses(ModeClauses(true));
    ExecClausesMode();
  }

  /** The plain mode string reads back as 0664. */
  lemma {:induction false} PlainModeString()
    ensures ParseMode(ModeString(false)).Some? && ModeValue(ParseMode(ModeString(false)).value) == 436
  {
    ModeClausesText(false);
    ParseModeClauses(ModeClauses(false));
    PlainClausesMode();
  }

  /** Reading back a written mode string gives an execute bit exactly when the file was flagged executable. */
  lemma {:induction false} ModeStringRoundTrip(isExec: bool)
    ensures ParseMode(ModeString(isExec)).Some?
    ensures IsExecutable(ParseMode(ModeString(isExec)).value) == isExec
  {
    if isExec {
      ExecModeString();
      assert Perm(User, Exec) in ParseMode(ModeString(true)).value;
    } else {
      PlainModeString();
      ParseModeNoExec(ModeString(false));
    }
  }

  /** The status names the server prints after "Status: ", in table order. */
  datatype CvsStatus =
    | UpToDate | LocallyAdded | ClassifyError | NeedsCheckout | NeedsPatch
    | UnresolvedConflict | LocallyRemoved | HadConflictsOnMerge | LocallyModified
    | NeedsMerge | Unknown

  const StatusTable: seq<CvsStatus> := [UpToDate, LocallyAdded, ClassifyError, NeedsCheckout,
    NeedsPatch, UnresolvedConflict, LocallyRemoved, HadConflictsOnMerge, LocallyModified, NeedsMerge]

  /** status_replies: the text of each known status. */
  function StatusName(st: CvsStatus): string
    requires st != Unknown
  {
    match st
    case UpToDate => "Up-to-date"
    case LocallyAdded => "Locally Added"
    case ClassifyError => "Classify Error"
    case NeedsCheckout => "Needs Checkout"
    case NeedsPatch => "Needs Patch"
    case UnresolvedConflict => "Unresolved Conflict"
    case LocallyRemoved => "Locally Removed"
    case HadConflictsOnMerge => "File had conflicts on merge"
    case LocallyModified => "Locally Modified"
    case NeedsMerge => "Needs Merge"
  }

  function ParseStatusFrom(status: string, i: nat): (r: CvsStatus)
    requires i <= |StatusTable|
    ensures r != Unknown ==> StatusName(r) == status
    ensures r == Unknown ==> forall j :: i <= j < |StatusTable| ==> StatusName(StatusTable[j]) != status
    decreases |StatusTable| - i
  {
    if i == |StatusTable| then Unknown
    else if StatusName(StatusTable[i]) == status then StatusTable[i]
    else ParseStatusFrom(status, i + 1)
  }

  /** parse_status_state: the status whose text is `status`, Unknown when none is. */
  function ParseStatusState(status: string): (r: CvsStatus)
    ensures r != Unknown ==> StatusName(r) == status
    ensures r == Unknown ==> forall st :: st != Unknown ==> StatusName(st) != status
  {
    var r := ParseStatusFrom(status, 0);
    if r == Unknown then
      assert forall st :: st != Unknown ==> st in StatusTable;
      r
    else r
  }

  /** Every known status is read back from its own text. */
  lemma {:induction false} ParseStatusStateName(st: CvsStatus)
    requires st != Unknown
    ensures ParseStatusState(StatusName(st)) == st
  {
    var r := ParseStatusState(StatusName(st));
    assert r != Unknown;
    assert StatusName(r) == StatusName(st);
  }

  const HashModulus: nat := 0x1_0000_0000
  const HashSeed: nat := 0x12375903

  /** hash_str: h := h * 101 + c over the bytes, in 32-bit unsigned arithmetic.
    * A character stands for one protocol byte, read as unsigned (taken mod 256);
    * model strings hold no NUL, so the C loop's stop at NUL is the end of `s`. */
  function HashStr(s: string): (h: nat)
    ensures h < HashModulus
  {
    if s == [] then HashSeed
    else (HashStr(s[..|s| - 1]) * 101 + (s[|s| - 1] as int % 256)) % HashModulus
  }

  /** The same hash over unbounded integers: the polynomial the loop evaluates. */
  function HashPoly(s: string): nat
  {
    if s == [] then HashSeed
    else HashPoly(s[..|s| - 1]) * 101 + (s[|s| - 1] as int % 256)
  }

  lemma {:induction false} ModMulAdd(a: nat, k: nat, c: nat)
    ensures ((a % HashModulus) * k + c) % HashModulus == (a * k + c) % HashModulus
  {
    var q := a / HashModulus;
    var r := a % HashModulus;
    assert a == q * HashModulus + r;
    assert a * k + c == r * k + c + (q * k) * HashModulus by {
      assert a * k == (q * HashModulus) * k + r * k;
      assert (q * HashModulus) * k == (q * k) * HashModulus;
    }
    ModAddMultiple(r * k + c, q * k);
  }

  lemma {:induction false} ModAddMultiple(x: nat, j: nat)
    ensures (x + j * HashModulus) % HashModulus == x % HashModulus
  {
    if j > 0 {
      ModAddMultiple(x, j - 1);
      assert x + j * HashModulus == (x + (j - 1) * HashModulus) + HashModulus;
    }
  }

  /** The 32-bit hash is the polynomial of the bytes reduced modulo 2^32. */
  lemma {:induction false} HashStrPoly(s: string)
    ensures HashStr(s) == HashPoly(s) % HashModulus
  {
    if s != [] {
      HashStrPoly(s[..|s| - 1]);
      ModMulAdd(HashPoly(s[..|s| - 1]), 101, s[|s| - 1] as int % 256);
    }
  }
}
