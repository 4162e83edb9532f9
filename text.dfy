/**
 * The C string primitives the client is written with (strchr, strrchr,
 * strstr, atoi, "%d", isspace, the strbuf trims, dirname and basename),
 * over NUL-free strings. A prefix test (strncmp against strlen of the
 * prefix, prefixcmp, strbuf_startswith) is Dafny's `p <= s`.
 */
module Text {
  import opened Wrappers

  /** strchr and memchr: the first position of `c` in `s`. */
  function IndexOf(s: string, c: char): (r: Option<nat>)
    ensures r.Some? ==> r.value < |s| && s[r.value] == c && c !in s[..r.value]
    ensures r.None? <==> c !in s
  {
    if s == [] then None
    else if s[0] == c then Some(0)
    else
      var r' := IndexOf(s[1..], c);
      if r'.None? then None
      else
        assert s[..r'.value + 1] == [s[0]] + s[1..][..r'.value];
        Some(r'.value + 1)
  }

  /** strrchr: the last position of `c` in `s`. */
  function LastIndexOf(s: string, c: char): (r: Option<nat>)
    ensures r.Some? ==> r.value < |s| && s[r.value] == c && c !in s[r.value + 1..]
    ensures r.None? <==> c !in s
  {
    if s == [] then None
    else if s[|s| - 1] == c then Some(|s| - 1)
    else
      var r' := LastIndexOf(s[..|s| - 1], c);
      if r'.None? then
        assert s == s[..|s| - 1] + [s[|s| - 1]];
        None
      else
        assert s[r'.value + 1..] == s[..|s| - 1][r'.value + 1..] + [s[|s| - 1]];
        r'
  }

  /** The first occurrence of `c` is where `c` occurs with none before it. */
  lemma {:induction false} IndexOfAt(s: string, c: char, k: nat)
    requires k < |s| && s[k] == c && c !in s[..k]
    ensures IndexOf(s, c) == Some(k)
  {
  }

  /** The last occurrence of `c` is where `c` occurs with none after it. */
  lemma {:induction false} LastIndexOfAt(s: string, c: char, k: nat)
    requires k < |s| && s[k] == c && c !in s[k + 1..]
    ensures LastIndexOf(s, c) == Some(k)
  {
  }

  /** The number of occurrences of `c` in `s`. */
  function Count(s: string, c: char): nat
  {
    if s == [] then 0 else (if s[0] == c then 1 else 0) + Count(s[1..], c)
  }

  lemma {:induction false} CountZero(s: string, c: char)
    ensures Count(s, c) == 0 <==> c !in s
  {
    if s != [] {
      CountZero(s[1..], c);
      assert s == [s[0]] + s[1..];
    }
  }

  lemma {:induction false} CountAppend(a: string, b: string, c: char)
    ensures Count(a + b, c) == Count(a, c) + Count(b, c)
  {
    if a == [] {
      assert a + b == b;
    } else {
      assert (a + b)[1..] == a[1..] + b;
      CountAppend(a[1..], b, c);
    }
  }

  /** `pat` occurs in `s` at position `k`. */
  predicate IsAt(s: string, pat: string, k: nat)
  {
    k + |pat| <= |s| && s[k..k + |pat|] == pat
  }

  function FindFrom(s: string, pat: string, i: nat): (r: Option<nat>)
    requires i <= |s|
    ensures r.Some? ==> i <= r.value && IsAt(s, pat, r.value)
    ensures r.Some? ==> forall j :: i <= j < r.value ==> !IsAt(s, pat, j)
    ensures r.None? ==> forall j :: i <= j <= |s| ==> !IsAt(s, pat, j)
    decreases |s| - i
  {
    if IsAt(s, pat, i) then Some(i)
    else if i == |s| then None
    else FindFrom(s, pat, i + 1)
  }

  /** strstr: the first position at which `pat` occurs in `s`. */
  function Find(s: string, pat: string): (r: Option<nat>)
    ensures r.Some? ==> IsAt(s, pat, r.value) && forall j :: 0 <= j < r.value ==> !IsAt(s, pat, j)
    ensures r.None? ==> forall j :: 0 <= j <= |s| ==> !IsAt(s, pat, j)
  {
    FindFrom(s, pat, 0)
  }

  /** strbuf_endswith and suffixcmp(...) == 0. */
  predicate EndsWith(s: string, suffix: string)
  {
    |suffix| <= |s| && s[|s| - |suffix|..] == suffix
  }

  /** isspace in the C locale. */
  predicate IsSpace(c: char)
  {
    c == ' ' || c == '\t' || c == '\n' || c == '\r' || c as int == 11 || c as int == 12
  }

  predicate IsDigit(c: char)
  {
    '0' <= c <= '9'
  }

  predicate AllDigits(s: string)
  {
    forall i :: 0 <= i < |s| ==> IsDigit(s[i])
  }

  function DigitValue(c: char): nat
    requires IsDigit(c)
  {
    c as int - '0' as int
  }

  function DigitChar(d: nat): (c: char)
    requires d < 10
    ensures IsDigit(c) && DigitValue(c) == d
  {
    ('0' as int + d) as char
  }

  /** The length of the run of digits that starts `s`. */
  function LeadingDigits(s: string): (n: nat)
    ensures n <= |s| && AllDigits(s[..n])
    ensures n < |s| ==> !IsDigit(s[n])
  {
    if s != [] && IsDigit(s[0]) then
      var n := 1 + LeadingDigits(s[1..]);
      assert s[..n] == [s[0]] + s[1..][..n - 1];
      n
    else 0
  }

  /** The value of a run of decimal digits. */
  function DigitsValue(d: string): nat
    requires AllDigits(d)
  {
    if d == [] then 0 else 10 * DigitsValue(d[..|d| - 1]) + DigitValue(d[|d| - 1])
  }

  /** strbuf_ltrim: drop the leading white space. */
  function LTrim(s: string): (r: string)
    ensures |r| <= |s| && r == s[|s| - |r|..]
    ensures r == [] || !IsSpace(r[0])
    ensures forall i :: 0 <= i < |s| - |r| ==> IsSpace(s[i])
  {
    if s != [] && IsSpace(s[0]) then LTrim(s[1..]) else s
  }

  /** strbuf_rtrim: drop the trailing white space. */
  function RTrim(s: string): (r: string)
    ensures r <= s
    ensures r == [] || !IsSpace(r[|r| - 1])
    ensures forall i :: |r| <= i < |s| ==> IsSpace(s[i])
  {
    if s != [] && IsSpace(s[|s| - 1]) then RTrim(s[..|s| - 1]) else s
  }

  /** strbuf_trim. */
  function Trim(s: string): string
  {
    LTrim(RTrim(s))
  }

  /** strbuf_rtrim_ch: drop one trailing `ch`, if there is one. */
  function RTrimChar(s: string, ch: char): (r: string)
    ensures r <= s && |s| - 1 <= |r|
    ensures r == s <==> (s == [] || s[|s| - 1] != ch)
  {
    if s != [] && s[|s| - 1] == ch then s[..|s| - 1] else s
  }

  /** strbuf_complete_line_ch: append `ch` to a non-empty string that does not end with it. */
  function CompleteLine(s: string, ch: char): (r: string)
    ensures s <= r && |r| <= |s| + 1
    ensures s != [] ==> r[|r| - 1] == ch
    ensures s == [] ==> r == []
    ensures s != [] && s[|s| - 1] == ch ==> r == s
    ensures s != [] && s[|s| - 1] != ch ==> r == s + [ch]
  {
    if s != [] && s[|s| - 1] != ch then s + [ch] else s
  }

  /**
   * atoi: optional white space, an optional sign, then the longest run of
   * digits; 0 when there is no digit. The C int overflow is not modelled.
   */
  function Atoi(s: string): int
  {
    SignedDigits(LTrim(s))
  }

  /** An optional sign followed by the longest run of digits, at the start of `t`. */
  function SignedDigits(t: string): int
  {
    if t != [] && (t[0] == '-' || t[0] == '+') then
      var v: int := DigitsValue(t[1..][..LeadingDigits(t[1..])]);
      if t[0] == '-' then -v else v
    else
      DigitsValue(t[..LeadingDigits(t)])
  }

  lemma {:induction false} LTrimAppend(x: string, rest: string)
    requires rest != [] && !IsSpace(rest[0])
    ensures LTrim(x + rest) == LTrim(x) + rest
  {
    if x != [] {
      assert (x + rest)[1..] == x[1..] + rest;
      if IsSpace(x[0]) {
        LTrimAppend(x[1..], rest);
      }
    } else {
      assert x + rest == rest;
    }
  }

  /** Leading white space before a word is what strbuf_ltrim removes. */
  lemma {:induction false} LTrimSpaces(pad: string, x: string)
    requires forall i :: 0 <= i < |pad| ==> IsSpace(pad[i])
    requires x != [] && !IsSpace(x[0])
    ensures LTrim(pad + x) == x
  {
    if pad != [] {
      assert (pad + x)[1..] == pad[1..] + x;
      LTrimSpaces(pad[1..], x);
    } else {
      assert pad + x == x;
    }
  }

  /** strbuf_trim of a word after white space, where the word starts and ends with a non-space, is the word. */
  lemma TrimPadded(pad: string, x: string)
    requires forall i :: 0 <= i < |pad| ==> IsSpace(pad[i])
    requires x != [] && !IsSpace(x[0]) && !IsSpace(x[|x| - 1])
    ensures Trim(pad + x) == x
  {
    assert RTrim(pad + x) == pad + x;
    LTrimSpaces(pad, x);
  }

  lemma {:induction false} LeadingDigitsStop(u: string, rest: string)
    requires rest == [] || !IsDigit(rest[0])
    ensures LeadingDigits(u + rest) == LeadingDigits(u)
  {
    if u != [] {
      assert (u + rest)[1..] == u[1..] + rest;
      LeadingDigitsStop(u[1..], rest);
    } else {
      assert u + rest == rest;
    }
  }

  lemma {:induction false} SignedDigitsStop(t: string, rest: string)
    requires rest != [] && !IsDigit(rest[0])
    requires t == [] ==> rest[0] != '-' && rest[0] != '+'
    ensures SignedDigits(t + rest) == SignedDigits(t)
  {
    var u := t + rest;
    if t != [] {
      assert u[0] == t[0];
      assert u[1..] == t[1..] + rest;
      if t[0] == '-' || t[0] == '+' {
        LeadingDigitsStop(t[1..], rest);
        var n1 := LeadingDigits(t[1..]);
        assert u[1..][..n1] == t[1..][..n1];
      } else {
        LeadingDigitsStop(t, rest);
        var n := LeadingDigits(t);
        assert u[..n] == t[..n];
      }
    } else {
      assert u == rest;
    }
  }

  /** atoi stops at a character that is neither white space, a sign nor a digit. */
  lemma {:induction false} AtoiStopsAt(x: string, rest: string)
    requires rest != [] && !IsSpace(rest[0]) && !IsDigit(rest[0])
    requires rest[0] != '-' && rest[0] != '+'
    ensures Atoi(x + rest) == Atoi(x)
  {
    LTrimAppend(x, rest);
    SignedDigitsStop(LTrim(x), rest);
  }

  /** The decimal digits of a natural number, without leading zeros. */
  function NatToString(n: nat): (r: string)
    ensures r != [] && AllDigits(r)
    ensures r[0] != '0' || n == 0
  {
    if n < 10 then [DigitChar(n)] else NatToString(n / 10) + [DigitChar(n % 10)]
  }

  /** printf "%d". */
  function Itoa(n: int): string
  {
    if n < 0 then "-" + NatToString(-n) else NatToString(n)
  }

  lemma {:induction false} DigitsValueOfNatToString(n: nat)
    ensures DigitsValue(NatToString(n)) == n
  {
    if n >= 10 {
      var s := NatToString(n);
      assert s[..|s| - 1] == NatToString(n / 10);
      DigitsValueOfNatToString(n / 10);
    }
  }

  lemma {:induction false} LeadingDigitsOfDigits(s: string)
    requires AllDigits(s)
    ensures LeadingDigits(s) == |s|
  {
  }

  lemma {:induction false} AtoiOfDigits(d: string)
    requires d != [] && AllDigits(d)
    ensures Atoi(d) == DigitsValue(d)
  {
    LeadingDigitsOfDigits(d);
    assert !IsSpace(d[0]);
    assert d[..|d|] == d;
  }

  lemma {:induction false} AtoiOfNegativeDigits(d: string)
    requires d != [] && AllDigits(d)
    ensures Atoi("-" + d) == 0 - DigitsValue(d) as int
  {
    var t := "-" + d;
    assert !IsSpace(t[0]);
    assert t[1..] == d;
    LeadingDigitsOfDigits(d);
    assert d[..|d|] == d;
  }

  /** Reading back what "%d" printed gives the number: atoi is the inverse of "%d". */
  lemma {:induction false} AtoiItoa(n: int)
    ensures Atoi(Itoa(n)) == n
  {
    if n < 0 {
      DigitsValueOfNatToString(-n);
      AtoiOfNegativeDigits(NatToString(-n));
    } else {
      DigitsValueOfNatToString(n);
      AtoiOfDigits(NatToString(n));
    }
  }

  /** The string without its trailing `c` characters. */
  function DropTrailing(s: string, c: char): (r: string)
    ensures r <= s
    ensures r == [] || r[|r| - 1] != c
    ensures forall i :: |r| <= i < |s| ==> s[i] == c
  {
    if s != [] && s[|s| - 1] == c then DropTrailing(s[..|s| - 1], c) else s
  }

  /** POSIX dirname. */
  function Dirname(p: string): string
  {
    var q := DropTrailing(p, '/');
    if p == [] then "."
    else if q == [] then "/"
    else
      match LastIndexOf(q, '/')
      case None => "."
      case Some(k) =>
        var d := DropTrailing(q[..k], '/');
        if d == [] then "/" else d
  }

  /** POSIX basename. */
  function Basename(p: string): string
  {
    var q := DropTrailing(p, '/');
    if p == [] then "."
    else if q == [] then "/"
    else
      match LastIndexOf(q, '/')
      case None => q
      case Some(k) => q[k + 1..]
  }

  /** A relative path with no empty component: "a/b/c". */
  predicate PlainPath(p: string)
  {
    && p != [] && p[0] != '/' && p[|p| - 1] != '/'
    && forall i :: 0 <= i < |p| - 1 ==> !(p[i] == '/' && p[i + 1] == '/')
  }

  /** dirname and basename split a plain path at its last '/', and give "." for a bare name. */
  lemma {:induction false} DirnameBasename(p: string)
    requires PlainPath(p)
    ensures '/' in p ==> Dirname(p) + "/" + Basename(p) == p
    ensures '/' !in p ==> Dirname(p) == "." && Basename(p) == p
  {
    assert DropTrailing(p, '/') == p;
    var k := LastIndexOf(p, '/');
    if k.Some? {
      var i := k.value;
      assert i > 0;
      assert p[i - 1] != '/';
      assert DropTrailing(p[..i], '/') == p[..i];
      assert p == p[..i] + "/" + p[i + 1..];
    }
  }

  /**
   * The directory of a plain path with a '/' is a shorter plain path (the
   * text before its last '/'), and a plain path's base name has no '/'.
   */
  lemma {:induction false} DirnameOfPlain(p: string)
    requires PlainPath(p)
    ensures '/' !in Basename(p)
    ensures '/' in p ==> PlainPath(Dirname(p)) && |Dirname(p)| < |p| && Dirname(p) <= p
  {
    assert DropTrailing(p, '/') == p;
    var k := LastIndexOf(p, '/');
    if k.Some? {
      var i := k.value;
      assert i > 0;
      assert p[i - 1] != '/';
      assert DropTrailing(p[..i], '/') == p[..i];
      assert Dirname(p) == p[..i];
    }
  }

  /** A path that does not start at the root. */
  predicate Relative(p: string)
  {
    p == [] || p[0] != '/'
  }

  /** dirname of a relative path is relative, and shorter unless it is ".". */
  lemma DirnameOfRelative(p: string)
    requires Relative(p)
    ensures Relative(Dirname(p))
    ensures Dirname(p) == "." || (Dirname(p) < p && |Dirname(p)| < |p|)
  {
    var q := DropTrailing(p, '/');
    if p != [] {
      assert q != [];
      assert q[0] == p[0];
      var k := LastIndexOf(q, '/');
      if k.Some? {
        var i := k.value;
        assert i > 0;
        var d := DropTrailing(q[..i], '/');
        assert d != [];
        assert d[0] == q[0];
      }
    }
  }

  /** The fields of `s` between the separators `d` (string_list_split without a limit). */
  function SplitAll(s: string, d: char): (r: seq<string>)
    ensures |r| >= 1
    ensures forall i :: 0 <= i < |r| ==> d !in r[i]
    decreases |s|
  {
    match IndexOf(s, d)
    case None => [s]
    case Some(k) => [s[..k]] + SplitAll(s[k + 1..], d)
  }

  /** The fields joined with the separator between them. */
  function Join(fields: seq<string>, d: char): string
  {
    if fields == [] then []
    else if |fields| == 1 then fields[0]
    else fields[0] + [d] + Join(fields[1..], d)
  }

  /** Splitting loses nothing: joining the fields back gives the string. */
  lemma {:induction false} JoinSplitAll(s: string, d: char)
    ensures Join(SplitAll(s, d), d) == s
    decreases |s|
  {
    match IndexOf(s, d)
    case None =>
    case Some(k) =>
      var rest := SplitAll(s[k + 1..], d);
      assert SplitAll(s, d) == [s[..k]] + rest;
      assert ([s[..k]] + rest)[1..] == rest;
      JoinSplitAll(s[k + 1..], d);
      assert s == s[..k] + [d] + s[k + 1..];
  }

  /**
   * strbuf_split_max: the pieces of `s`, each ending with its terminator
   * `t` except possibly the last; with `max` > 0 the last of at most `max`
   * pieces takes the whole remainder.
   */
  function SplitTerminated(s: string, t: char, max: nat, nr: nat): (r: seq<string>)
    ensures forall i :: 0 <= i < |r| ==> r[i] != []
    decreases |s|
  {
    if s == [] then []
    else
      var len := if (max == 0 || nr + 1 < max) && t in s then IndexOf(s, t).value + 1 else |s|;
      [s[..len]] + SplitTerminated(s[len..], t, max, nr + 1)
  }

  /** Concatenation of a sequence of strings. */
  function Concat(parts: seq<string>): string
  {
    if parts == [] then [] else parts[0] + Concat(parts[1..])
  }

  /** The pieces of a terminated split put back together give the string. */
  lemma {:induction false} ConcatSplitTerminated(s: string, t: char, max: nat, nr: nat)
    ensures Concat(SplitTerminated(s, t, max, nr)) == s
    decreases |s|
  {
    if s != [] {
      var len := if (max == 0 || nr + 1 < max) && t in s then IndexOf(s, t).value + 1 else |s|;
      ConcatSplitTerminated(s[len..], t, max, nr + 1);
      assert s == s[..len] + s[len..];
    }
  }

  /** While pieces remain to be split off, the first piece runs up to and including the first terminator. */
  lemma SplitTerminatedAt(x: string, rest: string, t: char, max: nat, nr: nat)
    requires t !in x && (max == 0 || nr + 1 < max)
    ensures SplitTerminated(x + [t] + rest, t, max, nr) == [x + [t]] + SplitTerminated(rest, t, max, nr + 1)
  {
    var s := x + [t] + rest;
    assert s[|x|] == t && s[..|x|] == x;
    IndexOfAt(s, t, |x|);
    assert s[..|x| + 1] == x + [t] && s[|x| + 1..] == rest;
  }

  lemma {:induction false} ConcatAppend(a: seq<string>, b: seq<string>)
    ensures Concat(a + b) == Concat(a) + Concat(b)
  {
    if a == [] {
      assert a + b == b;
    } else {
      assert (a + b)[1..] == a[1..] + b;
      ConcatAppend(a[1..], b);
    }
  }

  /** strcmp(a, b) < 0 on byte strings. */
  predicate Less(a: string, b: string)
  {
    if a == [] then b != []
    else if b == [] then false
    else if a[0] != b[0] then a[0] < b[0]
    else Less(a[1..], b[1..])
  }

  /** A proper prefix sorts first. */
  lemma {:induction false} LessPrefix(a: string, b: string)
    requires a < b
    ensures Less(a, b)
  {
    if a != [] {
      LessPrefix(a[1..], b[1..]);
    }
  }

  lemma {:induction false} LessIrreflexive(a: string)
    ensures !Less(a, a)
  {
    if a != [] {
      LessIrreflexive(a[1..]);
    }
  }

  lemma {:induction false} LessTransitive(a: string, b: string, c: string)
    requires Less(a, b) && Less(b, c)
    ensures Less(a, c)
  {
    if a != [] && b != [] && c != [] && a[0] == b[0] && b[0] == c[0] {
      LessTransitive(a[1..], b[1..], c[1..]);
    }
  }

  lemma {:induction false} LessTotal(a: string, b: string)
    requires a != b
    ensures Less(a, b) || Less(b, a)
  {
    if a != [] && b != [] && a[0] == b[0] {
      assert a == [a[0]] + a[1..] && b == [b[0]] + b[1..];
      LessTotal(a[1..], b[1..]);
    }
  }

  /** Regrouping a concatenation of three sequences. */
  lemma Associative<T>(a: seq<T>, b: seq<T>, c: seq<T>)
    ensures a + (b + c) == (a + b) + c
  {
  }
}
