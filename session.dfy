/**
 * Setting up a session with the CVS server: the CVSROOT grammar
 * `[:method:][[user][:password]@]host[:port]/path`, the module paths,
 * the pserver password scramble and login, and the negotiation of the
 * requests the server supports.
 */
module Session {
  import opened Wrappers
  import opened Text
  import opened Stream

  /** The connection method; Unset is what a CVSROOT with none of the known methods leaves. */
  datatype Protocol = Unset | Ext | Local | Pserver

  /** What parse_cvsroot fills into the transport. */
  datatype Cvsroot = Cvsroot(protocol: Protocol, user: Option<string>, password: Option<string>,
                             host: string, port: nat, path: string)

  /** The protocol a method name selects; strncmp compares only the name's length. */
  function MethodOf(t: string): Protocol
  {
    if "ext" <= t then Ext
    else if "local" <= t then Local
    else if "pserver" <= t then Pserver
    else Unset
  }

  /**
   * The connect method and the text after it. ":method:" selects a
   * protocol (None without the closing ':'); without it the protocol is
   * ext unless the root starts with '/'.
   */
  function ParseMethod(s: string): (r: Option<(Protocol, string)>)
    ensures (s == [] || s[0] != ':') ==> r == Some((if s != [] && s[0] == '/' then Unset else Ext, s))
    ensures s != [] && s[0] == ':' ==> (r.None? <==> ':' !in s[1..])
    ensures r.Some? && s != [] && s[0] == ':' ==>
      var k := |s| - |r.value.1|;
      1 <= k - 1 && s[k - 1] == ':' && ':' !in s[1..k - 1] && s[k..] == r.value.1
  {
    if s != [] && s[0] == ':' then
      match IndexOf(s[1..], ':')
      case None => None
      case Some(k) =>
        assert s[1..][..k] == s[1..k + 1];
        Some((MethodOf(s[1..]), s[k + 2..]))
    else if s != [] && s[0] == '/' then Some((Unset, s))
    else Some((Ext, s))
  }

  /** The user-info text: the user, then ':' and the password when there is one. */
  function UserInfo(user: string, password: Option<string>): string
  {
    user + if password.Some? then ":" + password.value else ""
  }

  /**
   * The user and password before the first '@', and the text after it.
   * A ':' before the '@' separates the password. When the text holds no
   * ':' at all the source compares a null pointer; the model takes it as
   * not before the '@'.
   */
  function ParseUser(t: string): (r: (Option<string>, Option<string>, string))
    ensures r.0.None? <==> '@' !in t
    ensures r.0.None? ==> r.1.None? && r.2 == t
    ensures r.0.Some? ==> t == UserInfo(r.0.value, r.1) + "@" + r.2 && '@' !in UserInfo(r.0.value, r.1)
    ensures r.1.Some? ==> ':' !in r.0.value
  {
    match IndexOf(t, '@')
    case None => (None, None, t)
    case Some(at) =>
      CutAt(t, at);
      match IndexOf(t, ':')
      case Some(c) =>
        if c < at then
          CutAt(t[..at], c);
          assert t[..at][..c] == t[..c] && t[..at][c + 1..] == t[c + 1..at];
          (Some(t[..c]), Some(t[c + 1..at]), t[at + 1..])
        else (Some(t[..at]), None, t[at + 1..])
      case None => (Some(t[..at]), None, t[at + 1..])
  }

  /** A string is the text before position `k`, the character there, and the text after. */
  lemma CutAt(t: string, k: nat)
    requires k < |t|
    ensures t == t[..k] + [t[k]] + t[k + 1..]
  {
  }

  /** Where the host ends: after the first ']', else at the first ':', else at the first '/'. */
  function HostEnd(t: string): (r: Option<nat>)
    ensures r.None? <==> ']' !in t && ':' !in t && '/' !in t
    ensures r.Some? ==> r.value <= |t|
    ensures r.Some? && ']' !in t ==> r.value < |t| && (t[r.value] == ':' || t[r.value] == '/')
  {
    match IndexOf(t, ']')
    case Some(k) => Some(k + 1)
    case None =>
      match IndexOf(t, ':')
      case Some(k) => Some(k)
      case None => IndexOf(t, '/')
  }

  /**
   * The host and the text after it. A host in brackets loses them; the
   * text must not end right after the host. A lone "[" makes the source
   * move a negative number of bytes, which the model treats as fatal.
   */
  function ParseHost(t: string): (r: Outcome<(string, string)>)
    ensures ']' !in t && ':' !in t && '/' !in t ==> r == Error
    ensures r.Ok? ==> r.value.1 != [] && EndsWith(t, r.value.1)
    ensures r.Ok? && ']' !in t ==> r.value.1[0] == ':' || r.value.1[0] == '/'
    ensures r.Fatal? ==> ']' !in t && "[" <= t
  {
    match HostEnd(t)
    case None => Error
    case Some(i) =>
      var raw := t[..i];
      if raw != [] && raw[0] == '[' && |raw| < 2 then Fatal("host name is a lone '['")
      else if i == |t| then Error
      else
        var host := if raw != [] && raw[0] == '[' then raw[1..|raw| - 1] else raw;
        Ok((host, t[i..]))
  }

  /** The port as atoi reads it, stored in an unsigned short. */
  function PortNumber(text: string): (p: nat)
    ensures p < 65536
  {
    Atoi(text) % 65536
  }

  /**
   * The port and the repository path. After ':' a port runs up to the
   * next '/'; a missing '/' and a port that reads as 0 are errors; ":/"
   * gives no port (0).
   */
  function ParsePort(t: string): (r: Outcome<(nat, string)>)
    ensures r.Ok? ==> r.value.0 < 65536 && EndsWith(t, r.value.1)
    ensures t != [] && t[0] == ':' && '/' !in t ==> r == Error
    ensures r.Ok? ==> (r.value.0 == 0 <==> !(":" <= t) || ":/" <= t)
    ensures r.Ok? && r.value.0 != 0 ==> r.value.1 != [] && r.value.1[0] == '/'
    ensures !(":" <= t) ==> r == Ok((0, t))
  {
    if t != [] && t[0] == ':' then
      var n := t[1..];
      if n != [] && n[0] == '/' then Ok((0, n))
      else
        match IndexOf(n, '/')
        case None => Error
        case Some(j) =>
          var p := PortNumber(n[..j]);
          if p == 0 then Error else Ok((p, n[j..]))
    else Ok((0, t))
  }

  /** The port used when the root names none: 22 for ext, 2401 for pserver. */
  function DefaultPort(protocol: Protocol, port: nat): (r: nat)
    ensures port != 0 ==> r == port
    ensures port == 0 && protocol == Ext ==> r == 22
    ensures port == 0 && protocol == Pserver ==> r == 2401
    ensures port == 0 && (protocol == Unset || protocol == Local) ==> r == 0
  {
    if port != 0 then port
    else match protocol
      case Ext => 22
      case Pserver => 2401
      case _ => 0
  }

  /**
   * parse_cvsroot: Error for a malformed root (-1), Fatal where the
   * source's behaviour is undefined. The repository path is kept as it
   * is: the source's strip of a trailing '/' tests the terminating NUL
   * and never fires.
   */
  function ParseCvsroot(s: string): (r: Outcome<Cvsroot>)
    ensures s != [] && s[0] == ':' && ':' !in s[1..] ==> r == Error
    ensures r.Ok? ==> r.value.port < 65536
    ensures r.Ok? && (r.value.protocol == Ext || r.value.protocol == Pserver) ==> r.value.port != 0
  {
    match ParseMethod(s)
    case None => Error
    case Some((protocol, t)) =>
      var (user, password, u) := ParseUser(t);
      match ParseHost(u)
      case Error => Error
      case Fatal(m) => Fatal(m)
      case Ok((host, v)) =>
        match ParsePort(v)
        case Error => Error
        case Fatal(m) => Fatal(m)
        case Ok((port, path)) => Ok(Cvsroot(protocol, user, password, host, DefaultPort(protocol, port), path))
  }

  /** A root with no ']', ':' or '/' has no host end and is rejected. */
  lemma ParseCvsrootNoHostEnd(s: string)
    requires ']' !in s && ':' !in s && '/' !in s
    ensures ParseCvsroot(s) == Error
  {
    var t := ParseMethod(s).value.1;
    var u := ParseUser(t).2;
    assert ']' !in u && ':' !in u && '/' !in u by {
      if '@' in t {
        assert t == UserInfo(ParseUser(t).0.value, ParseUser(t).1) + "@" + u;
        assert forall i :: 0 <= i < |u| ==> u[i] == t[|t| - |u| + i];
      }
    }
  }

  /** The method name as written in a root. */
  function MethodName(p: Protocol): (name: string)
    ensures ':' !in name
  {
    match p
    case Unset => ""
    case Ext => "ext"
    case Local => "local"
    case Pserver => "pserver"
  }

  /** A host as written in a root: in brackets when it holds a ':'. */
  function HostText(host: string): string
  {
    if ':' in host then "[" + host + "]" else host
  }

  /** The port as written in a root; 0 is left out. */
  function PortText(port: nat): string
  {
    ":" + if port == 0 then "" else NatToString(port)
  }

  /** The root that names all of `c` explicitly. */
  function FormatCvsroot(c: Cvsroot): string
  {
    ":" + MethodName(c.protocol) + ":"
    + (if c.user.Some? then UserInfo(c.user.value, c.password) + "@" else "")
    + HostText(c.host) + PortText(c.port) + c.path
  }

  /** A host a root can name: no ']', '/' or '@', and no leading '['. */
  predicate HostOk(host: string)
  {
    ']' !in host && '/' !in host && '@' !in host && (host == [] || host[0] != '[')
  }

  /** A repository path a root can name: absolute, with no ']' or '@'. */
  predicate PathOk(path: string)
  {
    path != [] && path[0] == '/' && ']' !in path && '@' !in path
  }

  /** The roots that FormatCvsroot writes unambiguously. */
  predicate Formattable(c: Cvsroot)
  {
    && (c.user.None? ==> c.password.None?)
    && (c.user.Some? ==> ':' !in c.user.value && '@' !in c.user.value)
    && (c.password.Some? ==> '@' !in c.password.value)
    && HostOk(c.host) && PathOk(c.path) && c.port < 65536
  }

  lemma ParseMethodOf(p: Protocol, rest: string)
    ensures ParseMethod(":" + MethodName(p) + ":" + rest) == Some((p, rest))
  {
    var s := ":" + MethodName(p) + ":" + rest;
    var k := |MethodName(p)|;
    assert s[1..] == MethodName(p) + ":" + rest;
    IndexOfAt(s[1..], ':', k);
    assert s[k + 2..] == rest;
    MethodOfName(p, ":" + rest);
  }

  /** A method name followed by ':' selects its protocol. */
  lemma MethodOfName(p: Protocol, tail: string)
    requires tail != [] && tail[0] == ':'
    ensures MethodOf(MethodName(p) + tail) == p
  {
    var t := MethodName(p) + tail;
    assert t[..|MethodName(p)|] == MethodName(p);
    match p
    case Unset => assert t == tail;
    case Ext => assert "ext" <= t;
    case Local => assert t[0] == 'l' && !("ext" <= t) && "local" <= t;
    case Pserver => assert t[0] == 'p' && !("ext" <= t) && !("local" <= t) && "pserver" <= t;
  }

  lemma ParseUserOf(user: string, password: Option<string>, rest: string)
    requires ':' !in user && '@' !in user
    requires password.Some? ==> '@' !in password.value
    requires '@' !in rest
    ensures ParseUser(UserInfo(user, password) + "@" + rest) == (Some(user), password, rest)
  {
    var info := UserInfo(user, password);
    var t := info + "@" + rest;
    assert '@' !in info;
    IndexOfAt(t, '@', |info|);
    assert t[..|info|] == info && t[|info| + 1..] == rest;
    if password.Some? {
      ParseUserPassword(user, password.value, rest);
    } else {
      ParseUserAlone(user, rest);
    }
  }

  /** "user:password@rest": the first ':' comes before the '@'. */
  lemma ParseUserPassword(user: string, password: string, rest: string)
    requires ':' !in user && '@' !in user && '@' !in password && '@' !in rest
    ensures ParseUser(user + ":" + password + "@" + rest) == (Some(user), Some(password), rest)
  {
    var info := user + ":" + password;
    var t := info + "@" + rest;
    IndexOfAt(t, '@', |info|);
    assert t[|user|] == ':' && t[..|user|] == user;
    IndexOfAt(t, ':', |user|);
    assert t[|user| + 1..|info|] == password && t[|info| + 1..] == rest;
  }

  /** "user@rest": a ':' in the text can only come after the '@'. */
  lemma ParseUserAlone(user: string, rest: string)
    requires ':' !in user && '@' !in user && '@' !in rest
    ensures ParseUser(user + "@" + rest) == (Some(user), None, rest)
  {
    var t := user + "@" + rest;
    IndexOfAt(t, '@', |user|);
    assert t[..|user|] == user && t[|user| + 1..] == rest;
    match IndexOf(t, ':')
    case None =>
    case Some(c) =>
      assert c >= |user|;
  }

  lemma ParseHostOf(host: string, tail: string)
    requires HostOk(host) && tail != [] && tail[0] == ':' && ']' !in tail
    ensures ParseHost(HostText(host) + tail) == Ok((host, tail))
  {
    var t := HostText(host) + tail;
    if ':' in host {
      var k := |host| + 1;
      assert t[k] == ']' && t[..k] == "[" + host;
      IndexOfAt(t, ']', k);
      assert t[..k + 1] == "[" + host + "]";
      assert t[k + 1..] == tail;
    } else {
      assert ']' !in t by {
        assert forall i :: 0 <= i < |t| ==> t[i] == if i < |host| then host[i] else tail[i - |host|];
      }
      assert t[|host|] == ':' && t[..|host|] == host;
      IndexOfAt(t, ':', |host|);
      assert t[|host|..] == tail;
    }
  }

  lemma ParsePortOf(port: nat, path: string)
    requires port < 65536 && PathOk(path)
    ensures ParsePort(PortText(port) + path) == Ok((port, path))
  {
    var t := PortText(port) + path;
    if port != 0 {
      ParsePortNonZero(port, path);
    } else {
      assert t[1..] == path;
    }
  }

  lemma ParsePortNonZero(port: nat, path: string)
    requires 0 < port < 65536 && PathOk(path)
    ensures ParsePort(PortText(port) + path) == Ok((port, path))
  {
    var d := NatToString(port);
    assert PortText(port) + path == ":" + (d + path);
    PortNumberOf(port);
    ParsePortDigits(d, path, port);
  }

  /** ":" then a decimal port number other than 0, then a path. */
  lemma ParsePortDigits(d: string, path: string, port: nat)
    requires d != [] && AllDigits(d) && PortNumber(d) == port && port != 0 && PathOk(path)
    ensures ParsePort(":" + (d + path)) == Ok((port, path))
  {
    var t := ":" + (d + path);
    var n := d + path;
    assert t[1..] == n;
    assert '/' !in d by {
      assert forall i :: 0 <= i < |d| ==> IsDigit(d[i]);
    }
    assert n[0] == d[0] && n[0] != '/';
    assert IndexOf(n, '/') == Some(|d|) by {
      IndexOfAt(n, '/', |d|);
    }
    assert n[..|d|] == d && n[|d|..] == path;
  }

  /** A port written in decimal reads back as itself. */
  lemma PortNumberOf(port: nat)
    requires port < 65536
    ensures PortNumber(NatToString(port)) == port
  {
    var d := NatToString(port);
    assert Atoi(d) == port by {
      AtoiOfDigits(d);
      DigitsValueOfNatToString(port);
    }
    ModSmall(Atoi(d), 65536);
  }

  lemma ModSmall(a: int, m: int)
    requires 0 <= a < m
    ensures a % m == a
  {
  }

  /** parse_cvsroot is its four stages run one after the other. */
  lemma ParseCvsrootStages(s: string, protocol: Protocol, t: string, user: Option<string>,
                           password: Option<string>, u: string, host: string, v: string)
    requires ParseMethod(s) == Some((protocol, t)) && ParseUser(t) == (user, password, u)
    requires ParseHost(u) == Ok((host, v))
    ensures ParsePort(v).Error? ==> ParseCvsroot(s) == Error
    ensures ParsePort(v).Ok? ==>
      (ParseCvsroot(s) == Ok(Cvsroot(protocol, user, password, host,
                                     DefaultPort(protocol, ParsePort(v).value.0), ParsePort(v).value.1)))
  {
  }

  /**
   * Reading back a root written out in full gives what was written, with
   * the port defaulted (22 for ext, 2401 for pserver) where none was named.
   */
  lemma ParseFormatCvsroot(c: Cvsroot)
    requires Formattable(c)
    ensures ParseCvsroot(FormatCvsroot(c)) == Ok(c.(port := DefaultPort(c.protocol, c.port)))
  {
    var after := PortText(c.port) + c.path;
    var hostPart := HostText(c.host) + after;
    var userPart := UserPart(c) + hostPart;
    FormatParts(c);
    ParseMethodOf(c.protocol, userPart);
    PortTextChars(c.port);
    ParseUserPart(c, hostPart);
    ParseHostOf(c.host, after);
    ParsePortOf(c.port, c.path);
    ParseCvsrootStages(FormatCvsroot(c), c.protocol, userPart, c.user, c.password, hostPart, c.host, after);
  }

  /** The user part of a written root: "user[:password]@", or nothing. */
  function UserPart(c: Cvsroot): string
  {
    if c.user.Some? then UserInfo(c.user.value, c.password) + "@" else ""
  }

  /** A written root in its stages: method, user part, host, port text, path. */
  lemma FormatParts(c: Cvsroot)
    ensures FormatCvsroot(c)
      == ":" + MethodName(c.protocol) + ":" + (UserPart(c) + (HostText(c.host) + (PortText(c.port) + c.path)))
  {
  }

  /** The user part reads back as the user and password, leaving the host part. */
  lemma ParseUserPart(c: Cvsroot, hostPart: string)
    requires Formattable(c) && '@' !in hostPart
    ensures ParseUser(UserPart(c) + hostPart) == (c.user, c.password, hostPart)
  {
    if c.user.Some? {
      ParseUserOf(c.user.value, c.password, hostPart);
    } else {
      assert UserPart(c) + hostPart == hostPart;
    }
  }

  /** The port text is ':' and digits. */
  lemma PortTextChars(port: nat)
    ensures var p := PortText(port); p[0] == ':' && '@' !in p && ']' !in p && '/' !in p
  {
    if port != 0 {
      var d := NatToString(port);
      assert forall i :: 0 <= i < |d| ==> IsDigit(d[i]);
      assert PortText(port) == ":" + d;
    }
  }

  /** A root "host:/path" with no method or user is ext on port 22. */
  lemma ParseBareHost(host: string, path: string)
    requires host != [] && HostOk(host) && ':' !in host && PathOk(path)
    ensures ParseCvsroot(host + ":" + path) == Ok(Cvsroot(Ext, None, None, host, 22, path))
  {
    var s := host + ":" + path;
    assert s[0] == host[0];
    assert ParseMethod(s) == Some((Ext, s));
    assert '@' !in s;
    assert ParseHost(s) == Ok((host, ":" + path)) by {
      assert s == HostText(host) + (":" + path);
      ParseHostOf(host, ":" + path);
    }
    assert ParsePort(":" + path) == Ok((0, path)) by {
      assert PortText(0) == ":";
      ParsePortOf(0, path);
    }
    ParseCvsrootStages(s, Ext, s, None, None, s, host, ":" + path);
  }

  /** A root that is a path alone keeps no protocol, so no connection can be made with it. */
  lemma ParseLocalPath(path: string)
    requires PathOk(path) && ':' !in path
    ensures ParseCvsroot(path) == Ok(Cvsroot(Unset, None, None, "", 0, path))
  {
    IndexOfAt(path, '/', 0);
    assert path[..0] == "";
  }

  /** A bracketed host loses its brackets, whatever it holds besides ']'. */
  lemma ParseHostBracketed(host: string, tail: string)
    requires ']' !in host && tail != []
    ensures ParseHost("[" + host + "]" + tail) == Ok((host, tail))
  {
    var t := "[" + host + "]" + tail;
    var k := |host| + 1;
    assert t[k] == ']' && t[..k] == "[" + host;
    IndexOfAt(t, ']', k);
    assert t[..k + 1] == "[" + host + "]";
    assert t[k + 1..] == tail;
  }

  /** A root with a method, no user and a plain host comes down to its port and path. */
  lemma ParsePlainHost(protocol: Protocol, host: string, tail: string)
    requires HostOk(host) && ':' !in host && tail != [] && tail[0] == ':' && ']' !in tail && '@' !in tail
    ensures ParsePort(tail).Error? ==> ParseCvsroot(":" + MethodName(protocol) + ":" + host + tail) == Error
  {
    var rest := host + tail;
    var s := ":" + MethodName(protocol) + ":" + host + tail;
    assert s == ":" + MethodName(protocol) + ":" + rest;
    assert ParseMethod(s) == Some((protocol, rest)) by {
      ParseMethodOf(protocol, rest);
    }
    assert ParseUser(rest) == (None, None, rest);
    assert ParseHost(rest) == Ok((host, tail)) by {
      assert rest == HostText(host) + tail;
      ParseHostOf(host, tail);
    }
    ParseCvsrootStages(s, protocol, rest, None, None, rest, host, tail);
  }

  /** A port followed by no '/' is rejected, whatever the method. */
  lemma ParsePortNoPath(protocol: Protocol, host: string, port: string)
    requires HostOk(host) && ':' !in host && '/' !in port && ']' !in port && '@' !in port
    ensures ParseCvsroot(":" + MethodName(protocol) + ":" + host + ":" + port) == Error
  {
    assert '/' !in ":" + port;
    ParsePlainHost(protocol, host, ":" + port);
    assert ":" + MethodName(protocol) + ":" + host + (":" + port) == ":" + MethodName(protocol) + ":" + host + ":" + port;
  }

  /** A port that reads as 0 is rejected, whatever the method. */
  lemma ParsePortZero(protocol: Protocol, host: string, path: string)
    requires HostOk(host) && ':' !in host && PathOk(path)
    ensures ParseCvsroot(":" + MethodName(protocol) + ":" + host + ":0" + path) == Error
  {
    var head := ":" + MethodName(protocol) + ":" + host;
    var tail := ":0" + path;
    ParsePortZeroText(path);
    assert tail[0] == ':' && ']' !in tail && '@' !in tail by {
      assert ']' !in ":0" && '@' !in ":0";
    }
    ParsePlainHost(protocol, host, tail);
    Associative(head, ":0", path);
  }

  lemma ParsePortZeroText(path: string)
    requires PathOk(path)
    ensures ParsePort(":0" + path) == Error
  {
    var n := (":0" + path)[1..];
    assert n == "0" + path;
    assert IndexOf(n, '/') == Some(1) by {
      IndexOfAt(n, '/', 1);
    }
    assert n[..1] == "0";
    assert PortNumber("0") == 0 by {
      PortNumberOf(0);
      assert NatToString(0) == "0";
    }
  }

  /** cvs_scramble_shifts, in its sixteen rows of sixteen. */
  const ScrambleRows: seq<seq<int>> := [
    [  0,   1,   2,   3,   4,   5,   6,   7,   8,   9,  10,  11,  12,  13,  14,  15],
    [ 16,  17,  18,  19,  20,  21,  22,  23,  24,  25,  26,  27,  28,  29,  30,  31],
    [114, 120,  53,  79,  96, 109,  72, 108,  70,  64,  76,  67, 116,  74,  68,  87],
    [111,  52,  75, 119,  49,  34,  82,  81,  95,  65, 112,  86, 118, 110, 122, 105],
    [ 41,  57,  83,  43,  46, 102,  40,  89,  38, 103,  45,  50,  42, 123,  91,  35],
    [125,  55,  54,  66, 124, 126,  59,  47,  92,  71, 115,  78,  88, 107, 106,  56],
    [ 36, 121, 117, 104, 101, 100,  69,  73,  99,  63,  94,  93,  39,  37,  61,  48],
    [ 58, 113,  32,  90,  44,  98,  60,  51,  33,  97,  62,  77,  84,  80,  85, 223],
    [225, 216, 187, 166, 229, 189, 222, 188, 141, 249, 148, 200, 184, 136, 248, 190],
    [199, 170, 181, 204, 138, 232, 218, 183, 255, 234, 220, 247, 213, 203, 226, 193],
    [174, 172, 228, 252, 217, 201, 131, 230, 197, 211, 145, 238, 161, 179, 160, 212],
    [207, 221, 254, 173, 202, 146, 224, 151, 140, 196, 205, 130, 135, 133, 143, 246],
    [192, 159, 244, 239, 185, 168, 215, 144, 139, 165, 180, 157, 147, 186, 214, 176],
    [227, 231, 219, 169, 175, 156, 206, 198, 129, 164, 150, 210, 154, 177, 134, 127],
    [182, 128, 158, 208, 162, 132, 167, 209, 149, 241, 153, 251, 237, 236, 171, 195],
    [243, 233, 253, 240, 194, 250, 191, 155, 142, 137, 245, 235, 163, 242, 178, 152]
  ]

  /** The table entry for byte `b`. */
  function ScrambleByte(b: int): int
    requires 0 <= b < 256
  {
    ScrambleRows[b / 16][b % 16]
  }

  /** A password byte scrambled; the source reads and stores unsigned chars. */
  function ScrambleChar(c: char): char
  {
    (ScrambleByte(c as int % 256) % 256) as char
  }

  /** The password bytes through the table. */
  function ScrambleBytes(password: string): (r: string)
    ensures |r| == |password|
    ensures forall i :: 0 <= i < |password| ==> r[i] == ScrambleChar(password[i])
  {
    seq(|password|, i requires 0 <= i < |password| => ScrambleChar(password[i]))
  }

  /** cvs_scramble: "A" and then every byte of the password through the table. */
  function Scramble(password: string): (r: string)
    ensures |r| == |password| + 1 && r[0] == 'A'
    ensures forall i :: 0 <= i < |password| ==> r[i + 1] == ScrambleChar(password[i])
  {
    var tail := ScrambleBytes(password);
    assert forall i :: 0 <= i < |password| ==> ("A" + tail)[i + 1] == tail[i];
    "A" + tail
  }

  /** The table leaves the control bytes 0-31 alone. */
  lemma ScrambleFixesControl(b: int)
    requires 0 <= b < 32
    ensures ScrambleByte(b) == b
  {
    if b < 16 {
      assert ScrambleRows[0] == [0, 1, 2, 3, 4, 5, 6, 7, 8, 9, 10, 11, 12, 13, 14, 15];
    } else {
      assert ScrambleRows[1] == [16, 17, 18, 19, 20, 21, 22, 23, 24, 25, 26, 27, 28, 29, 30, 31];
    }
  }

  /**
   * The table is its own inverse: scrambling a scrambled byte gives it
   * back. Checked entry by entry, eight bytes per block.
   */
  lemma ScrambleInvolution(b: int)
    requires 0 <= b < 256
    ensures 0 <= ScrambleByte(b) < 256 && ScrambleByte(ScrambleByte(b)) == b
  {
    if b < 8 { ScrambleBlock0(b); }
    else if b < 16 { ScrambleBlock1(b); }
    else if b < 24 { ScrambleBlock2(b); }
    else if b < 32 { ScrambleBlock3(b); }
    else if b < 40 { ScrambleBlock4(b); }
    else if b < 48 { ScrambleBlock5(b); }
    else if b < 56 { ScrambleBlock6(b); }
    else if b < 64 { ScrambleBlock7(b); }
    else if b < 72 { ScrambleBlock8(b); }
    else if b < 80 { ScrambleBlock9(b); }
    else if b < 88 { ScrambleBlock10(b); }
    else if b < 96 { ScrambleBlock11(b); }
    else if b < 104 { ScrambleBlock12(b); }
    else if b < 112 { ScrambleBlock13(b); }
    else if b < 120 { ScrambleBlock14(b); }
    else if b < 128 { ScrambleBlock15(b); }
    else if b < 136 { ScrambleBlock16(b); }
    else if b < 144 { ScrambleBlock17(b); }
    else if b < 152 { ScrambleBlock18(b); }
    else if b < 160 { ScrambleBlock19(b); }
    else if b < 168 { ScrambleBlock20(b); }
    else if b < 176 { ScrambleBlock21(b); }
    else if b < 184 { ScrambleBlock22(b); }
    else if b < 192 { ScrambleBlock23(b); }
    else if b < 200 { ScrambleBlock24(b); }
    else if b < 208 { ScrambleBlock25(b); }
    else if b < 216 { ScrambleBlock26(b); }
    else if b < 224 { ScrambleBlock27(b); }
    else if b < 232 { ScrambleBlock28(b); }
    else if b < 240 { ScrambleBlock29(b); }
    else if b < 248 { ScrambleBlock30(b); }
    else { ScrambleBlock31(b); }
  }

  /*
   * ScrambleBlock0 .. ScrambleBlock31 check the 256 entries eight at a time.
   * A single lemma over all 256 bytes exceeds the solver's resource limit
   * per proof, so the check is split into these blocks.
   */
  lemma ScrambleBlock0(b: int)
    requires 0 <= b < 8
    ensures 0 <= ScrambleByte(b) < 256 && ScrambleByte(ScrambleByte(b)) == b
  {
    if b == 0 {} else if b == 1 {} else if b == 2 {} else if b == 3 {} else if b == 4 {} else if b == 5 {} else if b == 6 {} else {}
  }

  lemma ScrambleBlock1(b: int)
    requires 8 <= b < 16
    ensures 0 <= ScrambleByte(b) < 256 && ScrambleByte(ScrambleByte(b)) == b
  {
    if b == 8 {} else if b == 9 {} else if b == 10 {} else if b == 11 {} else if b == 12 {} else if b == 13 {} else if b == 14 {} else {}
  }

  lemma ScrambleBlock2(b: int)
    requires 16 <= b < 24
    ensures 0 <= ScrambleByte(b) < 256 && ScrambleByte(ScrambleByte(b)) == b
  {
    if b == 16 {} else if b == 17 {} else if b == 18 {} else if b == 19 {} else if b == 20 {} else if b == 21 {} else if b == 22 {} else {}
  }

  lemma ScrambleBlock3(b: int)
    requires 24 <= b < 32
    ensures 0 <= ScrambleByte(b) < 256 && ScrambleByte(ScrambleByte(b)) == b
  {
    if b == 24 {} else if b == 25 {} else if b == 26 {} else if b == 27 {} else if b == 28 {} else if b == 29 {} else if b == 30 {} else {}
  }

  lemma ScrambleBlock4(b: int)
    requires 32 <= b < 40
    ensures 0 <= ScrambleByte(b) < 256 && ScrambleByte(ScrambleByte(b)) == b
  {
    if b == 32 {} else if b == 33 {} else if b == 34 {} else if b == 35 {} else if b == 36 {} else if b == 37 {} else if b == 38 {} else {}
  }

  lemma ScrambleBlock5(b: int)
    requires 40 <= b < 48
    ensures 0 <= ScrambleByte(b) < 256 && ScrambleByte(ScrambleByte(b)) == b
  {
    if b == 40 {} else if b == 41 {} else if b == 42 {} else if b == 43 {} else if b == 44 {} else if b == 45 {} else if b == 46 {} else {}
  }

  lemma ScrambleBlock6(b: int)
    requires 48 <= b < 56
    ensures 0 <= ScrambleByte(b) < 256 && ScrambleByte(ScrambleByte(b)) == b
  {
    if b == 48 {} else if b == 49 {} else if b == 50 {} else if b == 51 {} else if b == 52 {} else if b == 53 {} else if b == 54 {} else {}
  }

  lemma ScrambleBlock7(b: int)
    requires 56 <= b < 64
    ensures 0 <= ScrambleByte(b) < 256 && ScrambleByte(ScrambleByte(b)) == b
  {
    if b == 56 {} else if b == 57 {} else if b == 58 {} else if b == 59 {} else if b == 60 {} else if b == 61 {} else if b == 62 {} else {}
  }

  lemma ScrambleBlock8(b: int)
    requires 64 <= b < 72
    ensures 0 <= ScrambleByte(b) < 256 && ScrambleByte(ScrambleByte(b)) == b
  {
    if b == 64 {} else if b == 65 {} else if b == 66 {} else if b == 67 {} else if b == 68 {} else if b == 69 {} else if b == 70 {} else {}
  }

  lemma ScrambleBlock9(b: int)
    requires 72 <= b < 80
    ensures 0 <= ScrambleByte(b) < 256 && ScrambleByte(ScrambleByte(b)) == b
  {
    if b == 72 {} else if b == 73 {} else if b == 74 {} else if b == 75 {} else if b == 76 {} else if b == 77 {} else if b == 78 {} else {}
  }

  lemma ScrambleBlock10(b: int)
    requires 80 <= b < 88
    ensures 0 <= ScrambleByte(b) < 256 && ScrambleByte(ScrambleByte(b)) == b
  {
    if b == 80 {} else if b == 81 {} else if b == 82 {} else if b == 83 {} else if b == 84 {} else if b == 85 {} else if b == 86 {} else {}
  }

  lemma ScrambleBlock11(b: int)
    requires 88 <= b < 96
    ensures 0 <= ScrambleByte(b) < 256 && ScrambleByte(ScrambleByte(b)) == b
  {
    if b == 88 {} else if b == 89 {} else if b == 90 {} else if b == 91 {} else if b == 92 {} else if b == 93 {} else if b == 94 {} else {}
  }

  lemma ScrambleBlock12(b: int)
    requires 96 <= b < 104
    ensures 0 <= ScrambleByte(b) < 256 && ScrambleByte(ScrambleByte(b)) == b
  {
    if b == 96 {} else if b == 97 {} else if b == 98 {} else if b == 99 {} else if b == 100 {} else if b == 101 {} else if b == 102 {} else {}
  }

  lemma ScrambleBlock13(b: int)
    requires 104 <= b < 112
    ensures 0 <= ScrambleByte(b) < 256 && ScrambleByte(ScrambleByte(b)) == b
  {
    if b == 104 {} else if b == 105 {} else if b == 106 {} else if b == 107 {} else if b == 108 {} else if b == 109 {} else if b == 110 {} else {}
  }

  lemma ScrambleBlock14(b: int)
    requires 112 <= b < 120
    ensures 0 <= ScrambleByte(b) < 256 && ScrambleByte(ScrambleByte(b)) == b
  {
    if b == 112 {} else if b == 113 {} else if b == 114 {} else if b == 115 {} else if b == 116 {} else if b == 117 {} else if b == 118 {} else {}
  }

  lemma ScrambleBlock15(b: int)
    requires 120 <= b < 128
    ensures 0 <= ScrambleByte(b) < 256 && ScrambleByte(ScrambleByte(b)) == b
  {
    if b == 120 {} else if b == 121 {} else if b == 122 {} else if b == 123 {} else if b == 124 {} else if b == 125 {} else if b == 126 {} else {}
  }

  lemma ScrambleBlock16(b: int)
    requires 128 <= b < 136
    ensures 0 <= ScrambleByte(b) < 256 && ScrambleByte(ScrambleByte(b)) == b
  {
    if b == 128 {} else if b == 129 {} else if b == 130 {} else if b == 131 {} else if b == 132 {} else if b == 133 {} else if b == 134 {} else {}
  }

  lemma ScrambleBlock17(b: int)
    requires 136 <= b < 144
    ensures 0 <= ScrambleByte(b) < 256 && ScrambleByte(ScrambleByte(b)) == b
  {
    if b == 136 {} else if b == 137 {} else if b == 138 {} else if b == 139 {} else if b == 140 {} else if b == 141 {} else if b == 142 {} else {}
  }

  lemma ScrambleBlock18(b: int)
    requires 144 <= b < 152
    ensures 0 <= ScrambleByte(b) < 256 && ScrambleByte(ScrambleByte(b)) == b
  {
    if b == 144 {} else if b == 145 {} else if b == 146 {} else if b == 147 {} else if b == 148 {} else if b == 149 {} else if b == 150 {} else {}
  }

  lemma ScrambleBlock19(b: int)
    requires 152 <= b < 160
    ensures 0 <= ScrambleByte(b) < 256 && ScrambleByte(ScrambleByte(b)) == b
  {
    if b == 152 {} else if b == 153 {} else if b == 154 {} else if b == 155 {} else if b == 156 {} else if b == 157 {} else if b == 158 {} else {}
  }

  lemma ScrambleBlock20(b: int)
    requires 160 <= b < 168
    ensures 0 <= ScrambleByte(b) < 256 && ScrambleByte(ScrambleByte(b)) == b
  {
    if b == 160 {} else if b == 161 {} else if b == 162 {} else if b == 163 {} else if b == 164 {} else if b == 165 {} else if b == 166 {} else {}
  }

  lemma ScrambleBlock21(b: int)
    requires 168 <= b < 176
    ensures 0 <= ScrambleByte(b) < 256 && ScrambleByte(ScrambleByte(b)) == b
  {
    if b == 168 {} else if b == 169 {} else if b == 170 {} else if b == 171 {} else if b == 172 {} else if b == 173 {} else if b == 174 {} else {}
  }

  lemma ScrambleBlock22(b: int)
    requires 176 <= b < 184
    ensures 0 <= ScrambleByte(b) < 256 && ScrambleByte(ScrambleByte(b)) == b
  {
    if b == 176 {} else if b == 177 {} else if b == 178 {} else if b == 179 {} else if b == 180 {} else if b == 181 {} else if b == 182 {} else {}
  }

  lemma ScrambleBlock23(b: int)
    requires 184 <= b < 192
    ensures 0 <= ScrambleByte(b) < 256 && ScrambleByte(ScrambleByte(b)) == b
  {
    if b == 184 {} else if b == 185 {} else if b == 186 {} else if b == 187 {} else if b == 188 {} else if b == 189 {} else if b == 190 {} else {}
  }

  lemma ScrambleBlock24(b: int)
    requires 192 <= b < 200
    ensures 0 <= ScrambleByte(b) < 256 && ScrambleByte(ScrambleByte(b)) == b
  {
    if b == 192 {} else if b == 193 {} else if b == 194 {} else if b == 195 {} else if b == 196 {} else if b == 197 {} else if b == 198 {} else {}
  }

  lemma ScrambleBlock25(b: int)
    requires 200 <= b < 208
    ensures 0 <= ScrambleByte(b) < 256 && ScrambleByte(ScrambleByte(b)) == b
  {
    if b == 200 {} else if b == 201 {} else if b == 202 {} else if b == 203 {} else if b == 204 {} else if b == 205 {} else if b == 206 {} else {}
  }

  lemma ScrambleBlock26(b: int)
    requires 208 <= b < 216
    ensures 0 <= ScrambleByte(b) < 256 && ScrambleByte(ScrambleByte(b)) == b
  {
    if b == 208 {} else if b == 209 {} else if b == 210 {} else if b == 211 {} else if b == 212 {} else if b == 213 {} else if b == 214 {} else {}
  }

  lemma ScrambleBlock27(b: int)
    requires 216 <= b < 224
    ensures 0 <= ScrambleByte(b) < 256 && ScrambleByte(ScrambleByte(b)) == b
  {
    if b == 216 {} else if b == 217 {} else if b == 218 {} else if b == 219 {} else if b == 220 {} else if b == 221 {} else if b == 222 {} else {}
  }

  lemma ScrambleBlock28(b: int)
    requires 224 <= b < 232
    ensures 0 <= ScrambleByte(b) < 256 && ScrambleByte(ScrambleByte(b)) == b
  {
    if b == 224 {} else if b == 225 {} else if b == 226 {} else if b == 227 {} else if b == 228 {} else if b == 229 {} else if b == 230 {} else {}
  }

  lemma ScrambleBlock29(b: int)
    requires 232 <= b < 240
    ensures 0 <= ScrambleByte(b) < 256 && ScrambleByte(ScrambleByte(b)) == b
  {
    if b == 232 {} else if b == 233 {} else if b == 234 {} else if b == 235 {} else if b == 236 {} else if b == 237 {} else if b == 238 {} else {}
  }

  lemma ScrambleBlock30(b: int)
    requires 240 <= b < 248
    ensures 0 <= ScrambleByte(b) < 256 && ScrambleByte(ScrambleByte(b)) == b
  {
    if b == 240 {} else if b == 241 {} else if b == 242 {} else if b == 243 {} else if b == 244 {} else if b == 245 {} else if b == 246 {} else {}
  }

  lemma ScrambleBlock31(b: int)
    requires 248 <= b < 256
    ensures 0 <= ScrambleByte(b) < 256 && ScrambleByte(ScrambleByte(b)) == b
  {
    if b == 248 {} else if b == 249 {} else if b == 250 {} else if b == 251 {} else if b == 252 {} else if b == 253 {} else if b == 254 {} else {}
  }

  /** Scrambling the scrambled password gives the password back, for passwords of bytes. */
  lemma ScrambleRoundTrip(password: string)
    requires forall i :: 0 <= i < |password| ==> password[i] as int < 256
    ensures Scramble(Scramble(password)[1..])[1..] == password
  {
    var once := Scramble(password)[1..];
    var twice := Scramble(once)[1..];
    forall i | 0 <= i < |password|
      ensures twice[i] == password[i]
    {
      ScrambleCharTwice(password[i]);
    }
  }

  lemma ScrambleCharTwice(c: char)
    requires c as int < 256
    ensures ScrambleChar(ScrambleChar(c)) == c
  {
    var b := c as int;
    assert b % 256 == b;
    ScrambleInvolution(b);
    var v := ScrambleByte(b);
    assert v % 256 == v;
    assert (v as char) as int % 256 == v;
  }

  /** The password field of the auth request: "A" alone when there is no password. */
  function ScrambledPassword(password: Option<string>): (r: string)
    ensures r != [] && r[0] == 'A'
    ensures password.None? ==> r == "A"
  {
    if password.Some? then Scramble(password.value) else "A"
  }

  /** The request cvs_pserver_login sends. */
  function AuthRequest(repoPath: string, user: string, password: Option<string>): string
  {
    "BEGIN AUTH REQUEST\n" + repoPath + "\n" + user + "\n" + ScrambledPassword(password) + "\n"
    + "END AUTH REQUEST\n"
  }

  /**
   * The login decision on the server's first line: no line is -1,
   * "I LOVE YOU" is success, anything else ends the program.
   */
  function LoginReply(line: Option<string>, user: string): (r: Outcome<()>)
    ensures r.Error? <==> line.None?
    ensures r.Ok? <==> line == Some("I LOVE YOU")
    ensures line == Some("I HATE YOU") ==> r == Fatal("cvs server authorization failed for user: " + user)
    ensures line.Some? && line.value != "I LOVE YOU" && line.value != "I HATE YOU" ==>
      r == Fatal("cvs server authorization failed: " + line.value)
  {
    match line
    case None => Error
    case Some(l) =>
      if l == "I LOVE YOU" then Ok(())
      else if l == "I HATE YOU" then Fatal("cvs server authorization failed for user: " + user)
      else Fatal("cvs server authorization failed: " + l)
  }

  /** The first line of a stream, if it holds one. */
  function FirstLine(s: string): (r: Option<string>)
    ensures r.Some? <==> '\n' in s
    ensures r.Some? ==> '\n' !in r.value && r.value + "\n" <= s
  {
    match NextLine(s)
    case None => None
    case Some((l, rest)) =>
      assert s == (l + "\n") + rest;
      Some(l)
  }

  /**
   * cvs_pserver_login: send the auth request (flushed) and decide on the
   * server's answer. Without a user name nothing is sent and the program
   * ends.
   */
  method PserverLogin(t: Transport, repoPath: string, user: Option<string>, password: Option<string>)
    returns (r: Outcome<()>)
    requires t.Valid()
    modifies t, t.data
    ensures t.Valid() && t.data == old(t.data)
    ensures user.None? ==> r == Fatal("not cvs user set for pserver connection")
    ensures user.None? ==> t.Output() == old(t.Output()) && t.Input() == old(t.Input())
    ensures user.Some? ==> t.wrBuf == [] && t.sent == old(t.sent + t.wrBuf) + AuthRequest(repoPath, user.value, password)
    ensures user.Some? ==> r == LoginReply(FirstLine(old(t.Input())), user.value)
    ensures r.Ok? ==> NextLine(old(t.Input())) == Some(("I LOVE YOU", t.Input()))
  {
    if user.None? {
      return Fatal("not cvs user set for pserver connection");
    }
    t.Write(true, AuthRequest(repoPath, user.value, password));
    ghost var input := t.Input();
    assert input == old(t.Input());
    var line := t.ReadLine();
    r := LoginReply(line, user.value);
    assert line == FirstLine(input);
  }

  /** The requests this client relies on. */
  const UsedCapabilities: seq<string> := ["add", "ci", "co", "rlog", "status", "UseUnchanged"]

  /** The required requests the server does not list, in the order they are required. */
  function Missing(required: seq<string>, caps: seq<string>): (r: seq<string>)
    ensures forall c :: c in r <==> c in required && c !in caps
    ensures |r| <= |required|
  {
    if required == [] then []
    else (if required[0] in caps then [] else [required[0]]) + Missing(required[1..], caps)
  }

  /** What the Valid-requests reply says about the server. */
  datatype Capabilities = Capabilities(missing: seq<string>, version: bool, gzip: bool, rls: bool)

  /** The capability check over the space-separated Valid-requests list. */
  function CheckCapabilities(reply: string): (r: Capabilities)
    ensures forall c :: c in r.missing <==> c in UsedCapabilities && c !in SplitAll(reply, ' ')
    ensures r.version <==> "version" in SplitAll(reply, ' ')
    ensures r.gzip <==> "Gzip-stream" in SplitAll(reply, ' ')
    ensures r.rls <==> "rlist" in SplitAll(reply, ' ')
  {
    var caps := SplitAll(reply, ' ');
    Capabilities(Missing(UsedCapabilities, caps), "version" in caps, "Gzip-stream" in caps, "rlist" in caps)
  }

  /** The responses the client declares it understands. */
  const ValidResponses: string := "Valid-responses ok error Valid-requests Checked-in New-entry Checksum Copy-file Updated Created Merged Patched Rcs-diff Mode Mod-time Removed Remove-entry Set-static-directory Clear-static-directory Set-sticky Clear-sticky Template Notified Module-expansion Wrapper-rcsOption M E\n"

  /** The opening requests of cvs_negotiate. */
  function NegotiationRequest(repoPath: string): string
  {
    "Root " + repoPath + "\n"
    + ValidResponses
    + "valid-requests\n"
  }

  /** The compression level: atoi of $GZIP, 1 when it is unset. */
  function GzipLevel(gzipEnv: Option<string>): int
  {
    if gzipEnv.Some? then Atoi(gzipEnv.value) else 1
  }

  /** The request cvs_init_compress sends; nothing for level 0. */
  function GzipRequest(level: int): string
  {
    if level == 0 then "" else "Gzip-stream " + Itoa(level) + "\n"
  }

  /** What a successful negotiation records in the transport. */
  datatype Negotiated = Negotiated(rls: bool, rlogS: bool, compress: int)

  /** Whether rlog may use -S: not asked to be dumb, and not the broken server version 1.11.1p1. */
  function RlogSOption(dumbRlog: bool, envDumbRlog: bool, version: Option<string>): (r: bool)
    ensures r ==> !dumbRlog && !envDumbRlog
    ensures version.Some? && Find(version.value, "1.11.1p1").Some? ==> !r
    ensures !dumbRlog && !envDumbRlog && (version.None? || Find(version.value, "1.11.1p1").None?) ==> r
  {
    !dumbRlog && !envDumbRlog && !(version.Some? && Find(version.value, "1.11.1p1").Some?)
  }

  /** The version step: whether it went through, the -S decision, what it wrote, the input left. */
  datatype VersionCheck = VersionCheck(ok: bool, rlogS: bool, written: string, rest: string)

  /**
   * The version request, sent only to a server that lists it; its "M "
   * reply is read into the buffer that still holds the Valid-requests text.
   */
  function CheckVersion(input: string, sb: string, asked: bool, dumbRlog: bool, envDumbRlog: bool): (v: VersionCheck)
    ensures !asked ==> v == VersionCheck(true, RlogSOption(dumbRlog, envDumbRlog, None), "", input)
    ensures asked ==> v.written == "version\n" && (v.ok <==> ScanReply(input, "M ", sb, false).code == 0)
  {
    if !asked then VersionCheck(true, RlogSOption(dumbRlog, envDumbRlog, None), "", input)
    else
      var r := ScanReply(input, "M ", sb, false);
      VersionCheck(r.code == 0, RlogSOption(dumbRlog, envDumbRlog, Some(r.sb)), "version\n", r.rest)
  }

  /** The outcome of a negotiation, what it wrote, and the input left after it. */
  datatype Exchange = Exchange(result: Outcome<Negotiated>, written: string, rest: string)

  /**
   * The part of cvs_negotiate after a good Valid-requests reply `sb`:
   * UseUnchanged, Gzip-stream when the server offers it, then the version
   * step. It fails when the version reply fails or a required request is
   * missing.
   */
  function AfterCapabilities(input: string, sb: string, dumbRlog: bool, envDumbRlog: bool,
                             gzipEnv: Option<string>): (e: Exchange)
    ensures e.result.Ok? <==> (CheckCapabilities(sb).missing == []
                               && CheckVersion(input, sb, CheckCapabilities(sb).version, dumbRlog, envDumbRlog).ok)
    ensures e.result.Ok? ==> e.result.value.rls == CheckCapabilities(sb).rls
    ensures e.result.Ok? && !CheckCapabilities(sb).gzip ==> e.result.value.compress == 0
    ensures "UseUnchanged\n" <= e.written
  {
    var caps := CheckCapabilities(sb);
    var level := if caps.gzip then GzipLevel(gzipEnv) else 0;
    var v := CheckVersion(input, sb, caps.version, dumbRlog, envDumbRlog);
    var result := if v.ok && caps.missing == [] then Ok(Negotiated(caps.rls, v.rlogS, level)) else Error;
    var use := "UseUnchanged\n";
    assert use <= use + GzipRequest(level) + v.written by {
      Associative(use, GzipRequest(level), v.written);
    }
    Exchange(result, use + GzipRequest(level) + v.written, v.rest)
  }

  /**
   * cvs_negotiate over the server's input: Valid-requests, then the
   * version when the server knows that request. It fails (-1) when a
   * reply fails or a required request is missing.
   */
  function Negotiation(input: string, repoPath: string, dumbRlog: bool, envDumbRlog: bool,
                       gzipEnv: Option<string>): (e: Exchange)
    ensures e.result.Ok? <==> (ScanReply(input, "Valid-requests ", "", false).code == 0
      && AfterCapabilities(ScanReply(input, "Valid-requests ", "", false).rest,
                           ScanReply(input, "Valid-requests ", "", false).sb, dumbRlog, envDumbRlog, gzipEnv).result.Ok?)
    ensures e.result.Ok? ==> CheckCapabilities(ScanReply(input, "Valid-requests ", "", false).sb).missing == []
    ensures !e.result.Fatal?
  {
    var first := ScanReply(input, "Valid-requests ", "", false);
    if first.code != 0 then Exchange(Error, NegotiationRequest(repoPath), first.rest)
    else
      var a := AfterCapabilities(first.rest, first.sb, dumbRlog, envDumbRlog, gzipEnv);
      Exchange(a.result, NegotiationRequest(repoPath) + a.written, a.rest)
  }

  /**
   * cvs_negotiate on the connection: the requests go out, the replies
   * are read, and the result is the one Negotiation gives. Compression,
   * once switched on, is not modelled: the stream stays plain.
   */
  method Negotiate(t: Transport, repoPath: string, dumbRlog: bool, envDumbRlog: bool, gzipEnv: Option<string>)
    returns (r: Outcome<Negotiated>)
    requires t.Valid()
    modifies t, t.data
    ensures t.Valid() && t.data == old(t.data)
    ensures var e := Negotiation(old(t.Input()), repoPath, dumbRlog, envDumbRlog, gzipEnv);
      r == e.result && t.Input() == e.rest && t.Output() == old(t.Output()) + e.written
  {
    ghost var input, out0 := t.Input(), t.Output();
    ghost var first := ScanReply(input, "Valid-requests ", "", false);
    var request := NegotiationRequest(repoPath);
    t.Write(true, request);
    assert t.Input() == input;
    var code, reply, printed := t.GetReply("Valid-requests ", "");
    assert code == first.code && reply == first.sb && t.Input() == first.rest;
    if code != 0 {
      return Error;
    }
    ghost var a := AfterCapabilities(first.rest, reply, dumbRlog, envDumbRlog, gzipEnv);
    r := NegotiateCapabilities(t, reply, dumbRlog, envDumbRlog, gzipEnv);
    Associative(out0, request, a.written);
  }

  /** The part of cvs_negotiate after a good Valid-requests reply, as AfterCapabilities gives it. */
  method NegotiateCapabilities(t: Transport, reply: string, dumbRlog: bool, envDumbRlog: bool, gzipEnv: Option<string>)
    returns (r: Outcome<Negotiated>)
    requires t.Valid()
    modifies t, t.data
    ensures t.Valid() && t.data == old(t.data)
    ensures var a := AfterCapabilities(old(t.Input()), reply, dumbRlog, envDumbRlog, gzipEnv);
      r == a.result && t.Input() == a.rest && t.Output() == old(t.Output()) + a.written
  {
    ghost var input, out0 := t.Input(), t.Output();
    var caps := CheckCapabilities(reply);
    var level := if caps.gzip then GzipLevel(gzipEnv) else 0;
    SendPrelude(t, level);
    assert t.Input() == input;
    ghost var v := CheckVersion(input, reply, caps.version, dumbRlog, envDumbRlog);
    ghost var out1 := t.Output();
    var ok, rlogS := AskVersion(t, reply, caps.version, dumbRlog, envDumbRlog);
    if !ok || caps.missing != [] {
      r := Error;
    } else {
      r := Ok(Negotiated(caps.rls, rlogS, level));
    }
    Associative(out0, "UseUnchanged\n" + GzipRequest(level), v.written);
  }

  /** The rest of the prelude after the opening requests: UseUnchanged, then the optional Gzip-stream. */
  method SendPrelude(t: Transport, level: int)
    modifies t
    ensures t.Output() == old(t.Output()) + ("UseUnchanged\n" + GzipRequest(level))
    ensures t.data == old(t.data) && t.buf == old(t.buf) && t.len == old(t.len) && t.incoming == old(t.incoming)
  {
    ghost var o := t.Output();
    var use, gzip := "UseUnchanged\n", GzipRequest(level);
    t.Write(false, use);
    if level != 0 {
      t.Write(true, gzip);
      Associative(o, use, gzip);
    } else {
      assert use + gzip == use;
    }
  }

  /** The version step of cvs_negotiate, as CheckVersion gives it. */
  method AskVersion(t: Transport, sb: string, asked: bool, dumbRlog: bool, envDumbRlog: bool)
    returns (ok: bool, rlogS: bool)
    requires t.Valid()
    modifies t, t.data
    ensures t.Valid() && t.data == old(t.data)
    ensures var v := CheckVersion(old(t.Input()), sb, asked, dumbRlog, envDumbRlog);
      ok == v.ok && (ok ==> rlogS == v.rlogS) && t.Input() == v.rest && t.Output() == old(t.Output()) + v.written
  {
    rlogS := RlogSOption(dumbRlog, envDumbRlog, None);
    ok := true;
    if asked {
      ghost var input := t.Input();
      t.Write(true, "version\n");
      assert t.Input() == input;
      var code, version, printed := t.GetReply("M ", sb);
      ok := code == 0;
      if ok {
        rlogS := RlogSOption(dumbRlog, envDumbRlog, Some(version));
      }
    }
  }

  /**
   * The module as cvs_connect keeps it (one trailing '/' dropped) and the
   * full module path: the repository path and the module, each closed by
   * '/'. A module that still starts with '/' ends the program.
   */
  function ModulePaths(repoPath: string, moduleName: string): (r: Outcome<(string, string)>)
    ensures !r.Error?
    ensures r.Fatal? <==> RTrimChar(moduleName, '/') != [] && RTrimChar(moduleName, '/')[0] == '/'
    ensures r.Ok? ==> r.value.0 == RTrimChar(moduleName, '/')
    ensures r.Ok? ==> CompleteLine(repoPath, '/') + r.value.0 <= r.value.1
    ensures r.Ok? && (repoPath != [] || r.value.0 != []) ==> r.value.1 != [] && r.value.1[|r.value.1| - 1] == '/'
  {
    var m := RTrimChar(moduleName, '/');
    var base := CompleteLine(repoPath, '/');
    if m != [] && m[0] == '/' then Fatal("CVS module name should not start with '/'")
    else
      Ok((m, CompleteLine(base + m, '/')))
  }

  /** A connection's settings once the root and the module are accepted. */
  datatype Settings = Settings(root: Cvsroot, moduleName: string, fullModulePath: string)

  /**
   * The checks of cvs_connect before a transport is started: a malformed
   * root, a module starting with '/' and a root without a method each end
   * the program.
   */
  function Setup(cvsroot: string, moduleName: string): (r: Outcome<Settings>)
    ensures !r.Error?
    ensures ParseCvsroot(cvsroot).Error? ==> r == Fatal("Malformed cvs root format.")
    ensures r.Ok? <==> ParseCvsroot(cvsroot).Ok? && ModulePaths(ParseCvsroot(cvsroot).value.path, moduleName).Ok?
                       && ParseCvsroot(cvsroot).value.protocol != Unset
    ensures r.Ok? ==> r.value.root == ParseCvsroot(cvsroot).value
                      && (r.value.moduleName, r.value.fullModulePath) == ModulePaths(r.value.root.path, moduleName).value
  {
    match ParseCvsroot(cvsroot)
    case Error => Fatal("Malformed cvs root format.")
    case Fatal(m) => Fatal(m)
    case Ok(root) =>
      match ModulePaths(root.path, moduleName)
      case Error => Fatal("Malformed cvs root format.")
      case Fatal(m) => Fatal(m)
      case Ok((name, full)) =>
        if root.protocol == Unset then Fatal("Unsupported cvs connection type.")
        else Ok(Settings(root, name, full))
  }

  /** A bare local path names no method, so cvs_connect refuses it. */
  lemma SetupLocalPath(path: string, moduleName: string)
    requires PathOk(path) && ':' !in path
    requires moduleName == [] || moduleName[0] != '/'
    ensures Setup(path, moduleName) == Fatal("Unsupported cvs connection type.")
  {
    ParseLocalPath(path);
    var m := RTrimChar(moduleName, '/');
    assert m == [] || m[0] != '/' by {
      if m != [] { assert m[0] == moduleName[0]; }
    }
  }

  /**
   * cvs_connect after the transport is up: the pserver login, then the
   * negotiation; a refused login or a failed negotiation gives -1.
   */
  function Connection(input: string, settings: Settings, dumbRlog: bool, envDumbRlog: bool,
                      gzipEnv: Option<string>): (r: Outcome<Negotiated>)
    ensures settings.root.protocol != Pserver ==>
      r == Negotiation(input, settings.root.path, dumbRlog, envDumbRlog, gzipEnv).result
    ensures settings.root.protocol == Pserver && r.Ok? ==> NextLine(input).Some? && NextLine(input).value.0 == "I LOVE YOU"
    ensures settings.root.protocol == Pserver && settings.root.user.None? ==>
      r == Fatal("not cvs user set for pserver connection")
  {
    var root := settings.root;
    if root.protocol != Pserver then Negotiation(input, root.path, dumbRlog, envDumbRlog, gzipEnv).result
    else if root.user.None? then Fatal("not cvs user set for pserver connection")
    else
      match LoginReply(FirstLine(input), root.user.value)
      case Error => Error
      case Fatal(m) => Fatal(m)
      case Ok(_) => Negotiation(NextLine(input).value.1, root.path, dumbRlog, envDumbRlog, gzipEnv).result
  }

  /** cvs_connect's login and negotiation on a started transport, as Connection gives them. */
  method Connect(t: Transport, settings: Settings, dumbRlog: bool, envDumbRlog: bool, gzipEnv: Option<string>)
    returns (r: Outcome<Negotiated>)
    requires t.Valid()
    modifies t, t.data
    ensures t.Valid() && t.data == old(t.data)
    ensures r == Connection(old(t.Input()), settings, dumbRlog, envDumbRlog, gzipEnv)
  {
    ghost var input := t.Input();
    var root := settings.root;
    if root.protocol == Pserver {
      var login := PserverLogin(t, root.path, root.user, root.password);
      match login {
        case Error => return Error;
        case Fatal(m) => return Fatal(m);
        case Ok(_) =>
      }
      assert t.Input() == NextLine(input).value.1;
    }
    r := Negotiate(t, root.path, dumbRlog, envDumbRlog, gzipEnv);
  }
}
