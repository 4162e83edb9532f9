/**
 * The buffered connection to the CVS server: the read buffer rd_buf, the
 * write accumulator wr_buf, and the reply scanners built on them. The
 * server side of the connection is a sequence of chunks, each what one
 * read() returns; what the client writes is kept as one output string.
 */
module Stream {
  import opened Wrappers
  import opened Text

  /** The first line of `s` and what follows its '\n'; None when `s` holds no complete line. */
  function NextLine(s: string): (r: Option<(string, string)>)
    ensures r.None? <==> '\n' !in s
    ensures r.Some? ==> '\n' !in r.value.0 && s == r.value.0 + "\n" + r.value.1
  {
    match IndexOf(s, '\n')
    case None => None
    case Some(k) =>
      assert s == s[..k] + "\n" + s[k + 1..];
      Some((s[..k], s[k + 1..]))
  }

  /** A line followed by its '\n' is read back as that line. */
  lemma {:induction false} NextLineOf(line: string, rest: string)
    requires '\n' !in line
    ensures NextLine(line + "\n" + rest) == Some((line, rest))
  {
    var s := line + "\n" + rest;
    assert s[|line|] == '\n' && s[..|line|] == line;
    IndexOfAt(s, '\n', |line|);
    assert s[|line| + 1..] == rest;
  }

  /** Lines, each followed by '\n'. */
  function Unlines(lines: seq<string>): string
  {
    if lines == [] then [] else lines[0] + "\n" + Unlines(lines[1..])
  }

  /** What the scanners print for a server "E " message (nothing for other text). */
  function ELog(s: string): seq<string>
  {
    if "E " <= s then ["CVS E: " + s[2..]] else []
  }

  /** What the scanners print for an "error" line. */
  function ErrorLog(line: string): seq<string>
  {
    ["CVS Error: " + line]
  }

  /** What one call of cvs_getreply or cvs_getreply_firstmatch leaves behind. */
  datatype Scan = Scan(code: int, sb: string, rest: string, log: seq<string>)

  /** A scan's result with `log` printed before it. */
  function WithLog(log: seq<string>, t: Scan): (r: Scan)
    ensures r.code == t.code && r.sb == t.sb && r.rest == t.rest && r.log == log + t.log
  {
    Scan(t.code, t.sb, t.rest, log + t.log)
  }

  /** Two printed prefixes in a row are one. */
  lemma WithLogTwice(a: seq<string>, b: seq<string>, t: Scan)
    ensures WithLog(a, WithLog(b, t)) == WithLog(a + b, t)
  {
    assert a + (b + t.log) == (a + b) + t.log;
  }

  /** How cvs_getreply's loop ends on `line` ("ok" or "error"), with what it prints then. */
  function ReplyEnd(line: string, found: bool): Option<(int, seq<string>)>
  {
    if line == "ok" then Some((if found then 0 else 1, []))
    else if "error" <= line then Some((-1, ErrorLog(line)))
    else None
  }

  /**
   * cvs_getreply over the stream `s`: read lines up to "ok" (0 when some
   * line started with `reply`, 1 otherwise), an "error" line or the end of
   * the stream (-1). `sb` receives the text after `reply` of the last such
   * line. As written, the "E " test looks at `sb`, not at the line read.
   */
  function ScanReply(s: string, reply: string, sb: string, found: bool): (r: Scan)
    ensures |r.rest| <= |s|
    ensures r.code == -1 || r.code == 0 || r.code == 1
    decreases |s|
  {
    match NextLine(s)
    case None => Scan(-1, sb, [], [])
    case Some((line, rest)) =>
      var sb' := if reply <= line then line[|reply|..] else sb;
      var found' := found || reply <= line;
      match ReplyEnd(line, found')
      case Some((code, extra)) => Scan(code, sb', rest, ELog(sb) + extra)
      case None => WithLog(ELog(sb), ScanReply(rest, reply, sb', found'))
  }

  /** How cvs_getreply_firstmatch's loop ends on `line`: its code, `sb` and what it prints then. */
  function FirstEnd(line: string, reply: string, sb: string): Option<(int, string, seq<string>)>
  {
    if reply <= line then Some((0, line[|reply|..], []))
    else if line == "ok" then Some((1, sb, []))
    else if "error" <= line then Some((-1, sb, ErrorLog(line)))
    else None
  }

  /**
   * cvs_getreply_firstmatch over the stream `s`: read lines up to the
   * first one that starts with `reply` (0, with the text after `reply` in
   * `sb`), "ok" (1), or an "error" line or the end of the stream (-1).
   */
  function ScanFirst(s: string, reply: string, sb: string): (r: Scan)
    ensures |r.rest| <= |s|
    ensures r.code == 0 ==> |r.rest| < |s|
    ensures r.code == -1 || r.code == 0 || r.code == 1
    ensures r.code != 0 ==> r.sb == sb
    decreases |s|
  {
    match NextLine(s)
    case None => Scan(-1, sb, [], [])
    case Some((line, rest)) =>
      match FirstEnd(line, reply, sb)
      case Some((code, sb', extra)) => Scan(code, sb', rest, ELog(line) + extra)
      case None => WithLog(ELog(line), ScanFirst(rest, reply, sb))
  }

  /**
   * A reply line followed by "ok" gives 0 and the text after the reply;
   * "ok" alone gives 1 and leaves `sb` alone.
   */
  lemma ScanReplyFound(value: string, reply: string, sb: string, rest: string)
    requires '\n' !in reply + value && reply + value != "ok" && !("error" <= reply + value)
    requires !(reply <= "ok")
    ensures var r := ScanReply((reply + value) + "\n" + "ok" + "\n" + rest, reply, sb, false);
      r.code == 0 && r.sb == value && r.rest == rest
  {
    var tail := "ok" + "\n" + rest;
    var s := (reply + value) + "\n" + "ok" + "\n" + rest;
    assert s == (reply + value) + "\n" + tail;
    var t := ScanReply(tail, reply, value, true);
    assert t.code == 0 && t.sb == value && t.rest == rest by {
      NextLineOf("ok", rest);
    }
    assert ScanReply(s, reply, sb, false) == WithLog(ELog(sb), t) by {
      NextLineOf(reply + value, tail);
      assert (reply + value)[|reply|..] == value;
    }
  }

  lemma ScanReplyNotFound(reply: string, sb: string, rest: string)
    requires !(reply <= "ok")
    ensures var r := ScanReply("ok" + "\n" + rest, reply, sb, false);
      r.code == 1 && r.sb == sb && r.rest == rest
  {
    NextLineOf("ok", rest);
  }

  /**
   * cvs_getreply prints the previous reply text, not the line just read,
   * when that text starts with "E ": a plain "ok" then prints it.
   */
  lemma ScanReplyEchoesReply(reply: string, sb: string, rest: string)
    requires "E " <= sb && !(reply <= "ok")
    ensures ScanReply("ok" + "\n" + rest, reply, sb, false).log == ["CVS E: " + sb[2..]]
  {
    NextLineOf("ok", rest);
  }

  /** A line that ends a scan or starts with the awaited reply. */
  predicate Stops(line: string, reply: string)
  {
    reply <= line || line == "ok" || "error" <= line
  }

  /** A line that does not stop the scan is passed over. */
  lemma ScanFirstSkipOne(line: string, rest: string, reply: string, sb: string)
    requires '\n' !in line && !Stops(line, reply)
    ensures var r := ScanFirst(line + "\n" + rest, reply, sb);
      var t := ScanFirst(rest, reply, sb);
      r.code == t.code && r.sb == t.sb && r.rest == t.rest
  {
    NextLineOf(line, rest);
  }

  /** A line that starts with the reply ends the scan. */
  lemma ScanFirstMatch(line: string, rest: string, reply: string, sb: string)
    requires '\n' !in line && reply <= line
    ensures var r := ScanFirst(line + "\n" + rest, reply, sb);
      r.code == 0 && r.sb == line[|reply|..] && r.rest == rest
  {
    NextLineOf(line, rest);
  }

  /** Lines that do not stop the scan are skipped, and the first matching line is returned. */
  lemma {:induction false} ScanFirstSkips(skipped: seq<string>, line: string, reply: string, sb: string, rest: string)
    requires forall i :: 0 <= i < |skipped| ==> '\n' !in skipped[i] && !Stops(skipped[i], reply)
    requires '\n' !in line && reply <= line
    ensures var r := ScanFirst(Unlines(skipped) + line + "\n" + rest, reply, sb);
      r.code == 0 && r.sb == line[|reply|..] && r.rest == rest
  {
    var s := Unlines(skipped) + line + "\n" + rest;
    if skipped == [] {
      assert s == line + "\n" + rest;
      ScanFirstMatch(line, rest, reply, sb);
    } else {
      var tail := Unlines(skipped[1..]) + line + "\n" + rest;
      assert s == skipped[0] + "\n" + tail;
      var r, t := ScanFirst(s, reply, sb), ScanFirst(tail, reply, sb);
      assert r.code == t.code && r.sb == t.sb && r.rest == t.rest by {
        ScanFirstSkipOne(skipped[0], tail, reply, sb);
      }
      assert t.code == 0 && t.sb == line[|reply|..] && t.rest == rest by {
        ScanFirstSkips(skipped[1..], line, reply, sb, rest);
      }
    }
  }

  /**
   * The replies the rlog and rls parsers consume: the text after "M " of
   * each "M " line, until cvs_getreply_firstmatch stops with "ok" (1), an
   * "error" line or the end of the stream (-1).
   */
  datatype MReplies = MReplies(lines: seq<string>, code: int, rest: string, log: seq<string>)

  function ScanM(s: string, sb: string): (r: MReplies)
    ensures r.code == -1 || r.code == 1
    decreases |s|
  {
    var first := ScanFirst(s, "M ", sb);
    if first.code != 0 then MReplies([], first.code, first.rest, first.log)
    else
      var t := ScanM(first.rest, first.sb);
      MReplies([first.sb] + t.lines, t.code, t.rest, first.log + t.log)
  }

  /** Every line of the scanned replies is a complete "M " line of the stream. */
  lemma {:induction false} ScanMLines(lines: seq<string>, rest: string)
    requires forall i :: 0 <= i < |lines| ==> '\n' !in lines[i]
    ensures ScanM(MText(lines) + "ok\n" + rest, "").lines == lines
    ensures ScanM(MText(lines) + "ok\n" + rest, "").code == 1
    ensures ScanM(MText(lines) + "ok\n" + rest, "").rest == rest
  {
    ScanMLinesFrom(lines, rest, "");
  }

  /** "M " lines as the server sends them. */
  function MText(lines: seq<string>): string
  {
    if lines == [] then [] else "M " + lines[0] + "\n" + MText(lines[1..])
  }

  lemma {:induction false} ScanMLinesFrom(lines: seq<string>, rest: string, sb: string)
    requires forall i :: 0 <= i < |lines| ==> '\n' !in lines[i]
    ensures ScanM(MText(lines) + "ok\n" + rest, sb).lines == lines
    ensures ScanM(MText(lines) + "ok\n" + rest, sb).code == 1
    ensures ScanM(MText(lines) + "ok\n" + rest, sb).rest == rest
  {
    var s := MText(lines) + "ok\n" + rest;
    if lines == [] {
      assert s == "ok" + "\n" + rest;
      ScanMEnd(rest, sb);
    } else {
      var tail := MText(lines[1..]) + "ok\n" + rest;
      assert s == ("M " + lines[0]) + "\n" + tail;
      ScanMStep(lines[0], tail, sb);
      ScanMLinesFrom(lines[1..], rest, lines[0]);
    }
  }

  /** An "ok" line ends the "M " replies. */
  lemma ScanMEnd(rest: string, sb: string)
    ensures var r := ScanM("ok" + "\n" + rest, sb); r.lines == [] && r.code == 1 && r.rest == rest
  {
    NextLineOf("ok", rest);
  }

  /** An "M " line is one reply. */
  lemma ScanMStep(line: string, tail: string, sb: string)
    requires '\n' !in line
    ensures var r, t := ScanM(("M " + line) + "\n" + tail, sb), ScanM(tail, line);
      r.lines == [line] + t.lines && r.code == t.code && r.rest == t.rest
  {
    var s := ("M " + line) + "\n" + tail;
    assert ("M " + line)[|"M "|..] == line;
    var first := ScanFirst(s, "M ", sb);
    assert first.code == 0 && first.sb == line && first.rest == tail by {
      ScanFirstMatch("M " + line, tail, "M ", sb);
    }
  }

  /** Every chunk is nonempty and fits a read buffer of `cap` bytes. */
  predicate Fits(chunks: seq<string>, cap: nat)
  {
    forall i :: 0 <= i < |chunks| ==> 0 < |chunks[i]| <= cap
  }

  /** The first `n` bytes of the channel (fewer when it ends), and the channel after them. */
  function Take(chunks: seq<string>, n: nat): (r: (string, seq<string>))
    ensures r.0 + Concat(r.1) == Concat(chunks)
    ensures |r.0| == if n <= |Concat(chunks)| then n else |Concat(chunks)|
  {
    if chunks == [] || n == 0 then
      ([], chunks)
    else if n < |chunks[0]| then
      assert chunks[0] == chunks[0][..n] + chunks[0][n..];
      (chunks[0][..n], [chunks[0][n..]] + chunks[1..])
    else
      var t := Take(chunks[1..], n - |chunks[0]|);
      (chunks[0] + t.0, t.1)
  }

  /** What is left of the channel still fits the buffer. */
  lemma {:induction false} TakeFits(chunks: seq<string>, n: nat, cap: nat)
    requires Fits(chunks, cap)
    ensures Fits(Take(chunks, n).1, cap)
  {
    if chunks != [] && n != 0 && n >= |chunks[0]| {
      TakeFits(chunks[1..], n - |chunks[0]|, cap);
    }
  }

  /**
   * cvs_transport's reading and writing state. `data` is rd_buf.data, the
   * pending bytes are data[buf..buf + len]; `incoming` is what the server
   * has sent and the client not yet read, in read() chunks; `wrBuf` is
   * wr_buf and `sent` everything flushed so far.
   */
  class Transport {
    var data: array<char>
    var buf: nat
    var len: nat
    var incoming: seq<string>
    var wrBuf: string
    var sent: string

    /** Every chunk fits the read buffer, as read() never returns more than it is asked for. */
    predicate Valid()
      reads this`data, this`buf, this`len, this`incoming
    {
      data.Length > 0 && buf + len <= data.Length && Fits(incoming, data.Length)
    }

    /** The bytes in the read buffer. */
    function Pending(): string
      reads this`data, this`buf, this`len, this`incoming, data
      requires Valid()
    {
      data[buf..buf + len]
    }

    /** Everything the client has still to read: the buffer, then the channel. */
    function Input(): string
      reads this`data, this`buf, this`len, this`incoming, data
      requires Valid()
    {
      Pending() + Concat(incoming)
    }

    /** Everything the client has written: flushed, then still accumulated. */
    function Output(): string
      reads this`sent, this`wrBuf
    {
      sent + wrBuf
    }

    /** A fresh connection (cvs_connect's initialisation of rd_buf and wr_buf). */
    constructor Init(capacity: nat, chunks: seq<string>)
      requires capacity > 0
      requires Fits(chunks, capacity)
      ensures Valid() && fresh(data)
      ensures Input() == Concat(chunks) && Pending() == [] && incoming == chunks
      ensures Output() == [] && wrBuf == []
    {
      data := new char[capacity];
      buf := 0;
      len := 0;
      incoming := chunks;
      wrBuf := [];
      sent := [];
    }

    /** Refill the empty buffer with the next chunk (xread). */
    method Refill()
      requires Valid() && len == 0 && buf == 0 && incoming != []
      modifies this, data
      ensures Valid() && data == old(data) && buf == 0
      ensures Pending() == old(incoming[0]) && incoming == old(incoming[1..])
      ensures Pending() + Concat(incoming) == old(Concat(incoming))
      ensures wrBuf == old(wrBuf) && sent == old(sent)
    {
      var chunk := incoming[0];
      forall i | 0 <= i < |chunk| {
        data[i] := chunk[i];
      }
      len := |chunk|;
      incoming := incoming[1..];
      assert data[0..len] == chunk;
      assert Concat(old(incoming)) == chunk + Concat(incoming);
    }

    /**
     * One look at the buffer by cvs_readline: a line found there is taken
     * with its '\n'; otherwise all of the buffer is taken and it starts
     * over empty.
     */
    method ScanBuffer() returns (line: Option<string>, part: string)
      requires Valid()
      modifies this
      ensures Valid() && data == old(data) && incoming == old(incoming)
      ensures line.Some? ==> NextLine(old(Pending())) == Some((line.value, Pending()))
      ensures line.None? ==> '\n' !in old(Pending()) && part == old(Pending()) && buf == 0 && len == 0
      ensures wrBuf == old(wrBuf) && sent == old(sent)
    {
      var pending := data[buf..buf + len];
      match IndexOf(pending, '\n')
      case Some(k) =>
        line := Some(pending[..k]);
        part := [];
        buf := buf + k + 1;
        len := len - (k + 1);
        assert Pending() == pending[k + 1..];
      case None =>
        line := None;
        part := pending;
        buf := 0;
        len := 0;
    }

    /**
     * cvs_readline: the bytes before the first '\n' of the input, read
     * from the buffer and from as many refills as needed; the line and its
     * '\n' are consumed. Without a '\n' the rest of the input is consumed
     * and dropped, and the result is None (-1). A line already in the
     * buffer is taken without touching the channel, and the buffer keeps
     * the bytes after it.
     */
    method ReadLine() returns (line: Option<string>)
      requires Valid()
      modifies this, data
      ensures Valid() && data == old(data)
      ensures line.Some? ==> NextLine(old(Input())) == Some((line.value, Input()))
      ensures line.None? ==> NextLine(old(Input())) == None && Input() == []
      ensures '\n' in old(Pending()) ==>
        incoming == old(incoming) && NextLine(old(Pending())) == Some((line.value, Pending()))
      ensures wrBuf == old(wrBuf) && sent == old(sent)
    {
      ghost var input, p0, c0 := Input(), Pending(), Concat(incoming);
      var part;
      line, part := ScanBuffer();
      if line.Some? {
        BufferedLine(p0, line.value, Pending(), c0, input);
        return;
      }
      assert part + c0 == input;
      line := ReadRest(part);
    }

    /**
     * The rest of cvs_readline once the buffer is exhausted: refill and
     * look again until a '\n' turns up or the channel ends; `acc` holds
     * the bytes of the line gathered so far.
     */
    method ReadRest(acc0: string) returns (line: Option<string>)
      requires Valid() && buf == 0 && len == 0 && '\n' !in acc0
      modifies this, data
      ensures Valid() && data == old(data)
      ensures line.Some? ==> NextLine(acc0 + old(Concat(incoming))) == Some((line.value, Input()))
      ensures line.None? ==> NextLine(acc0 + old(Concat(incoming))) == None && Input() == []
      ensures wrBuf == old(wrBuf) && sent == old(sent)
    {
      ghost var input := acc0 + Concat(incoming);
      var acc := acc0;
      while true
        invariant Valid() && data == old(data) && buf == 0 && len == 0
        invariant acc + Concat(incoming) == input && '\n' !in acc
        invariant wrBuf == old(wrBuf) && sent == old(sent)
        decreases |incoming|
      {
        if incoming == [] {
          NoLineAcross(acc, input);
          return None;
        }
        line, acc := RefillAndScan(acc);
        if line.Some? {
          return;
        }
      }
    }

    /** One round of ReadRest: a refill, then a look for the '\n' in what it brought. */
    method RefillAndScan(acc: string) returns (line: Option<string>, acc': string)
      requires Valid() && buf == 0 && len == 0 && '\n' !in acc && incoming != []
      modifies this, data
      ensures Valid() && data == old(data) && |incoming| < old(|incoming|)
      ensures line.Some? ==> NextLine(acc + old(Concat(incoming))) == Some((line.value, Input()))
      ensures line.None? ==> acc' + Concat(incoming) == acc + old(Concat(incoming))
      ensures line.None? ==> '\n' !in acc' && buf == 0 && len == 0
      ensures wrBuf == old(wrBuf) && sent == old(sent)
    {
      ghost var input := acc + Concat(incoming);
      Refill();
      ghost var p0, c1 := Pending(), Concat(incoming);
      var part;
      line, part := ScanBuffer();
      if line.Some? {
        assert NextLine(input) == Some((acc + line.value, Input())) by {
          LineAcross(acc, p0, line.value, Pending(), Concat(incoming), input);
        }
        return Some(acc + line.value), acc;
      }
      acc' := acc + part;
      assert acc' + Concat(incoming) == input by {
        assert part == p0 && Concat(incoming) == c1;
      }
    }

    /**
     * _cvs_read_full_from_buf: take min(len, size) bytes from the buffer;
     * an emptied buffer starts over at the beginning of `data`.
     */
    method ReadFullFromBuf(size: nat) returns (got: string)
      requires Valid()
      modifies this
      ensures Valid() && data == old(data) && incoming == old(incoming)
      ensures var n := if old(len) < size then old(len) else size;
        got == old(Pending())[..n] && Pending() == old(Pending())[n..]
      ensures len == 0 ==> buf == 0
      ensures wrBuf == old(wrBuf) && sent == old(sent)
    {
      var n := if len < size then len else size;
      got := data[buf..buf + n];
      buf := buf + n;
      len := len - n;
      if len == 0 {
        buf := 0;
      }
    }

    /**
     * cvs_read_full without compression: the buffered bytes first, then
     * read_in_full on the channel; fewer than `size` bytes only when the
     * input ends.
     */
    method ReadFull(size: nat) returns (got: string)
      requires Valid()
      modifies this
      ensures Valid() && data == old(data)
      ensures var n := if size <= |old(Input())| then size else |old(Input())|;
        got == old(Input())[..n] && Input() == old(Input())[n..]
      ensures wrBuf == old(wrBuf) && sent == old(sent)
    {
      ghost var input := Input();
      var front := ReadBuffered(size);
      ghost var pc, c0 := Pending(), Concat(incoming);
      var rest := ReadChannel(size - |front|);
      got := front + rest;
      ReadFullParts(front, pc, c0, rest, Concat(incoming), input, size);
    }

    /** read_in_full on the channel: up to `need` bytes, fewer only when the channel ends. */
    method ReadChannel(need: nat) returns (got: string)
      requires Valid()
      modifies this
      ensures Valid() && data == old(data) && buf == old(buf) && len == old(len)
      ensures got + Concat(incoming) == old(Concat(incoming))
      ensures |got| == if need <= |old(Concat(incoming))| then need else |old(Concat(incoming))|
      ensures wrBuf == old(wrBuf) && sent == old(sent)
    {
      var t := Take(incoming, need);
      TakeFits(incoming, need, data.Length);
      incoming := t.1;
      got := t.0;
    }

    /** The first step of cvs_read_full: whatever the buffer holds, up to `size` bytes. */
    method ReadBuffered(size: nat) returns (front: string)
      requires Valid()
      modifies this
      ensures Valid() && data == old(data) && incoming == old(incoming)
      ensures front + Pending() + Concat(incoming) == old(Input()) && |front| <= size
      ensures size - |front| > 0 ==> Pending() == []
      ensures wrBuf == old(wrBuf) && sent == old(sent)
    {
      front := [];
      if len > 0 {
        ghost var p0 := Pending();
        front := ReadFullFromBuf(size);
        assert front + Pending() == p0;
      }
    }

    /**
     * cvs_write: append `text` (the formatted request) to wr_buf; with
     * `flush` hand the whole of wr_buf to the server and empty it.
     */
    method Write(flush: bool, text: string)
      modifies this
      ensures Output() == old(Output()) + text
      ensures flush ==> wrBuf == [] && sent == old(sent) + old(wrBuf) + text
      ensures !flush ==> sent == old(sent)
      ensures data == old(data) && buf == old(buf) && len == old(len) && incoming == old(incoming)
    {
      wrBuf := wrBuf + text;
      if flush {
        sent := sent + wrBuf;
        wrBuf := [];
      }
    }

    /** cvs_write_full: flush wr_buf if it holds anything, then send `bytes` as they are. */
    method WriteFull(bytes: string)
      modifies this
      ensures Output() == old(Output()) + bytes && wrBuf == []
      ensures data == old(data) && buf == old(buf) && len == old(len) && incoming == old(incoming)
    {
      if wrBuf != [] {
        Write(true, []);
      }
      sent := sent + bytes;
      wrBuf := [];
    }

    /**
     * cvs_getreply, as specified by ScanReply; `printed` is what it writes
     * to standard error on the way.
     */
    method GetReply(reply: string, sb0: string) returns (code: int, sb: string, printed: seq<string>)
      requires Valid()
      modifies this, data
      ensures Valid() && data == old(data)
      ensures ScanReply(old(Input()), reply, sb0, false) == Scan(code, sb, Input(), printed)
      ensures wrBuf == old(wrBuf) && sent == old(sent)
    {
      ghost var input := Input();
      printed := [];
      sb := sb0;
      var found := false;
      while true
        invariant Valid() && data == old(data)
        invariant wrBuf == old(wrBuf) && sent == old(sent)
        invariant ScanReply(input, reply, sb0, false) == WithLog(printed, ScanReply(Input(), reply, sb, found))
        decreases |Input()|
      {
        var stop, more;
        ghost var before := ScanReply(Input(), reply, sb, found);
        stop, code, sb, found, more := ReplyLine(reply, sb, found);
        if stop {
          assert before == Scan(code, sb, Input(), more);
          return code, sb, printed + more;
        }
        WithLogTwice(printed, more, ScanReply(Input(), reply, sb, found));
        printed := printed + more;
      }
    }

    /** One line of cvs_getreply: `stop` when the scan ends with it. */
    method ReplyLine(reply: string, sb0: string, found0: bool)
      returns (stop: bool, code: int, sb: string, found: bool, printed: seq<string>)
      requires Valid()
      modifies this, data
      ensures Valid() && data == old(data) && wrBuf == old(wrBuf) && sent == old(sent)
      ensures stop ==> ScanReply(old(Input()), reply, sb0, found0) == Scan(code, sb, Input(), printed)
      ensures !stop ==> |Input()| < |old(Input())|
      ensures !stop ==> ScanReply(old(Input()), reply, sb0, found0) == WithLog(printed, ScanReply(Input(), reply, sb, found))
    {
      var line := ReadLine();
      if line.None? {
        return true, -1, sb0, found0, [];
      }
      var l := line.value;
      sb := if reply <= l then l[|reply|..] else sb0;
      found := found0 || reply <= l;
      match ReplyEnd(l, found)
      case Some((c, extra)) =>
        return true, c, sb, found, ELog(sb0) + extra;
      case None =>
        return false, 0, sb, found, ELog(sb0);
    }

    /**
     * cvs_getreply_firstmatch, as specified by ScanFirst; `printed` is
     * what it writes to standard error on the way.
     */
    method GetReplyFirstMatch(reply: string, sb0: string) returns (code: int, sb: string, printed: seq<string>)
      requires Valid()
      modifies this, data
      ensures Valid() && data == old(data)
      ensures ScanFirst(old(Input()), reply, sb0) == Scan(code, sb, Input(), printed)
      ensures wrBuf == old(wrBuf) && sent == old(sent)
    {
      ghost var input := Input();
      printed := [];
      while true
        invariant Valid() && data == old(data)
        invariant wrBuf == old(wrBuf) && sent == old(sent)
        invariant ScanFirst(input, reply, sb0) == WithLog(printed, ScanFirst(Input(), reply, sb0))
        decreases |Input()|
      {
        var stop, more;
        ghost var before := ScanFirst(Input(), reply, sb0);
        stop, code, sb, more := FirstMatchLine(reply, sb0);
        if stop {
          assert before == Scan(code, sb, Input(), more);
          return code, sb, printed + more;
        }
        WithLogTwice(printed, more, ScanFirst(Input(), reply, sb0));
        printed := printed + more;
      }
    }

    /** One line of cvs_getreply_firstmatch: `stop` when the scan ends with it. */
    method FirstMatchLine(reply: string, sb0: string)
      returns (stop: bool, code: int, sb: string, printed: seq<string>)
      requires Valid()
      modifies this, data
      ensures Valid() && data == old(data) && wrBuf == old(wrBuf) && sent == old(sent)
      ensures stop ==> ScanFirst(old(Input()), reply, sb0) == Scan(code, sb, Input(), printed)
      ensures !stop ==> |Input()| < |old(Input())|
      ensures !stop ==> ScanFirst(old(Input()), reply, sb0) == WithLog(printed, ScanFirst(Input(), reply, sb0))
    {
      var line := ReadLine();
      if line.None? {
        return true, -1, sb0, [];
      }
      var l := line.value;
      match FirstEnd(l, reply, sb0)
      case Some((c, sb', extra)) =>
        return true, c, sb', ELog(l) + extra;
      case None =>
        return false, 0, sb0, ELog(l);
    }
  }

  /** How cvs_read_full's two parts make up the requested prefix. */
  lemma ReadFullParts(front: string, pc: string, c0: string, t0: string, c1: string, input: string, size: nat)
    requires front + pc + c0 == input && t0 + c1 == c0 && |front| <= size
    requires |t0| == if size - |front| <= |c0| then size - |front| else |c0|
    requires size - |front| > 0 ==> pc == []
    ensures var n := if size <= |input| then size else |input|;
      front + t0 == input[..n] && pc + c1 == input[n..]
  {
    if size - |front| == 0 {
      assert t0 == [] && c1 == c0;
      Split(front, pc + c1, input);
    } else {
      assert input == (front + t0) + c1;
      Split(front + t0, c1, input);
    }
  }

  /** A string cut after its first |a| characters. */
  lemma Split(a: string, b: string, s: string)
    requires a + b == s
    ensures a == s[..|a|] && b == s[|a|..]
  {
  }

  /** The line found in the buffer completes the bytes gathered before it. */
  lemma LineAcross(acc: string, pending: string, l: string, after: string, tail: string, input: string)
    requires NextLine(pending) == Some((l, after)) && '\n' !in acc
    requires acc + pending + tail == input
    ensures NextLine(input) == Some((acc + l, after + tail))
  {
    assert input == (acc + l) + "\n" + (after + tail);
    NextLineOf(acc + l, after + tail);
  }

  /** A line found in the buffer is the first line of the whole input. */
  lemma BufferedLine(pending: string, l: string, after: string, tail: string, input: string)
    requires NextLine(pending) == Some((l, after))
    requires input == pending + tail
    ensures NextLine(input) == Some((l, after + tail))
  {
    LineAcross([], pending, l, after, tail, input);
    assert [] + l == l;
  }

  /** Input without a '\n' holds no line. */
  lemma NoLineAcross(acc: string, input: string)
    requires '\n' !in acc && acc + [] == input
    ensures NextLine(input) == None
  {
    assert input == acc;
  }

  /** A line, its '\n', then the rest of the input. */
  function Then(line: string, rest: string): string
  {
    line + "\n" + rest
  }

  /**
   * What a reader of several lines leaves: its result, and the input that
   * follows what it consumed (empty when the input ended first).
   */
  datatype Parsed<+T> = Parsed(result: Outcome<T>, rest: string)

  /** The argument lines of a request: one "Argument <a>" line per argument, in order. */
  function ArgumentLines(args: seq<string>): (r: string)
    ensures args == [] <==> r == []
    ensures args != [] ==> "Argument " + args[0] + "\n" <= r
  {
    if args == [] then [] else "Argument " + args[0] + "\n" + ArgumentLines(args[1..])
  }

  /** Arguments written one after the other are the argument lines of the joined list. */
  lemma {:induction false} ArgumentLinesAppend(a: seq<string>, b: seq<string>)
    ensures ArgumentLines(a + b) == ArgumentLines(a) + ArgumentLines(b)
  {
    if a == [] {
      assert a + b == b;
    } else {
      assert (a + b)[1..] == a[1..] + b;
      ArgumentLinesAppend(a[1..], b);
      var line := "Argument " + a[0] + "\n";
      assert line + (ArgumentLines(a[1..]) + ArgumentLines(b)) == (line + ArgumentLines(a[1..])) + ArgumentLines(b);
    }
  }

  /** The -r argument, for a branch other than HEAD. */
  function BranchArguments(branch: Option<string>): seq<string>
  {
    if branch.Some? && branch.value != "HEAD" then ["-r", branch.value] else []
  }

  /** The -D argument, for a rendered date. */
  function DateArguments(date: Option<string>): seq<string>
  {
    if date.Some? then ["-D", date.value] else []
  }

  /** `args` followed by `more`. */
  function Extend(args: seq<string>, more: seq<string>): (r: seq<string>)
    ensures more == [] ==> r == args
  {
    args + more
  }

  /** Buffer more argument lines after those of `args`. */
  method SendArguments(t: Transport, ghost out0: string, ghost args: seq<string>, more: seq<string>)
    requires t.Output() == out0 + ArgumentLines(args)
    modifies t
    ensures t.Output() == out0 + ArgumentLines(args + more)
    ensures t.data == old(t.data) && t.buf == old(t.buf) && t.len == old(t.len) && t.incoming == old(t.incoming)
  {
    t.Write(false, ArgumentLines(more));
    ArgumentLinesAppend(args, more);
    Associative(out0, ArgumentLines(args), ArgumentLines(more));
  }

  /** The rest of a reader's contract: it leaves the connection valid and the output alone. */
  twostate predicate Reading(t: Transport)
    reads t
  {
    t.Valid() && t.data == old(t.data) && t.wrBuf == old(t.wrBuf) && t.sent == old(t.sent)
  }
}
