# CVS client protocol, modelled in Dafny

This project models the client side of the CVS client/server protocol that
`vcs-cvs/cvs-client.c` implements for git's CVS remote helper. The client
speaks the line-oriented CVS protocol over a pipe or socket: it parses a
CVSROOT, logs in to a pserver, and negotiates capabilities. It then issues
`rlog`, `rls`, `co`, `status`, `ci`, `tag` and `add` requests and parses the
server's replies into revision events, file contents and per-file
confirmations.

The model is split along the program's own structure:

| file | module | what it holds |
|---|---|---|
| `wrappers.dfy` | `Wrappers` | `Option`, and `Outcome` = `Ok` / `Error` (the C `return -1`) / `Fatal` (the C `die`) |
| `text.dfy` | `Text` | the libc and strbuf string helpers the client relies on (`strchr`, `strstr`, `atoi`, trimming, `dirname`/`basename`, splitting) |
| `revision.dfy` | `Revision` | revision-number arithmetic, the rlog symbol parser, `parse_entry`, `verify_revision`, `parse_mode`, `parse_status_state`, `hash_str` |
| `symtab.dfy` | `SymbolTable` | the growable branch/revision list (`struct branch_rev_list`) as a class over an array |
| `stream.dfy` | `Stream` | the transport (`struct cvs_transport`) as a class: its read buffer, incoming chunks, write buffer and sent bytes; line reading, buffered reads, writes and the two reply scanners |
| `session.dfy` | `Session` | CVSROOT parsing, the pserver password scrambler and login, capability negotiation and `cvs_connect` |
| `rlog.dfy` | `Rlog` | the `rlog` request and its reply parser (revision events, branch and tag lists), and `cvs_get_rev_branch` |
| `rls.dfy` | `Rls` | the `rls` request and its reply parser |
| `files.dfy` | `Files` | `struct cvsfile` and the lookup and "every file handled" checks shared by status and checkin |
| `checkout.dfy` | `Checkout` | `cvs_checkout_rev` and `cvs_checkout_branch` |
| `status.dfy` | `Status` | the `status` reply parser |
| `checkin.dfy` | `Checkin` | the `ci` reply parser |
| `requests.dfy` | `Requests` | the request builders and drivers of `cvs_status`, `cvs_checkin`, `cvs_tag` and `cvs_create_directories` |

Every parser follows the same pattern. A method on the transport reads line
by line with a loop, as the C code does. It is specified by a pure function
over the bytes the server will send (`old(t.Input())`). That function is in
turn built from one pure step function per protocol state, and the lemmas
state the protocol facts about those functions: what a well-formed reply
yields, which malformed replies abort, and which reply lines change a file's
record. Callback invocations become a returned sequence of events. The
server's byte stream is a parameter of the model: the transport is created
from the chunks the server will deliver.

## Model

| member | source | states |
|---|---|---|
| Text.CompleteLine | vcs-cvs/cvs-client.c:803-807 | a non-empty input that does not end with the character gets it appended; an input already ending with it, or an empty one, is returned unchanged; so the result is a prefix-extension by at most one character that ends with the character whenever the input is non-empty |
| Text.RTrimChar | vcs-cvs/cvs-client.c:809-814 | the result is a prefix at most one shorter than the input, and equals it exactly when the input is empty or does not end with the character |
| Revision.StripLastRevNum | vcs-cvs/cvs-client.c:1001-1014 | with no '.', the number is -1 and the revision is kept; otherwise the revision is cut at its last '.' and the number is atoi of the part after it |
| Revision.StripLastRevNumAppend | vcs-cvs/cvs-client.c:1001-1014 | stripping `prefix.N` gives back exactly `(N, prefix)` for every integer N: the round trip with the decimal formatter |
| Revision.ParseBranchRev | vcs-cvs/cvs-client.c:1029-1074 | dies exactly when the revision has no '.', never returns -1, never classifies as invalid, and a tag keeps the revision unchanged |
| Revision.ParseBranchRevOneDot | vcs-cvs/cvs-client.c:1029-1074 | a revision with one dot (such as 1.5) is a tag |
| Revision.ParseBranchRevNoDot | vcs-cvs/cvs-client.c:1029-1074 | a revision with no dot aborts |
| Revision.ParseBranchRevEvenDots | vcs-cvs/cvs-client.c:1029-1074 | an even number of dots (two or more, such as 1.5.2) is a branch with the revision unchanged |
| Revision.ParseBranchRevOddDots | vcs-cvs/cvs-client.c:1029-1074 | an odd number of dots (three or more) is a branch with the magic `.0` component removed when the second-to-last number is 0, and a tag otherwise |
| Revision.ParseSym | vcs-cvs/cvs-client.c:1076-1093 | a line with no ':' is an invalid symbol; otherwise the symbol's name is exactly the text before the first ':'; the parser never returns -1 |
| Revision.ParseSymLine | vcs-cvs/cvs-client.c:1076-1093 | `name: rev` parses to the name together with the classification `parse_branch_rev` gives the revision, and dies when that classification dies |
| Revision.TrimRevision | vcs-cvs/cvs-client.c:1139-1149 | the result is the longest prefix made only of digits and dots |
| Revision.TrimRevisionOf | vcs-cvs/cvs-client.c:1139-1149 | a revision followed by any non-revision text trims back to the revision |
| Revision.RevisionMetadataLine | vcs-cvs/cvs-client.c:1151-1167 | every `key: value;` line whose key has no space or colon is recognised as revision metadata |
| Revision.NotRevisionMetadata | vcs-cvs/cvs-client.c:1151-1167 | a line with a space before any colon is not revision metadata |
| Revision.IncRevisionStrip | vcs-cvs/cvs-client.c:2738-2748 | incrementing fails exactly when there is no '.' or the last number is 0; otherwise the prefix is kept and the last number grows by one |
| Revision.IncRevisionNumber | vcs-cvs/cvs-client.c:2738-2748 | `prefix.N` increments to `prefix.N+1` for every positive N |
| Revision.ParseEntry | vcs-cvs/cvs-client.c:2047-2065 | a parsed revision contains no '/', and an entry that does not start with '/' is rejected |
| Revision.ParseEntryLine | vcs-cvs/cvs-client.c:2047-2065 | the revision field of every `/name/rev/...` entry line is recovered exactly |
| Revision.ParseEntryMissingSeparator | vcs-cvs/cvs-client.c:2047-2065 | entries lacking the slash after the name or after the revision are rejected |
| Revision.VerifyRevisionAccepts | vcs-cvs/cvs-client.c:1793-1813 | an entry line carrying the requested revision is accepted |
| Revision.VerifyRevisionIsPrefixTest | vcs-cvs/cvs-client.c:1793-1813 | an entry is accepted exactly when its revision is a prefix of the requested one, so revision 1.1 is accepted when 1.10 was requested |
| Revision.ParseMode | vcs-cvs/cvs-client.c:1815-1855 | parsing fails exactly when the text holds a character outside `ugo=rwx,` |
| Revision.ParseModeNoExec | vcs-cvs/cvs-client.c:1815-1855 | a mode string without `x` never yields an executable mode |
| Revision.ParseModeLastClauseExec | vcs-cvs/cvs-client.c:1815-1855 | when the last clause grants `x`, the parsed mode has the execute bit of every class set (the permission accumulator is combined with itself at line 1853) |
| Revision.ParseModeClauses | vcs-cvs/cvs-client.c:1815-1855 | any well-formed list of `who=perms` clauses parses: each clause but the last adds its permissions for the classes it names, and the last adds its permissions for every class |
| Revision.ExecModeString | vcs-cvs/cvs-client.c:1815-1855 | `u=rwx,g=rwx,o=rx` parses to 0775 |
| Revision.PlainModeString | vcs-cvs/cvs-client.c:1815-1855 | `u=rw,g=rw,o=r` parses to 0664 |
| Revision.ModeStringRoundTrip | vcs-cvs/cvs-client.c:3086 | the mode string the client sends parses back to a mode whose executable bit is the one it was built from |
| Revision.ParseStatusState | vcs-cvs/cvs-client.c:2258-2297 | a known status is one whose table name equals the text; unknown is returned only when no table name matches |
| Revision.ParseStatusStateName | vcs-cvs/cvs-client.c:2258-2297 | every status name parses back to its status |
| Revision.HashStr | vcs-cvs/cvs-client.c:1222-1231 | the hash fits in 32 bits |
| Revision.HashStrPoly | vcs-cvs/cvs-client.c:1222-1231 | the 32-bit loop equals the polynomial `seed*101^n + Σ c_i*101^(n-1-i)` reduced mod 2^32 |
| SymbolTable.FindIndex | vcs-cvs/cvs-client.c:967-978 | finds the first entry whose revision matches, or reports that none does |
| SymbolTable.FindIndexAppend | vcs-cvs/cvs-client.c:958-978 | after a push, lookups keep finding the earlier entry, and a new revision is found at the pushed position |
| SymbolTable.FindIndexFirst | vcs-cvs/cvs-client.c:967-978 | the first matching position is the one the lookup returns |
| SymbolTable.BranchRevList.Init | vcs-cvs/cvs-client.c:932-937 | a new list is empty with no storage |
| SymbolTable.BranchRevList.Grow | vcs-cvs/cvs-client.c:939-956 | the capacity grows to at least the request (by alloc_nr), old slots are copied, new slots are blank, and the contents are unchanged |
| SymbolTable.BranchRevList.Push | vcs-cvs/cvs-client.c:958-965 | the list's contents become the old contents plus the new pair |
| SymbolTable.BranchRevList.Find | vcs-cvs/cvs-client.c:967-978 | reports found exactly when some entry has the revision, and then yields the first such entry's name; otherwise the name is left alone |
| SymbolTable.BranchRevList.Clear | vcs-cvs/cvs-client.c:980-983 | the list becomes empty and keeps its storage |
| SymbolTable.BranchRevList.Release | vcs-cvs/cvs-client.c:985-999 | the list becomes empty with no storage |
| Stream.NextLine | vcs-cvs/cvs-client.c:391-443 | yields nothing exactly when no newline is pending, and otherwise splits the input into a newline-free line, the newline and the rest |
| Stream.NextLineOf | vcs-cvs/cvs-client.c:391-443 | a line followed by a newline is read back exactly |
| Stream.Transport.Init | vcs-cvs/cvs-client.c:825-828 | a fresh transport has an empty read buffer and nothing written, and its input is the server's whole byte stream |
| Stream.Transport.ReadLine | vcs-cvs/cvs-client.c:391-443 | consumes exactly one line of the input, across buffer refills, or reports end of stream after consuming everything; the write side is unchanged |
| Stream.Transport.ReadFullFromBuf | vcs-cvs/cvs-client.c:445-461 | takes the first min(size, buffered) bytes from the read buffer |
| Stream.Transport.ReadFull | vcs-cvs/cvs-client.c:463-491 | takes the first min(size, remaining) bytes of the input, buffered bytes first |
| Stream.Transport.Write | vcs-cvs/cvs-client.c:280-308 | appends the text to the output; with flush the write buffer is emptied into the sent bytes, without it nothing is sent |
| Stream.Transport.WriteFull | vcs-cvs/cvs-client.c:310-332 | flushes pending output and appends the raw bytes |
| Stream.ScanReplyFound | vcs-cvs/cvs-client.c:554-580 | a reply line with the prefix followed by `ok` yields 0, the text after the prefix, and the input after `ok` |
| Stream.ScanReplyNotFound | vcs-cvs/cvs-client.c:554-580 | `ok` with no matching line before it yields 1 |
| Stream.ScanReplyEchoesReply | vcs-cvs/cvs-client.c:554-580 | while the caller's capture buffer starts with `E `, each line read echoes that buffer's text after `CVS E:`; the line just read is not what is echoed |
| Stream.Transport.GetReply | vcs-cvs/cvs-client.c:554-580 | the result code, captured text, consumed input and printed messages are those of the reply scanner on the pending input |
| Stream.ScanFirstMatch | vcs-cvs/cvs-client.c:582-607 | a line starting with the prefix is returned at once with code 0 |
| Stream.ScanFirstSkips | vcs-cvs/cvs-client.c:582-607 | any run of lines that neither match nor end the reply is skipped before the first match |
| Stream.Transport.GetReplyFirstMatch | vcs-cvs/cvs-client.c:582-607 | the result is that of the first-match scanner on the pending input |
| Stream.ScanMLines | vcs-cvs/cvs-client.c:1365-1366 | a reply made of `M ` lines and `ok` delivers exactly those lines, then code 1, and leaves the input after `ok` |
| Stream.TakeFits | vcs-cvs/cvs-client.c:463-491 | after a read, the chunks still to come fit in the read buffer |
| Stream.ArgumentLinesAppend | vcs-cvs/cvs-client.c:1570-1603 | the `Argument` lines of two argument lists are the concatenation of each list's lines |
| Stream.SendArguments | vcs-cvs/cvs-client.c:1582-1590 | appends one `Argument` line per extra argument to the output |
| Session.ParseMethod | vcs-cvs/cvs-client.c:57-73 | a root without a leading ':' uses ext, or local when it starts with '/'; a leading ':' needs a closing ':' and the method text lies between the two |
| Session.ParseMethodOf | vcs-cvs/cvs-client.c:57-73 | `:method:rest` yields that method and rest for every protocol |
| Session.ParseUser | vcs-cvs/cvs-client.c:78-91 | a user is present exactly when the root holds '@'; the user and optional password reassemble the text before '@' |
| Session.ParseUserOf | vcs-cvs/cvs-client.c:78-91 | `user[:password]@rest` yields exactly that user, password and rest |
| Session.ParseHost | vcs-cvs/cvs-client.c:96-118 | a host part with none of ']', ':', '/' is an error; a parsed host leaves a non-empty rest starting with ':' or '/' unless the host was bracketed; a lone '[' aborts |
| Session.ParseHostOf | vcs-cvs/cvs-client.c:96-118 | a host (bracketed when it contains ':') followed by ':' is recovered exactly |
| Session.ParseHostBracketed | vcs-cvs/cvs-client.c:96-118 | `[host]rest` yields host and rest |
| Session.ParsePort | vcs-cvs/cvs-client.c:123-143 | a port is below 65536; it is 0 exactly when no ':' is given or the path starts right after ':'; a non-zero port is followed by a path starting with '/'; a ':' with no '/' after it is an error |
| Session.ParsePortOf | vcs-cvs/cvs-client.c:123-143 | `:port/path` yields exactly that port and path |
| Session.ParsePortNoPath | vcs-cvs/cvs-client.c:123-143 | a port with no path after it makes the whole root malformed |
| Session.ParsePortZero | vcs-cvs/cvs-client.c:123-143 | an explicit port 0 makes the whole root malformed |
| Session.DefaultPort | vcs-cvs/cvs-client.c:152-163 | an explicit port is kept; otherwise ext gets 22, pserver 2401, other methods 0 |
| Session.ParseCvsroot | vcs-cvs/cvs-client.c:48-166 | a root with an unclosed method is malformed; a parsed root's port fits 16 bits and is never 0 for ext or pserver |
| Session.ParseCvsrootNoHostEnd | vcs-cvs/cvs-client.c:96-118 | a root with no host terminator is malformed |
| Session.ParseFormatCvsroot | vcs-cvs/cvs-client.c:48-166 | formatting any well-formed root and parsing it back gives the same root, with the default port filled in |
| Session.ParseBareHost | vcs-cvs/cvs-client.c:48-166 | `host:/path` is an ext root on port 22 |
| Session.ParseLocalPath | vcs-cvs/cvs-client.c:48-166 | a bare `/path` is a root with no method, host or port |
| Session.Scramble | vcs-cvs/cvs-client.c:742-758 | the scrambled password is 'A' followed by the table image of each character |
| Session.ScrambleFixesControl | vcs-cvs/cvs-client.c:723-740 | control characters map to themselves |
| Session.ScrambleInvolution | vcs-cvs/cvs-client.c:723-740 | the table is a byte permutation that is its own inverse |
| Session.ScrambleRoundTrip | vcs-cvs/cvs-client.c:742-758 | scrambling the scrambled body restores the password |
| Session.LoginReply | vcs-cvs/cvs-client.c:784-800 | login succeeds exactly on `I LOVE YOU`, fails softly when no line arrives, and dies naming the user on `I HATE YOU` or quoting any other reply |
| Session.PserverLogin | vcs-cvs/cvs-client.c:760-801 | without a user it dies and sends nothing; otherwise it sends the auth request and the outcome is the login reply to the first line received |
| Session.Missing | vcs-cvs/cvs-client.c:661-667 | the missing capabilities are exactly the required ones the server lacks |
| Session.CheckCapabilities | vcs-cvs/cvs-client.c:659-682 | lists the required requests absent from the server's list, and records version, Gzip-stream and rlist support exactly as present |
| Session.RlogSOption | vcs-cvs/cvs-client.c:684-711 | `rlog -S` is used exactly when neither the option nor the environment disables it and the server version does not mention 1.11.1p1 |
| Session.CheckVersion | vcs-cvs/cvs-client.c:698-712 | without version support nothing is asked; otherwise `version` is sent and the step succeeds exactly when an `M ` reply arrives |
| Session.AfterCapabilities | vcs-cvs/cvs-client.c:684-720 | negotiation succeeds exactly when no required request is missing and the version exchange succeeds; rls support follows the capability list; no compression without Gzip-stream; `UseUnchanged` is always sent |
| Session.Negotiation | vcs-cvs/cvs-client.c:624-721 | succeeds exactly when a `Valid-requests` reply arrives and the rest of negotiation succeeds, and then no required request is missing; it never aborts |
| Session.Negotiate | vcs-cvs/cvs-client.c:624-721 | the outcome, the bytes sent and the input consumed are those of the negotiation on the pending input |
| Session.ModulePaths | vcs-cvs/cvs-client.c:831-843 | the module name loses one trailing '/', a module starting with '/' aborts, and the full module path begins with the repository path completed by '/' and ends with '/' |
| Session.Setup | vcs-cvs/cvs-client.c:825-857 | a malformed root aborts with its message; setup succeeds exactly for a parsed root with a connection method and an acceptable module name |
| Session.SetupLocalPath | vcs-cvs/cvs-client.c:845-857 | a bare local path is refused as an unsupported connection type |
| Session.Connection | vcs-cvs/cvs-client.c:859-870 | non-pserver connections go straight to negotiation; a pserver connection succeeds only after `I LOVE YOU`, and without a user it dies |
| Session.Connect | vcs-cvs/cvs-client.c:859-870 | the outcome is the connection sequence on the pending input |
| Rlog.RcsPath | vcs-cvs/cvs-client.c:1362-1386 | aborts exactly when the RCS file name does not end in `,v` or is shorter than the module path |
| Rlog.RcsPathLive | vcs-cvs/cvs-client.c:1362-1386 | `<module path><path>,v` yields the path |
| Rlog.RcsPathAttic | vcs-cvs/cvs-client.c:1362-1386 | `<module path><dir>/Attic/<name>,v` yields `<dir>/<name>` |
| Rlog.AddHash | vcs-cvs/cvs-client.c:1233-1247 | adding a name aborts exactly on a hash collision with a different name, and otherwise the table's names grow by that name, each keyed by its hash |
| Rlog.BranchFor | vcs-cvs/cvs-client.c:1447-1462 | a trunk revision is on HEAD; otherwise the branch is the first symbol with the revision's branch number, or UNKNOWN (skipped) when none has it |
| Rlog.DateLine | vcs-cvs/cvs-client.c:1471-1510 | a parsed date line never has timestamp 0, since a zero date aborts |
| Rlog.DateLineOf | vcs-cvs/cvs-client.c:1471-1510 | `date: D; author: A; state: S;` (blank-padded, any rest kept in the fourth piece) gives timestamp `date(D)`, author `A`, and dead exactly when `S` is `dead` |
| Rlog.Emitted | vcs-cvs/cvs-client.c:1522-1538 | a revision is reported exactly when it is not on an unknown branch and is not the dead initial revision of a file added on a branch |
| Rlog.RcsFileStep | vcs-cvs/cvs-client.c:1361-1387 | an `RCS file:` line inside the module moves to the symbol list with the relative path, one outside it waits for the working file, any other line is ignored |
| Rlog.SymbolHash | vcs-cvs/cvs-client.c:1409-1422 | a branch or tag symbol adds its name to the branch or tag table when that kind is requested, keeping every name keyed by its hash |
| Rlog.PushBranch | vcs-cvs/cvs-client.c:1409-1416 | branch symbols are appended to the symbol list, tags are not |
| Rlog.SymbolLine | vcs-cvs/cvs-client.c:1401-1424 | a parsed symbol line keeps the phase and updates the symbol list as PushBranch does |
| Rlog.EosStep | vcs-cvs/cvs-client.c:1401-1424 | an unindented line ends the symbol list; an indented one is a symbol |
| Rlog.RevisionStep | vcs-cvs/cvs-client.c:1431-1470 | a `revision` line starts a new revision on the branch its number belongs to, and aborts when the revision has no '.'; other lines are ignored |
| Rlog.RevisionLineOf | vcs-cvs/cvs-client.c:1431-1470 | `revision prefix.N` followed by anything starts a revision on the branch of `prefix` |
| Rlog.EomStep | vcs-cvs/cvs-client.c:1511-1539 | a revision separator or file separator reports the revision as Emitted says; other lines add to the log message, except metadata lines before the message starts |
| Rlog.PlainStep | vcs-cvs/cvs-client.c:1388-1530 | only the end-of-message phase emits; a `Working file:` line while waiting for it aborts; while waiting for the date line, a `date: ` line is accepted exactly when DateLine accepts it, and then sets the timestamp and author, makes the revision dead if the state is, and moves to the message; any other line is ignored |
| Rlog.Step | vcs-cvs/cvs-client.c:1361-1540 | a line emits an event exactly at the end of a revision's message that Emitted accepts, and that event describes that revision |
| Rlog.RlogLinesCons | vcs-cvs/cvs-client.c:1331-1540 | the events of a line sequence are the first line's event followed by those of the rest |
| Rlog.RlogLinesFatal | vcs-cvs/cvs-client.c:1331-1540 | a line that aborts ends the parse with no further events |
| Rlog.EventsPerRevision | vcs-cvs/cvs-client.c:1431-1540 | a reply never yields more events than it has `revision` lines |
| Rlog.Finish | vcs-cvs/cvs-client.c:1543-1552 | the parse ends cleanly exactly in the waiting-for-RCS-file phase, and then returns the names of the branch and tag tables |
| Rlog.RlogReply | vcs-cvs/cvs-client.c:1277-1568 | a successful parse means the reply ended with `ok` and every line was accepted |
| Rlog.RlogReplyEvents | vcs-cvs/cvs-client.c:1277-1568 | the events a reply yields are bounded by its `revision` lines |
| Rlog.RlogHeaderLines | vcs-cvs/cvs-client.c:1361-1430 | the header of a live file in the module with no symbols (`RCS file:`, `symbolic names:`, an unindented line, the boundary) reports nothing, clears the symbol table and waits for a revision of that path |
| Rlog.TrunkRevisionStep | vcs-cvs/cvs-client.c:1431-1470 | `revision P.N` with a one-number prefix opens revision `P.N` on HEAD |
| Rlog.DateStep | vcs-cvs/cvs-client.c:1471-1510 | the date line records the converted date, the author and the dead flag, and moves to the message |
| Rlog.MessageStep | vcs-cvs/cvs-client.c:1511-1530 | the first line that is not metadata starts the message |
| Rlog.BoundaryStep | vcs-cvs/cvs-client.c:1511-1530 | the file boundary reports the open revision and waits for the next file |
| Rlog.RlogRevisionBlock | vcs-cvs/cvs-client.c:1431-1530 | a trunk revision, its date line, a one-line message and the file boundary report exactly one event: HEAD, the file, `P.N`, the author, the message, the converted date and the dead flag |
| Rlog.RlogLinesOneRevision | vcs-cvs/cvs-client.c:1338-1530 | the lines of a one-file, one-revision reply report exactly that event and end between files with no branch or tag names |
| Rlog.RlogOneRevision | vcs-cvs/cvs-client.c:1277-1568 | the whole reply for one such file, then `ok`, yields exactly that one event and success with empty branch and tag lists |
| Rlog.RlogLine | vcs-cvs/cvs-client.c:1361-1540 | one loop iteration on the real symbol list computes the pure step |
| Rlog.RlogRound | vcs-cvs/cvs-client.c:1331-1540 | each round consumes one reply line and the events so far are a prefix of the pure parse |
| Rlog.ParseRlog | vcs-cvs/cvs-client.c:1277-1568 | the events delivered and the outcome are those of the pure reply parser on the pending input |
| Rlog.RlogArguments | vcs-cvs/cvs-client.c:1570-1603 | `-d since<until` appears exactly when a since date is given, `-S` exactly when supported, and the list ends with `--` and the module |
| Rlog.RlogRequestArguments | vcs-cvs/cvs-client.c:1570-1603 | the rlog request is the argument lines followed by `rlog` |
| Rlog.SendRlog | vcs-cvs/cvs-client.c:1570-1603 | sends exactly the rlog request |
| Rlog.RevBranchStep | vcs-cvs/cvs-client.c:3171-3196 | a branch is found only on a symbol line naming that branch number; an unindented line ends the symbol list unfound |
| Rlog.RevBranchLines | vcs-cvs/cvs-client.c:3159-3197 | a found name comes from some symbol line of the reply naming the branch |
| Rlog.RevBranchOthers | vcs-cvs/cvs-client.c:3180-3193 | symbols for other revisions are skipped |
| Rlog.RevBranchSymbols | vcs-cvs/cvs-client.c:3159-3197 | after the header lines and other symbols, the first symbol naming the branch is found, and an unindented line ends the search unfound |
| Rlog.RevBranchReply | vcs-cvs/cvs-client.c:3132-3211 | a found branch name is named in the reply for the branch part of the revision, and the reply ended with `ok` |
| Rlog.GetRevBranch | vcs-cvs/cvs-client.c:3132-3211 | sends the `rlog -h` request and returns what the pure lookup gives on the reply |
| Rls.RlsArguments | vcs-cvs/cvs-client.c:1738-1791 | the list starts with `-e -R`, has `-d` exactly when dead files are wanted, and ends with `--` and the module |
| Rls.RlsHeadBranch | vcs-cvs/cvs-client.c:1738-1791 | naming HEAD is the same as naming no branch |
| Rls.SendRls | vcs-cvs/cvs-client.c:1738-1791 | sends exactly the rls request |
| Rls.DirectoryLine | vcs-cvs/cvs-client.c:1675-1690 | a directory header aborts exactly when it starts with '/', does not end in ':', or does not extend the module name; a parsed directory is empty or ends in '/' |
| Rls.DirectoryLineOf | vcs-cvs/cvs-client.c:1675-1690 | `module:` is the top directory and `module/sub:` is `sub/` |
| Rls.EntryLine | vcs-cvs/cvs-client.c:1697-1724 | a parsed entry's path is the directory plus a slash-free name, and its revision has no '/' |
| Rls.EntryLineOf | vcs-cvs/cvs-client.c:1697-1724 | `/name/rev/date/...` yields the path, revision and converted date |
| Rls.RlsStep | vcs-cvs/cvs-client.c:1675-1725 | an empty line returns to waiting for a directory; waiting for a directory, a line is accepted exactly when it is a directory line, which then becomes the current directory; inside a directory, a non-`/` line is skipped and a `/` line is accepted exactly when it is an entry line and then reports that entry |
| Rls.RlsReplyOneEntry | vcs-cvs/cvs-client.c:1617-1736 | a reply of one `module/sub:` line, one `/name/rev/date/...` line and `ok` yields exactly the entry `sub/name` with that revision and converted date, and success |
| Rls.RlsLines | vcs-cvs/cvs-client.c:1654-1726 | no more entries than lines, and directories stay well formed |
| Rls.RlsLinesAppend | vcs-cvs/cvs-client.c:1654-1726 | the lines are parsed one after another: the entries of `l1 + l2` are those of `l1` followed by those of `l2` started in the state `l1` ends in, and an error or abort in `l1` ends the parse there |
| Rls.RlsReply | vcs-cvs/cvs-client.c:1617-1736 | the parse succeeds exactly when the reply ends with `ok` and every line is accepted |
| Rls.ParseRls | vcs-cvs/cvs-client.c:1617-1736 | the entries delivered and the outcome are those of the pure parser on the pending input |
| Files.Reset | vcs-cvs/cvs-client.c:1886-1899 | a reset file is empty apart from its new and handled marks |
| Files.FindPath | vcs-cvs/cvs-client.c:2299-2311 | finds the first file with the path, or reports that none has it |
| Files.FindPathUpdate | vcs-cvs/cvs-client.c:2299-2311 | updating a file without changing its path leaves every lookup unchanged |
| Files.FindFile | vcs-cvs/cvs-client.c:2299-2311 | the array scan returns the pure lookup |
| Files.FirstUnhandled | vcs-cvs/cvs-client.c:2492-2497 | finds the first file not yet handled, or reports that all are handled |
| Files.Finish | vcs-cvs/cvs-client.c:2492-2497 | the parse result stands only when every file was handled, and otherwise the client aborts |
| Files.FinishOn | vcs-cvs/cvs-client.c:2947-2952 | the array check gives the pure result |
| Checkout.CheckoutBranchArguments | vcs-cvs/cvs-client.c:2100-2130 | `-D date` comes first exactly when a date is given, and the list ends with `--` and the module |
| Checkout.CheckoutHeadBranch | vcs-cvs/cvs-client.c:2113-2119 | naming HEAD is the same as naming no branch |
| Checkout.SizeT | vcs-cvs/cvs-client.c:1985 | the size is atoi's value reduced to a 64-bit unsigned number |
| Checkout.ModeAndSize | vcs-cvs/cvs-client.c:1975-1987 | a size of 0 is accepted only when the line is exactly `0`, and the size is the size_t image of atoi |
| Checkout.ModeAndSizeOf | vcs-cvs/cvs-client.c:1975-1987 | a valid mode line and a decimal size line parse to that mode and size |
| Checkout.Body | vcs-cvs/cvs-client.c:1991-2005 | a body is read exactly when that many bytes remain, and is that prefix of the input |
| Checkout.RevBody | vcs-cvs/cvs-client.c:1980-2017 | the file's mode and executable flag come from the mode line, and a non-empty body within the memory limit is held in memory |
| Checkout.RevFileBlock | vcs-cvs/cvs-client.c:1964-2017 | a file block keeps the file record tied to the requested file and revision |
| Checkout.RevFileBlockOf | vcs-cvs/cvs-client.c:1964-2017 | the server's block for the requested file yields that file's content and mode |
| Checkout.RevRemoved | vcs-cvs/cvs-client.c:2021-2031 | a line that is not `Removed`/`Remove-entry` is passed on unchanged; after one, a missing next line is an error, a path naming the requested file marks the content dead, and any other path aborts |
| Checkout.CheckoutRevRemovedReply | vcs-cvs/cvs-client.c:2021-2035 | a reply of `Removed`, the requested path and `ok` gives the starting content marked dead, with the rest of the input left over |
| Checkout.RevStepBlock | vcs-cvs/cvs-client.c:1962-2019 | a `Created`/`Updated` line followed by a file block records the file |
| Checkout.RevStepOk | vcs-cvs/cvs-client.c:2033-2035 | `ok` ends the reply |
| Checkout.CheckoutRevReply | vcs-cvs/cvs-client.c:1954-2044 | a successful checkout returns content for the requested file and revision |
| Checkout.CheckoutRevUpdated | vcs-cvs/cvs-client.c:1901-2045 | a reply with one `Updated` block and `ok` yields the body, mode 0775 or 0664, and the executable flag |
| Checkout.CheckoutRevNoFile | vcs-cvs/cvs-client.c:1901-2045 | a bare `ok` without a file is an error |
| Checkout.CheckoutRevWrongFile | vcs-cvs/cvs-client.c:1966-1968 | a block for another file aborts with the mismatch message |
| Checkout.CheckoutRev | vcs-cvs/cvs-client.c:1901-2045 | sends the checkout request and returns the pure reply parse of the pending input |
| Checkout.ModuleRelative | vcs-cvs/cvs-client.c:2169-2171 | the path is what follows the full module path or the module name, and is absent exactly when the line starts with neither |
| Checkout.BranchPath | vcs-cvs/cvs-client.c:2167-2171 | only the file's path changes |
| Checkout.BranchBody | vcs-cvs/cvs-client.c:2194-2220 | a non-empty body within the limit is held in memory and the file is live |
| Checkout.BranchModeBody | vcs-cvs/cvs-client.c:2178-2220 | the block leaves path and revision alone, and the file delivered is complete |
| Checkout.BranchFileBlock | vcs-cvs/cvs-client.c:2167-2222 | a parsed block within the memory limit yields a deliverable file |
| Checkout.BranchFileBlockOf | vcs-cvs/cvs-client.c:2167-2222 | the server's block for a file yields that path, revision, mode and body |
| Checkout.BranchUpdated | vcs-cvs/cvs-client.c:2159-2225 | an update delivers at most one new file and keeps the earlier ones |
| Checkout.BranchRemoved | vcs-cvs/cvs-client.c:2227-2238 | a removal delivers nothing |
| Checkout.DeliversAtMostOneKeeps | vcs-cvs/cvs-client.c:2145-2256 | delivering at most one file keeps the earlier files and their completeness |
| Checkout.BranchStep | vcs-cvs/cvs-client.c:2146-2250 | each reply line delivers at most one complete file |
| Checkout.BranchStepModTime | vcs-cvs/cvs-client.c:2155-2158 | `Mod-time` records the converted date for the next file |
| Checkout.BranchStepBlock | vcs-cvs/cvs-client.c:2159-2225 | an update block delivers the parsed file and clears the pending date |
| Checkout.BranchStepOk | vcs-cvs/cvs-client.c:2240-2244 | `ok` ends the reply |
| Checkout.BranchLoop | vcs-cvs/cvs-client.c:2145-2256 | files already delivered stay delivered and complete |
| Checkout.CheckoutBranchReply | vcs-cvs/cvs-client.c:2082-2258 | every file delivered is complete |
| Checkout.CheckoutBranchOneFile | vcs-cvs/cvs-client.c:2082-2258 | `Mod-time`, one `Updated` block and `ok` deliver exactly that one file with the date, mode and body |
| Checkout.SendCheckoutBranch | vcs-cvs/cvs-client.c:2100-2132 | sends exactly the checkout request |
| Checkout.CheckoutBranch | vcs-cvs/cvs-client.c:2082-2258 | sends the request and returns the delivered files and outcome of the pure reply parse |
| Status.Complains | vcs-cvs/cvs-client.c:2455-2474 | a status raises rc exactly when it is unacceptable: up to date is fine; locally added is fine for a new file or for a dead file re-added at the repository revision; all other statuses complain |
| Status.CutAtTab | vcs-cvs/cvs-client.c:2414-2416 | the text up to the first tab |
| Status.RepositoryPath | vcs-cvs/cvs-client.c:2423-2436 | the path is the trimmed RCS path with `,v` and the first `/Attic` removed, relative to the module path, and aborts exactly when it is outside the module |
| Status.RepositoryPathLive | vcs-cvs/cvs-client.c:2423-2436 | a live file's RCS path gives its module-relative path |
| Status.RepositoryPathAttic | vcs-cvs/cvs-client.c:2423-2436 | an Attic file's RCS path gives `<dir>/<name>` |
| Status.RecordPath | vcs-cvs/cvs-client.c:2422-2443 | the remote revision is the text before any tab; a value without a tab keeps the whole value as revision and takes the path from the current directory and basename |
| Status.ExaminedPath | vcs-cvs/cvs-client.c:2438-2443 | no current directory gives no path, `.` gives the basename, any other directory gives `dir/basename` |
| Status.LoopExamining | vcs-cvs/cvs-client.c:2347-2350 | an `E cvs status: Examining dir` line sets the current directory and nothing else |
| Status.RepositoryLineNewFile | vcs-cvs/cvs-client.c:2420-2478 | a tab-free repository revision records the file named by the current directory and basename |
| Status.LoopRepositoryNewFile | vcs-cvs/cvs-client.c:2420-2478 | the same step inside the reply loop |
| Status.LoopNewFileBlock | vcs-cvs/cvs-client.c:2386-2478 | a whole status block with a tab-free repository revision records the file `ExaminedPath(current dir, trimmed name)` |
| Status.StatusOfNewFileInDirectory | vcs-cvs/cvs-client.c:2322-2508 | after `Examining dir`, such a block for the requested `dir/name` marks that file handled and the reply returns 0 exactly when its status is acceptable, else 1 |
| Status.RecordPathRepository | vcs-cvs/cvs-client.c:2422-2443 | `rev<TAB>path,v` gives the revision and the module-relative path |
| Status.Record | vcs-cvs/cvs-client.c:2448-2476 | an unrequested file changes nothing; a requested one is marked handled, and rc becomes 1 exactly when its status is unacceptable |
| Status.FileLine | vcs-cvs/cvs-client.c:2396-2409 | a `File:` line moves on to the working revision and leaves rc alone |
| Status.FileLineOf | vcs-cvs/cvs-client.c:2396-2409 | `File: name<TAB>Status: text` records the trimmed name and the status |
| Status.WorkingLine | vcs-cvs/cvs-client.c:2410-2419 | only the local revision and the phase can change |
| Status.WorkingLineOf | vcs-cvs/cvs-client.c:2410-2419 | `Working revision:<TAB>rev` records the revision |
| Status.RepositoryLine | vcs-cvs/cvs-client.c:2420-2478 | only handled marks change, and rc stays or becomes 1 |
| Status.RepositoryLineOf | vcs-cvs/cvs-client.c:2420-2478 | the repository line of a live file records that file |
| Status.StatusLine | vcs-cvs/cvs-client.c:2347-2479 | each line only marks files handled and only raises rc to 1 |
| Status.StatusStep | vcs-cvs/cvs-client.c:2340-2490 | each step consumes input, only marks files, and `ok` returns the rc so far |
| Status.StatusLoop | vcs-cvs/cvs-client.c:2340-2497 | the loop only marks files; a result that does not abort means every file was handled; a success is 0 or 1 |
| Status.ParseUpdateCvsStatus | vcs-cvs/cvs-client.c:2322-2508 | the reply only marks files handled; any result that does not abort implies every requested file got a status; a success is 0 or 1, and it is 1 exactly when some block the loop read flagged a requested file whose status is not acceptable (`SomeFileFlagged`) |
| Status.RepositoryLineRc | vcs-cvs/cvs-client.c:2420-2476 | a `Repository revision:` line sets rc to 1 exactly when it closes the block of a requested file whose status is not acceptable, and otherwise keeps rc |
| Status.LineRc | vcs-cvs/cvs-client.c:2347-2479 | a reply line raises rc to 1 exactly when it flags a requested file, and otherwise keeps rc |
| Status.StepRc | vcs-cvs/cvs-client.c:2340-2490 | a pass that goes on has rc 1 exactly when its line flagged a requested file, else the old rc; a pass that stops with a success returns the rc so far and its line flagged nothing |
| Status.LoopFlags | vcs-cvs/cvs-client.c:2340-2497 | from rc 0, a success is 1 if and only if some line the loop read before `ok` flagged a requested file |
| Status.UnacceptableBlockRulesOutZero | vcs-cvs/cvs-client.c:2448-2476 | a block about a requested file whose status is not acceptable, read wherever the parser waits for a new block and followed by anything, makes every success 1, never 0 |
| Status.LoopSeparator | vcs-cvs/cvs-client.c:2386-2395 | the `=====` line starts a file block |
| Status.LoopFileStatus | vcs-cvs/cvs-client.c:2396-2409 | the `File:` line is consumed into the block |
| Status.LoopWorkingRevision | vcs-cvs/cvs-client.c:2410-2419 | the working revision line is consumed into the block |
| Status.LoopRepositoryRevision | vcs-cvs/cvs-client.c:2420-2478 | the repository line records the file |
| Status.LoopStatusBlock | vcs-cvs/cvs-client.c:2386-2478 | a whole status block records its file |
| Status.LoopOk | vcs-cvs/cvs-client.c:2482-2497 | `ok` returns rc when all files are handled and aborts otherwise |
| Status.StatusOfOneFile | vcs-cvs/cvs-client.c:2322-2508 | one block for the last unhandled file followed by `ok` marks it and returns 0, or 1 when its status is unacceptable |
| Status.BlockOfRequested | vcs-cvs/cvs-client.c:2386-2478 | a block for a requested file marks it and updates rc |
| Status.RecordOfRequested | vcs-cvs/cvs-client.c:2448-2476 | recording a requested file marks that file and sets rc by acceptability |
| Status.StatusOfUnrequested | vcs-cvs/cvs-client.c:2448-2453 | a block for an unrequested file changes no file |
| Status.StatusLineOn | vcs-cvs/cvs-client.c:2347-2479 | the in-place update of the file array computes the pure line step |
| Status.StatusRound | vcs-cvs/cvs-client.c:2340-2490 | one loop iteration computes the pure step |
| Status.ParseStatus | vcs-cvs/cvs-client.c:2322-2508 | the result and the new file array are those of the pure parser on the pending input |
| Checkin.WithoutAtticDir | vcs-cvs/cvs-client.c:2838-2840 | only the first `Attic/` is removed |
| Checkin.CheckinPath | vcs-cvs/cvs-client.c:2832-2840 | a path is found exactly when the `,v  <--  ` arrow is present |
| Checkin.CheckinPathLive | vcs-cvs/cvs-client.c:2832-2840 | `path,v  <--  name` gives the path |
| Checkin.CheckinPathAttic | vcs-cvs/cvs-client.c:2832-2840 | `dir/Attic/base,v  <--  name` gives `dir/base` |
| Checkin.DeletedRevision | vcs-cvs/cvs-client.c:2857-2860 | a deletion's revision is the old one incremented, or the old one when it cannot be incremented |
| Checkin.DeletedRevisionNumber | vcs-cvs/cvs-client.c:2857-2860 | deleting `prefix.N` gives `prefix.N+1` |
| Checkin.NewRevision | vcs-cvs/cvs-client.c:2845-2856 | without ';' neither revision is known, and the old revision is a suffix of the line |
| Checkin.NewRevisionOf | vcs-cvs/cvs-client.c:2845-2856 | `new; previous revision: old` gives both revisions |
| Checkin.NewRevisionDeleted | vcs-cvs/cvs-client.c:2845-2860 | `delete; previous revision: old` gives the incremented old revision |
| Checkin.RevisionsOf | vcs-cvs/cvs-client.c:2844-2869 | only `new revision:` and `initial revision:` lines carry revisions; an initial revision has no old one |
| Checkin.Confirm | vcs-cvs/cvs-client.c:2871-2887 | confirmation succeeds exactly for a requested file that is new or whose revision matches the reported old revision, and then sets its new revision and marks it handled |
| Checkin.CheckInLine | vcs-cvs/cvs-client.c:2831-2843 | a line under the repository module path starts an entry and aborts when it lacks the arrow |
| Checkin.RevisionLine | vcs-cvs/cvs-client.c:2844-2888 | a revision line confirms the pending file as Confirm does; other lines are ignored |
| Checkin.MessageLine | vcs-cvs/cvs-client.c:2828-2888 | a message line only confirms files |
| Checkin.CheckinLine | vcs-cvs/cvs-client.c:2817-2888 | a `Checked-in` or `Remove-entry` line aborts exactly when no entry was confirmed before it |
| Checkin.CheckinStep | vcs-cvs/cvs-client.c:2810-2945 | each step only confirms files, and `ok` returns 0 |
| Checkin.CheckinLoop | vcs-cvs/cvs-client.c:2810-2952 | the loop only confirms files; a result that does not abort means every file was confirmed |
| Checkin.ParseCvsCheckinReply | vcs-cvs/cvs-client.c:2757-2961 | the reply only confirms files; a result that does not abort implies every file was confirmed; success is 0 |
| Checkin.LoopMessage | vcs-cvs/cvs-client.c:2828-2888 | an `M ` line is processed by MessageLine |
| Checkin.LoopCheckInLine | vcs-cvs/cvs-client.c:2831-2843 | the check-in line moves on to the revision line |
| Checkin.LoopRevisionLine | vcs-cvs/cvs-client.c:2844-2888 | a revision line confirms the file or aborts |
| Checkin.LoopEndOfEntry | vcs-cvs/cvs-client.c:2821-2826 | the end of a confirmed entry waits for the next one |
| Checkin.LoopSkipped | vcs-cvs/cvs-client.c:2821-2826 | the end of an unconfirmed entry aborts |
| Checkin.LoopOk | vcs-cvs/cvs-client.c:2937-2952 | `ok` returns 0 when every file is confirmed and aborts otherwise |
| Checkin.LoopConfirmed | vcs-cvs/cvs-client.c:2821-2888 | a complete entry for a requested file confirms it |
| Checkin.CheckinOfOneFile | vcs-cvs/cvs-client.c:2757-2961 | one entry for the last unconfirmed file followed by `ok` confirms it with the new revision and returns 0 |
| Checkin.CheckinOfStaleFile | vcs-cvs/cvs-client.c:2874-2878 | a reported old revision that differs from the file's aborts |
| Checkin.CheckinOfUnrequestedFile | vcs-cvs/cvs-client.c:2871-2873 | an entry for a file not sent aborts |
| Checkin.CheckinWithoutRevision | vcs-cvs/cvs-client.c:2821-2826 | an entry that ends before its revision line aborts |
| Checkin.ConfirmOn | vcs-cvs/cvs-client.c:2871-2887 | the in-place confirmation computes Confirm |
| Checkin.CheckinRound | vcs-cvs/cvs-client.c:2810-2945 | one loop iteration computes the pure step |
| Checkin.ParseCheckin | vcs-cvs/cvs-client.c:2757-2961 | the result and the new file array are those of the pure parser on the pending input |
| Requests.StickyTag | vcs-cvs/cvs-client.c:2546 | no sticky tag exactly for HEAD |
| Requests.StickyLines | vcs-cvs/cvs-client.c:2576-2581 | no `Sticky` line exactly for HEAD |
| Requests.StatusRevision | vcs-cvs/cvs-client.c:2591-2597 | a status entry carries the file's revision, or `0` for a dead file or one without a revision |
| Requests.CheckinRevision | vcs-cvs/cvs-client.c:3077-3098 | a dead file is sent as `-rev`; a live one as its revision, or `0` when it has none |
| Requests.EntryRevision | vcs-cvs/cvs-client.c:3077-3098 | the Entry line sent for a file with a plain path and a slash-free revision parses back to the revision sent |
| Requests.FileLinesAppend | vcs-cvs/cvs-client.c:3045-3101 | the per-file request lines of two file lists are the first list's lines followed by the second's, continuing from the last directory |
| Requests.FileLinesAt | vcs-cvs/cvs-client.c:3045-3101 | the lines for file i sit between those for the files before and after it |
| Requests.Paths | vcs-cvs/cvs-client.c:3113-3119 | one path per file, in order |
| Requests.SendEntry | vcs-cvs/cvs-client.c:3077-3098 | sends exactly the entry lines of the file |
| Requests.SendChunk | vcs-cvs/cvs-client.c:3050-3098 | sends the directory change, when needed, and the file's entry |
| Requests.SendFiles | vcs-cvs/cvs-client.c:3045-3101 | sends the lines of every file in order |
| Requests.SendStatus | vcs-cvs/cvs-client.c:2510-2612 | sends exactly the status request |
| Requests.CvsStatus | vcs-cvs/cvs-client.c:2510-2620 | sends the status request and returns the status reply parse |
| Requests.PiecesOfLines | vcs-cvs/cvs-client.c:3034 | splitting joined lines at newlines gives the lines, each but the last keeping its newline |
| Requests.MessageOfLines | vcs-cvs/cvs-client.c:3033-3041 | a message joined from newline-free lines is sent as `Argument` for its first line and `Argumentx` for each further line, each right-trimmed |
| Requests.SendMessage | vcs-cvs/cvs-client.c:3033-3041 | sends exactly the message lines |
| Requests.SendPaths | vcs-cvs/cvs-client.c:3113-3119 | sends one `Argument` line per path |
| Requests.CheckinRequestParts | vcs-cvs/cvs-client.c:3033-3121 | the check-in request is `-m`, the message, `--`, the files, the top directory, the paths and `ci`, in that order |
| Requests.SendCheckin | vcs-cvs/cvs-client.c:3033-3124 | sends exactly the check-in request |
| Requests.CvsCheckin | vcs-cvs/cvs-client.c:2963-3130 | sends the check-in request and returns the check-in reply parse |
| Requests.TagArguments | vcs-cvs/cvs-client.c:3223-3228 | `-b` is sent exactly when making a branch |
| Requests.SendTag | vcs-cvs/cvs-client.c:3223-3269 | sends exactly the tag request |
| Requests.TagReply | vcs-cvs/cvs-client.c:3271-3284 | the tag result is 0 or -1 |
| Requests.TagReplyOk | vcs-cvs/cvs-client.c:3271-3284 | `M ` lines then `ok` give 0 |
| Requests.TagReplyError | vcs-cvs/cvs-client.c:3271-3284 | an `error` line gives -1 |
| Requests.ReadTagReply | vcs-cvs/cvs-client.c:3271-3284 | the loop computes the pure tag reply |
| Requests.CvsTag | vcs-cvs/cvs-client.c:3213-3291 | sends the tag request and returns the pure tag reply |
| Requests.Ancestors | vcs-cvs/cvs-client.c:2667-2678 | a directory's ancestor chain starts with the directory itself |
| Requests.InsertSorted | vcs-cvs/cvs-client.c:2667-2678 | inserting keeps the list sorted and adds exactly the one element |
| Requests.InsertAllSorted | vcs-cvs/cvs-client.c:2667-2678 | inserting many keeps the list sorted and adds exactly those elements |
| Requests.TraversalSorted | vcs-cvs/cvs-client.c:2667-2678 | the traversal is sorted and holds exactly the new directories and their ancestors |
| Requests.ParentInTraversal | vcs-cvs/cvs-client.c:2667-2678 | every non-top directory's parent is in the traversal and sorts before it |
| Requests.ParentsFirst | vcs-cvs/cvs-client.c:2667-2703 | every directory is announced after its parent |
| Requests.InsertAncestors | vcs-cvs/cvs-client.c:2667-2678 | the loop inserts the directory's ancestors |
| Requests.BuildTraversal | vcs-cvs/cvs-client.c:2667-2678 | the loop builds the traversal |
| Requests.TraversalDirectory | vcs-cvs/cvs-client.c:2679-2703 | each non-top item is announced with its directory lines |
| Requests.TraversalLinesStep | vcs-cvs/cvs-client.c:2679-2703 | the traversal lines are those of the current item followed by those of the remaining items |
| Requests.SendTraversalItem | vcs-cvs/cvs-client.c:2679-2703 | sends one item and updates the prefix the loop compares against |
| Requests.SendTraversal | vcs-cvs/cvs-client.c:2679-2703 | sends the lines of the whole traversal |
| Requests.SendAdd | vcs-cvs/cvs-client.c:2679-2728 | sends exactly the add request |
| Requests.AddReply | vcs-cvs/cvs-client.c:2730-2735 | the add result is 0 or -1 |
| Requests.AddReplyOk | vcs-cvs/cvs-client.c:2730-2735 | `M ` lines then `ok` give 0 |
| Requests.AddReplyError | vcs-cvs/cvs-client.c:2730-2735 | an `error` line gives -1 |
| Requests.CvsCreateDirectories | vcs-cvs/cvs-client.c:2622-2736 | sends the add request and returns the pure add reply |

## Left out

- Compression (the `z_*` functions and `cvs_init_compress`) is not modelled; only the negotiated level is computed.
- Spawning and tearing down the transport (`cvs_init_transport`, `cvs_terminate`) and the byte counters are not modelled; the server's bytes are a parameter.
- Tracing and stderr output are not modelled, except the `CVS E:` lines the reply scanner prints.
- Dates are an uninterpreted function parameter; `date_to_unixtime` and its relatives are not modelled.
- The rlog and rls cache files, the checkout cache (`db_cache_get`) and the dated branch cache are not modelled.
- `cvs_gettags` is not modelled; `meta.h` and `aggregator.h` are not part of this model.
- `cvsfile_init` and `cvsfile_release` only allocate and free memory, so they are not modelled.
- The CvsFile fields `isbin`, `iscached` and `util` are not modelled.
- A write that fails with -1 is not modelled: every write succeeds, so the `die` after a failed request is unreachable in the model.
- SymbolTable.BranchRevList.Grow: `alloc_nr` overflow of an unsigned int is not modelled.
- Rlog.AddHash: the branch and tag tables are modelled as maps keyed by hash, so the callers get sets of names with no iteration order.
- A NULL dereference in the source becomes `Fatal` in the model.
- Rlog.GetRevBranch: the C NULL is split into `Error` (the reply could not be read) and `Ok(None)` (no such branch).
- Session.ParseCvsroot: the protocol field of a fresh transport is zero-filled; it is modelled as `Unset`.
- Session.ParsePort: the port is reduced mod 65536 because the transport prints it with `%hu`; `cvs-client.h` is not part of this model.
- Session.ParseUser: the NULL/pointer comparison of the colon against '@' is read as "the colon does not come after '@'".
- Session.ParseHost: a lone `[` would make `memmove` take a negative length; it is modelled as `Fatal`.
- Revision.ParseBranchRev: the cases follow the comment at vcs-cvs/cvs-client.c:1023-1027 and the code under it. An even number of dots is a branch (`1.1.1` is the vendor branch). An odd number is a tag, unless the second-to-last number is the magic 0, which is removed to give the branch. So `1.1.1.1` is a tag, `1.5.2` a branch, `1.5.0.2` the branch `1.5.2`, and `1.5.2.1` a tag.
- Text.Atoi: 32-bit overflow of `atoi` is not modelled.
- Checkout.CheckoutRev and Checkout.CheckoutBranch: a file larger than the memory limit aborts, as the source does; the big-file path that would store it elsewhere is not modelled.
- Stream.Transport.ReadFull: a read error (-1) from the channel is not modelled; end of stream is.
- Status.Record: the local revision is only printed by the source and is kept but not checked.
- Status.RecordPath: the current directory is only set by `E cvs status: Examining` lines; before the first one it is empty and a tab-free repository line records no path.
- Revision.HashStr: a character stands for one unsigned protocol byte and model strings hold no NUL, so the C stop at NUL is not modelled separately.
- Checkin.ParseCvsCheckinReply: the `E ` lines and the echo of `M ` lines go to stderr only and are not modelled.
- Requests.SendFiles: `prepare_file_cb` and `release_file_cb` are not modelled; file contents are taken as already loaded.
- The example request comments in `cvs_status`, `cvs_checkin` and `cvs_create_directories` differ from the code (no `Argument .`, `-kk` present); the code is followed.
- Requests.CvsTag: the `M ` lines of the tag reply are only printed and are not returned.
- Requests.BuildTraversal: sorting and removing duplicates are modelled as a sorted insert into a duplicate-free list.
- Requests.CvsCreateDirectories: absolute new directories are excluded by the `Relative` precondition, because the C `dirname` loop would never reach `.` for them.
- Requests.SendTraversal: the reset test compares text prefixes as the source does, not path components.
- Requests.MessageOfLines: an empty commit message gives no message lines.
