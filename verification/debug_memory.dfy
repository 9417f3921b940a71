/** `MemoryFileSystem` and `MemoryFile` from src/debug.ts: a debuggee's
    memory seen as files. A URI names the session in its authority, the
    memory reference in the first path segment and an optional byte range
    in its query. The debug adapter is reached only through `readMemory`
    and `writeMemory` requests; here each request is recorded and its
    response, or the rejection `customRequest` raises when the adapter
    reports an error, comes from a `respond` oracle, and base64 is a pair of
    functions given by the caller. */
module DebugMemory {

  import opened Wrappers
  import opened Text
  import opened Uris
  import opened RangedFile
  import opened UriComponent

  const MemoryScheme := "modules-debug-memory"
  const SessionNotFound := "Debug session not found"
  const RangeRequired := "Range must be present to read a file"

  /** The part of the `initialize` response this model reads. */
  datatype Capabilities = Capabilities(supportsWriteMemoryRequest: Option<bool>)

  /** The sessions known to `Session.sessions`, with the capabilities each
      reported (None before the `initialize` response). */
  type Sessions = map<string, Option<Capabilities>>

  /** `MemoryFileSystem.makeUri(session, memoryReference, range, displayName)` */
  function MakeUri(session: string, memoryReference: string, range: Option<FileRange>, displayName: string): (u: Uri)
    ensures u.scheme == MemoryScheme && u.authority == session
    ensures Split(u.path, '/') == ["", Encode(memoryReference), Encode(displayName)]
  {
    EncodeHasNoSlash(memoryReference);
    EncodeHasNoSlash(displayName);
    PathSegments(Encode(memoryReference), Encode(displayName));
    Uri(MemoryScheme, session, "/" + Encode(memoryReference) + "/" + Encode(displayName),
        if range.Some? then RangeQuery(range.value) else "", "")
  }

  /** `?range=${fromOffset}:${toOffset}` */
  function RangeQuery(r: FileRange): string {
    "?range=" + IntToStr(r.fromOffset) + ":" + IntToStr(r.toOffset)
  }

  /** `"/" + a + "/" + b` splits at `/` into its three parts when `a` and
      `b` hold no `/`. */
  lemma PathSegments(a: string, b: string)
    requires '/' !in a && '/' !in b
    ensures Split("/" + a + "/" + b, '/') == ["", a, b]
  {
    var parts := ["", a, b];
    assert parts[1..] == [a, b] && [a, b][1..] == [b];
    assert Join([b], "/") == b;
    assert Join([a, b], "/") == a + "/" + b;
    assert Join(parts, "/") == "" + "/" + Join([a, b], "/");
    assert "/" + a + "/" + b == "" + "/" + (a + "/" + b);
    SplitJoin(parts, '/');
  }

  /** Whether `range=D:D` (two non-empty digit runs) starts at `i` of `q`,
      and if so its two numbers. */
  function RangeAt(q: string, i: nat): (r: Option<(nat, nat)>)
    requires i <= |q|
  {
    var s := q[i..];
    if !StartsWith(s, "range=") then None else RangeNumbers(s[6..])
  }

  /** `([0-9]+):([0-9]+)` at the start of `t`, and its two numbers. */
  function RangeNumbers(t: string): Option<(nat, nat)> {
    var a := DigitRun(t);
    if a == 0 || a >= |t| || t[a] != ':' then None
    else
      var u := t[a + 1..];
      var b := DigitRun(u);
      if b == 0 then None
      else Some((DigitsValue(t[..a]), DigitsValue(u[..b])))
  }

  /** `/range=([0-9]+):([0-9]+)/.exec(q)` from position `i` on: the first
      position where the pattern matches. Each digit group is greedy and is
      followed by `:` or by anything, so it is the whole digit run there. */
  function FindRange(q: string, i: nat): (r: Option<(nat, nat)>)
    requires i <= |q|
    decreases |q| - i
  {
    if RangeAt(q, i).Some? then RangeAt(q, i)
    else if i == |q| then None
    else FindRange(q, i + 1)
  }

  /** What `parseUri` returns. `readOnly` is the truthiness of the session's
      `supportsWriteMemoryRequest`. */
  datatype MemoryUri = MemoryUri(session: string, offset: Option<FileRange>, readOnly: bool, memoryReference: string)

  /** `!!capabilities?.supportsWriteMemoryRequest`, which `parseUri` takes
      as the read-only flag. */
  predicate ReadOnly(caps: Option<Capabilities>) {
    caps.Some? && caps.value.supportsWriteMemoryRequest == Some(true)
  }

  /** `decodeURIComponent(path.split('/')[1])`: a path without a second
      segment gives `undefined`, which decodes to the text "undefined". */
  function MemoryReference(path: string): Result<string> {
    var parts := Split(path, '/');
    Decode(if |parts| > 1 then parts[1] else "undefined")
  }

  /** `MemoryFileSystem.parseUri`: throws when the session is unknown, then
      reads the range and decodes the memory reference. */
  function ParseUri(u: Uri, sessions: Sessions): (r: Result<MemoryUri>)
    ensures u.authority !in sessions <==> r == Failure(SessionNotFound)
    ensures r.Success? ==> r.value.session == u.authority
    ensures r.Success? ==> r.value.readOnly == ReadOnly(sessions[u.authority])
  {
    if u.authority !in sessions then Failure(SessionNotFound)
    else
      var offset := match FindRange(u.query, 0)
        case None => None
        case Some((f, t)) => Some(FileRange(f, t));
      var caps := sessions[u.authority];
      match MemoryReference(u.path)
      case Failure(e) => Failure(e)
      case Success(reference) => Success(MemoryUri(u.authority, offset, ReadOnly(caps), reference))
  }

  // ---------------------------------------------------------------------
  // Round trip
  // ---------------------------------------------------------------------

  /** The query of a non-negative range holds the pattern at position 1. */
  lemma RangeAtQuery(r: FileRange)
    requires r.fromOffset >= 0 && r.toOffset >= 0
    ensures RangeAt(RangeQuery(r), 1) == Some((r.fromOffset, r.toOffset))
  {
    RangeAtDigits(NatToStr(r.fromOffset), NatToStr(r.toOffset));
    DigitsValueNatToStr(r.fromOffset);
    DigitsValueNatToStr(r.toOffset);
  }

  /** `?range=F:T` holds the pattern at position 1 for any two digit runs. */
  lemma RangeAtDigits(f: string, t: string)
    requires |f| > 0 && |t| > 0 && AllDigits(f) && AllDigits(t)
    ensures RangeAt("?range=" + f + ":" + t, 1) == Some((DigitsValue(f), DigitsValue(t)))
  {
    var x := f + (":" + t);
    AppendAssoc("?range=", f, ":");
    AppendAssoc("?range=" + f, ":", t);
    AppendAssoc("?range=", f, ":" + t);
    assert "?range=" + f + ":" + t == "?range=" + x;
    AfterQuestionMark(x);
    NumbersOfDigits(f, t);
  }

  lemma AfterQuestionMark(x: string)
    ensures StartsWith(("?range=" + x)[1..], "range=") && ("?range=" + x)[1..][6..] == x
  {
    assert ("?range=" + x)[1..] == "range=" + x;
  }

  lemma NumbersOfDigits(f: string, t: string)
    requires |f| > 0 && |t| > 0 && AllDigits(f) && AllDigits(t)
    ensures RangeNumbers(f + (":" + t)) == Some((DigitsValue(f), DigitsValue(t)))
  {
    var rest := ":" + t;
    var tail := f + rest;
    DigitRunOfDigits(f, rest);
    assert tail[|f|] == ':' && tail[..|f|] == f && tail[|f| + 1..] == t;
    WholeDigitRun(t);
  }

  lemma WholeDigitRun(t: string)
    requires AllDigits(t)
    ensures DigitRun(t) == |t| && t[..DigitRun(t)] == t
  {
    DigitRunOfDigits(t, "");
    assert t + "" == t;
  }

  /** Nothing matches at position 0 of a query that starts with `?`. */
  lemma NoRangeAtQuestionMark(q: string)
    requires |q| > 0 && q[0] == '?'
    ensures RangeAt(q, 0) == None
  {
    assert q[0..][0] == '?';
  }

  /** Parsing a memory URI made from a known session, a reference and a
      non-negative range gives back the session, the same reference and the
      same two offsets; without a range it gives no offsets. */
  lemma ParseMakeUri(session: string, memoryReference: string, range: Option<FileRange>,
                     displayName: string, sessions: Sessions)
    requires session in sessions
    requires range.Some? ==> range.value.fromOffset >= 0 && range.value.toOffset >= 0
    ensures ParseUri(MakeUri(session, memoryReference, range, displayName), sessions) ==
      Success(MemoryUri(session, range, ReadOnly(sessions[session]), memoryReference))
  {
    var u := MakeUri(session, memoryReference, range, displayName);
    DecodeEncode(memoryReference);
    assert MemoryReference(u.path) == Success(memoryReference);
    if range.Some? {
      NoRangeAtQuestionMark(u.query);
      RangeAtQuery(range.value);
      assert FindRange(u.query, 0) == FindRange(u.query, 1);
    } else {
      assert RangeAt("", 0) == None;
    }
  }

  /** A URI whose authority names no session throws, whatever else it holds. */
  lemma ParseUnknownSession(u: Uri, sessions: Sessions)
    requires u.authority !in sessions
    ensures ParseUri(u, sessions) == Failure(SessionNotFound)
  {
  }

  // ---------------------------------------------------------------------
  // stat, readFile, writeFile
  // ---------------------------------------------------------------------

  /** The size `stat` reports without a range. */
  const DefaultSize := 0x10000

  /** `MemoryFileSystem.stat` */
  function Stat(u: Uri, sessions: Sessions): (r: Result<FileStat>)
    ensures ParseUri(u, sessions).Failure? <==> r.Failure?
    ensures r.Success? ==> r.value.fileType == File && r.value.mtime == 0 && r.value.ctime == 0
    ensures r.Success? ==> r.value.size == Some(
      if ParseUri(u, sessions).value.offset.Some?
      then ParseUri(u, sessions).value.offset.value.toOffset - ParseUri(u, sessions).value.offset.value.fromOffset
      else DefaultSize)
    ensures r.Success? ==> (r.value.permissions == Some(Readonly) <==> ParseUri(u, sessions).value.readOnly)
  {
    match ParseUri(u, sessions)
    case Failure(e) => Failure(e)
    case Success(p) =>
      Success(FileStat(File, 0, 0,
                       Some(if p.offset.Some? then p.offset.value.toOffset - p.offset.value.fromOffset else DefaultSize),
                       if p.readOnly then Some(Readonly) else None))
  }

  /** The stat of a memory URI made with a range is that range's length. */
  lemma StatOfMadeUri(session: string, memoryReference: string, r: FileRange, displayName: string, sessions: Sessions)
    requires session in sessions
    requires r.fromOffset >= 0 && r.toOffset >= 0
    ensures var s := Stat(MakeUri(session, memoryReference, Some(r), displayName), sessions);
      s.Success? && s.value.size == Some(r.toOffset - r.fromOffset)
  {
    ParseMakeUri(session, memoryReference, Some(r), displayName, sessions);
    StatParsed(MakeUri(session, memoryReference, Some(r), displayName), sessions,
               session, memoryReference, r, ReadOnly(sessions[session]));
  }

  lemma StatParsed(u: Uri, sessions: Sessions, session: string, memoryReference: string, r: FileRange, readOnly: bool)
    requires ParseUri(u, sessions) == Success(MemoryUri(session, Some(r), readOnly, memoryReference))
    ensures var s := Stat(u, sessions);
      s.Success? && s.value.size == Some(r.toOffset - r.fromOffset)
  {
  }

  /** A debug-adapter request as this model records it. */
  datatype Request =
    | ReadMemory(session: string, memoryReference: string, offset: int, count: int)
    | WriteMemory(session: string, memoryReference: string, offset: int, data: string)

  /** The response body: `data` of `readMemory`, `bytesWritten` of
      `writeMemory`. None is an absent body. */
  datatype Response = Response(data: Option<string>, bytesWritten: Option<int>)

  /** `MemoryFile.read`'s result: the decoded data, or nothing when the body
      or its data is absent or empty. */
  function ReadResult(resp: Option<Response>, fromBase64: string -> seq<byte>): (r: seq<byte>)
    ensures resp.None? || resp.value.data.None? || resp.value.data.value == "" ==> r == []
    ensures resp.Some? && resp.value.data.Some? && resp.value.data.value != "" ==> r == fromBase64(resp.value.data.value)
  {
    if resp.Some? && resp.value.data.Some? && resp.value.data.value != "" then fromBase64(resp.value.data.value) else []
  }

  /** `MemoryFile.write`'s result: `bytesWritten ?? 0`. */
  function WriteResult(resp: Option<Response>): (n: int)
    ensures resp.Some? && resp.value.bytesWritten.Some? ==> n == resp.value.bytesWritten.value
    ensures resp.None? || resp.value.bytesWritten.None? ==> n == 0
  {
    if resp.Some? && resp.value.bytesWritten.Some? then resp.value.bytesWritten.value else 0
  }

  /** `MemoryFileSystem.readFile`: the requests it sends, and its result. */
  function ReadFile(u: Uri, sessions: Sessions, respond: Request -> Result<Option<Response>>,
                    fromBase64: string -> seq<byte>): (r: (seq<Request>, Result<seq<byte>>))
    ensures ParseUri(u, sessions).Failure? ==> r == ([], Failure(ParseUri(u, sessions).error))
    ensures ParseUri(u, sessions).Success? && ParseUri(u, sessions).value.offset.None? ==>
      r == ([], Failure(RangeRequired))
    ensures ParseUri(u, sessions).Success? && ParseUri(u, sessions).value.offset.Some? ==>
      var p := ParseUri(u, sessions).value;
      var req := ReadMemory(p.session, p.memoryReference, p.offset.value.fromOffset,
                            p.offset.value.toOffset - p.offset.value.fromOffset);
      && r.0 == [req]
      && (respond(req).Failure? ==> r.1 == Failure(respond(req).error))
      && (respond(req).Success? ==> r.1 == Success(ReadResult(respond(req).value, fromBase64)))
  {
    match ParseUri(u, sessions)
    case Failure(e) => ([], Failure(e))
    case Success(p) =>
      if p.offset.None? then ([], Failure(RangeRequired))
      else
        var req := ReadMemory(p.session, p.memoryReference, p.offset.value.fromOffset,
                              p.offset.value.toOffset - p.offset.value.fromOffset);
        match respond(req)
        case Failure(e) => ([req], Failure(e))
        case Success(resp) => ([req], Success(ReadResult(resp, fromBase64)))
  }

  /** `MemoryFileSystem.writeFile`: the requests it sends, and whether it
      threw. The count of bytes written is dropped, as the source drops it,
      but a rejected request is passed on. */
  function WriteFile(u: Uri, content: seq<byte>, sessions: Sessions, respond: Request -> Result<Option<Response>>,
                     toBase64: seq<byte> -> string): (r: (seq<Request>, Result<()>))
    ensures ParseUri(u, sessions).Failure? ==> r == ([], Failure(ParseUri(u, sessions).error))
    ensures ParseUri(u, sessions).Success? && ParseUri(u, sessions).value.offset.None? ==>
      r == ([], Failure(RangeRequired))
    ensures ParseUri(u, sessions).Success? && ParseUri(u, sessions).value.offset.Some? ==>
      var p := ParseUri(u, sessions).value;
      var req := WriteMemory(p.session, p.memoryReference, p.offset.value.fromOffset, toBase64(content));
      && r.0 == [req]
      && (respond(req).Failure? ==> r.1 == Failure(respond(req).error))
      && (respond(req).Success? ==> r.1 == Success(()))
  {
    match ParseUri(u, sessions)
    case Failure(e) => ([], Failure(e))
    case Success(p) =>
      if p.offset.None? then ([], Failure(RangeRequired))
      else
        var req := WriteMemory(p.session, p.memoryReference, p.offset.value.fromOffset, toBase64(content));
        match respond(req)
        case Failure(e) => ([req], Failure(e))
        case Success(_) => ([req], Success(()))
  }

  /** Reading a memory URI made with a non-negative range sends exactly one
      request: at the range's start, for its length, to the right session
      and reference. */
  lemma ReadMadeUri(session: string, memoryReference: string, r: FileRange, displayName: string,
                    sessions: Sessions, respond: Request -> Result<Option<Response>>, fromBase64: string -> seq<byte>)
    requires session in sessions
    requires r.fromOffset >= 0 && r.toOffset >= 0
    ensures var req := ReadMemory(session, memoryReference, r.fromOffset, r.toOffset - r.fromOffset);
      ReadFile(MakeUri(session, memoryReference, Some(r), displayName), sessions, respond, fromBase64) ==
      ([req], match respond(req)
              case Failure(e) => Failure(e)
              case Success(resp) => Success(ReadResult(resp, fromBase64)))
  {
    ParseMakeUri(session, memoryReference, Some(r), displayName, sessions);
    ReadParsed(MakeUri(session, memoryReference, Some(r), displayName), sessions, respond, fromBase64,
               session, memoryReference, r, ReadOnly(sessions[session]));
  }

  lemma ReadParsed(u: Uri, sessions: Sessions, respond: Request -> Result<Option<Response>>, fromBase64: string -> seq<byte>,
                   session: string, memoryReference: string, r: FileRange, readOnly: bool)
    requires ParseUri(u, sessions) == Success(MemoryUri(session, Some(r), readOnly, memoryReference))
    ensures var req := ReadMemory(session, memoryReference, r.fromOffset, r.toOffset - r.fromOffset);
      ReadFile(u, sessions, respond, fromBase64) ==
      ([req], match respond(req)
              case Failure(e) => Failure(e)
              case Success(resp) => Success(ReadResult(resp, fromBase64)))
  {
  }

  /** A memory URI made without a range cannot be read or written. */
  lemma NoRangeNoAccess(session: string, memoryReference: string, displayName: string, sessions: Sessions,
                        respond: Request -> Result<Option<Response>>, fromBase64: string -> seq<byte>,
                        content: seq<byte>, toBase64: seq<byte> -> string)
    requires session in sessions
    ensures var u := MakeUri(session, memoryReference, None, displayName);
      && ReadFile(u, sessions, respond, fromBase64) == ([], Failure(RangeRequired))
      && WriteFile(u, content, sessions, respond, toBase64) == ([], Failure(RangeRequired))
  {
    ParseMakeUri(session, memoryReference, None, displayName, sessions);
  }

  // ---------------------------------------------------------------------
  // watch
  // ---------------------------------------------------------------------

  /** The session states, numbered as in the source. */
  datatype State = Inactive | Initializing | Stopped | Running

  /** A `memory` event: `count` bytes at `offset` of `memoryReference` may
      have changed. */
  datatype MemoryEvent = MemoryEvent(memoryReference: string, offset: int, count: int)

  datatype ChangeType = Changed | Deleted

  /** What `watch` sets up: nothing for a recursive watch, otherwise a
      listener on one reference and range. */
  datatype MemoryWatch = NoOp | Listener(memoryReference: string, offset: Option<FileRange>)

  /** `MemoryFileSystem.watch(uri, {recursive})`: a recursive watch returns
      at once, before the URI is parsed. */
  function Watch(u: Uri, recursive: bool, sessions: Sessions): (r: Result<MemoryWatch>)
    ensures recursive ==> r == Success(NoOp)
    ensures !recursive ==> (r.Failure? <==> ParseUri(u, sessions).Failure?)
    ensures !recursive && r.Success? ==>
      r.value == Listener(ParseUri(u, sessions).value.memoryReference, ParseUri(u, sessions).value.offset)
  {
    if recursive then Success(NoOp)
    else match ParseUri(u, sessions)
      case Failure(e) => Failure(e)
      case Success(p) => Success(Listener(p.memoryReference, p.offset))
  }

  /** The change a state event causes: the file is reported deleted when
      the session runs or ends. */
  function OnStateChange(w: MemoryWatch, s: State): (r: seq<ChangeType>)
    ensures r == [Deleted] <==> w.Listener? && (s == Running || s == Inactive)
    ensures r == [] <==> !(w.Listener? && (s == Running || s == Inactive))
  {
    if w.Listener? && (s == Running || s == Inactive) then [Deleted] else []
  }

  /** The invalidation test of `watch`. */
  predicate Touches(e: MemoryEvent, r: FileRange) {
    e.offset < r.toOffset && e.offset + e.count >= r.fromOffset
  }

  /** The change a memory event causes: reported when it names the watched
      reference and there is no range or it touches the range. */
  function OnInvalidate(w: MemoryWatch, e: MemoryEvent): (r: seq<ChangeType>)
    ensures r == [Changed] <==>
      w.Listener? && e.memoryReference == w.memoryReference && (w.offset.None? || Touches(e, w.offset.value))
    ensures r != [Changed] ==> r == []
  {
    if w.Listener? && e.memoryReference == w.memoryReference && (w.offset.None? || Touches(e, w.offset.value))
    then [Changed] else []
  }

  /** The test holds exactly when the closed span from `offset` to
      `offset + count` shares a position with the half-open range: an event
      that shares a byte with the range counts. */
  lemma TouchesWhenSharing(e: MemoryEvent, r: FileRange, x: int)
    requires e.offset <= x <= e.offset + e.count && r.fromOffset <= x < r.toOffset
    ensures Touches(e, r)
  {
  }

  /** Conversely, when the test holds over a non-empty range, the span and
      the range share a position. */
  lemma SharingWhenTouches(e: MemoryEvent, r: FileRange)
    requires Touches(e, r) && e.count >= 0 && r.fromOffset < r.toOffset
    ensures var x := if e.offset < r.fromOffset then r.fromOffset else e.offset;
      e.offset <= x <= e.offset + e.count && r.fromOffset <= x < r.toOffset
  {
  }

  /** A region that ends exactly where the range starts counts, though it
      shares no byte with it; one that starts exactly where the range ends
      does not. */
  lemma TouchingBoundaries(from: int, to: int, count: nat)
    requires from < to
    ensures Touches(MemoryEvent("", from - count, count), FileRange(from, to))
    ensures !Touches(MemoryEvent("", to, count), FileRange(from, to))
  {
  }
}
