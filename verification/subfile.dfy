/** `SubfileFileSystem` and `ReadOnlyFilesystem` from src/fs.ts: URIs that
    name a byte range of, or a read-only view of, another URI. */
module Subfile {

  import opened Wrappers
  import opened Text
  import opened Uris
  import opened RangedFile

  const SubfileScheme := "subfile"
  const ReadOnlyScheme := "readonly"

  /** The fragment a subfile URI carries: `${fromOffset};${toOffset}`. */
  function RangeFragment(r: FileRange): string {
    IntToStr(r.fromOffset) + ";" + IntToStr(r.toOffset)
  }

  /** `SubfileFileSystem.makeUri` (and `withOffset` given a URI). */
  function MakeUri(u: Uri, r: FileRange): (s: Uri)
    ensures IsUri(s)
    ensures s.scheme == SubfileScheme && s.authority == u.scheme
    ensures s.path == u.path && s.query == u.query
    ensures Split(s.fragment, ';') == [IntToStr(r.fromOffset), IntToStr(r.toOffset)]
  {
    SplitRangeFragment(r);
    u.(scheme := SubfileScheme, authority := u.scheme, fragment := RangeFragment(r))
  }

  lemma SplitRangeFragment(r: FileRange)
    ensures Split(RangeFragment(r), ';') == [IntToStr(r.fromOffset), IntToStr(r.toOffset)]
  {
    var parts := [IntToStr(r.fromOffset), IntToStr(r.toOffset)];
    assert Join(parts, ";") == RangeFragment(r);
    SplitJoin(parts, ';');
  }

  /** What `parseUri` returns: the inner URI and the two offsets, each of
      which is NaN (`None`) when its part of the fragment is not a number
      or is missing. */
  datatype Parsed = Parsed(uri: Uri, fromOffset: Option<int>, toOffset: Option<int>)

  /** `SubfileFileSystem.parseUri`: `+parts[0]` and `+parts[1]` of the
      fragment split at `;` (a missing second part is `undefined`, so NaN). */
  function ParseUri(u: Uri): (p: Parsed)
    ensures p.uri == GetEncapsulatedUri(u)
    ensures p.fromOffset == JsNumber(Split(u.fragment, ';')[0])
    ensures |Split(u.fragment, ';')| == 1 ==> p.toOffset == None
    ensures |Split(u.fragment, ';')| > 1 ==> p.toOffset == JsNumber(Split(u.fragment, ';')[1])
  {
    var parts := Split(u.fragment, ';');
    Parsed(GetEncapsulatedUri(u), JsNumber(parts[0]), if |parts| > 1 then JsNumber(parts[1]) else None)
  }

  /** Parsing a subfile URI made from `u` and `r` gives back `u`'s scheme
      (`file` when it has none), an empty authority, and exactly `r`'s two
      offsets; for a `vscode.Uri` value that is `u` itself with its
      authority cleared. The fragment of the recovered URI is the range
      text: `parseUri` does not clear it. */
  lemma {:induction false} ParseMakeUri(u: Uri, r: FileRange)
    ensures ParseUri(MakeUri(u, r)) ==
      Parsed(NewUri(u.scheme, "", u.path, u.query, RangeFragment(r)), Some(r.fromOffset), Some(r.toOffset))
    ensures IsUri(u) ==> ParseUri(MakeUri(u, r)).uri == u.(authority := "", fragment := RangeFragment(r))
  {
    SplitRangeFragment(r);
    JsNumberIntToStr(r.fromOffset);
    JsNumberIntToStr(r.toOffset);
  }

  /** `SubfileFileSystem.stat`: the inner URI's status with the size of the
      range, `toOffset - fromOffset` (NaN when an offset is NaN). */
  function SubfileStat(u: Uri, statOf: Uri -> Result<FileStat>): (r: Result<FileStat>)
    ensures statOf(ParseUri(u).uri).Failure? ==> r == statOf(ParseUri(u).uri)
    ensures r.Success? ==>
              statOf(ParseUri(u).uri).Success? &&
              r.value == statOf(ParseUri(u).uri).value.(size := r.value.size)
    ensures r.Success? && ParseUri(u).fromOffset.Some? && ParseUri(u).toOffset.Some? ==>
      r.value.size == Some(ParseUri(u).toOffset.value - ParseUri(u).fromOffset.value)
    ensures r.Success? && (ParseUri(u).fromOffset.None? || ParseUri(u).toOffset.None?) ==> r.value.size.None?
  {
    var p := ParseUri(u);
    match statOf(p.uri)
    case Failure(e) => Failure(e)
    case Success(st) =>
      Success(st.(size := if p.fromOffset.Some? && p.toOffset.Some? then Some(p.toOffset.value - p.fromOffset.value) else None))
  }

  /** The status of a subfile URI made from a range is that range's length. */
  lemma SubfileStatOfMadeUri(u: Uri, r: FileRange, statOf: Uri -> Result<FileStat>)
    requires statOf(NewUri(u.scheme, "", u.path, u.query, RangeFragment(r))).Success?
    ensures SubfileStat(MakeUri(u, r), statOf).Success?
    ensures SubfileStat(MakeUri(u, r), statOf).value.size == Some(r.toOffset - r.fromOffset)
  {
    ParseMakeUri(u, r);
  }

  /** `data.subarray(b, e)`: negative bounds count from the end, both are
      clamped to the data, and an end before the start gives nothing. */
  function JsSubarray(data: seq<byte>, b: int, e: int): (r: seq<byte>)
    ensures 0 <= b <= e <= |data| ==> r == data[b..e]
    ensures |r| <= |data|
  {
    var lo := if b < 0 then (if |data| + b < 0 then 0 else |data| + b) else Min(b, |data|);
    var hi := if e < 0 then (if |data| + e < 0 then 0 else |data| + e) else Min(e, |data|);
    if hi <= lo then [] else data[lo..hi]
  }

  /** A number used as a `subarray` bound: ToIntegerOrInfinity takes NaN
      to 0. */
  function IndexOf(n: Option<int>): (i: int)
    ensures n.Some? ==> i == n.value
    ensures n.None? ==> i == 0
  {
    if n.Some? then n.value else 0
  }

  /** `SubfileFileSystem.readFile`. `file` is what `openFile` gave for the
      inner URI (null for `undefined`); `whole` is what reading the inner
      URI in one piece gives, used only when it cannot be opened. An opened
      inner file is read as the host reads it, at `fromOffset` for the
      range's length: a NaN offset makes that length NaN, which
      `Buffer.alloc` refuses with a RangeError. The handle is disposed after
      the read; the code's `finally` closes it once the read is issued,
      without waiting for it. Without a file, `subarray` takes a NaN bound
      as 0. */
  method ReadFile(u: Uri, file: ByteFile?, whole: seq<byte>) returns (r: Result<seq<byte>>)
    modifies if file == null then {} else {file}
    ensures var p := ParseUri(u);
      if file != null then
        file.disposed &&
        r == (if p.fromOffset.None? || p.toOffset.None? then Failure("RangeError")
              else HostRead(file.content, old(file.cursor), p.fromOffset.value, p.toOffset.value - p.fromOffset.value).0)
      else r == Success(JsSubarray(whole, IndexOf(p.fromOffset), IndexOf(p.toOffset)))
    ensures file != null ==> file.content == old(file.content)
  {
    var p := ParseUri(u);
    if file != null {
      if p.fromOffset.None? || p.toOffset.None? {
        r := Failure("RangeError");
      } else {
        var from, to := p.fromOffset.value, p.toOffset.value;
        r := file.Read(from, to - from);
      }
      file.Dispose();
    } else {
      r := Success(JsSubarray(whole, IndexOf(p.fromOffset), IndexOf(p.toOffset)));
    }
  }

  /** Without an inner file, a fragment whose offsets are not numbers still
      reads: `subarray` takes each NaN bound as 0. A fragment "x;4" gives the
      first four bytes, and a fragment with one part gives nothing. */
  lemma {:induction false} NaNBoundIsZero(whole: seq<byte>, to: nat)
    requires to <= |whole|
    ensures JsSubarray(whole, IndexOf(None), IndexOf(Some(to))) == whole[..to]
    ensures forall from: int :: JsSubarray(whole, IndexOf(Some(from)), IndexOf(None)) == []
  {
    forall from: int ensures JsSubarray(whole, IndexOf(Some(from)), IndexOf(None)) == [] {
      var lo := if from < 0 then (if |whole| + from < 0 then 0 else |whole| + from) else Min(from, |whole|);
      assert lo >= 0;
    }
  }

  /** `ReadOnlyFilesystem.stat`: the inner URI's status, marked read-only. */
  function ReadOnlyStat(u: Uri, statOf: Uri -> Result<FileStat>): (r: Result<FileStat>)
    ensures statOf(GetEncapsulatedUri(u)).Failure? ==> r == statOf(GetEncapsulatedUri(u))
    ensures r.Success? ==>
              statOf(GetEncapsulatedUri(u)).Success? &&
              r.value == statOf(GetEncapsulatedUri(u)).value.(permissions := Some(Readonly))
  {
    match statOf(GetEncapsulatedUri(u))
    case Failure(e) => Failure(e)
    case Success(st) => Success(st.(permissions := Some(Readonly)))
  }
}
