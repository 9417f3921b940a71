/** `openFile(uri)` from src/fs.ts and the `openFile` of each registered
    file system: a `file:` URI opens directly, any other scheme goes to the
    file system registered for it, and the `readonly` and `subfile` file
    systems open the URI they wrap. The result is a description of the
    file handle that would be built. */
module Dispatch {

  import opened Wrappers
  import opened Uris
  import opened RangedFile
  import Subfile
  import DebugMemory

  /** The file systems that register themselves under a scheme. */
  datatype FsKind = ReadOnlyFs | SubfileFs | MemoryFs

  /** The scheme each file system registers. */
  function KindOf(scheme: string): (k: Option<FsKind>)
    ensures k == Some(ReadOnlyFs) <==> scheme == Subfile.ReadOnlyScheme
    ensures k == Some(SubfileFs) <==> scheme == Subfile.SubfileScheme
    ensures k == Some(MemoryFs) <==> scheme == DebugMemory.MemoryScheme
  {
    if scheme == Subfile.ReadOnlyScheme then Some(ReadOnlyFs)
    else if scheme == Subfile.SubfileScheme then Some(SubfileFs)
    else if scheme == DebugMemory.MemoryScheme then Some(MemoryFs)
    else None
  }

  /** A file handle: a `NormalFile` opened on a path, a `MemoryFile` on a
      session's memory reference, or the `withOffset` wrapper around what
      opening the inner URI gave (possibly `undefined`). */
  datatype Handle =
    | Normal(path: string)
    | Memory(session: string, memoryReference: string)
    | Ranged(inner: Option<Handle>, fromOffset: Option<int>, toOffset: Option<int>)

  /** How far a URI is from the end of the chain of wrapped URIs: a `file:`
      URI opens directly, and the URI another one wraps has an empty
      authority, with scheme `file` when the wrapper had no authority. */
  function Depth(u: Uri): nat {
    if u.scheme == "file" then 0 else if u.authority != "" then 2 else 1
  }

  /** `openFile(uri)`, with `registered` the file systems constructed so
      far and `sessions` the debug sessions. A failure is a thrown error;
      `None` is `undefined`, for a scheme nothing registered. */
  function OpenFile(u: Uri, registered: set<FsKind>, sessions: DebugMemory.Sessions): (r: Result<Option<Handle>>)
    ensures u.scheme == "file" ==> r == Success(Some(Normal(u.path)))
    ensures u.scheme != "file" && (KindOf(u.scheme).None? || KindOf(u.scheme).value !in registered) ==>
      r == Success(None)
    decreases Depth(u)
  {
    if u.scheme == "file" then Success(Some(Normal(u.path)))
    else match KindOf(u.scheme)
      case None => Success(None)
      case Some(k) =>
        if k !in registered then Success(None)
        else match k
          case ReadOnlyFs => OpenFile(GetEncapsulatedUri(u), registered, sessions)
          case SubfileFs =>
            var p := Subfile.ParseUri(u);
            var inner :- OpenFile(p.uri, registered, sessions);
            Success(Some(Ranged(inner, p.fromOffset, p.toOffset)))
          case MemoryFs =>
            var m :- DebugMemory.ParseUri(u, sessions);
            Success(Some(Memory(m.session, m.memoryReference)))
  }

  /** The `readonly` wrapper of a URI without an authority. */
  function ReadOnlyUri(u: Uri): Uri {
    u.(scheme := Subfile.ReadOnlyScheme, authority := u.scheme)
  }

  /** Opening a `readonly` URI opens the URI it wraps. */
  lemma ReadOnlyIsTransparent(u: Uri, registered: set<FsKind>, sessions: DebugMemory.Sessions)
    requires IsUri(u) && u.authority == ""
    requires ReadOnlyFs in registered
    ensures OpenFile(ReadOnlyUri(u), registered, sessions) == OpenFile(u, registered, sessions)
  {
    EncapsulateWrapped(u, Subfile.ReadOnlyScheme, u.fragment);
    assert u.(fragment := u.fragment) == u;
  }

  /** A wrapper URI without an authority wraps a `file:` URI on its path:
      `subfile:/a#0;4` opens a `NormalFile` on "/a" inside the range. */
  lemma WrapperWithoutAuthorityOpensFile(u: Uri, registered: set<FsKind>, sessions: DebugMemory.Sessions)
    requires u.authority == "" && u.scheme == Subfile.SubfileScheme && SubfileFs in registered
    ensures var p := Subfile.ParseUri(u);
      OpenFile(u, registered, sessions) ==
        Success(Some(Ranged(Some(Normal(ReferenceResolution("file", u.path))), p.fromOffset, p.toOffset)))
  {
    OpenSubfile(u, registered, sessions);
  }

  /** Opening a subfile URI made over a `file:` URI gives the range
      wrapper over that file, with the range's two offsets. */
  lemma OpenSubfileOfFile(u: Uri, r: FileRange, registered: set<FsKind>, sessions: DebugMemory.Sessions)
    requires IsUri(u) && u.scheme == "file" && SubfileFs in registered
    ensures OpenFile(Subfile.MakeUri(u, r), registered, sessions) ==
      Success(Some(Ranged(Some(Normal(u.path)), Some(r.fromOffset), Some(r.toOffset))))
  {
    Subfile.ParseMakeUri(u, r);
    OpenSubfile(Subfile.MakeUri(u, r), registered, sessions);
  }

  /** A subfile of a subfile loses the inner range and applies the outer
      one twice: making the outer URI overwrites the fragment and moves
      only `subfile` into the authority, so the middle URI carries the
      outer range again, and with no authority of its own it wraps the
      `file:` URI on the same path. */
  lemma NestedSubfileRepeatsOuterRange(u: Uri, r1: FileRange, r2: FileRange, registered: set<FsKind>,
                                       sessions: DebugMemory.Sessions)
    requires IsUri(u) && u.scheme == "file" && SubfileFs in registered
    ensures OpenFile(Subfile.MakeUri(Subfile.MakeUri(u, r1), r2), registered, sessions) ==
      Success(Some(Ranged(Some(Ranged(Some(Normal(u.path)), Some(r2.fromOffset), Some(r2.toOffset))),
                          Some(r2.fromOffset), Some(r2.toOffset))))
  {
    var m := Subfile.MakeUri(u, r1);
    Subfile.ParseMakeUri(m, r2);
    var middle := m.(authority := "", fragment := Subfile.RangeFragment(r2));
    assert middle == Subfile.MakeUri(u.(scheme := ""), r2);
    Subfile.ParseMakeUri(u.(scheme := ""), r2);
    assert Subfile.ParseUri(middle).uri == u.(authority := "", fragment := Subfile.RangeFragment(r2));
    OpenSubfile(middle, registered, sessions);
    assert OpenFile(middle, registered, sessions) ==
      Success(Some(Ranged(Some(Normal(u.path)), Some(r2.fromOffset), Some(r2.toOffset))));
    OpenSubfile(Subfile.MakeUri(m, r2), registered, sessions);
  }

  /** One step of opening a subfile URI. */
  lemma OpenSubfile(u: Uri, registered: set<FsKind>, sessions: DebugMemory.Sessions)
    requires u.scheme == Subfile.SubfileScheme && SubfileFs in registered
    ensures var p := Subfile.ParseUri(u);
      OpenFile(u, registered, sessions) ==
        match OpenFile(p.uri, registered, sessions)
        case Failure(e) => Failure(e)
        case Success(inner) => Success(Some(Ranged(inner, p.fromOffset, p.toOffset)))
  {
  }

  /** A memory URI opens as a `MemoryFile` on its session and reference,
      and throws for an unknown session. */
  lemma OpenMemoryUri(session: string, memoryReference: string, range: Option<FileRange>, displayName: string,
                      registered: set<FsKind>, sessions: DebugMemory.Sessions)
    requires MemoryFs in registered
    requires range.Some? ==> range.value.fromOffset >= 0 && range.value.toOffset >= 0
    ensures var r := OpenFile(DebugMemory.MakeUri(session, memoryReference, range, displayName), registered, sessions);
      && (session in sessions ==> r == Success(Some(Memory(session, memoryReference))))
      && (session !in sessions ==> r == Failure(DebugMemory.SessionNotFound))
  {
    if session in sessions {
      DebugMemory.ParseMakeUri(session, memoryReference, range, displayName, sessions);
    }
  }
}
