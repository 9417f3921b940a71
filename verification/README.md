# Virtual file surfaces, change notification and webview helpers, in Dafny

This project models the core of a VS Code extension that exposes virtual
files behind one file interface. It also models the change-notification
engine built on native directory watchers, and the small helpers the
extension's webviews and icon themes rely on. The model covers:

- **Ranged files** (`RangedFile`): `withOffset` shows the bytes
  `[fromOffset, toOffset)` of an inner file as a file of its own.
- **Subfile and read-only URIs** (`Subfile`, `Uris`): `subfile:` URIs carry
  the inner scheme in their authority and the range in their fragment.
  `readonly:` URIs wrap another URI and mark its status read-only.
- **Opening a URI** (`Dispatch`): `openFile` follows the chain of wrapped
  URIs to a handle description.
- **Debug memory files** (`DebugMemory`, `UriComponent`): a debuggee's
  memory appears as files. The URI names the session, the memory reference
  (URI-component encoded) and an optional `?range=F:T`. Reads and writes
  become `readMemory` and `writeMemory` requests, and `watch` turns debug
  events into file changes.
- **The session tracker** (`DebugSession`): one object per debug session
  follows the adapter's messages and keeps the run state, the stopped
  thread and the capabilities. A static table holds the objects by id.
- **Globs** (`Glob`): a shell glob is translated into regular-expression
  source one character at a time. The `Glob` constructor combines the
  `;`-separated alternatives.
- **The watcher block** (`WatchSpec`, `WatchEngine`, `WatchLemmas`):
  - it keeps the tables of file, directory-glob and recursive
    subscriptions, plus the native watchers they share;
  - it uses an mtime table to spot renames, and the `wait_create` chain
    orders creations and deletions.
  - `WatchSpec` states each operation as a transition over the whole
    registry. `WatchEngine` is a class whose methods update the tables in
    place, each proved equal to its transition. `WatchLemmas` proves the
    registry invariants and the behaviour.
- **The JSX runtime** (`Jsx`): the element factory, HTML rendering with
  escaping, and `id_selector`.
- **The icon theme** (`IconTheme`): font-glyph decoding in the
  constructor, file and folder icon lookup with their precedence, and
  `get_def`.
- **Webview helpers** (`Webview`): the element `Pool` and
  `generateSelector`. src/webview/shared.ts and assets/shared.js hold the
  same code, so the rows below cite the TypeScript copy. The same lines sit
  at assets/shared.js:52-72 and 321-335.

I/O, native watchers, the debug adapter and the DOM are not run. Each is a
parameter, an oracle function or a log of what would be sent or fired.

### Behaviour worth knowing

The model follows the code, including these points:

- A ranged write that starts past the window, as the code is written,
  reaches bytes beyond `toOffset`. See Findings. `RangedFile.OffsetFile.Write`
  issues the corrected cut, which stays inside the window.
- An empty glob list builds `()$`, which matches every string
  (`Glob.NewGlobEmptyList`).
- Recursive watches can overlap. A root registered above an existing one
  gets its own watcher, so both watch the deeper directory
  (`WatchLemmas.OverlappingRoots`).
- `removeOnChange` looks recursive subscriptions up under the uncut
  directory, but `onChange` filed them under the cut key. Removing one
  changes nothing (`WatchLemmas.RemoveRecursiveIsNoOp`).
- The memory file system's `readOnly` flag is the session's
  `supportsWriteMemoryRequest`, as written. A session that can write
  memory gets read-only files.
- The memory file system's `writeFile` throws "Range must be present to
  read a file", with "read".
- A memory file's `stat` without a range reports size `0x10000`.
- `NormalFile.open` opens its descriptor with flag 'r', so every write
  through a `NormalFile` is refused by the host with EBADF.
- A subfile read without an inner file handle takes a NaN offset as 0
  (`Subfile.NaNBoundIsZero`). With a handle, a NaN offset makes the read
  length NaN, and the read throws a RangeError.
- A host read at position -1 reads at the descriptor's own position, which
  a freshly opened `NormalFile` has at 0. So a window that starts at -1,
  such as the subfile fragment "-1;4", reads five bytes from the start of
  the file (`RangedFile.FreshCursorReadsFromStart`). A read of no bytes
  succeeds at any position, and a position below -1 is a RangeError.
- A host write does not check its position: through a `NormalFile` it is
  refused with EBADF whatever the position, and on a writable descriptor a
  negative position writes at the descriptor's own position.
- The subfile `readFile` returns `file.read(...)` from inside `try`
  without awaiting it (src/fs.ts:213-218). The `finally` closes the
  descriptor while the read is still pending, so the read races the close
  and can fail with EBADF. The memory file system awaits its read
  (src/debug.ts:272). `Subfile.ReadFile` completes the read before it
  disposes the handle.

Other behaviour the model shows, as the code has it:

- `getEncapsulatedUri` builds its URI with `Uri.with`, which gives an
  empty scheme the scheme `file`. So a wrapper URI without an authority,
  such as `subfile:/a#0;4`, wraps the file "/a"
  (`Dispatch.WrapperWithoutAuthorityOpensFile`).
- A subfile of a subfile loses the inner range and applies the outer one
  twice to the same file (`Dispatch.NestedSubfileRepeatsOuterRange`).
- A memory event that ends exactly where the watched range starts counts as
  an invalidation (`DebugMemory.TouchingBoundaries`).
- The recursive-root test is a string prefix, not a path prefix
  (`WatchLemmas.PrefixIsNotPath`).
- A file reported as created again with its own recorded mtime loses its
  callbacks (`WatchLemmas.RenameToSelfDropsCallbacks`).
- When `getFolderIconForUri` is given a `root`, every folder whose path
  starts with that root's path, as a string, gets the root icon of the
  empty name (`IconTheme.UnderRootUsesEmptyName`).

## Model

| member | source | states |
|---|---|---|
| RangedFile.ReadAt | src/fs.ts:135-145 | a host read returns exactly `length` bytes, each the content byte at `pos + k` where there is one |
| RangedFile.Overwrite | src/fs.ts:146-155 | after a host write the data sits at `pos`, the file grows to cover it when there is data, and every other byte is the old one or zero fill |
| RangedFile.BytesFound | src/fs.ts:135-145 | a read finds at most `length` bytes, all inside the content, and fewer only when it reaches the end |
| RangedFile.HostRead | src/fs.ts:135-145 | a host read fails only with a RangeError and then leaves the descriptor's position alone; a success has exactly `length` bytes; only a read at -1 moves the position, never past the end of the content |
| RangedFile.HostWrite | src/fs.ts:146-155 | a host write fails exactly when the descriptor is not writable, with EBADF and nothing changed; a success reports the data's length; a write at a position that is not negative leaves the descriptor's position alone |
| RangedFile.HostReadOutcome | src/fs.ts:135-145 | a host read fails exactly for a negative length, or a positive length at a position below -1; otherwise it reads `length` bytes at `pos`, or at the descriptor's position for -1 |
| RangedFile.FreshCursorReadsFromStart | src/fs.ts:122-145 | on a descriptor just opened, a read at -1 gives what a read at 0 gives |
| RangedFile.SequentialCursorReads | src/fs.ts:135-145 | two reads at the descriptor's position inside the content read what one read of both lengths reads, and move the position past both |
| RangedFile.ByteFile.Read | src/fs.ts:135-145 | the result and the new descriptor position are those of `HostRead`, and the content is unchanged |
| RangedFile.ByteFile.Write | src/fs.ts:146-155 | the result, the new content and the new descriptor position are those of `HostWrite` |
| RangedFile.ByteFile.OpenNormal | src/fs.ts:122-131 | `NormalFile.open` gives a fresh handle on the file's bytes, at position 0, that is not writable, because the descriptor is opened with flag 'r' |
| RangedFile.ReadRequest | src/fs.ts:97-101 | the inner read starts at `pos + fromOffset`, asks for at most `length` bytes, never runs past `toOffset`, and stops short only at `toOffset` |
| RangedFile.OffsetFile.Read | src/fs.ts:97-101 | a ranged read is the host read, with its effect on the descriptor's position, of the request `ReadRequest` computes, so a window starting at -1 reads at the descriptor's position |
| RangedFile.OffsetFile.Write | src/fs.ts:102-106 | a ranged write is the host write of the corrected `WriteRequest`, with its effect on the inner content and position: refused with EBADF by a handle that is not writable, otherwise the cut data written at the inner position |
| RangedFile.WriteRequestAsWritten | src/fs.ts:102-106 | the inner write as written starts at `pos + fromOffset`, and inside the window it sends the data cut at `toOffset` |
| RangedFile.WriteAsWrittenOvershoots | src/fs.ts:102-106 | with window [0, 10), local position 12 and five bytes, the write as written sends three bytes at 12, past `toOffset` |
| RangedFile.WriteRequest | src/fs.ts:102-106 | the intended inner write sends a prefix of the data that ends by `toOffset`, all of it when it fits, and nothing past the window |
| RangedFile.WriteStaysInWindow | src/fs.ts:102-106 | every byte the intended write sends lands inside [fromOffset, toOffset) |
| RangedFile.WriteRequestAgreesInWindow | src/fs.ts:102-106 | the written and the intended writes agree whenever the local position lies in the window |
| RangedFile.ReadWholeWindow | src/fs.ts:94-101 | reading the whole apparent length reads the inner file at `fromOffset` for the window's length |
| RangedFile.WriteKeepsBytesPastWindow | src/fs.ts:102-106 | an intended ranged write leaves every inner byte at or after `toOffset` unchanged |
| RangedFile.WindowRoundTrip | src/fs.ts:94-106 | on a writable handle, data that fits, written at local offset 0, reads back from local offset 0 and sits in the inner file at `fromOffset` |
| RangedFile.ReadBackWritten | src/fs.ts:135-155 | bytes written at a position are read back from that position |
| Uris.SchemeFix | src/fs.ts:158-164 | the scheme a `Uri` built by `with` gets is never empty: an empty one becomes `file`, any other is kept |
| Uris.ReferenceResolution | src/fs.ts:158-164 | for `file`, `http` and `https` the path is made to start with `/`, an absolute path is kept, and other schemes keep their path |
| Uris.NewUri | src/fs.ts:158-164 | the URI `with` builds is a well-formed URI with the fixed scheme, the given authority, query and fragment, and the path resolved for its scheme |
| Uris.GetEncapsulatedUri | src/fs.ts:158-164 | the authority becomes the scheme, `file` when there is none, the authority is emptied, query and fragment are kept and the path is resolved |
| Uris.EncapsulateWrapped | src/fs.ts:158-164 | a URI moved into a wrapper's authority, with an empty authority of its own, is recovered exactly, up to the fragment |
| Subfile.MakeUri | src/fs.ts:186-192 | the subfile URI has scheme `subfile`, the inner scheme as authority, the same path and query, and a fragment that splits at `;` into the two offsets' decimal text |
| Subfile.ParseUri | src/fs.ts:193-199 | the inner URI is the encapsulated one, the offsets are `Number` of the first two `;` pieces, and a missing second piece is NaN |
| Subfile.ParseMakeUri | src/fs.ts:186-199 | parsing a made subfile URI gives back the inner scheme (`file` when it had none), an empty authority and exactly the two offsets; for a well-formed URI that is the URI itself with its authority cleared; the range text stays in the fragment |
| Text.JsNumberIntToStr | src/fs.ts:190-197 | `+String(n)` is `n` for every integer, so offsets survive the fragment |
| Subfile.SubfileStat | src/fs.ts:205-208 | the status is the inner one with the size replaced by `toOffset - fromOffset`, NaN when an offset is NaN, and an inner failure passes through |
| Subfile.SubfileStatOfMadeUri | src/fs.ts:205-208 | the status of a made subfile URI has the range's length as its size |
| Subfile.JsSubarray | src/fs.ts:220-221 | `subarray(b, e)` is the slice within bounds and never longer than the data |
| Subfile.ReadFile | src/fs.ts:210-223 | an opened inner file gives the host read at `fromOffset` for the range length, is disposed and left unchanged, and a NaN offset there is a RangeError; otherwise the whole inner content is cut with `subarray`, a NaN bound counting as 0 |
| Subfile.IndexOf | src/fs.ts:221 | a `subarray` bound is the offset itself, or 0 when the offset is NaN |
| Subfile.NaNBoundIsZero | src/fs.ts:210-221 | without an inner file, a NaN start reads from 0 and a NaN end reads nothing |
| Subfile.ReadOnlyStat | src/fs.ts:172-174 | the status is the inner URI's, marked read-only, and an inner failure passes through |
| Dispatch.KindOf | src/fs.ts:110-117 | each file system is found exactly under its own scheme |
| Dispatch.OpenFile | src/fs.ts:110-117 | a `file:` URI opens as a normal file on its path; an unregistered scheme gives `undefined` |
| Dispatch.ReadOnlyIsTransparent | src/fs.ts:175-177 | opening a `readonly` wrapper opens exactly what opening the wrapped URI opens |
| Dispatch.OpenSubfile | src/fs.ts:224-227 | opening a subfile URI wraps the result of opening its inner URI with the parsed offsets, and passes a failure through |
| Dispatch.OpenSubfileOfFile | src/fs.ts:224-227 | a subfile URI made over a `file:` URI opens as the range wrapper over that file with the range's two offsets |
| Dispatch.WrapperWithoutAuthorityOpensFile | src/fs.ts:158-164 | a subfile URI without an authority opens as the range wrapper over a normal file on its resolved path |
| Dispatch.NestedSubfileRepeatsOuterRange | src/fs.ts:186-199 | a subfile of a subfile of a file opens as the outer range around the outer range over that file: the inner range is lost |
| Dispatch.OpenMemoryUri | src/debug.ts:232-235 | a memory URI opens as a memory file on its session and reference, and throws for an unknown session |
| UriComponent.Encode | src/debug.ts:206 | `encodeURIComponent`: unreserved characters are kept and every other one becomes the `%XX` escapes of its UTF-8 bytes |
| UriComponent.Decode | src/debug.ts:218 | `decodeURIComponent` reads escapes back and throws `URIError`, and only `URIError`, on a malformed escape, bad UTF-8, an overlong form or a surrogate |
| UriComponent.DecodeEncode | src/debug.ts:206-218 | decoding the encoding of any string gives the string back |
| UriComponent.DecodeEscapeUtf8 | src/debug.ts:206-218 | the escapes of a character's UTF-8 bytes decode to that character and take three characters per byte |
| UriComponent.EncodeHasNoSlash | src/debug.ts:206 | the encoding never contains `/`, so each encoded part is one path segment |
| UriComponent.DecodeLonePercent | src/debug.ts:218 | a lone `%` throws |
| DebugMemory.MakeUri | src/debug.ts:202-209 | the memory URI has the memory scheme and the session as authority, and its path splits at `/` into an empty piece, the encoded reference and the encoded display name |
| DebugMemory.ParseUri | src/debug.ts:211-226 | it throws "Debug session not found" exactly for an unknown session; otherwise the session is the authority and `readOnly` is the session's `supportsWriteMemoryRequest` |
| DebugMemory.ParseMakeUri | src/debug.ts:202-226 | parsing a made URI gives back the session, the same reference and the same non-negative range, or no range when none was given |
| DebugMemory.RangeAtQuery | src/debug.ts:207-217 | `?range=F:T` holds the pattern right after the `?`, with F and T as its two numbers |
| DebugMemory.ParseUnknownSession | src/debug.ts:212-214 | a URI naming no session throws, whatever else it holds |
| DebugMemory.Stat | src/debug.ts:254-263 | the status fails exactly when parsing fails; it is a file with zero times, its size is the range length or 0x10000, and it is read-only exactly when `readOnly` is set |
| DebugMemory.StatOfMadeUri | src/debug.ts:254-263 | a memory URI made with a range has that range's length as its size |
| DebugMemory.ReadResult | src/debug.ts:184-186 | a missing or empty `data` reads as no bytes, and otherwise the base64 decoding of `data` |
| DebugMemory.WriteResult | src/debug.ts:195 | the result is `bytesWritten`, or 0 when it is missing |
| DebugMemory.ReadFile | src/debug.ts:265-276 | a parse failure or a missing range fails with no request sent; otherwise exactly one `readMemory` is sent at the range start for its length, a rejected request fails with its error, and an answer gives its decoded data |
| DebugMemory.WriteFile | src/debug.ts:278-289 | a parse failure or a missing range fails with no request sent; otherwise exactly one `writeMemory` of the base64 content is sent at the range start, and a rejected request fails with its error |
| DebugMemory.ReadMadeUri | src/debug.ts:265-276 | reading a URI made with a range sends one request to the right session and reference, at the range's start, for its length, and its result is the answer's data or the rejection |
| DebugMemory.NoRangeNoAccess | src/debug.ts:267-281 | a URI made without a range can be neither read nor written, and sends nothing |
| DebugMemory.Watch | src/debug.ts:237-252 | a recursive watch sets up nothing, before parsing; otherwise it fails exactly when parsing fails and listens on the parsed reference and range |
| DebugMemory.OnStateChange | src/debug.ts:243-246 | a listener reports its file deleted exactly when the session runs or ends |
| DebugMemory.OnInvalidate | src/debug.ts:247-250 | a listener reports a change exactly for an event on its reference that has no range or passes the touch test |
| DebugMemory.TouchesWhenSharing | src/debug.ts:248 | an event whose closed span shares a position with the range passes the touch test |
| DebugMemory.SharingWhenTouches | src/debug.ts:248 | an event that passes the touch test over a non-empty range shares a position with it |
| DebugMemory.TouchingBoundaries | src/debug.ts:248 | an event ending exactly at `fromOffset` counts and one starting at `toOffset` does not |
| DebugSession.WithState | src/debug.ts:101-104 | the setter sets the state and fires it every time, changing nothing else |
| DebugSession.Receive | src/debug.ts:122-160 | every message is fired to `onMessage` first, whatever it is |
| DebugSession.Starting | src/debug.ts:113-115 | a starting session is `Initializing` |
| DebugSession.Stopping | src/debug.ts:116-118 | a stopping session is `Inactive` |
| DebugSession.HandlersKeepConsistent | src/debug.ts:101-160 | every handler keeps the last fired state equal to the current state |
| DebugSession.RepeatedStateFiresAgain | src/debug.ts:101-104 | setting the same state twice fires it twice |
| DebugSession.StoppedEvent | src/debug.ts:145-149 | a `stopped` event records its thread, requests that thread's stack (thread 0 when none), fires `Stopped` and keeps the capabilities |
| DebugSession.StoppedWithoutBody | src/debug.ts:145-146 | a `stopped` event without a body throws after the message is fired, and changes nothing else |
| DebugSession.CapabilitiesOnlyFromInitialize | src/debug.ts:126-131 | only an `initialize` response changes the capabilities, to its body |
| DebugSession.StateOnlyFromStopAndContinue | src/debug.ts:122-160 | messages other than `stopped` and `continued` leave the state and its events alone and throw nothing |
| DebugSession.MemoryEventIsForwarded | src/debug.ts:153-155 | a `memory` event is passed on unchanged, and nothing else changes |
| DebugSession.WatcherSeesRunAndStop | src/debug.ts:243-246 | a memory file watcher sees a deletion on `continued` and on session stop, and none on `stopped` or session start |
| DebugSession.Session.SetState | src/debug.ts:101-104 | the object's new state is what the setter gives |
| DebugSession.Session.OnWillStartSession | src/debug.ts:113-115 | the object moves as `Starting` says |
| DebugSession.Session.OnWillStopSession | src/debug.ts:116-118 | the object moves as `Stopping` says |
| DebugSession.Session.OnDidSendMessage | src/debug.ts:122-160 | the object's new state and what it throws are what `Receive` gives |
| DebugSession.SessionTable.Capabilities | src/debug.ts:79 | the capabilities table has exactly the live sessions' ids |
| DebugSession.SessionTable.Create | src/debug.ts:96-99 | a new fresh tracker is registered under its id and replaces any earlier one |
| DebugSession.SessionTable.OnExit | src/debug.ts:110-112 | the entry under the tracker's id is deleted and every other entry stays |
| DebugSession.ExitedSessionNotFound | src/debug.ts:211-214 | a memory URI whose session id the capabilities table does not hold is not found |
| DebugSession.ParseAfterExit | src/debug.ts:110-112 | after a tracker's `onExit` the table no longer holds its id, and a memory URI naming that session is not found |
| Glob.ToRegExp | src/fs.ts:258-289 | the loop builds exactly the recursive translation of the whole pattern |
| Glob.StarLength | src/fs.ts:276-285 | a `*` consumes one, two or three characters, never more than remain |
| Glob.TranslateAppend | src/fs.ts:258-289 | a glob that does not end in `*` translates independently of what follows, once its open flags are carried over |
| Glob.StarRule | src/fs.ts:283 | a lone `*` becomes "[^/\\]*" wherever it stands |
| Glob.DoubleStarRule | src/fs.ts:277-281 | `**` becomes `.*` and swallows one separator right after it |
| Glob.DoubleStarNoSeparatorRule | src/fs.ts:277-280 | `**` not followed by a separator becomes `.*` and consumes only the two stars |
| Glob.QuestionRule | src/fs.ts:269 | `?` becomes `.` in any context |
| Glob.BracketRules | src/fs.ts:270-271 | `[` is copied and opens a range; `]` is copied and closes it |
| Glob.BraceRules | src/fs.ts:273-274 | `{` becomes `(` and opens a block; `}` becomes `)` and closes it |
| Glob.EscapeRule | src/fs.ts:264-268 | each of `. / \ $ ^` is emitted behind a backslash in any context |
| Glob.BangRule | src/fs.ts:272 | `!` becomes `^` exactly when a `[` range is open before it |
| Glob.CommaRule | src/fs.ts:275 | `,` becomes `\|` exactly inside a `{` block, and an escaped comma outside |
| Glob.TranslatePlain | src/fs.ts:263 | a glob of plain characters is its own regular expression |
| Glob.TranslateNeverStartsWithCaret | src/fs.ts:258-289 | with no range open, the translation never starts with `^` |
| Glob.TranslateAll | src/fs.ts:241 | each alternative is translated on its own, in order |
| Glob.NewGlob | src/fs.ts:237-244 | the compiled expression always ends in `$` |
| Glob.NewGlobSingle | src/fs.ts:237-244 | a pattern without `;` is its translation, anchored at the end only |
| Glob.NewGlobAlternatives | src/fs.ts:238-241 | a `;` pattern compiles as the list of its pieces, at least two, joined by `\|` in a group |
| Glob.NewGlobEmptyList | src/fs.ts:240-243 | an empty list compiles to `()$`, which matches every string |
| Paths.Dirname | src/fs.ts:28-30 | the directory part is never empty |
| Paths.TrimTrailingSlashes | src/fs.ts:22-24 | the path with the `/` characters it ends with removed, and no others |
| Paths.Basename | src/fs.ts:22-24 | the base name holds no `/` and is never longer than the path |
| Paths.BasenameIsLastSegment | src/fs.ts:22-24 | the base name is the last segment: it ends the path without its trailing `/` characters and starts it or follows a `/` |
| Paths.BasenameIgnoresTrailingSlash | src/fs.ts:22-24 | a trailing `/` does not change the base name, so `basename("/a/b/")` is "b" |
| Paths.DirnameBasename | src/fs.ts:22-30 | a path with `/` that does not end in `/` is its directory, a separator and its base name |
| Paths.BareName | src/fs.ts:22-30 | a path without `/` is its own base name, in directory "." |
| WatchSpec.FireAll | src/fs.ts:503-506 | each callback fires once with the path and mode, in list order |
| WatchSpec.FirstIndex | src/fs.ts:617-618 | `indexOf` is the first position of the item, or -1 exactly when it is absent |
| WatchSpec.FindGlob | src/fs.ts:655 | `findIndex` is the first entry holding the function, or -1 exactly when none does |
| WatchSpec.Without | src/fs.ts:633 | deleting a recursive key removes exactly that key from the visiting order |
| WatchEngine.Watchers.constructor | src/fs.ts:493-500 | all tables start empty |
| WatchEngine.Watchers.RunCallbacks | src/fs.ts:503-506 | the loop appends exactly `FireAll` to the log |
| WatchEngine.Watchers.RunGlobCallbacks | src/fs.ts:508-513 | the loop fires, in order, the callbacks whose glob matches the base name |
| WatchEngine.Watchers.DropDirWatchersUnder | src/fs.ts:580-585 | exactly the directory watchers whose key starts with the new root are dropped |
| WatchEngine.Watchers.AddWatcher | src/fs.ts:570-598 | the watcher tables move as `WatchSpec.AddWatcher` says |
| WatchEngine.Watchers.OnChange | src/fs.ts:569-615 | the tables move as `WatchSpec.OnChange` says |
| WatchEngine.Watchers.RemoveOnChange | src/fs.ts:625-669 | the tables move as `WatchSpec.RemoveOnChange` says |
| WatchEngine.Watchers.RemoveGlob | src/fs.ts:652-667 | the glob and directory-watcher tables move as `WatchSpec.RemoveGlob` says |
| WatchEngine.Watchers.DirCallback | src/fs.ts:515-557 | the tables, queue and log move as `WatchSpec.DirCallback` says |
| WatchEngine.Watchers.RecCallback | src/fs.ts:559-567 | only the log changes, as `WatchSpec.RecCallback` says |
| WatchEngine.Watchers.RunRecursive | src/fs.ts:563-566 | the `for ... in` loop fires each root's callbacks when the root prefixes the path, in insertion order |
| WatchEngine.Watchers.ProcessNext | src/fs.ts:535-553 | the next queued task runs as `WatchSpec.ProcessNext` says |
| WatchEngine.Watchers.RenameCheck | src/fs.ts:535-548 | the tables move as `WatchSpec.RenameCheckStep` says |
| WatchLemmas.WatchKeyNoStar | src/fs.ts:571-575 | the cut key of a recursive subscription holds no `*` |
| WatchLemmas.AddWatcherValid | src/fs.ts:577-598 | the watcher step keeps the invariants, never drops a recursive watcher, and leaves the key served |
| WatchLemmas.OnChangeValid | src/fs.ts:569-615 | `onChange` keeps the registry invariants |
| WatchLemmas.RemoveOnChangeValid | src/fs.ts:625-669 | `removeOnChange` keeps the registry invariants |
| WatchLemmas.DirCallbackValid | src/fs.ts:515-557 | a directory event keeps the invariants |
| WatchLemmas.RecCallbackOnlyFires | src/fs.ts:559-567 | a recursive event changes only the log of fired callbacks |
| WatchLemmas.ProcessNextValid | src/fs.ts:535-553 | running queued work keeps the invariants |
| WatchLemmas.OnChangeClassifies | src/fs.ts:600-614 | the subscription lands in exactly one table, chosen by where the `*` is, and the other two are untouched |
| WatchLemmas.OnChangeServes | src/fs.ts:577-598 | after `onChange` the key is watched by a watcher on it or a recursive root above it |
| WatchLemmas.OnChangeReusesWatchers | src/fs.ts:577-578 | no watcher is created when one exists under the key or a recursive root prefixes it |
| WatchLemmas.NewRecursiveWatcherDisposes | src/fs.ts:579-590 | a new recursive watcher disposes exactly the directory watchers whose key starts with its root |
| WatchLemmas.OverlappingRoots | src/fs.ts:577-590 | subscribing under /a/b and then under /a leaves two recursive watchers that overlap |
| WatchLemmas.PrefixIsNotPath | src/fs.ts:578 | with a recursive watcher on /a, a subscription in /ab gets no watcher of its own |
| WatchLemmas.CoveredGetsNoWatcher | src/fs.ts:577-578 | a non-recursive subscription under a recursive root leaves the directory watchers as they were |
| WatchLemmas.ArrayRemoveFirstOnly | src/fs.ts:617-623 | `arrayRemove` reports presence and removes only the first occurrence, keeping the others in order |
| WatchLemmas.RemoveRecursiveIsNoOp | src/fs.ts:626-640 | removing a recursive subscription changes nothing |
| WatchLemmas.RemoveLastFileKeepsDirWatcher | src/fs.ts:642-667 | removing a file's last callback deletes its entry but keeps the directory watcher when no glob entry holds the function |
| WatchLemmas.RemoveLastFileReachesGlobs | src/fs.ts:642-667 | removing a file's last callback also removes the function's first glob entry in that directory |
| WatchLemmas.RemoveFileNotLast | src/fs.ts:644-648 | a file callback that is not the last is removed alone |
| WatchLemmas.RemoveGlobByFunction | src/fs.ts:652-667 | a glob subscription is removed by function alone, and an emptied entry takes its watcher with it |
| WatchLemmas.RemoveGlobIgnoresPattern | src/fs.ts:655 | removing with any pattern removes the entry of the same function whatever its glob |
| WatchLemmas.FireGlobsExactly | src/fs.ts:508-513 | a glob callback fires exactly when some entry holds it and its glob matches the base name |
| WatchLemmas.FireRecursiveExactly | src/fs.ts:563-566 | a recursive callback fires exactly when it is subscribed under a root that prefixes the path |
| WatchLemmas.NoRootNoRecursiveFire | src/fs.ts:563-566 | with no root prefixing the path no recursive callback fires |
| WatchLemmas.ChangedOncePerMtime | src/fs.ts:518-531 | a second change event with the same mtime fires nothing more |
| WatchLemmas.ChangedFires | src/fs.ts:518-531 | a change with a new mtime fires the file's callbacks with mode 0, then the glob callbacks |
| WatchLemmas.CreatedAndDeletedAreQueued | src/fs.ts:533-556 | creation and deletion fire only the glob callbacks at once and queue the rest behind earlier work |
| WatchLemmas.DeferredDeleteFires | src/fs.ts:553 | a queued deletion fires the callbacks the file has when its turn comes, with mode 2 |
| WatchLemmas.RenameMovesCallbacks | src/fs.ts:535-548 | a rename moves the old path's callbacks to the new file, forgets the old path, and fires them with mode 3 |
| WatchLemmas.RenameToSelfDropsCallbacks | src/fs.ts:537-544 | a file created again with its own recorded mtime loses its callbacks and fires nothing |
| WatchLemmas.RenameFromUnsubscribedDropsCallbacks | src/fs.ts:537-544 | a rename from a path without callbacks leaves the new file without callbacks |
| Jsx.Escape | src/jsx-runtime.tsx:39-41 | escaped text holds no `<`, `>` or `"` |
| Jsx.EscapeText | src/jsx-runtime.tsx:54-55 | escaped text children hold no `<` or `>` |
| Jsx.UnescapeEscape | src/jsx-runtime.tsx:31-41 | attribute escaping loses nothing: unescaping gives the string back |
| Jsx.UnescapeEscapeText | src/jsx-runtime.tsx:54-55 | text escaping loses nothing either |
| Jsx.EscapeTextWithoutQuote | src/jsx-runtime.tsx:40-55 | the two escapes agree exactly on text without `"` |
| Jsx.FindKey | src/jsx-runtime.tsx:63-64 | the found position is the first entry with the key, or -1 when no entry has it |
| Jsx.JsxsCall | src/jsx-runtime.tsx:10-14 | `jsxs` gives what `jsx` gives for every type and props |
| Jsx.RenderString | src/jsx-runtime.tsx:54-55 | a string child renders as text that opens no tag and reads back as the string |
| Jsx.RenderFalsy | src/jsx-runtime.tsx:57-61 | a number renders as its decimal text, 0 included, and other falsy values as nothing |
| Jsx.RenderTag | src/jsx-runtime.tsx:63-71 | an element with a tag name renders as that tag around its attributes and rendered children |
| Jsx.RenderFragment | src/jsx-runtime.tsx:16-18 | a fragment renders as just its children |
| Jsx.RenderWithoutProps | src/jsx-runtime.tsx:63-64 | an element without props throws |
| Jsx.RenderFlatOfFlat | src/jsx-runtime.tsx:65-66 | with no array among the children, flattening changes nothing |
| Jsx.RenderAllAppend | src/jsx-runtime.tsx:66 | rendering concatenated children renders each part in turn, and a failure in either stops it |
| Jsx.FlattenOneLevel | src/jsx-runtime.tsx:66 | an array child is spliced into the children: one level of nesting renders as none |
| Jsx.NestedArrayThrows | src/jsx-runtime.tsx:66 | a second level of nesting is not flattened and throws |
| Jsx.RenderEntriesAppend | src/jsx-runtime.tsx:24-29 | attributes of concatenated entries are the two attribute strings in order |
| Jsx.RenderPropsOfObject | src/jsx-runtime.tsx:24-29 | `children` and undefined properties add no attribute; a string property adds `key="escaped value"` |
| Jsx.AttributeValueHasNoQuote | src/jsx-runtime.tsx:27 | no attribute value can close its quotes early |
| Jsx.CssEscape | src/jsx-runtime.tsx:84 | escaping never shortens an identifier |
| Jsx.CssUnescapeEscape | src/jsx-runtime.tsx:84 | escaping an identifier loses nothing |
| Jsx.IdSelectorForm | src/jsx-runtime.tsx:80-86 | a string id gets the attribute form exactly when it starts with a digit, and either form holds the escaped id |
| IconTheme.Or | src/icon-theme.ts:129 | `a \|\| b` is truthy exactly when `a` or `b` is, and a truthy result is one of the two, the first truthy one |
| IconTheme.FontCode | src/icon-theme.ts:66 | the decoded glyph is a 16-bit code unit |
| IconTheme.FontCodeOfHex | src/icon-theme.ts:66 | a glyph written as one character and hex digits decodes to their value modulo 2^16 |
| IconTheme.ParseIntHexOfHex | src/icon-theme.ts:66 | `parseInt(h, 16)` of a run of hex digits is its value |
| IconTheme.PlainHexStart | src/icon-theme.ts:66 | text starting with a hex digit other than a `0x` prefix parses as its leading hex digits |
| IconTheme.FontCodeNotANumber | src/icon-theme.ts:66 | a glyph whose rest does not start a hex number decodes to code 0 |
| IconTheme.Construct | src/icon-theme.ts:63-68 | the constructor's loop gives exactly the decoded theme |
| IconTheme.DecodeKeepsDefinitions | src/icon-theme.ts:64-67 | loading keeps every definition, images unchanged and each font glyph decoded with its colour and font id |
| IconTheme.Search | src/icon-theme.ts:121-127 | the extension loop finds nothing or a truthy icon |
| IconTheme.ExtensionLoop | src/icon-theme.ts:119-128 | the loop ends with a truthy icon exactly when the search finds one, and then with that icon |
| IconTheme.GetFileIcon | src/icon-theme.ts:117-130 | the method returns what `FileIcon` gives |
| IconTheme.GetFileIconForPath | src/icon-theme.ts:148-166 | the method returns what `FileIconForPath` gives |
| IconTheme.SearchFirstHit | src/icon-theme.ts:121-127 | the loop returns what the first successful step finds, for the shortest-dropped extension first |
| IconTheme.SearchMiss | src/icon-theme.ts:121-127 | when no step finds anything the loop finds nothing |
| IconTheme.ExactNameWins | src/icon-theme.ts:118-119 | an exact file name entry wins over every other table |
| IconTheme.NameWithoutDot | src/icon-theme.ts:119-129 | a name without a dot gets its name entry or the default file icon |
| IconTheme.StepPrecedence | src/icon-theme.ts:124-126 | a language icon beats the extension table, and the extension table decides otherwise |
| IconTheme.QualifiedNameWins | src/icon-theme.ts:151 | a truthy entry for the last two components beats the bare name |
| IconTheme.BarePathParent | src/icon-theme.ts:149-155 | a one-component path is its own last-two name and qualifies extensions with "undefined" |
| IconTheme.CollapsedIgnoresExpanded | src/icon-theme.ts:131-136 | a collapsed folder's icon does not depend on the expanded tables |
| IconTheme.FolderPrecedence | src/icon-theme.ts:131-136 | an expanded name entry beats the name entry, which beats the defaults |
| IconTheme.RootFallsBackToFolder | src/icon-theme.ts:137-146 | without root entries or root defaults, a root folder gets the ordinary folder icon |
| IconTheme.RootNameWins | src/icon-theme.ts:138-139 | a truthy root name entry beats every folder table |
| IconTheme.UnderRootUsesEmptyName | src/icon-theme.ts:168-169 | every path that starts with the root string gets the root icon of the empty name, whatever its own name |
| IconTheme.QualifiedFolderWins | src/icon-theme.ts:171-176 | outside the root a truthy two-component entry beats the folder icon |
| IconTheme.GetDef | src/icon-theme.ts:94-110 | a falsy or unknown icon gives nothing, a truthy icon throws when the theme has no definitions, and an image gives the web URI of its path |
| IconTheme.GetDefGlyph | src/icon-theme.ts:103-107 | a glyph's font is its own font id, else the first font's, and it throws when there is no font to fall back on; the glyph is the decoded code, with a colour style exactly when a colour is set |
| Webview.GetOnEmpty | src/webview/shared.ts:568-575 | an empty pool makes exactly one element, keeps it, and hands out a copy |
| Webview.GetOnOne | src/webview/shared.ts:572-574 | a pool of one hands out a copy and stays as it was |
| Webview.GetOnMany | src/webview/shared.ts:572-574 | a larger pool hands out its last element and shrinks by exactly that one |
| Webview.GetLeavesNonEmpty | src/webview/shared.ts:568-575 | after `get` the pool is never empty, and a copy is handed out exactly when it held at most one |
| Webview.DiscardThenGet | src/webview/shared.ts:568-579 | an element discarded into a non-empty pool is the next one handed out, and the pool is back where it was |
| Webview.DiscardElementIsDiscard | src/webview/shared.ts:580-583 | `discardElement` pools exactly as `discard` does and also detaches the element |
| Webview.Pool.Get | src/webview/shared.ts:568-575 | the pool moves and hands out as the `get` transition says |
| Webview.Pool.Discard | src/webview/shared.ts:577-579 | the pool moves as the `discard` transition says |
| Webview.Pool.DiscardElement | src/webview/shared.ts:580-583 | the pool moves as the `discardElement` transition says |
| Webview.CountTag | src/webview/shared.ts:863-866 | the count of same-tag siblings never exceeds the siblings, and is 0 when none has the tag |
| Webview.Parts | src/webview/shared.ts:860-871 | there is one selector part per element of the chain |
| Webview.GenerateSelector | src/webview/shared.ts:859-873 | the nested loops build exactly the parts of the chain, outermost first, joined by " > " |
| Webview.PartsOrder | src/webview/shared.ts:869 | the k-th part belongs to the k-th element from the top |
| Webview.SelectorOfParent | src/webview/shared.ts:869-870 | going one element further up puts that element's part in front |
| Webview.SelectorEnds | src/webview/shared.ts:861-872 | a chain of one element is its part alone, and no element gives the empty selector |
| Webview.NthOfType | src/webview/shared.ts:862-866 | an element with no earlier same-tag sibling is first of its type, and each such sibling moves it one further |

## Left out

- Host file I/O: `NormalFile` is a `ByteFile` over a byte sequence and a descriptor position, opened not writable. Host errors other than the RangeErrors of `Buffer.alloc` and `fs.read` and a write to a read-only descriptor are not modelled. The inner `stat` and whole-file read of a wrapped URI are parameters. `ReadOnlyFilesystem.readFile` only forwards to the host and is not modelled.
- Asynchrony: promises run to completion in order. The `wait_create` chain is a FIFO queue whose head runs on `ProcessNext`. Interleavings of separate async calls are not modelled.
- Event emitters, native watcher objects and their disposal are logs and set membership. `console.log` output is not modelled.
- WatchEngine.Watchers.DirCallback and WatchEngine.Watchers.RecCallback accept every path. The host watchers are created with the patterns "*.*" and "**/*.*" (src/fs.ts:586, 592), so the host never reports a file whose base name has no `.`, such as `/d/Makefile`. `WatchLemmas.ChangedFires` and `WatchLemmas.FireRecursiveExactly` describe what happens once an event arrives, not which events the host sends.
- Uris.NewUri: models the scheme fix and the path resolution of the `Uri` constructor. Its validation errors, such as illegal scheme characters or a path starting with `//` without an authority, are not modelled. vs/base/common/uri.ts is not part of this model.
- The debug adapter: requests are recorded and answered by a `respond` oracle, which either rejects a request with an error or answers it. Base64 encoding and decoding are functions given by the caller.
- The `stackTrace` request a stop sends is logged by its thread id. The `frameId` promise, `getTopStackFrameId`, the `_onCreate` event and the `get`/`get_caps` accessors are not modelled.
- Regular-expression matching: `Glob.test` is an oracle on the compiled source text, and `RegExp` itself is not modelled.
- JavaScript numbers are unbounded integers. NaN appears only where the code can produce it. Floating point, and precision above 2^53, are not modelled.
- RangedFile.ByteFile.Read: follows the `fs.read` of current Node releases, which refuses a position below -1. Older releases read at the descriptor's position for every negative position. A position that is not an integer, and a length above the largest buffer, are not modelled.
- RangedFile.ByteFile.Write: a negative position on a writable descriptor writes at the descriptor's position. No writable descriptor is opened in the modelled core; `NormalFile` handles are all read-only.
- Subfile.ReadFile: completes the read before disposing the handle. The race between the pending read and the close in the code is described under "Behaviour worth knowing" and is not modelled.
- Subfile.MakeUri: `uri.with` validates the URI it builds, and the model does not. For example, the inner URI `foo:bar` has a path that does not start with `/`. Its scheme becomes the subfile URI's authority, and `with` throws because a URI with an authority needs an empty path or one that starts with `/`. The model still builds the subfile URI.
- RangedFile.OffsetFile.Write: issues the corrected cut `WriteRequest`, not the code's `subarray(0, end - start)`, so a write that starts past the window writes nothing instead of the data's head beyond `toOffset`. The cut as written is `RangedFile.WriteRequestAsWritten`, and `RangedFile.WriteRequestAgreesInWindow` proves the two agree whenever the write starts inside the window.
- Text.JsNumber: only a run of decimal digits with at most one sign is a number. The fragments `makeUri` writes are of that form, but `Subfile.ParseUri` also reads hand-written fragments, where JavaScript's `+` reads "0x10" as 16, " 12" as 12 and "1e3" as 1000. The model takes those as NaN.
- IconTheme.ParseIntHex: does not model the loss of precision of `parseInt` for hex runs above 2^53.
- Paths: `path.sep` is `/`.
- Paths.Dirname: does not strip trailing slashes, so `dirname("/a/b/")` gives "/a/b" where `path.dirname` gives "/a". It also lacks `path.dirname`'s special case for a double leading slash: `dirname("//a")` gives "/" where `path.dirname` gives "//". The paths the watcher block passes have neither form.
- `file_id`, `Filename` and the `toString` versus `fsPath` forms of a URI: a file name is one string used as its own id.
- `getLanguage` and `webview.asWebviewUri` are oracles. `style`, `csp`, `copyAssets`, `getUri` and the `fontSize` field are presentation only.
- IconTheme.Construct: produces a new theme value. It does not model the in-place mutation of the theme object, which callers holding it would see.
- Object key order is insertion order. JavaScript's rule that integer-like keys come first, and inherited prototype keys, are not modelled.
- Webview.Pool.Get: a clone is marked `Cloned(of)`. Node identity and the deep copy itself are not modelled. `item.remove()` is a log of detached elements.
- `toLowerCase` is modelled for ASCII letters only.
- `MemorySchema`, `SourceProvider`, codicons and the rest of the webview and tree code are outside the modelled core.

## Findings

| source | as written | input that shows it | evidently intended | confidence | as-written member | corrected member |
|---|---|---|---|---|---|---|
| src/fs.ts:102-106 | the ranged `write` cuts the data with `data.subarray(0, end - start)`; past the window `end - start` is negative, and `subarray` then counts back from the end of the data | window [0, 10), `write(12, [1,2,3,4,5])`: `end - start` is -2, so bytes 1, 2, 3 are written at inner offsets 12 to 14, outside the window | a write never reaches past `toOffset`, so one that starts past the window writes nothing | not executed | RangedFile.WriteAsWrittenOvershoots | RangedFile.WriteStaysInWindow |

`RangedFile.WriteRequestAsWritten` models the cut as written.
`RangedFile.WriteRequest` clamps the cut length at zero, and
`RangedFile.OffsetFile.Write` uses it. `RangedFile.WriteRequestAgreesInWindow`
proves the two agree whenever the write starts inside the window.
