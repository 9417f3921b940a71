/** The watcher block of src/fs.ts, as pure transitions over the whole
    registry: the three callback tables, the two native-watcher tables,
    the mtime table used to spot renames, the `wait_create` chain as a
    FIFO queue of pending work, and the log of callbacks fired so far.
    A native watcher is just the key it was created under; `stat` is an
    mtime oracle given to each transition; `Glob.test` is an oracle
    `test` on the compiled glob and the base name. */
module WatchSpec {

  import opened Wrappers
  import opened Text
  import opened Paths
  import opened Glob

  /** The `Change` modes handed to callbacks. */
  const Changed := 0
  const Created := 1
  const Deleted := 2
  const Renamed := 3

  /** A subscriber function, known only by its identity. */
  type Callback = int

  /** `[Glob, Callback]` */
  type GlobCallback = (GlobRegex, Callback)

  /** One call `func(path, mode)` of a subscriber. */
  datatype Fired = Fired(cb: Callback, path: string, mode: int)

  /** Work waiting on the `wait_create` chain: the rename check a creation
      starts, or the file callbacks a deletion runs once earlier work is
      done. */
  datatype Task = RenameCheck(id: string) | DeferredDelete(id: string)

  /** The module-level state of the watcher block. `recOrder` lists the
      keys of `recCallbacks` in insertion order, the order `for ... in`
      visits them. */
  datatype Registry = Registry(
    recWatchers: set<string>,
    dirWatchers: set<string>,
    fileModTimes: map<int, string>,
    recCallbacks: map<string, seq<Callback>>,
    recOrder: seq<string>,
    dirCallbacks: map<string, seq<GlobCallback>>,
    fileCallbacks: map<string, seq<Callback>>,
    queue: seq<Task>,
    fired: seq<Fired>)

  /** The state before any subscription. */
  const Initial := Registry({}, {}, map[], map[], [], map[], map[], [], [])

  /** The invariants every transition keeps: `recOrder` lists each key of
      `recCallbacks` once; no callback list is empty; no recursive key holds
      a `*`; every recursive subscription lies under a recursive watcher;
      and no directory watcher lies under a recursive watcher. */
  ghost predicate Valid(s: Registry) {
    && (forall i, j :: 0 <= i < j < |s.recOrder| ==> s.recOrder[i] != s.recOrder[j])
    && (forall k :: k in s.recCallbacks <==> k in s.recOrder)
    && (forall k :: k in s.recCallbacks ==> |s.recCallbacks[k]| > 0 && '*' !in k)
    && (forall k :: k in s.dirCallbacks ==> |s.dirCallbacks[k]| > 0)
    && (forall k :: k in s.fileCallbacks ==> |s.fileCallbacks[k]| > 0)
    && (forall k :: k in s.recCallbacks ==> exists w :: w in s.recWatchers && StartsWith(k, w))
    && (forall d, w :: d in s.dirWatchers && w in s.recWatchers ==> !StartsWith(d, w))
  }

  /** `m[k] ?? []` */
  function Get<V>(m: map<string, seq<V>>, k: string): seq<V> {
    if k in m then m[k] else []
  }

  /** `callbacks.forEach(func => func(id, mode))` */
  function FireAll(cbs: seq<Callback>, id: string, mode: int): (r: seq<Fired>)
    ensures |r| == |cbs|
    ensures forall k :: 0 <= k < |cbs| ==> r[k] == Fired(cbs[k], id, mode)
  {
    seq(|cbs|, k requires 0 <= k < |cbs| => Fired(cbs[k], id, mode))
  }

  /** What one glob callback adds: a call when its glob matches `base`. */
  function FireIfMatch(gc: GlobCallback, base: string, id: string, mode: int,
                       test: (GlobRegex, string) -> bool): seq<Fired>
  {
    if test(gc.0, base) then [Fired(gc.1, id, mode)] else []
  }

  /** `runGlobCallbacks` over a list, in list order. */
  function FireGlobs(gcs: seq<GlobCallback>, base: string, id: string, mode: int,
                     test: (GlobRegex, string) -> bool): seq<Fired>
    decreases |gcs|
  {
    if |gcs| == 0 then []
    else FireGlobs(gcs[..|gcs| - 1], base, id, mode, test) + FireIfMatch(gcs[|gcs| - 1], base, id, mode, test)
  }

  /** What one recursive root adds when an event reaches `id`. */
  function FireRoot(root: string, recs: map<string, seq<Callback>>, id: string, mode: int): seq<Fired> {
    if root in recs && StartsWith(id, root) then FireAll(recs[root], id, mode) else []
  }

  /** The `for (const i in recCallbacks)` loop of `recCallback`, visiting the
      roots in `order`. */
  function FireRecursive(order: seq<string>, recs: map<string, seq<Callback>>, id: string, mode: int): seq<Fired>
    decreases |order|
  {
    if |order| == 0 then []
    else FireRecursive(order[..|order| - 1], recs, id, mode) + FireRoot(order[|order| - 1], recs, id, mode)
  }

  /** The glob callbacks of the directory holding `id`. */
  function DirGlobs(s: Registry, id: string, mode: int, test: (GlobRegex, string) -> bool): seq<Fired> {
    FireGlobs(Get(s.dirCallbacks, Dirname(id)), Basename(id), id, mode, test)
  }

  /** The first position of `x` in `s`, or -1: `indexOf`. */
  function FirstIndex<T(==)>(s: seq<T>, x: T): (r: int)
    ensures r == -1 <==> x !in s
    ensures r != -1 ==> 0 <= r < |s| && s[r] == x && x !in s[..r]
    decreases |s|
  {
    if |s| == 0 then -1
    else if s[0] == x then 0
    else
      var k := FirstIndex(s[1..], x);
      assert k != -1 ==> s[..k + 1] == [s[0]] + s[1..][..k];
      if k == -1 then -1 else k + 1
  }

  /** `arrayRemove(array, item)`: the list without the first occurrence of
      `item`, and whether there was one. */
  function ArrayRemove(cbs: seq<Callback>, f: Callback): (r: (seq<Callback>, bool))
  {
    var i := FirstIndex(cbs, f);
    if i == -1 then (cbs, false) else (cbs[..i] + cbs[i + 1..], true)
  }

  /** `callbacks.findIndex(i => i[1] === func)` */
  function FindGlob(gcs: seq<GlobCallback>, f: Callback): (r: int)
    ensures r == -1 <==> forall k :: 0 <= k < |gcs| ==> gcs[k].1 != f
    ensures r != -1 ==> 0 <= r < |gcs| && gcs[r].1 == f && forall k :: 0 <= k < r ==> gcs[k].1 != f
    decreases |gcs|
  {
    if |gcs| == 0 then -1
    else if gcs[0].1 == f then 0
    else
      var k := FindGlob(gcs[1..], f);
      assert forall j :: 1 <= j < |gcs| ==> gcs[j] == gcs[1..][j - 1];
      if k == -1 then -1 else k + 1
  }

  function Max0(n: int): nat {
    if n < 0 then 0 else n
  }

  /** The key `onChange` files a subscription under: the directory of
      `filename`, cut one character before its first `*` when it has one
      (`dir.substring(0, rec - 1)`, where a negative end counts as 0). */
  function WatchKey(filename: string): string {
    var dir := Dirname(filename);
    var rec := IndexOf(dir, '*');
    if rec == -1 then dir else dir[..Max0(rec - 1)]
  }

  /** A `*` in the directory part makes a subscription recursive. */
  predicate IsRecursive(filename: string) {
    '*' in Dirname(filename)
  }

  /** Whether some recursive root is a string prefix of `dir`. */
  predicate UnderRecursive(s: Registry, dir: string) {
    exists i :: i in s.recWatchers && StartsWith(dir, i)
  }

  /** The watcher part of `onChange`: a watcher is created only when there
      is none under the key and no recursive root is a prefix of it; a new
      recursive watcher first drops every directory watcher whose key
      starts with its root. */
  function AddWatcher(s: Registry, filename: string): Registry {
    var dir := WatchKey(filename);
    var rec := IsRecursive(filename);
    var watcher := if rec then dir in s.recWatchers else dir in s.dirWatchers;
    if watcher || UnderRecursive(s, dir) then s
    else if rec then
      s.(dirWatchers := (set i | i in s.dirWatchers && !StartsWith(i, dir)),
         recWatchers := s.recWatchers + {dir})
    else s.(dirWatchers := s.dirWatchers + {dir})
  }

  /** `(recCallbacks[dir] ??= []).push(func)`, with `dir` listed last in
      `recOrder` when it is new. */
  function AddRecursive(s: Registry, dir: string, func: Callback): Registry {
    s.(recCallbacks := s.recCallbacks[dir := Get(s.recCallbacks, dir) + [func]],
       recOrder := if dir in s.recCallbacks then s.recOrder else s.recOrder + [dir])
  }

  /** `(dirCallbacks[dir] ??= []).push([glob, func])` */
  function AddGlob(s: Registry, dir: string, glob: GlobRegex, func: Callback): Registry {
    s.(dirCallbacks := s.dirCallbacks[dir := Get(s.dirCallbacks, dir) + [(glob, func)]])
  }

  /** A file subscription: the file's mtime is recorded for it when its
      `stat` succeeds, and `(fileCallbacks[filename] ??= []).push(func)`. */
  function AddFile(s: Registry, filename: string, func: Callback, mtime: Option<int>): Registry {
    s.(fileModTimes := if mtime.Some? then s.fileModTimes[mtime.value := filename] else s.fileModTimes,
       fileCallbacks := s.fileCallbacks[filename := Get(s.fileCallbacks, filename) + [func]])
  }

  /** `onChange(filename, func)`. `mtime` is what the `stat` of the file
      gives (None when it fails); it matters only to a file subscription. */
  function OnChange(s: Registry, filename: string, func: Callback, mtime: Option<int>): Registry {
    var s1 := AddWatcher(s, filename);
    if IsRecursive(filename) then AddRecursive(s1, WatchKey(filename), func)
    else if '*' in Basename(filename) then AddGlob(s1, WatchKey(filename), NewGlob(One(Basename(filename))), func)
    else AddFile(s1, filename, func, mtime)
  }

  /** `recOrder` without `k`. */
  function Without(order: seq<string>, k: string): (r: seq<string>)
    ensures forall x :: x in r <==> x in order && x != k
    decreases |order|
  {
    if |order| == 0 then []
    else if order[0] == k then Without(order[1..], k)
    else [order[0]] + Without(order[1..], k)
  }

  /** The directory part of `removeOnChange`: drop the first glob callback
      holding `func`, whatever its glob, and tear down an emptied entry
      together with its directory watcher. */
  function RemoveGlob(s: Registry, dir: string, func: Callback): Registry {
    if dir !in s.dirCallbacks then s
    else
      var gcs := s.dirCallbacks[dir];
      var i := FindGlob(gcs, func);
      if i == -1 then s
      else
        var rest := gcs[..i] + gcs[i + 1..];
        if |rest| > 0 then s.(dirCallbacks := s.dirCallbacks[dir := rest])
        else s.(dirCallbacks := s.dirCallbacks - {dir}, dirWatchers := s.dirWatchers - {dir})
  }

  /** `removeOnChange(filename, func)`. The recursive branch looks under the
      uncut directory, as the source does. */
  function RemoveOnChange(s: Registry, filename: string, func: Callback): Registry {
    var dir := Dirname(filename);
    if '*' in dir then
      if dir !in s.recCallbacks then s
      else
        var rest := ArrayRemove(s.recCallbacks[dir], func).0;
        if |rest| > 0 then s.(recCallbacks := s.recCallbacks[dir := rest])
        else s.(recCallbacks := s.recCallbacks - {dir}, recOrder := Without(s.recOrder, dir),
                recWatchers := s.recWatchers - {dir})
    else if '*' !in Basename(filename) && filename in s.fileCallbacks then
      var rest := ArrayRemove(s.fileCallbacks[filename], func).0;
      if |rest| > 0 then s.(fileCallbacks := s.fileCallbacks[filename := rest])
      else RemoveGlob(s.(fileCallbacks := s.fileCallbacks - {filename}), dir, func)
    else RemoveGlob(s, dir, func)
  }

  /** The `Change.changed` case of `dirCallback`: with callbacks on `id`,
      they fire unless the file's mtime is already recorded for `id`, and
      the mtime is then recorded. A failed `stat` fires them too. */
  function OnDirChanged(s: Registry, id: string, mtime: Option<int>): Registry {
    if id !in s.fileCallbacks then s
    else if mtime.None? then s.(fired := s.fired + FireAll(s.fileCallbacks[id], id, Changed))
    else if mtime.value in s.fileModTimes && s.fileModTimes[mtime.value] == id then s
    else s.(fileModTimes := s.fileModTimes[mtime.value := id],
            fired := s.fired + FireAll(s.fileCallbacks[id], id, Changed))
  }

  /** `dirCallback(uri, mode)`: the case for the mode, then the glob
      callbacks of the directory, in every mode. */
  function DirCallback(s: Registry, id: string, mode: int, mtime: Option<int>,
                       test: (GlobRegex, string) -> bool): Registry {
    var s1 :=
      if mode == Changed then OnDirChanged(s, id, mtime)
      else if mode == Created then s.(queue := s.queue + [RenameCheck(id)])
      else if mode == Deleted then s.(queue := s.queue + [DeferredDelete(id)])
      else s;
    s1.(fired := s1.fired + DirGlobs(s1, id, mode, test))
  }

  /** `recCallback(uri, mode)`: the file callbacks of `id`, the glob
      callbacks of its directory, then every recursive list whose root is a
      prefix of `id`. */
  function RecCallback(s: Registry, id: string, mode: int, test: (GlobRegex, string) -> bool): Registry {
    s.(fired := s.fired + FireAll(Get(s.fileCallbacks, id), id, mode) + DirGlobs(s, id, mode, test)
                + FireRecursive(s.recOrder, s.recCallbacks, id, mode))
  }

  /** A rename check for the new file `id` whose `stat` gives `mtime`: when
      the mtime is recorded for an earlier path, the callbacks of that path
      move to `id` (the entry of `id` is overwritten, and left without
      callbacks when that path had none), the earlier key is deleted, and
      the moved callbacks fire with mode 3. */
  function RenameCheckStep(s: Registry, id: string, mtime: Option<int>): Registry {
    if mtime.None? || mtime.value !in s.fileModTimes || s.fileModTimes[mtime.value] == "" then s
    else
      var renamed := s.fileModTimes[mtime.value];
      var moved := if renamed in s.fileCallbacks then s.fileCallbacks[id := s.fileCallbacks[renamed]]
                   else s.fileCallbacks - {id};
      var fc := moved - {renamed};
      s.(fileModTimes := s.fileModTimes[mtime.value := id],
         fileCallbacks := fc,
         fired := s.fired + FireAll(Get(fc, id), id, Renamed))
  }

  /** The next piece of work on the `wait_create` chain runs; `mtime` is
      what a rename check's `stat` gives. */
  function ProcessNext(s: Registry, mtime: Option<int>): Registry {
    if |s.queue| == 0 then s
    else
      var s1 := s.(queue := s.queue[1..]);
      match s.queue[0]
      case RenameCheck(id) => RenameCheckStep(s1, id, mtime)
      case DeferredDelete(id) => s1.(fired := s1.fired + FireAll(Get(s1.fileCallbacks, id), id, Deleted))
  }
}
