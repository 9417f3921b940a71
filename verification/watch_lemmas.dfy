/** What the watcher transitions of `WatchSpec` guarantee: the registry
    invariants they keep, how `onChange` classifies and serves a
    subscription, how removal, change, creation and deletion events behave,
    and the corner cases the source has. */
module WatchLemmas {

  import opened Wrappers
  import opened Text
  import opened Paths
  import opened Glob
  import opened WatchSpec

  // ---------------------------------------------------------------------
  // Invariants
  // ---------------------------------------------------------------------

  /** The cut key of a recursive subscription holds no `*`. */
  lemma WatchKeyNoStar(filename: string)
    requires IsRecursive(filename)
    ensures '*' !in WatchKey(filename)
  {
    var dir := Dirname(filename);
    var rec := IndexOf(dir, '*');
    assert dir[..Max0(rec - 1)] == dir[..rec][..Max0(rec - 1)];
  }

  /** Every recursive key keeps a recursive watcher above it when the set
      of recursive watchers only grows. */
  lemma CoveredStaysCovered(s: Registry, rw: set<string>)
    requires forall k :: k in s.recCallbacks ==> exists w :: w in s.recWatchers && StartsWith(k, w)
    requires s.recWatchers <= rw
    ensures forall k :: k in s.recCallbacks ==> exists w :: w in rw && StartsWith(k, w)
  {
    forall k | k in s.recCallbacks
      ensures exists w :: w in rw && StartsWith(k, w)
    {
      var w :| w in s.recWatchers && StartsWith(k, w);
      assert w in rw;
    }
  }

  /** A new recursive watcher keeps the invariants: the directory watchers
      it leaves do not start with its root. */
  lemma NewRecursiveValid(s: Registry, dir: string)
    requires Valid(s)
    requires !UnderRecursive(s, dir)
    ensures Valid(s.(dirWatchers := (set i | i in s.dirWatchers && !StartsWith(i, dir)),
                     recWatchers := s.recWatchers + {dir}))
  {
    CoveredStaysCovered(s, s.recWatchers + {dir});
  }

  /** A new directory watcher keeps the invariants: no recursive root is a
      prefix of its key. */
  lemma NewDirectoryValid(s: Registry, dir: string)
    requires Valid(s)
    requires !UnderRecursive(s, dir)
    ensures Valid(s.(dirWatchers := s.dirWatchers + {dir}))
  {
  }

  /** The watcher part of `onChange` keeps the invariants, never drops a
      recursive watcher, and leaves the key served by a watcher. */
  lemma AddWatcherValid(s: Registry, filename: string)
    requires Valid(s)
    ensures var s1 := AddWatcher(s, filename);
      && Valid(s1)
      && s.recWatchers <= s1.recWatchers
      && (IsRecursive(filename) ==> exists w :: w in s1.recWatchers && StartsWith(WatchKey(filename), w))
  {
    var dir := WatchKey(filename);
    var rec := IsRecursive(filename);
    var watcher := if rec then dir in s.recWatchers else dir in s.dirWatchers;
    if watcher || UnderRecursive(s, dir) {
      assert AddWatcher(s, filename) == s;
      if rec && dir in s.recWatchers {
        assert StartsWith(dir, dir);
      }
    } else if rec {
      NewRecursiveValid(s, dir);
      assert StartsWith(dir, dir);
    } else {
      NewDirectoryValid(s, dir);
    }
  }

  /** A recursive subscription under a key without `*` that some recursive
      watcher covers keeps the invariants. */
  lemma AddRecursiveValid(s: Registry, dir: string, func: Callback)
    requires Valid(s)
    requires '*' !in dir
    requires exists w :: w in s.recWatchers && StartsWith(dir, w)
    ensures Valid(AddRecursive(s, dir, func))
  {
    var s2 := AddRecursive(s, dir, func);
    if dir !in s.recCallbacks {
      assert dir !in s.recOrder;
      forall i, j | 0 <= i < j < |s2.recOrder|
        ensures s2.recOrder[i] != s2.recOrder[j]
      {
        if j == |s.recOrder| {
          assert s2.recOrder[i] == s.recOrder[i];
        } else {
          assert s2.recOrder[i] == s.recOrder[i] && s2.recOrder[j] == s.recOrder[j];
        }
      }
    }
  }

  /** A glob subscription keeps the invariants. */
  lemma AddGlobValid(s: Registry, dir: string, glob: GlobRegex, func: Callback)
    requires Valid(s)
    ensures Valid(AddGlob(s, dir, glob, func))
  {
  }

  /** A file subscription keeps the invariants. */
  lemma AddFileValid(s: Registry, filename: string, func: Callback, mtime: Option<int>)
    requires Valid(s)
    ensures Valid(AddFile(s, filename, func, mtime))
  {
  }

  /** `onChange` keeps the registry invariants. */
  lemma OnChangeValid(s: Registry, filename: string, func: Callback, mtime: Option<int>)
    requires Valid(s)
    ensures Valid(OnChange(s, filename, func, mtime))
  {
    AddWatcherValid(s, filename);
    var s1 := AddWatcher(s, filename);
    if IsRecursive(filename) {
      WatchKeyNoStar(filename);
      AddRecursiveValid(s1, WatchKey(filename), func);
    } else if '*' in Basename(filename) {
      AddGlobValid(s1, WatchKey(filename), NewGlob(One(Basename(filename))), func);
    } else {
      AddFileValid(s1, filename, func, mtime);
    }
  }

  /** `recOrder` without a key it lists once still lists the others once. */
  lemma WithoutDistinct(order: seq<string>, k: string)
    requires forall i, j :: 0 <= i < j < |order| ==> order[i] != order[j]
    ensures var r := Without(order, k); forall i, j :: 0 <= i < j < |r| ==> r[i] != r[j]
    decreases |order|
  {
    if |order| > 0 {
      var tail := order[1..];
      assert forall i, j :: 0 <= i < j < |tail| ==> tail[i] != tail[j] by {
        forall i, j | 0 <= i < j < |tail|
          ensures tail[i] != tail[j]
        {
          assert tail[i] == order[i + 1] && tail[j] == order[j + 1];
        }
      }
      WithoutDistinct(tail, k);
      if order[0] != k {
        var r := Without(order, k);
        assert order[0] !in tail;
        assert r == [order[0]] + Without(tail, k);
      }
    }
  }

  /** The directory part of `removeOnChange` keeps the invariants. */
  lemma RemoveGlobValid(s: Registry, dir: string, func: Callback)
    requires Valid(s)
    ensures Valid(RemoveGlob(s, dir, func))
  {
  }

  /** `removeOnChange` keeps the registry invariants. */
  lemma RemoveOnChangeValid(s: Registry, filename: string, func: Callback)
    requires Valid(s)
    ensures Valid(RemoveOnChange(s, filename, func))
  {
    var dir := Dirname(filename);
    if '*' in dir {
      RemoveRecursiveIsNoOp(s, filename, func);
    } else if '*' !in Basename(filename) && filename in s.fileCallbacks {
      var rest := ArrayRemove(s.fileCallbacks[filename], func).0;
      if |rest| == 0 {
        RemoveGlobValid(s.(fileCallbacks := s.fileCallbacks - {filename}), dir, func);
      }
    } else {
      RemoveGlobValid(s, dir, func);
    }
  }

  /** The invariants speak only of the watcher and callback tables. */
  lemma ValidFrame(s: Registry, t: Registry)
    requires Valid(s)
    requires t.recWatchers == s.recWatchers && t.dirWatchers == s.dirWatchers
    requires t.recCallbacks == s.recCallbacks && t.recOrder == s.recOrder
    requires t.dirCallbacks == s.dirCallbacks && t.fileCallbacks == s.fileCallbacks
    ensures Valid(t)
  {
  }

  /** An event from a directory watcher keeps the invariants. */
  lemma DirCallbackValid(s: Registry, id: string, mode: int, mtime: Option<int>,
                         test: (GlobRegex, string) -> bool)
    requires Valid(s)
    ensures Valid(DirCallback(s, id, mode, mtime, test))
  {
    var s1 :=
      if mode == Changed then OnDirChanged(s, id, mtime)
      else if mode == Created then s.(queue := s.queue + [RenameCheck(id)])
      else if mode == Deleted then s.(queue := s.queue + [DeferredDelete(id)])
      else s;
    ValidFrame(s, s1);
    ValidFrame(s1, DirCallback(s, id, mode, mtime, test));
  }

  /** An event from a recursive watcher changes only the log of fired
      callbacks. */
  lemma RecCallbackOnlyFires(s: Registry, id: string, mode: int, test: (GlobRegex, string) -> bool)
    ensures RecCallback(s, id, mode, test).(fired := s.fired) == s
  {
  }

  /** A rename check keeps the invariants: the list it moves is non-empty. */
  lemma RenameCheckStepValid(s: Registry, id: string, mtime: Option<int>)
    requires Valid(s)
    ensures Valid(RenameCheckStep(s, id, mtime))
  {
  }

  /** Running the next queued piece of work keeps the invariants. */
  lemma ProcessNextValid(s: Registry, mtime: Option<int>)
    requires Valid(s)
    ensures Valid(ProcessNext(s, mtime))
  {
    if |s.queue| > 0 {
      var s1 := s.(queue := s.queue[1..]);
      ValidFrame(s, s1);
      match s.queue[0]
      case RenameCheck(id) => RenameCheckStepValid(s1, id, mtime);
      case DeferredDelete(id) =>
        ValidFrame(s1, s1.(fired := s1.fired + FireAll(Get(s1.fileCallbacks, id), id, Deleted)));
    }
  }

  // ---------------------------------------------------------------------
  // onChange
  // ---------------------------------------------------------------------

  /** `onChange` files the subscription in exactly one table: a `*` in the
      directory makes it recursive under the cut key, a `*` in the base
      name makes it a directory glob under the directory, and anything
      else is a file subscription under the file name; the other two
      tables are untouched. */
  lemma OnChangeClassifies(s: Registry, filename: string, func: Callback, mtime: Option<int>)
    ensures var s' := OnChange(s, filename, func, mtime);
      var dir := WatchKey(filename);
      if IsRecursive(filename) then
        && s'.recCallbacks[dir] == Get(s.recCallbacks, dir) + [func]
        && s'.dirCallbacks == s.dirCallbacks && s'.fileCallbacks == s.fileCallbacks
      else if '*' in Basename(filename) then
        && dir == Dirname(filename)
        && s'.dirCallbacks[dir] == Get(s.dirCallbacks, dir) + [(NewGlob(One(Basename(filename))), func)]
        && s'.recCallbacks == s.recCallbacks && s'.fileCallbacks == s.fileCallbacks
      else
        && s'.fileCallbacks[filename] == Get(s.fileCallbacks, filename) + [func]
        && s'.recCallbacks == s.recCallbacks && s'.dirCallbacks == s.dirCallbacks
  {
    var s1 := AddWatcher(s, filename);
    assert s1.recCallbacks == s.recCallbacks && s1.dirCallbacks == s.dirCallbacks
      && s1.fileCallbacks == s.fileCallbacks;
    if IsRecursive(filename) {
      assert OnChange(s, filename, func, mtime) == AddRecursive(s1, WatchKey(filename), func);
    } else if '*' in Basename(filename) {
      assert IndexOf(Dirname(filename), '*') == -1;
      var g := NewGlob(One(Basename(filename)));
      assert OnChange(s, filename, func, mtime) == AddGlob(s1, WatchKey(filename), g, func);
    } else {
      assert OnChange(s, filename, func, mtime) == AddFile(s1, filename, func, mtime);
    }
  }

  /** After `onChange` its key is watched: by a recursive watcher at or
      above it, or, for a non-recursive subscription, by a directory
      watcher on it or a recursive watcher above it. */
  lemma OnChangeServes(s: Registry, filename: string, func: Callback, mtime: Option<int>)
    requires Valid(s)
    ensures var s' := OnChange(s, filename, func, mtime);
      var dir := WatchKey(filename);
      if IsRecursive(filename) then UnderRecursive(s', dir)
      else dir in s'.dirWatchers || UnderRecursive(s', dir)
  {
    AddWatcherValid(s, filename);
    var dir := WatchKey(filename);
    var s1 := AddWatcher(s, filename);
    if !IsRecursive(filename) && dir !in s.dirWatchers && !UnderRecursive(s, dir) {
      assert dir in s1.dirWatchers;
    } else if !IsRecursive(filename) && UnderRecursive(s, dir) {
      var w :| w in s.recWatchers && StartsWith(dir, w);
      assert w in s1.recWatchers;
    }
  }

  /** A watcher is created only when none exists under the key and no
      recursive root is a prefix of it. */
  lemma OnChangeReusesWatchers(s: Registry, filename: string, func: Callback, mtime: Option<int>)
    requires var dir := WatchKey(filename);
      UnderRecursive(s, dir) || (if IsRecursive(filename) then dir in s.recWatchers else dir in s.dirWatchers)
    ensures var s' := OnChange(s, filename, func, mtime);
      s'.recWatchers == s.recWatchers && s'.dirWatchers == s.dirWatchers
  {
  }

  /** A new recursive watcher disposes every directory watcher whose key
      starts with its root, and only those. */
  lemma NewRecursiveWatcherDisposes(s: Registry, filename: string, func: Callback, mtime: Option<int>)
    requires IsRecursive(filename)
    requires WatchKey(filename) !in s.recWatchers && !UnderRecursive(s, WatchKey(filename))
    ensures var s' := OnChange(s, filename, func, mtime);
      var dir := WatchKey(filename);
      && s'.recWatchers == s.recWatchers + {dir}
      && (forall d :: d in s'.dirWatchers <==> d in s.dirWatchers && !StartsWith(d, dir))
  {
  }

  /** Recursive roots can nest: a root registered after one below it gets a
      watcher of its own, so both watch the deeper directory. */
  lemma OverlappingRoots()
    ensures var s1 := OnChange(Initial, "/a/b/**/x", 1, None);
      var s2 := OnChange(s1, "/a/**/y", 2, None);
      s2.recWatchers == {"/a/b", "/a"}
  {
    FirstRoot();
    SecondRoot(OnChange(Initial, "/a/b/**/x", 1, None));
  }

  lemma FirstRoot()
    ensures OnChange(Initial, "/a/b/**/x", 1, None).recWatchers == {"/a/b"}
  {
    KeyOf("/a/b/**/x", 7, "/a/b/**", 5);
    assert "/a/b/**"[..4] == "/a/b";
    var w1 := AddWatcher(Initial, "/a/b/**/x");
    assert w1.recWatchers == {"/a/b"};
    assert OnChange(Initial, "/a/b/**/x", 1, None) == AddRecursive(w1, "/a/b", 1);
  }

  lemma SecondRoot(s: Registry)
    requires s.recWatchers == {"/a/b"}
    ensures OnChange(s, "/a/**/y", 2, None).recWatchers == {"/a/b", "/a"}
  {
    KeyOf("/a/**/y", 5, "/a/**", 3);
    assert "/a/**"[..2] == "/a";
    assert !StartsWith("/a", "/a/b");
    assert !UnderRecursive(s, "/a");
    var w2 := AddWatcher(s, "/a/**/y");
    assert w2.recWatchers == {"/a/b", "/a"};
    assert OnChange(s, "/a/**/y", 2, None) == AddRecursive(w2, "/a", 2);
  }

  /** The key of a concrete file name, given where its last `/` is and
      where the first `*` of its directory is. */
  lemma KeyOf(filename: string, slash: nat, dir: string, star: nat)
    requires 0 < slash < |filename| && filename[slash] == '/' && '/' !in filename[slash + 1..]
    requires dir == filename[..slash]
    requires star < |dir| && dir[star] == '*' && '*' !in dir[..star]
    ensures Dirname(filename) == dir && IsRecursive(filename)
    ensures WatchKey(filename) == dir[..Max0(star - 1)]
  {
    LastIndexOfAt(filename, '/', slash);
    IndexOfAt(dir, '*', star);
  }

  /** `LastIndexOf` finds the given last occurrence. */
  lemma LastIndexOfAt(s: string, c: char, k: nat)
    requires k < |s| && s[k] == c && c !in s[k + 1..]
    ensures LastIndexOf(s, c) == k
  {
  }

  /** `IndexOf` finds the given first occurrence. */
  lemma IndexOfAt(s: string, c: char, k: nat)
    requires k < |s| && s[k] == c && c !in s[..k]
    ensures IndexOf(s, c) == k
  {
  }

  /** The test for an existing recursive root is a string prefix, not a
      path prefix: with a recursive watcher on "/a", a subscription in
      "/ab" gets no watcher at all. */
  lemma PrefixIsNotPath()
    ensures var s := Initial.(recWatchers := {"/a"});
      OnChange(s, "/ab/x.txt", 1, None).dirWatchers == {}
  {
    assert LastIndexOf("/ab/x.txt", '/') == 3;
    assert Dirname("/ab/x.txt") == "/ab";
    assert IndexOf("/ab", '*') == -1;
    assert StartsWith("/ab", "/a");
    CoveredGetsNoWatcher(Initial.(recWatchers := {"/a"}), "/ab/x.txt", 1, None, "/a");
  }

  /** A non-recursive subscription whose directory starts with a recursive
      root gets no directory watcher of its own. */
  lemma CoveredGetsNoWatcher(s: Registry, filename: string, func: Callback, mtime: Option<int>, root: string)
    requires root in s.recWatchers && !IsRecursive(filename) && StartsWith(Dirname(filename), root)
    ensures OnChange(s, filename, func, mtime).dirWatchers == s.dirWatchers
  {
    assert WatchKey(filename) == Dirname(filename);
    assert UnderRecursive(s, WatchKey(filename));
  }

  // ---------------------------------------------------------------------
  // arrayRemove and removeOnChange
  // ---------------------------------------------------------------------

  /** `arrayRemove` reports whether `item` was present and then takes out
      its first occurrence only, keeping the order of the rest. */
  lemma ArrayRemoveFirstOnly(cbs: seq<Callback>, f: Callback)
    ensures var r := ArrayRemove(cbs, f);
      && (r.1 <==> f in cbs)
      && (!r.1 ==> r.0 == cbs)
      && (r.1 ==> exists i :: 0 <= i < |cbs| && cbs[i] == f && f !in cbs[..i] && r.0 == cbs[..i] + cbs[i + 1..])
      && multiset(r.0) == multiset(cbs) - multiset{f}
  {
    var i := FirstIndex(cbs, f);
    if i != -1 {
      assert cbs == cbs[..i] + [f] + cbs[i + 1..];
    } else {
      assert multiset(cbs)[f] == 0;
    }
  }

  /** Recursive subscriptions are filed under the cut key, which has no
      `*`, while `removeOnChange` looks under the uncut directory, which
      has one: removing a recursive subscription changes nothing. */
  lemma RemoveRecursiveIsNoOp(s: Registry, filename: string, func: Callback)
    requires Valid(s)
    requires IsRecursive(filename)
    ensures RemoveOnChange(s, filename, func) == s
  {
    assert Dirname(filename) !in s.recCallbacks;
  }

  /** Removing the last callback of a file deletes its entry but disposes
      no watcher when the function is not also a glob callback of the
      directory: the directory watcher the file subscription created stays. */
  lemma RemoveLastFileKeepsDirWatcher(s: Registry, filename: string, func: Callback)
    requires !IsRecursive(filename) && '*' !in Basename(filename)
    requires filename in s.fileCallbacks && s.fileCallbacks[filename] == [func]
    requires FindGlob(Get(s.dirCallbacks, Dirname(filename)), func) == -1
    ensures var s' := RemoveOnChange(s, filename, func);
      && filename !in s'.fileCallbacks
      && s'.dirWatchers == s.dirWatchers
      && s'.dirCallbacks == s.dirCallbacks
  {
    assert FirstIndex([func], func) == 0;
  }

  /** Removing the last callback of a file goes on to the directory's glob
      callbacks: when the same function is also one of them, its first
      glob entry goes too, whatever its pattern. */
  lemma RemoveLastFileReachesGlobs(s: Registry, filename: string, func: Callback)
    requires !IsRecursive(filename) && '*' !in Basename(filename)
    requires filename in s.fileCallbacks && s.fileCallbacks[filename] == [func]
    requires Dirname(filename) in s.dirCallbacks
    requires FindGlob(s.dirCallbacks[Dirname(filename)], func) != -1
    ensures var s' := RemoveOnChange(s, filename, func);
      var dir := Dirname(filename);
      var gcs := s.dirCallbacks[dir];
      var i := FindGlob(gcs, func);
      && filename !in s'.fileCallbacks
      && Get(s'.dirCallbacks, dir) == gcs[..i] + gcs[i + 1..]
  {
    assert FirstIndex([func], func) == 0;
  }

  /** A file callback that is not the last one is removed alone; nothing
      else changes. */
  lemma RemoveFileNotLast(s: Registry, filename: string, func: Callback)
    requires !IsRecursive(filename) && '*' !in Basename(filename)
    requires filename in s.fileCallbacks
    requires |s.fileCallbacks[filename]| >= 2
    ensures var s' := RemoveOnChange(s, filename, func);
      s' == s.(fileCallbacks := s.fileCallbacks[filename := ArrayRemove(s.fileCallbacks[filename], func).0])
  {
  }

  /** A glob subscription is removed by its function alone: the first entry
      of the directory holding that function goes, whatever its glob, and
      an emptied entry takes its directory watcher with it. */
  lemma RemoveGlobByFunction(s: Registry, filename: string, func: Callback)
    requires !IsRecursive(filename) && '*' in Basename(filename)
    requires Dirname(filename) in s.dirCallbacks
    ensures var s' := RemoveOnChange(s, filename, func);
      var dir := Dirname(filename);
      var gcs := s.dirCallbacks[dir];
      var i := FindGlob(gcs, func);
      && s'.fileCallbacks == s.fileCallbacks
      && (i == -1 ==> s' == s)
      && (i != -1 ==> Get(s'.dirCallbacks, dir) == gcs[..i] + gcs[i + 1..])
      && (i != -1 && |gcs| == 1 ==> dir !in s'.dirCallbacks && s'.dirWatchers == s.dirWatchers - {dir})
  {
  }

  // For instance, removing function 7 from the "*.log" glob of directory
  // "/d" removes its "*.txt" subscription there and disposes the watcher.
  lemma RemoveGlobIgnoresPattern(txt: GlobRegex)
    ensures var s := Initial.(dirWatchers := {"/d"}, dirCallbacks := map["/d" := [(txt, 7)]]);
      var s' := RemoveOnChange(s, "/d/*.log", 7);
      "/d" !in s'.dirCallbacks && s'.dirWatchers == {}
  {
    var s := Initial.(dirWatchers := {"/d"}, dirCallbacks := map["/d" := [(txt, 7)]]);
    LastIndexOfAt("/d/*.log", '/', 2);
    assert "/d/*.log"[..2] == "/d";
    assert "/d/*.log"[3..] == "*.log";
    assert Dirname("/d/*.log") == "/d" && '*' !in "/d";
    assert Basename("/d/*.log") == "*.log" && "*.log"[0] == '*';
    RemoveGlobByFunction(s, "/d/*.log", 7);
  }

  // ---------------------------------------------------------------------
  // Events
  // ---------------------------------------------------------------------

  /** A glob callback list fires `Fired(c, id, mode)` exactly when some
      entry holds `c` and its glob matches the base name. */
  lemma {:induction false} FireGlobsExactly(gcs: seq<GlobCallback>, base: string, id: string, mode: int,
                                            test: (GlobRegex, string) -> bool, c: Callback)
    ensures Fired(c, id, mode) in FireGlobs(gcs, base, id, mode, test) <==>
      exists k :: 0 <= k < |gcs| && gcs[k].1 == c && test(gcs[k].0, base)
    ensures forall f :: f in FireGlobs(gcs, base, id, mode, test) ==> f.path == id && f.mode == mode
    decreases |gcs|
  {
    if |gcs| > 0 {
      var init := gcs[..|gcs| - 1];
      FireGlobsExactly(init, base, id, mode, test, c);
      assert forall k :: 0 <= k < |init| ==> init[k] == gcs[k];
    }
  }

  /** The recursive part of `recCallback` fires `Fired(c, id, mode)` exactly
      when `c` is subscribed under some root in `order` that is a prefix of
      `id`. */
  lemma {:induction false} FireRecursiveExactly(order: seq<string>, recs: map<string, seq<Callback>>,
                                                id: string, mode: int, c: Callback)
    ensures Fired(c, id, mode) in FireRecursive(order, recs, id, mode) <==>
      exists r :: r in order && r in recs && StartsWith(id, r) && c in recs[r]
    ensures forall f :: f in FireRecursive(order, recs, id, mode) ==> f.path == id && f.mode == mode
    decreases |order|
  {
    if |order| > 0 {
      var init := order[..|order| - 1];
      var last := order[|order| - 1];
      FireRecursiveExactly(init, recs, id, mode, c);
      assert order == init + [last];
      if last in recs && StartsWith(id, last) && c in recs[last] {
        var k :| 0 <= k < |recs[last]| && recs[last][k] == c;
        assert FireRoot(last, recs, id, mode)[k] == Fired(c, id, mode);
      }
      if Fired(c, id, mode) in FireRoot(last, recs, id, mode) {
        var k :| 0 <= k < |recs[last]| && FireRoot(last, recs, id, mode)[k] == Fired(c, id, mode);
        assert recs[last][k] == c;
      }
    }
  }

  /** An event with no recursive root above it fires no recursive callback. */
  lemma NoRootNoRecursiveFire(order: seq<string>, recs: map<string, seq<Callback>>, id: string, mode: int)
    requires forall r :: r in order ==> !StartsWith(id, r)
    ensures FireRecursive(order, recs, id, mode) == []
    decreases |order|
  {
    if |order| > 0 {
      NoRootNoRecursiveFire(order[..|order| - 1], recs, id, mode);
    }
  }

  /** A change event fires the file's callbacks at most once per mtime:
      applied twice with the same mtime, the second does nothing more. */
  lemma ChangedOncePerMtime(s: Registry, id: string, m: int)
    ensures var s1 := OnDirChanged(s, id, Some(m));
      && OnDirChanged(s1, id, Some(m)) == s1
      && (id in s.fileCallbacks ==> s1.fileModTimes[m] == id)
  {
  }

  /** A change event on a subscribed file whose mtime is not yet recorded
      for it fires its callbacks with mode 0 before the glob callbacks. */
  lemma ChangedFires(s: Registry, id: string, m: int, test: (GlobRegex, string) -> bool)
    requires id in s.fileCallbacks
    requires m !in s.fileModTimes || s.fileModTimes[m] != id
    ensures var s' := DirCallback(s, id, Changed, Some(m), test);
      s'.fired == s.fired + FireAll(s.fileCallbacks[id], id, Changed) + DirGlobs(s, id, Changed, test)
  {
  }

  /** A creation or deletion event fires only the glob callbacks at once
      and queues the rest behind the work already waiting. */
  lemma CreatedAndDeletedAreQueued(s: Registry, id: string, mode: int, mtime: Option<int>,
                                   test: (GlobRegex, string) -> bool)
    requires mode == Created || mode == Deleted
    ensures var s' := DirCallback(s, id, mode, mtime, test);
      && s'.queue == s.queue + [if mode == Created then RenameCheck(id) else DeferredDelete(id)]
      && s'.fired == s.fired + DirGlobs(s, id, mode, test)
      && s'.fileCallbacks == s.fileCallbacks && s'.fileModTimes == s.fileModTimes
  {
  }

  /** A queued deletion fires the callbacks the file has when its turn
      comes, with mode 2. */
  lemma DeferredDeleteFires(s: Registry, id: string, mtime: Option<int>)
    requires |s.queue| > 0 && s.queue[0] == DeferredDelete(id)
    ensures ProcessNext(s, mtime) ==
      s.(queue := s.queue[1..], fired := s.fired + FireAll(Get(s.fileCallbacks, id), id, Deleted))
  {
  }

  /** A rename check whose mtime is recorded for another subscribed path
      moves that path's callbacks to the new file, forgets the old path,
      records the new one and fires the moved callbacks with mode 3;
      every other entry stays. */
  lemma RenameMovesCallbacks(s: Registry, id: string, m: int)
    requires |s.queue| > 0 && s.queue[0] == RenameCheck(id)
    requires m in s.fileModTimes && s.fileModTimes[m] != "" && s.fileModTimes[m] != id
    requires s.fileModTimes[m] in s.fileCallbacks
    ensures var prev := s.fileModTimes[m];
      var s' := ProcessNext(s, Some(m));
      && s'.fileCallbacks[id] == s.fileCallbacks[prev]
      && prev !in s'.fileCallbacks
      && (forall k :: k != id && k != prev ==> (k in s'.fileCallbacks <==> k in s.fileCallbacks))
      && s'.fileModTimes[m] == id
      && s'.fired == s.fired + FireAll(s.fileCallbacks[prev], id, Renamed)
      && s'.queue == s.queue[1..]
  {
  }

  /** A rename check whose mtime is recorded for the new file itself (it was
      subscribed and is reported as created again with the same mtime)
      deletes that file's callbacks and fires nothing. */
  lemma RenameToSelfDropsCallbacks(s: Registry, id: string, m: int)
    requires |s.queue| > 0 && s.queue[0] == RenameCheck(id)
    requires id != "" && m in s.fileModTimes && s.fileModTimes[m] == id
    requires id in s.fileCallbacks
    ensures var s' := ProcessNext(s, Some(m));
      id !in s'.fileCallbacks && s'.fired == s.fired
  {
  }

  /** A rename check that finds the mtime recorded for a path without
      callbacks leaves the new file without callbacks. */
  lemma RenameFromUnsubscribedDropsCallbacks(s: Registry, id: string, m: int)
    requires |s.queue| > 0 && s.queue[0] == RenameCheck(id)
    requires m in s.fileModTimes && s.fileModTimes[m] != "" && s.fileModTimes[m] !in s.fileCallbacks
    ensures id !in ProcessNext(s, Some(m)).fileCallbacks
  {
  }
}
