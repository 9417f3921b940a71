/** The watcher block of src/fs.ts as the source runs it: module-level
    tables updated in place by `onChange`, `removeOnChange` and the two
    event handlers, with the `forEach` and `for ... in` loops written out.
    Each method is proved to move the tables exactly as the transition of
    the same name in `WatchSpec` does, so the lemmas of `WatchLemmas` hold
    of it. */
module WatchEngine {

  import opened Wrappers
  import opened Text
  import opened Paths
  import opened Glob
  import S = WatchSpec

  class Watchers {
    var recWatchers: set<string>
    var dirWatchers: set<string>
    var fileModTimes: map<int, string>
    var recCallbacks: map<string, seq<S.Callback>>
    var recOrder: seq<string>
    var dirCallbacks: map<string, seq<S.GlobCallback>>
    var fileCallbacks: map<string, seq<S.Callback>>
    var queue: seq<S.Task>
    var fired: seq<S.Fired>

    /** The tables as one value. */
    function State(): S.Registry
      reads this
    {
      S.Registry(recWatchers, dirWatchers, fileModTimes, recCallbacks, recOrder,
                 dirCallbacks, fileCallbacks, queue, fired)
    }

    constructor ()
      ensures State() == S.Initial
    {
      recWatchers, dirWatchers := {}, {};
      fileModTimes := map[];
      recCallbacks, recOrder := map[], [];
      dirCallbacks, fileCallbacks := map[], map[];
      queue, fired := [], [];
    }

    /** `runCallbacks(callbacks, id, mode)` */
    method RunCallbacks(cbs: seq<S.Callback>, id: string, mode: int)
      modifies this`fired
      ensures fired == old(fired) + S.FireAll(cbs, id, mode)
    {
      var k := 0;
      while k < |cbs|
        invariant 0 <= k <= |cbs|
        invariant fired == old(fired) + S.FireAll(cbs[..k], id, mode)
      {
        assert S.FireAll(cbs[..k + 1], id, mode) == S.FireAll(cbs[..k], id, mode) + [S.Fired(cbs[k], id, mode)];
        fired := fired + [S.Fired(cbs[k], id, mode)];
        k := k + 1;
      }
      assert cbs[..k] == cbs;
    }

    /** `runGlobCallbacks(callbacks, id, mode)`: the callbacks whose glob
        matches the base name of `id` fire, in list order. */
    method RunGlobCallbacks(gcs: seq<S.GlobCallback>, id: string, mode: int, test: (GlobRegex, string) -> bool)
      modifies this`fired
      ensures fired == old(fired) + S.FireGlobs(gcs, Basename(id), id, mode, test)
    {
      var base := Basename(id);
      var k := 0;
      while k < |gcs|
        invariant 0 <= k <= |gcs|
        invariant fired == old(fired) + S.FireGlobs(gcs[..k], base, id, mode, test)
      {
        assert gcs[..k + 1][..k] == gcs[..k];
        if test(gcs[k].0, base) {
          fired := fired + [S.Fired(gcs[k].1, id, mode)];
        }
        k := k + 1;
      }
      assert gcs[..k] == gcs;
    }

    /** The dispose loop of `onChange`: every directory watcher whose key
        starts with `dir` is disposed and deleted. */
    method DropDirWatchersUnder(dir: string)
      modifies this`dirWatchers
      ensures dirWatchers == set i | i in old(dirWatchers) && !StartsWith(i, dir)
    {
      var todo := dirWatchers;
      while todo != {}
        invariant todo <= old(dirWatchers)
        invariant dirWatchers == (set i | i in old(dirWatchers) && !(i !in todo && StartsWith(i, dir)))
        decreases todo
      {
        var i :| i in todo;
        if StartsWith(i, dir) {
          dirWatchers := dirWatchers - {i};
        }
        todo := todo - {i};
      }
    }

    /** The watcher part of `onChange(filename, func)`. */
    method AddWatcher(filename: string)
      modifies this`recWatchers, this`dirWatchers
      ensures State() == S.AddWatcher(old(State()), filename)
    {
      var dir := Dirname(filename);
      var rec := IndexOf(dir, '*');
      if rec != -1 {
        dir := dir[..S.Max0(rec - 1)];
      }
      assert dir == S.WatchKey(filename);
      var watcher := if rec == -1 then dir in dirWatchers else dir in recWatchers;
      var covered := exists i :: i in recWatchers && StartsWith(dir, i);
      if !watcher && !covered {
        if rec >= 0 {
          DropDirWatchersUnder(dir);
          recWatchers := recWatchers + {dir};
        } else {
          dirWatchers := dirWatchers + {dir};
        }
      }
    }

    /** `onChange(filename, func)`, with `mtime` what the file's `stat`
        gives. */
    method OnChange(filename: string, func: S.Callback, mtime: Option<int>)
      modifies this
      ensures State() == S.OnChange(old(State()), filename, func, mtime)
    {
      AddWatcher(filename);
      var dir := S.WatchKey(filename);
      var base := Basename(filename);
      if IndexOf(Dirname(filename), '*') >= 0 {
        if dir !in recCallbacks {
          recOrder := recOrder + [dir];
        }
        recCallbacks := recCallbacks[dir := S.Get(recCallbacks, dir) + [func]];
      } else if IndexOf(base, '*') >= 0 {
        dirCallbacks := dirCallbacks[dir := S.Get(dirCallbacks, dir) + [(NewGlob(One(base)), func)]];
      } else {
        if mtime.Some? {
          fileModTimes := fileModTimes[mtime.value := filename];
        }
        fileCallbacks := fileCallbacks[filename := S.Get(fileCallbacks, filename) + [func]];
      }
    }

    /** `removeOnChange(filename, func)` */
    method RemoveOnChange(filename: string, func: S.Callback)
      modifies this
      ensures State() == S.RemoveOnChange(old(State()), filename, func)
    {
      var dir := Dirname(filename);
      if IndexOf(dir, '*') >= 0 {
        if dir in recCallbacks {
          var callbacks := S.ArrayRemove(recCallbacks[dir], func).0;
          if |callbacks| == 0 {
            recCallbacks := recCallbacks - {dir};
            recOrder := S.Without(recOrder, dir);
            if dir in recWatchers {
              recWatchers := recWatchers - {dir};
            }
          } else {
            recCallbacks := recCallbacks[dir := callbacks];
          }
        }
        return;
      }
      if IndexOf(Basename(filename), '*') == -1 && filename in fileCallbacks {
        var callbacks := S.ArrayRemove(fileCallbacks[filename], func).0;
        if |callbacks| > 0 {
          fileCallbacks := fileCallbacks[filename := callbacks];
          return;
        }
        fileCallbacks := fileCallbacks - {filename};
      }
      RemoveGlob(dir, func);
    }

    /** The directory part of `removeOnChange`. */
    method RemoveGlob(dir: string, func: S.Callback)
      modifies this`dirCallbacks, this`dirWatchers
      ensures State() == S.RemoveGlob(old(State()), dir, func)
    {
      if dir in dirCallbacks {
        var callbacks := dirCallbacks[dir];
        var i := S.FindGlob(callbacks, func);
        if i != -1 {
          callbacks := callbacks[..i] + callbacks[i + 1..];
          if |callbacks| > 0 {
            dirCallbacks := dirCallbacks[dir := callbacks];
            return;
          }
          dirCallbacks := dirCallbacks - {dir};
          if dir in dirWatchers {
            dirWatchers := dirWatchers - {dir};
          }
        }
      }
    }

    /** `dirCallback(uri, mode)`, with `mtime` what the file's `stat` gives
        in the change case. */
    method DirCallback(id: string, mode: int, mtime: Option<int>, test: (GlobRegex, string) -> bool)
      modifies this
      ensures State() == S.DirCallback(old(State()), id, mode, mtime, test)
    {
      if mode == S.Changed {
        if id in fileCallbacks {
          var fire := true;
          if mtime.Some? {
            if mtime.value in fileModTimes && fileModTimes[mtime.value] == id {
              fire := false;
            } else {
              fileModTimes := fileModTimes[mtime.value := id];
            }
          }
          if fire {
            RunCallbacks(fileCallbacks[id], id, mode);
          }
        }
      } else if mode == S.Created {
        queue := queue + [S.RenameCheck(id)];
      } else if mode == S.Deleted {
        queue := queue + [S.DeferredDelete(id)];
      }
      ghost var mid := State();
      RunGlobCallbacks(S.Get(dirCallbacks, Dirname(id)), id, mode, test);
      assert State() == mid.(fired := mid.fired + S.DirGlobs(mid, id, mode, test));
    }

    /** `recCallback(uri, mode)`: file callbacks, glob callbacks, then the
        recursive roots. */
    method RecCallback(id: string, mode: int, test: (GlobRegex, string) -> bool)
      modifies this`fired
      ensures State() == S.RecCallback(old(State()), id, mode, test)
    {
      RunCallbacks(S.Get(fileCallbacks, id), id, mode);
      RunGlobCallbacks(S.Get(dirCallbacks, Dirname(id)), id, mode, test);
      RunRecursive(id, mode);
    }

    /** The `for (const i in recCallbacks)` loop of `recCallback`: every
        root that is a prefix of `id` runs its callbacks, in `recOrder`. */
    method RunRecursive(id: string, mode: int)
      modifies this`fired
      ensures fired == old(fired) + S.FireRecursive(recOrder, recCallbacks, id, mode)
    {
      var k := 0;
      while k < |recOrder|
        invariant 0 <= k <= |recOrder|
        invariant fired == old(fired) + S.FireRecursive(recOrder[..k], recCallbacks, id, mode)
      {
        assert recOrder[..k + 1][..k] == recOrder[..k];
        var root := recOrder[k];
        AppendAssoc(old(fired), S.FireRecursive(recOrder[..k], recCallbacks, id, mode),
                    S.FireRoot(root, recCallbacks, id, mode));
        if root in recCallbacks && StartsWith(id, root) {
          RunCallbacks(recCallbacks[root], id, mode);
        }
        k := k + 1;
      }
      assert recOrder[..k] == recOrder;
    }

    /** The next piece of work on the `wait_create` chain runs; `mtime` is
        what a rename check's `stat` gives. */
    method ProcessNext(mtime: Option<int>)
      modifies this
      ensures State() == S.ProcessNext(old(State()), mtime)
    {
      if |queue| == 0 {
        return;
      }
      var task := queue[0];
      queue := queue[1..];
      match task
      case DeferredDelete(id) =>
        RunCallbacks(S.Get(fileCallbacks, id), id, S.Deleted);
      case RenameCheck(id) =>
        RenameCheck(id, mtime);
    }

    /** A rename check: a file whose recorded mtime matches a file that
        went away takes over that file's callbacks, which then fire. */
    method RenameCheck(id: string, mtime: Option<int>)
      modifies this`fileModTimes, this`fileCallbacks, this`fired
      ensures State() == S.RenameCheckStep(old(State()), id, mtime)
    {
      if mtime.Some? && mtime.value in fileModTimes && fileModTimes[mtime.value] != "" {
        var renamed := fileModTimes[mtime.value];
        fileModTimes := fileModTimes[mtime.value := id];
        if renamed in fileCallbacks {
          fileCallbacks := fileCallbacks[id := fileCallbacks[renamed]];
        } else {
          fileCallbacks := fileCallbacks - {id};
        }
        fileCallbacks := fileCallbacks - {renamed};
        RunCallbacks(S.Get(fileCallbacks, id), id, S.Renamed);
      }
    }
  }
}
