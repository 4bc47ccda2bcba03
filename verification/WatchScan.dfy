/** The scan of the watched paths and its saved state, step by step. */
module WatchScan {
  import opened WatchHash

  method BuildFileState(path: string, file: DiskFile, previous: Files, force: bool) returns (state: FileState)
    ensures state == Build(path, file, previous, force)
  {
    state := FileState(path, |file.content|, file.mod, file.change, NoHash, false);
    if !force && path in previous && CanReuse(previous[path], state) {
      state := state.(sha := previous[path].sha, skipped := previous[path].skipped);
      return;
    }
    if |file.content| > MAX_HASHED {
      state := state.(skipped := true);
      return;
    }
    state := state.(sha := HashOf(file.content));
  }

  /** The walk over the watched files, in any order. */
  method ScanPaths(disk: Disk, previous: Files, force: bool) returns (files: Files)
    ensures files == CachedScan(disk, previous, force)
  {
    hide Build;
    files := map[];
    var left := disk.Keys;
    while left != {}
      invariant left <= disk.Keys && files.Keys == disk.Keys - left
      invariant forall path | path in files :: files[path] == Build(path, disk[path], previous, force)
      decreases left
    {
      var path :| path in left;
      left := left - {path};
      var state := BuildFileState(path, disk[path], previous, force);
      files := files[path := state];
    }
  }

  function Elements(events: seq<Event>): set<Event> {
    set e | e in events
  }

  lemma ElementsSnoc(events: seq<Event>, e: Event)
    ensures Elements(events + [e]) == Elements(events) + {e}
  {
  }

  predicate Once(events: seq<Event>) {
    forall i, j | 0 <= i < j < |events| :: events[i] != events[j]
  }

  lemma OnceSnoc(events: seq<Event>, e: Event)
    requires Once(events) && e !in Elements(events)
    ensures Once(events + [e])
  {
  }

  /** What the loops have found so far: the new and changed of some paths, the deleted of others. */
  ghost function Partial(noisy: string -> bool, previous: Files, current: Files, seen: set<string>, gone: set<string>)
    : set<Event>
  {
    (set path | path in current && path in seen && path !in previous :: Created(path))
    + (set path | path in current && path in seen && path in previous && Changed(previous[path], current[path]) ::
         Modified(path))
    + (set path | path in previous && path in gone && path !in current && !noisy(previous[path].path) :: Deleted(path))
  }

  lemma PartialSeen(noisy: string -> bool, previous: Files, current: Files, seen: set<string>, path: string)
    requires path in current && path !in seen
    ensures Partial(noisy, previous, current, seen + {path}, {})
         == Partial(noisy, previous, current, seen, {})
            + if path !in previous then {Created(path)}
              else if Changed(previous[path], current[path]) then {Modified(path)} else {}
    ensures Created(path) !in Partial(noisy, previous, current, seen, {})
    ensures Modified(path) !in Partial(noisy, previous, current, seen, {})
  {
    hide Changed;
  }

  lemma PartialGone(noisy: string -> bool, previous: Files, current: Files, gone: set<string>, path: string)
    requires path in previous && path !in gone
    ensures Partial(noisy, previous, current, current.Keys, gone + {path})
         == Partial(noisy, previous, current, current.Keys, gone)
            + if path !in current && !noisy(previous[path].path) then {Deleted(path)} else {}
    ensures Deleted(path) !in Partial(noisy, previous, current, current.Keys, gone)
  {
    hide Changed;
  }

  lemma PartialEnds(noisy: string -> bool, previous: Files, current: Files)
    ensures Partial(noisy, previous, current, {}, {}) == {}
    ensures Partial(noisy, previous, current, current.Keys, previous.Keys) == Diff(noisy, previous, current)
  {
    hide Changed;
  }

  method Appeared(noisy: string -> bool, previous: Files, current: Files) returns (events: seq<Event>)
    ensures Elements(events) == Partial(noisy, previous, current, current.Keys, {}) && Once(events)
  {
    hide Partial, Changed, Once, Elements;
    events := [];
    NoElements();
    PartialEnds(noisy, previous, current);
    var left, seen := current.Keys, {};
    while left != {}
      invariant left + seen == current.Keys && left !! seen
      invariant Elements(events) == Partial(noisy, previous, current, seen, {}) && Once(events)
      decreases left
    {
      var path :| path in left;
      PartialSeen(noisy, previous, current, seen, path);
      left, seen := left - {path}, seen + {path};
      if path !in previous {
        OnceSnoc(events, Created(path));
        ElementsSnoc(events, Created(path));
        events := events + [Created(path)];
        continue;
      }
      if Changed(previous[path], current[path]) {
        OnceSnoc(events, Modified(path));
        ElementsSnoc(events, Modified(path));
        events := events + [Modified(path)];
      }
    }
    assert seen == current.Keys;
  }

  lemma NoElements()
    ensures Elements([]) == {} && Once([])
  {
  }

  /** diffWatchState: every event once. */
  method DiffWatchState(noisy: string -> bool, previous: Files, current: Files) returns (events: seq<Event>)
    ensures Elements(events) == Diff(noisy, previous, current) && Once(events)
  {
    hide Partial, Changed, Once, Diff, Elements;
    events := Appeared(noisy, previous, current);
    var left, gone := previous.Keys, {};
    while left != {}
      invariant left + gone == previous.Keys && left !! gone
      invariant Elements(events) == Partial(noisy, previous, current, current.Keys, gone) && Once(events)
      decreases left
    {
      var path :| path in left;
      PartialGone(noisy, previous, current, gone, path);
      left, gone := left - {path}, gone + {path};
      if path !in current {
        if noisy(previous[path].path) {
          continue;
        }
        OnceSnoc(events, Deleted(path));
        ElementsSnoc(events, Deleted(path));
        events := events + [Deleted(path)];
      }
    }
    assert gone == previous.Keys;
    PartialEnds(noisy, previous, current);
  }

  /** The saved state file of one watcher. */
  class StateFile {
    var saved: WatchState

    constructor ()
      ensures saved == NoState
    {
      saved := NoState;
    }

    /** ScanWatchedPaths. Of the calls that enqueue an event the first `calls` succeed, and `saves` says whether the state
        can be saved. A scan that fails leaves the state as it was: the next one finds the differences again. */
    method ScanWatchedPaths(config: Config, disk: Disk, now: int, calls: nat, saves: bool)
      returns (ok: bool, enqueued: seq<Event>)
      modifies this
      ensures ok ==> saved == Next(config, old(saved), disk, now)
      ensures ok ==> Elements(enqueued) == Enqueued(config, old(saved), disk, now)
      ensures !ok ==> saved == old(saved) && Elements(enqueued) <= Enqueued(config, old(saved), disk, now)
      ensures calls >= |Enqueued(config, old(saved), disk, now)| && saves ==> ok
      ensures Once(enqueued)
    {
      hide Diff, CachedScan, Once, Elements;
      NoElements();
      ghost var expected := Enqueued(config, saved, disk, now);
      var force := Force(config, saved, now);
      var previous := Previous(saved);
      var current := ScanPaths(disk, previous, force);
      CountFiles(disk, previous, force);
      var full := if force then now else if saved.Saved? then saved.lastFull else 0;
      enqueued := [];
      if saved.Saved? {
        var events := DiffWatchState(config.noisy, previous, current);
        if config.noEvents {
          if saves {
            saved := Saved(full, current);
          }
          return saves, [];
        }
        NoneIff(events);
        OneElement(ScanCompleted(|current|));
        ok, enqueued := EnqueueEach(if |events| == 0 then [ScanCompleted(|current|)] else events, calls);
        if !ok {
          return;
        }
        if |events| == 0 && !force && |previous| == |current| {
          return;
        }
      } else if !config.noEvents && |current| > 0 {
        OneElement(BaselineCreated(|current|));
        ok, enqueued := EnqueueEach([BaselineCreated(|current|)], calls);
        if !ok {
          return;
        }
      }
      if !saves {
        return false, enqueued;
      }
      saved := Saved(full, current);
      ok := true;
    }
  }

  /** Events are enqueued one by one up to the first call that fails. */
  method EnqueueEach(events: seq<Event>, calls: nat) returns (ok: bool, enqueued: seq<Event>)
    requires Once(events)
    ensures ok ==> enqueued == events
    ensures Once(enqueued) && Elements(enqueued) <= Elements(events)
    ensures calls >= |Elements(events)| ==> ok
  {
    OnceCounts(events);
    enqueued := [];
    for k := 0 to |events|
      invariant enqueued == events[..k] && k <= calls
    {
      if k == calls {
        return false, enqueued;
      }
      enqueued := enqueued + [events[k]];
    }
    ok := true;
  }

  lemma {:induction false} OnceCounts(events: seq<Event>)
    requires Once(events)
    ensures |Elements(events)| == |events|
  {
    if events != [] {
      var before, e := events[..|events| - 1], events[|events| - 1];
      OnceCounts(before);
      ElementsSnoc(before, e);
      assert events == before + [e];
    }
  }

  lemma OneElement(e: Event)
    ensures Elements([e]) == {e} && Once([e])
  {
  }

  lemma CountFiles(disk: Disk, previous: Files, force: bool)
    ensures |CachedScan(disk, previous, force)| == |disk|
  {
    hide Build;
    assert CachedScan(disk, previous, force).Keys == disk.Keys;
  }

  lemma NoneIff(events: seq<Event>)
    ensures Elements(events) == {} <==> events == []
  {
    if events != [] {
      assert events[0] in Elements(events);
    }
  }
}
