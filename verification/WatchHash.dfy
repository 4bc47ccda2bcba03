/** The file watcher's hash cache: hashes are reused while metadata stays the same, and the state is not always saved. */
module WatchHash {
  import opened Basics

  const MAX_HASHED := 67_108_864

  /** A file on disk; change is its status change time, 0 where the platform has none. */
  datatype DiskFile = DiskFile(content: string, mod: int, change: int)

  type Disk = map<string, DiskFile>

  /** SHA-256 as the content it determines. */
  datatype Hash = NoHash | HashOf(content: string)

  datatype FileState = FileState(path: string, size: nat, mod: int, change: int, sha: Hash, skipped: bool)

  type Files = map<string, FileState>

  /** lastFull is 0 before the first full hash. */
  datatype WatchState = NoState | Saved(lastFull: int, files: Files)

  datatype Event =
    | Created(path: string)
    | Modified(path: string)
    | Deleted(path: string)
    | BaselineCreated(watched: nat)
    | ScanCompleted(watched: nat)

  // ----- one file

  /** canReuseFileHash */
  predicate CanReuse(previous: FileState, current: FileState) {
    && previous.path != "" && previous.path == current.path
    && previous.size == current.size && previous.mod == current.mod
    && (previous.change != 0 && current.change != 0 ==> previous.change == current.change)
    && (previous.skipped || previous.sha != NoHash)
  }

  function Metadata(path: string, file: DiskFile): FileState {
    FileState(path, |file.content|, file.mod, file.change, NoHash, false)
  }

  function Hashed(path: string, file: DiskFile): FileState {
    if |file.content| > MAX_HASHED then Metadata(path, file).(skipped := true)
    else Metadata(path, file).(sha := HashOf(file.content))
  }

  /** buildFileState */
  function Build(path: string, file: DiskFile, previous: Files, force: bool): FileState {
    var state := Metadata(path, file);
    if !force && path in previous && CanReuse(previous[path], state)
    then state.(sha := previous[path].sha, skipped := previous[path].skipped)
    else Hashed(path, file)
  }

  function CachedScan(disk: Disk, previous: Files, force: bool): Files {
    map path | path in disk :: Build(path, disk[path], previous, force)
  }

  /** The simple form: hash everything. */
  function FullScan(disk: Disk): Files {
    map path | path in disk :: Hashed(path, disk[path])
  }

  /** fileChanged */
  predicate Changed(previous: FileState, current: FileState) {
    if previous.skipped != current.skipped then true
    else if !current.skipped && previous.sha != NoHash && current.sha != NoHash then previous.sha != current.sha
    else
      || previous.size != current.size || previous.mod != current.mod
      || (previous.change != 0 && current.change != 0 && previous.change != current.change)
      || previous.sha != current.sha
  }

  /** diffWatchState, without the order of its events */
  function Diff(noisy: string -> bool, previous: Files, current: Files): set<Event> {
    (set path | path in current && path !in previous :: Created(path))
    + (set path | path in current && path in previous && Changed(previous[path], current[path]) :: Modified(path))
    + (set path | path in previous && path !in current && !noisy(previous[path].path) :: Deleted(path))
  }

  // ----- one scan

  datatype Config = Config(interval: int, noEvents: bool, noisy: string -> bool)

  /** shouldForceFullWatchHash */
  predicate Force(config: Config, saved: WatchState, now: int) {
    || saved.NoState?
    || (config.interval > 0 && (saved.lastFull == 0 || now >= saved.lastFull + config.interval))
  }

  function Previous(saved: WatchState): Files {
    if saved.NoState? then map[] else saved.files
  }

  function Current(config: Config, saved: WatchState, disk: Disk, now: int): Files {
    CachedScan(disk, Previous(saved), Force(config, saved, now))
  }

  /** The differences a scan finds; the first scan only makes a baseline. */
  function Found(config: Config, saved: WatchState, disk: Disk, now: int): set<Event> {
    if saved.NoState? then {} else Diff(config.noisy, saved.files, Current(config, saved, disk, now))
  }

  /** The events a scan enqueues. */
  function Enqueued(config: Config, saved: WatchState, disk: Disk, now: int): set<Event> {
    var found, watched := Found(config, saved, disk, now), |disk|;
    if config.noEvents then {}
    else if saved.NoState? then if watched > 0 then {BaselineCreated(watched)} else {}
    else if found == {} then {ScanCompleted(watched)}
    else found
  }

  /** The state left by a scan. */
  function Next(config: Config, saved: WatchState, disk: Disk, now: int): WatchState {
    var current := Current(config, saved, disk, now);
    var force := Force(config, saved, now);
    if saved.Saved? && !config.noEvents && Found(config, saved, disk, now) == {} && !force
       && |saved.files| == |current|
    then saved
    else Saved(if force then now else saved.lastFull, current)
  }

  datatype Sight = Sight(disk: Disk, now: int)

  /** The state after a run of scans. */
  function After(config: Config, saved: WatchState, run: seq<Sight>): WatchState {
    if run == [] then saved
    else
      var last := run[|run| - 1];
      Next(config, After(config, saved, run[..|run| - 1]), last.disk, last.now)
  }

  // ----- the cache agrees with hashing everything

  /** Two files look alike to the cache. */
  predicate LookAlike(a: DiskFile, b: DiskFile) {
    && |a.content| == |b.content| && a.mod == b.mod
    && (a.change != 0 && b.change != 0 ==> a.change == b.change)
  }

  /** Every change of content between two scans shows in size, modification time or status change time. */
  predicate Faithful(run: seq<Sight>) {
    forall i, j, path | 0 <= i < j < |run| && path in run[i].disk && path in run[j].disk
                        && LookAlike(run[i].disk[path], run[j].disk[path]) ::
      run[i].disk[path].content == run[j].disk[path].content
  }

  /** A scan that starts from what hashing everything recorded at an earlier scan records what hashing everything would. */
  lemma CacheStep(before: Disk, disk: Disk, force: bool)
    requires forall path | path in before && path in disk && LookAlike(before[path], disk[path]) ::
               before[path].content == disk[path].content
    ensures CachedScan(disk, FullScan(before), force) == FullScan(disk)
  {
    forall path | path in disk ensures Build(path, disk[path], FullScan(before), force) == Hashed(path, disk[path]) {
      if path in before && CanReuse(Hashed(path, before[path]), Metadata(path, disk[path])) {
        assert LookAlike(before[path], disk[path]);
      }
    }
  }

  lemma ScanFromNothing(disk: Disk)
    ensures CachedScan(disk, map[], true) == FullScan(disk)
  {
  }

  lemma AfterSnoc(config: Config, saved: WatchState, run: seq<Sight>, sight: Sight)
    ensures After(config, saved, run + [sight]) == Next(config, After(config, saved, run), sight.disk, sight.now)
  {
    assert (run + [sight])[..|run|] == run;
  }

  predicate FromScan(run: seq<Sight>, saved: WatchState) {
    saved.Saved? && exists i :: 0 <= i < |run| && saved.files == FullScan(run[i].disk)
  }

  /** Over any run with faithful metadata each scan's map is that of hashing every file, and so is the saved one of some
      scan of the run. */
  lemma {:induction false} CacheIsExact(config: Config, run: seq<Sight>, sight: Sight)
    requires Faithful(run + [sight])
    ensures Current(config, After(config, NoState, run), sight.disk, sight.now) == FullScan(sight.disk)
    ensures FromScan(run + [sight], After(config, NoState, run + [sight]))
    decreases |run|
  {
    hide CachedScan, FullScan, Diff, Faithful, Force;
    var all := run + [sight];
    var saved := After(config, NoState, run);
    AfterSnoc(config, NoState, run, sight);
    assert all[|run|] == sight;
    if run == [] {
      assert Force(config, saved, sight.now) by { FirstScanForces(config, saved, sight.now); }
      ScanFromNothing(sight.disk);
    } else {
      var before, last := run[..|run| - 1], run[|run| - 1];
      assert run == before + [last];
      FaithfulPrefix(run, sight);
      CacheIsExact(config, before, last);
      var i :| 0 <= i < |run| && saved.files == FullScan(run[i].disk);
      assert all[i] == run[i];
      FaithfulPair(all, i, |run|);
      CacheStep(run[i].disk, sight.disk, Force(config, saved, sight.now));
    }
  }

  lemma FirstScanForces(config: Config, saved: WatchState, now: int)
    requires saved == NoState
    ensures Force(config, saved, now)
  {
  }

  lemma FaithfulPrefix(run: seq<Sight>, sight: Sight)
    requires Faithful(run + [sight])
    ensures Faithful(run)
  {
    hide LookAlike;
    assert forall i | 0 <= i < |run| :: (run + [sight])[i] == run[i];
  }

  lemma FaithfulPair(run: seq<Sight>, i: nat, j: nat)
    requires Faithful(run) && i < j < |run|
    ensures forall path | path in run[i].disk && path in run[j].disk && LookAlike(run[i].disk[path], run[j].disk[path]) ::
              run[i].disk[path].content == run[j].disk[path].content
  {
    hide LookAlike;
  }

  // ----- not saving is sound

  predicate Consistent(files: Files) {
    forall path | path in files :: files[path].path == path && (files[path].skipped <==> files[path].sha == NoHash)
  }

  /** Status change times are there for all files or for none. */
  predicate Uniform(present: bool, files: Files) {
    forall path | path in files :: (files[path].change != 0) == present
  }

  /** States that no later state can tell apart. */
  predicate Twins(a: FileState, b: FileState) {
    && a.path == b.path && a.skipped == b.skipped && a.sha == b.sha
    && (a.skipped ==> a.size == b.size && a.mod == b.mod && a.change == b.change)
  }

  predicate Equivalent(a: Files, b: Files) {
    a.Keys == b.Keys && forall path | path in a :: Twins(a[path], b[path])
  }

  /** Unchanged states with the same status change time, or with hashes, are twins. */
  lemma UnchangedAreTwins(a: FileState, b: FileState)
    requires !Changed(a, b) && a.path == b.path
    requires (a.skipped <==> a.sha == NoHash) && (b.skipped <==> b.sha == NoHash)
    requires a.skipped ==> a.change == b.change
    ensures Twins(a, b)
  {
  }

  lemma TwinsChangeAlike(a: FileState, b: FileState, later: FileState)
    requires Twins(a, b) && (a.skipped <==> a.sha == NoHash) && (later.skipped <==> later.sha == NoHash)
    ensures Changed(a, later) == Changed(b, later)
  {
  }

  lemma EquivalentDiffs(noisy: string -> bool, a: Files, b: Files, later: Files)
    requires Equivalent(a, b) && Consistent(a) && Consistent(later)
    ensures Diff(noisy, a, later) == Diff(noisy, b, later)
  {
    hide Changed, Twins;
    forall path | path in a && path in later ensures Changed(a[path], later[path]) == Changed(b[path], later[path]) {
      TwinsChangeAlike(a[path], b[path], later[path]);
    }
    forall path | path in a ensures a[path].path == b[path].path {
      TwinsAgreeOnPath(a[path], b[path]);
    }
    assert forall path :: path in a <==> path in b by {
      assert forall path :: path in a <==> path in a.Keys;
    }
  }

  lemma TwinsAgreeOnPath(a: FileState, b: FileState)
    requires Twins(a, b)
    ensures a.path == b.path
  {
  }

  /** No events and equal counts: the same paths, each unchanged; a noisy path that vanished cannot hide behind a new one. */
  lemma QuietScan(noisy: string -> bool, previous: Files, current: Files)
    requires Diff(noisy, previous, current) == {} && |previous| == |current|
    ensures previous.Keys == current.Keys
    ensures forall path | path in previous :: !Changed(previous[path], current[path])
  {
    hide Changed, Diff;
    forall path ensures path in current ==> path in previous {
      DiffHas(noisy, previous, current, path);
    }
    SubsetSize(current.Keys, previous.Keys);
    forall path | path in previous ensures path in current && !Changed(previous[path], current[path]) {
      assert path in current.Keys;
      DiffHas(noisy, previous, current, path);
    }
  }

  lemma DiffHas(noisy: string -> bool, previous: Files, current: Files, path: string)
    ensures path in current && path !in previous ==> Created(path) in Diff(noisy, previous, current)
    ensures path in current && path in previous ==>
              (Changed(previous[path], current[path]) <==> Modified(path) in Diff(noisy, previous, current))
  {
    hide Changed;
  }

  /** The status change times of the files too large to hash are the same in both maps. */
  predicate SameTimes(previous: Files, current: Files)
    requires previous.Keys == current.Keys
  {
    forall path | path in previous && previous[path].skipped :: path in current && previous[path].change == current[path].change
  }

  ghost predicate SameDiffs(noisy: string -> bool, a: Files, b: Files) {
    forall later: Files | Consistent(later) :: Diff(noisy, a, later) == Diff(noisy, b, later)
  }

  lemma TwinMaps(noisy: string -> bool, previous: Files, current: Files)
    requires Consistent(previous) && Consistent(current) && previous.Keys == current.Keys && SameTimes(previous, current)
    requires forall path | path in previous :: !Changed(previous[path], current[path])
    ensures Equivalent(previous, current) && SameDiffs(noisy, previous, current)
  {
    hide Diff, Changed, Twins;
    forall path | path in previous ensures Twins(previous[path], current[path]) {
      assert path in current.Keys;
      UnchangedAreTwins(previous[path], current[path]);
    }
    forall later: Files | Consistent(later) ensures Diff(noisy, previous, later) == Diff(noisy, current, later) {
      EquivalentDiffs(noisy, previous, current, later);
    }
  }

  /** A later map that tells two unchanged states of different status change times apart: one of the times is absent. */
  lemma TimesTellApart(noisy: string -> bool, previous: Files, current: Files, path: string) returns (later: Files)
    requires Consistent(previous) && Consistent(current) && path in previous && path in current
    requires !Changed(previous[path], current[path]) && previous[path].skipped
    requires previous[path].change != current[path].change
    ensures Consistent(later) && Diff(noisy, previous, later) != Diff(noisy, current, later)
  {
    var time := previous[path].change + current[path].change;
    var state := previous[path].(change := if time == -1 then 1 else time + 1);
    later := map[path := state];
    DiffHas(noisy, previous, later, path);
    DiffHas(noisy, current, later, path);
    hide Diff;
    assert Changed(previous[path], state) != Changed(current[path], state);
  }

  /** A map left unsaved, because it brought no event and no change of count, gives the same events as the map kept in its
      place against all later maps if and only if the files too large to hash have the same status change times in both. */
  lemma SkippingSaveIff(noisy: string -> bool, previous: Files, current: Files)
    requires Consistent(previous) && Consistent(current)
    requires Diff(noisy, previous, current) == {} && |previous| == |current|
    ensures previous.Keys == current.Keys
    ensures SameDiffs(noisy, previous, current) <==> SameTimes(previous, current)
  {
    hide Diff, Changed, Consistent;
    QuietScan(noisy, previous, current);
    if SameTimes(previous, current) {
      TwinMaps(noisy, previous, current);
    } else {
      var path :| path in previous && previous[path].skipped && previous[path].change != current[path].change;
      var later := TimesTellApart(noisy, previous, current, path);
    }
  }

  /** In particular where status change times are there for all files or for none. */
  lemma SkippingSaveIsSound(noisy: string -> bool, present: bool, previous: Files, current: Files)
    requires Consistent(previous) && Consistent(current)
    requires Uniform(present, previous) && Uniform(present, current)
    requires Diff(noisy, previous, current) == {} && |previous| == |current|
    ensures Equivalent(previous, current) && SameDiffs(noisy, previous, current)
  {
    hide Diff, Consistent, SameDiffs, Equivalent;
    QuietScan(noisy, previous, current);
    forall path | path in previous && previous[path].skipped ensures previous[path].change == current[path].change {
      assert path in current.Keys;
      assert !Changed(previous[path], current[path]);
    }
    TwinMaps(noisy, previous, current);
  }

  /** Where status change times come and go, keeping the older map can report what the newer one would not. */
  lemma MixedTimesMatter(noisy: string -> bool)
    ensures var big := FileState("a", MAX_HASHED + 1, 1, 5, NoHash, true);
            var previous, current, later := map["a" := big], map["a" := big.(change := 0)], map["a" := big.(change := 7)];
            && Consistent(previous) && Consistent(current) && Consistent(later)
            && Diff(noisy, previous, current) == {} && |previous| == |current|
            && Diff(noisy, previous, later) == {Modified("a")} && Diff(noisy, current, later) == {}
  {
    var big := FileState("a", MAX_HASHED + 1, 1, 5, NoHash, true);
    OneFile(noisy, big, big.(change := 0));
    OneFile(noisy, big, big.(change := 7));
    OneFile(noisy, big.(change := 0), big.(change := 7));
    hide Diff;
  }

  lemma OneFile(noisy: string -> bool, a: FileState, b: FileState)
    ensures Diff(noisy, map["a" := a], map["a" := b]) == if Changed(a, b) then {Modified("a")} else {}
  {
    hide Changed;
  }

  // ----- every scan of a run

  predicate UniformDisks(present: bool, run: seq<Sight>) {
    forall i, path | 0 <= i < |run| && path in run[i].disk :: (run[i].disk[path].change != 0) == present
  }

  lemma FullScanFits(present: bool, run: seq<Sight>, i: nat)
    requires UniformDisks(present, run) && i < |run|
    ensures Consistent(FullScan(run[i].disk)) && Uniform(present, FullScan(run[i].disk))
  {
  }

  lemma EquivalentToItself(files: Files)
    ensures Equivalent(files, files)
  {
  }

  /** After any run the saved map stands for hashing everything at the last scan, saved or not. */
  lemma {:induction false} SavedStandsForLast(config: Config, present: bool, run: seq<Sight>, sight: Sight)
    requires Faithful(run + [sight]) && UniformDisks(present, run + [sight])
    ensures var saved := After(config, NoState, run + [sight]);
            saved.Saved? && Equivalent(saved.files, FullScan(sight.disk))
  {
    hide FullScan, CachedScan, Diff, Faithful, Force, UniformDisks, Consistent, Uniform, Equivalent;
    var all := run + [sight];
    var saved, after := After(config, NoState, run), After(config, NoState, run + [sight]);
    CacheIsExact(config, run, sight);
    AfterSnoc(config, NoState, run, sight);
    EquivalentToItself(FullScan(sight.disk));
    if run != [] && after == saved {
      assert run == run[..|run| - 1] + [run[|run| - 1]];
      FaithfulPrefix(run, sight);
      CacheIsExact(config, run[..|run| - 1], run[|run| - 1]);
      var i :| 0 <= i < |run| && saved.files == FullScan(run[i].disk);
      assert all[i] == run[i] && all[|run|] == sight;
      FullScanFits(present, all, i);
      FullScanFits(present, all, |run|);
      if Found(config, saved, sight.disk, sight.now) == {} && |saved.files| == |FullScan(sight.disk)| {
        SkippingSaveIsSound(config.noisy, present, saved.files, FullScan(sight.disk));
      }
    }
  }

  /** Over any run with faithful metadata and uniform times, each scan finds exactly the differences between hashing
      everything at the scan before and hashing everything now. */
  lemma EventsAreFullDiffs(config: Config, present: bool, run: seq<Sight>, last: Sight, sight: Sight)
    requires Faithful(run + [last] + [sight]) && UniformDisks(present, run + [last] + [sight])
    ensures Found(config, After(config, NoState, run + [last]), sight.disk, sight.now)
         == Diff(config.noisy, FullScan(last.disk), FullScan(sight.disk))
  {
    hide FullScan, CachedScan, Diff, Faithful, Force, UniformDisks, Consistent, Uniform, Equivalent;
    var upTo, all := run + [last], run + [last] + [sight];
    var saved := After(config, NoState, upTo);
    CacheIsExact(config, upTo, sight);
    FaithfulPrefix(upTo, sight);
    UniformPrefix(present, upTo, sight);
    SavedStandsForLast(config, present, run, last);
    CacheIsExact(config, run, last);
    var i :| 0 <= i < |upTo| && saved.files == FullScan(upTo[i].disk);
    assert all[i] == upTo[i] && all[|upTo|] == sight;
    FullScanFits(present, all, i);
    FullScanFits(present, all, |upTo|);
    EquivalentDiffs(config.noisy, saved.files, FullScan(last.disk), FullScan(sight.disk));
  }

  lemma UniformPrefix(present: bool, run: seq<Sight>, sight: Sight)
    requires UniformDisks(present, run + [sight])
    ensures UniformDisks(present, run)
  {
    assert forall i | 0 <= i < |run| :: (run + [sight])[i] == run[i];
  }

  // ----- without faithful metadata: changes show within the interval

  /** The hash recorded for path is not that of content. */
  predicate Unseen(saved: WatchState, path: string, content: string) {
    saved.Saved? && path in saved.files && saved.files[path].sha != HashOf(content)
  }

  predicate ReportedAt(config: Config, saved: WatchState, run: seq<Sight>, k: nat, path: string)
    requires k < |run|
  {
    Modified(path) in Enqueued(config, After(config, saved, run[..k]), run[k].disk, run[k].now)
  }

  predicate Reported(config: Config, saved: WatchState, run: seq<Sight>, path: string) {
    exists k :: 0 <= k < |run| && ReportedAt(config, saved, run, k, path)
  }

  predicate Persists(run: seq<Sight>, path: string, content: string) {
    forall k | 0 <= k < |run| :: path in run[k].disk && run[k].disk[path].content == content
  }

  lemma UnseenStep(config: Config, saved: WatchState, disk: Disk, now: int, path: string, content: string)
    requires Unseen(saved, path, content) && |content| <= MAX_HASHED && path in disk && disk[path].content == content
    requires !config.noEvents
    ensures Modified(path) in Enqueued(config, saved, disk, now)
         || (!Force(config, saved, now) && Next(config, saved, disk, now).Saved?
             && Next(config, saved, disk, now).lastFull == saved.lastFull
             && Unseen(Next(config, saved, disk, now), path, content))
  {
    hide Diff;
    DiffHas(config.noisy, saved.files, Current(config, saved, disk, now), path);
  }

  lemma ReportedSnoc(config: Config, saved: WatchState, run: seq<Sight>, sight: Sight, path: string)
    ensures Reported(config, saved, run + [sight], path)
       <==> Reported(config, saved, run, path) || Modified(path) in Enqueued(config, After(config, saved, run), sight.disk, sight.now)
  {
    hide Enqueued, After;
    var all := run + [sight];
    assert all[|run|] == sight && all[..|run|] == run;
    forall k | 0 <= k < |run| ensures ReportedAt(config, saved, all, k, path) == ReportedAt(config, saved, run, k, path) {
      assert all[k] == run[k] && all[..k] == run[..k];
    }
    if Modified(path) in Enqueued(config, After(config, saved, run), sight.disk, sight.now) {
      assert ReportedAt(config, saved, all, |run|, path);
    }
    if Reported(config, saved, run, path) {
      var k :| 0 <= k < |run| && ReportedAt(config, saved, run, k, path);
      assert ReportedAt(config, saved, all, k, path);
    }
  }

  lemma {:induction false} UnseenUntilReported(config: Config, saved: WatchState, run: seq<Sight>, path: string,
                                               content: string)
    requires !config.noEvents
    requires Unseen(saved, path, content) && |content| <= MAX_HASHED && Persists(run, path, content)
    ensures Reported(config, saved, run, path)
         || (Unseen(After(config, saved, run), path, content) && After(config, saved, run).lastFull == saved.lastFull)
  {
    hide Enqueued, Next, Reported;
    if run != [] {
      var before, last := run[..|run| - 1], run[|run| - 1];
      assert run == before + [last];
      UnseenUntilReported(config, saved, before, path, content);
      AfterSnoc(config, saved, before, last);
      ReportedSnoc(config, saved, before, last, path);
      if !Reported(config, saved, before, path) {
        UnseenStep(config, After(config, saved, before), last.disk, last.now, path, content);
      }
    }
  }

  /** A content that is not the recorded one, and stays, is reported by the time the recorded last full hash is as old as
      the interval. */
  lemma UnseenIsReported(config: Config, saved: WatchState, run: seq<Sight>, last: Sight, path: string, content: string)
    requires config.interval > 0 && !config.noEvents
    requires Unseen(saved, path, content) && |content| <= MAX_HASHED
    requires Persists(run + [last], path, content) && last.now >= saved.lastFull + config.interval
    ensures Reported(config, saved, run + [last], path)
  {
    hide Enqueued, Next, Reported;
    assert Persists(run, path, content) by {
      assert forall k | 0 <= k < |run| :: (run + [last])[k] == run[k];
    }
    assert (run + [last])[|run|] == last;
    UnseenUntilReported(config, saved, run, path, content);
    ReportedSnoc(config, saved, run, last, path);
    if !Reported(config, saved, run, path) {
      UnseenStep(config, After(config, saved, run), last.disk, last.now, path, content);
    }
  }

  /** The file looks as it was recorded. */
  predicate LooksRecorded(state: FileState, path: string, file: DiskFile) {
    && path != "" && state.path == path && state.size == |file.content| && state.mod == file.mod
    && state.change == file.change && (state.skipped || state.sha != NoHash)
  }

  /** With the periodic full hash switched off, a change that leaves the metadata alone is never reported. */
  lemma {:induction false} NotReportedWithoutInterval(config: Config, saved: WatchState, run: seq<Sight>, path: string)
    requires config.interval <= 0 && saved.Saved? && path in saved.files
    requires forall k | 0 <= k < |run| ::
               path in run[k].disk && LooksRecorded(saved.files[path], path, run[k].disk[path])
    ensures !Reported(config, saved, run, path)
    ensures var after := After(config, saved, run);
            after.Saved? && path in after.files && after.files[path] == saved.files[path]
  {
    hide Enqueued, Next, Reported, LooksRecorded;
    if run == [] {
      NothingReported(config, saved, path);
    } else {
      var before, last := run[..|run| - 1], run[|run| - 1];
      assert run == before + [last];
      NotReportedWithoutInterval(config, saved, before, path);
      AfterSnoc(config, saved, before, last);
      ReportedSnoc(config, saved, before, last, path);
      RecordedStep(config, After(config, saved, before), last.disk, last.now, path);
    }
  }

  lemma NothingReported(config: Config, saved: WatchState, path: string)
    ensures !Reported(config, saved, [], path)
  {
  }

  lemma RecordedStep(config: Config, saved: WatchState, disk: Disk, now: int, path: string)
    requires config.interval <= 0 && saved.Saved? && path in saved.files && path in disk
    requires LooksRecorded(saved.files[path], path, disk[path])
    ensures Modified(path) !in Enqueued(config, saved, disk, now)
    ensures var next := Next(config, saved, disk, now);
            next.Saved? && path in next.files && next.files[path] == saved.files[path]
  {
    hide Diff;
    DiffHas(config.noisy, saved.files, Current(config, saved, disk, now), path);
  }
}
