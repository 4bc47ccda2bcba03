/** What runs of file scans do, told by the files on disk and the times of the scans alone. */
module WatchRuns {
  import opened Basics
  import opened WatchHash

  // ----- when all files are hashed again

  /** Scan k of the run hashes every file again. */
  predicate FullAt(config: Config, run: seq<Sight>, k: nat)
    requires k < |run|
  {
    Force(config, After(config, NoState, run[..k]), run[k].now)
  }

  /** Scan j is the last one of the run that hashes every file again. */
  predicate LastFullAt(config: Config, run: seq<Sight>, j: nat) {
    && j < |run| && FullAt(config, run, j)
    && forall k | j < k < |run| :: !FullAt(config, run, k)
  }

  lemma FullAtPrefix(config: Config, run: seq<Sight>, n: nat)
    requires n <= |run|
    ensures forall k | 0 <= k < n :: FullAt(config, run[..n], k) == FullAt(config, run, k)
  {
    hide Force, After;
    forall k | 0 <= k < n ensures FullAt(config, run[..n], k) == FullAt(config, run, k) {
      assert run[..n][..k] == run[..k];
    }
  }

  lemma LastFullPrefix(config: Config, run: seq<Sight>, n: nat, j: nat)
    requires n <= |run| && LastFullAt(config, run[..n], j)
    ensures j < n && FullAt(config, run, j) && forall k | j < k < n :: !FullAt(config, run, k)
  {
    hide FullAt;
    FullAtPrefix(config, run, n);
  }

  /** The state has the time of the last scan that hashed everything. */
  lemma {:induction false} LastFullIs(config: Config, run: seq<Sight>) returns (j: nat)
    requires run != []
    ensures LastFullAt(config, run, j)
    ensures var saved := After(config, NoState, run);
            saved.Saved? && saved.lastFull == run[j].now
  {
    hide Force, CachedScan, Diff;
    var n := |run| - 1;
    var init := run[..n];
    FullAtPrefix(config, run, n);
    if FullAt(config, run, n) {
      j := n;
    } else {
      FirstIsFull(config, run);
      j := LastFullIs(config, init);
      LastFullPrefix(config, run, n, j);
    }
  }

  lemma FirstIsFull(config: Config, run: seq<Sight>)
    requires run != []
    ensures FullAt(config, run, 0)
  {
  }

  /** The first scan hashes everything; a later one does if and only if there is an interval and the last scan that did is
      at least that long ago (or was at the zero time). */
  lemma FullHashTimes(config: Config, run: seq<Sight>, k: nat, j: nat)
    requires k < |run|
    ensures k == 0 ==> FullAt(config, run, k)
    ensures LastFullAt(config, run[..k], j) ==>
              (FullAt(config, run, k) <==>
                 config.interval > 0 && (run[j].now == 0 || run[k].now >= run[j].now + config.interval))
  {
    hide After;
    if k == 0 {
      FirstIsFull(config, run);
    } else if LastFullAt(config, run[..k], j) {
      var last := LastFullIs(config, run[..k]);
      hide FullAt, Force;
      assert last == j;
      assert run[..k][j] == run[j];
      ForceIs(config, After(config, NoState, run[..k]), run, k);
    }
  }

  lemma ForceIs(config: Config, saved: WatchState, run: seq<Sight>, k: nat)
    requires k < |run| && saved == After(config, NoState, run[..k]) && saved.Saved?
    ensures FullAt(config, run, k) <==>
              config.interval > 0 && (saved.lastFull == 0 || run[k].now >= saved.lastFull + config.interval)
  {
    hide After;
  }

  // ----- a change is reported

  /** A file is written to after a scan that hashed everything, and then left alone. Whatever its metadata, it is reported
      no later than by the first scan an interval after that full hash. */
  lemma ChangeIsReported(config: Config, run: seq<Sight>, full: nat, path: string, content: string)
    requires config.interval > 0 && !config.noEvents
    requires full < |run| - 1 && FullAt(config, run, full) && run[|run| - 1].now >= run[full].now + config.interval
    requires path in run[full].disk && run[full].disk[path].content != content && |content| <= 67_108_864
    requires Persists(run[full + 1..], path, content)
    ensures exists k :: full < k < |run| && ReportedAt(config, NoState, run, k, path)
  {
    hide After, Force, Enqueued, Persists;
    var before, rest := run[..full + 1], run[full + 1..];
    var saved := After(config, NoState, before);
    FullIsRecorded(config, run, full, path);
    var last := rest[|rest| - 1];
    assert rest == rest[..|rest| - 1] + [last] && last == run[|run| - 1];
    UnseenIsReported(config, saved, rest[..|rest| - 1], last, path, content);
    assert Reported(config, saved, rest, path);
    var k :| 0 <= k < |rest| && ReportedAt(config, saved, rest, k, path);
    AfterConcat(config, NoState, before, rest[..k]);
    assert before + rest[..k] == run[..full + 1 + k] && rest[k] == run[full + 1 + k];
    assert ReportedAt(config, NoState, run, full + 1 + k, path);
  }

  lemma FullIsRecorded(config: Config, run: seq<Sight>, full: nat, path: string)
    requires full < |run| && FullAt(config, run, full) && path in run[full].disk
    ensures var saved := After(config, NoState, run[..full + 1]);
            && saved.Saved? && saved.lastFull == run[full].now && path in saved.files
            && saved.files[path] == Hashed(path, run[full].disk[path])
  {
    hide Diff, Force;
    assert run[..full + 1] == run[..full] + [run[full]];
    AfterSnoc(config, NoState, run[..full], run[full]);
  }

  lemma {:induction false} AfterConcat(config: Config, saved: WatchState, a: seq<Sight>, b: seq<Sight>)
    ensures After(config, saved, a + b) == After(config, After(config, saved, a), b)
    decreases |b|
  {
    hide Next;
    if b == [] {
      assert a + b == a;
    } else {
      AfterConcat(config, saved, a, b[..|b| - 1]);
      assert (a + b)[..|a + b| - 1] == a + b[..|b| - 1];
    }
  }

  // ----- the events of a scan

  predicate TooLarge(file: DiskFile) {
    |file.content| > 67_108_864
  }

  /** What counts as a change of a file: its content, or, when it is too large to hash, its size and times; a status change
      time of zero is unknown. */
  predicate DiskChanged(a: DiskFile, b: DiskFile) {
    if TooLarge(a) != TooLarge(b) then true
    else if !TooLarge(a) then a.content != b.content
    else |a.content| != |b.content| || a.mod != b.mod || (a.change != 0 && b.change != 0 && a.change != b.change)
  }

  lemma DiskChangedIs(path: string, a: DiskFile, b: DiskFile)
    ensures Changed(Hashed(path, a), Hashed(path, b)) <==> DiskChanged(a, b)
  {
  }

  /** The first scan reports how many files there are, and nothing else. */
  lemma FirstScanEvents(config: Config, sight: Sight)
    ensures Enqueued(config, After(config, NoState, []), sight.disk, sight.now)
         == if config.noEvents || sight.disk == map[] then {} else {BaselineCreated(|sight.disk|)}
  {
    assert |sight.disk| == 0 <==> sight.disk == map[];
  }

  /** Every later scan of a run with faithful metadata and uniform times reports exactly what changed on disk since the scan
      before: files that are new, files that changed, and files that are gone unless their path is noisy; and that it is
      done, with the number of files, exactly when it has nothing else to report. */
  lemma ScanEvents(config: Config, present: bool, run: seq<Sight>, last: Sight, sight: Sight, path: string)
    requires Faithful(run + [last] + [sight]) && UniformDisks(present, run + [last] + [sight]) && !config.noEvents
    ensures var events := Enqueued(config, After(config, NoState, run + [last]), sight.disk, sight.now);
            var old', new' := last.disk, sight.disk;
            && (Created(path) in events <==> path in new' && path !in old')
            && (Modified(path) in events <==> path in old' && path in new' && DiskChanged(old'[path], new'[path]))
            && (Deleted(path) in events <==> path in old' && path !in new' && !config.noisy(path))
            && (forall n: nat :: ScanCompleted(n) in events <==> n == |new'| && Same(config, old', new'))
            && (forall n: nat :: BaselineCreated(n) !in events)
  {
    hide Faithful, UniformDisks, After, FullScan, Diff, Found, DiskChanged, Current;
    var saved := After(config, NoState, run + [last]);
    var found := Found(config, saved, sight.disk, sight.now);
    EventsAreFullDiffs(config, present, run, last, sight);
    UniformPrefix(present, run + [last], sight);
    FaithfulPrefix(run + [last], sight);
    SavedStandsForLast(config, present, run, last);
    DiffOfDisks(config, last.disk, sight.disk, path);
    SameIff(config, last.disk, sight.disk);
  }

  /** Nothing to report. */
  predicate Same(config: Config, old': Disk, new': Disk) {
    && (forall p | p in new' :: p in old' && !DiskChanged(old'[p], new'[p]))
    && (forall p | p in old' && p !in new' :: config.noisy(p))
  }

  lemma DiffOfDisks(config: Config, old': Disk, new': Disk, path: string)
    ensures var found := Diff(config.noisy, FullScan(old'), FullScan(new'));
            && (Created(path) in found <==> path in new' && path !in old')
            && (Modified(path) in found <==> path in old' && path in new' && DiskChanged(old'[path], new'[path]))
            && (Deleted(path) in found <==> path in old' && path !in new' && !config.noisy(path))
            && (forall e | e in found :: e.Created? || e.Modified? || e.Deleted?)
  {
    hide DiskChanged, Diff, Changed, Hashed;
    DiffExactly(config.noisy, FullScan(old'), FullScan(new'), path);
    if path in old' && path in new' {
      DiskChangedIs(path, old'[path], new'[path]);
    }
    if path in old' {
      assert FullScan(old')[path].path == path by { HashedPath(path, old'[path]); }
    }
  }

  lemma HashedPath(path: string, file: DiskFile)
    ensures Hashed(path, file).path == path
  {
  }

  lemma DiffExactly(noisy: string -> bool, old': Files, new': Files, path: string)
    ensures var found := Diff(noisy, old', new');
            && (Created(path) in found <==> path in new' && path !in old')
            && (Modified(path) in found <==> path in old' && path in new' && Changed(old'[path], new'[path]))
            && (Deleted(path) in found <==> path in old' && path !in new' && !noisy(old'[path].path))
            && (forall e | e in found :: e.Created? || e.Modified? || e.Deleted?)
  {
    hide Changed;
  }

  lemma SameIff(config: Config, old': Disk, new': Disk)
    ensures Diff(config.noisy, FullScan(old'), FullScan(new')) == {} <==> Same(config, old', new')
  {
    hide Diff, FullScan, DiskChanged;
    var found := Diff(config.noisy, FullScan(old'), FullScan(new'));
    forall path ensures Created(path) !in found && Modified(path) !in found && Deleted(path) !in found
                  <==> (path in new' ==> path in old' && !DiskChanged(old'[path], new'[path]))
                       && (path in old' && path !in new' ==> config.noisy(path)) {
      DiffOfDisks(config, old', new', path);
    }
    forall e | e in found ensures exists p :: e == Created(p) || e == Modified(p) || e == Deleted(p) {
      DiffOfDisks(config, old', new', "");
      assert e == Created(e.path) || e == Modified(e.path) || e == Deleted(e.path);
    }
    if found == {} {
      forall p ensures (p in new' ==> p in old' && !DiskChanged(old'[p], new'[p]))
                       && (p in old' && p !in new' ==> config.noisy(p)) {
        assert Created(p) !in found;
      }
    }
  }
}
