/**
 Properties of the retention decision engine: the order of the rules, what
 each rule does to the counters, the foreign-name registry, and facts about a
 whole run of `process_file` calls.
 */
module RetentionProperties {
  import opened ReleaseWindow
  import opened CoreNames
  import opened Retention

  /* ---------------- one file ---------------- */

  /** A file inside some release window is kept and counted as a release
      skip, whatever its age and name; it adds nothing to the deletions. */
  lemma ReleaseWindowAlwaysSkipped(c: Context, f: SentryFile)
    requires IsProtected(c.releases, f.dateCreated)
    ensures var r := ProcessFile(c, f);
      && r.verdict == Skip(MatchesRelease)
      && r.ctx.stats.skippedReleaseCount == c.stats.skippedReleaseCount + 1
      && r.ctx.stats.skippedReleaseSize == c.stats.skippedReleaseSize + f.size
      && r.ctx.stats.deletedCount == c.stats.deletedCount
      && r.ctx.stats.deletedSize == c.stats.deletedSize
  {
  }

  /** A file outside every release window but newer than the safe time is
      kept; it counts as a skip but not as a release skip. */
  lemma TooNewSkipped(c: Context, f: SentryFile)
    requires !IsProtected(c.releases, f.dateCreated)
    requires f.dateCreated > c.safeTime
    ensures var r := ProcessFile(c, f);
      && r.verdict == Skip(TooNew)
      && r.ctx.stats.skippedCount == c.stats.skippedCount + 1
      && r.ctx.stats.skippedSize == c.stats.skippedSize + f.size
      && r.ctx.stats.skippedReleaseCount == c.stats.skippedReleaseCount
      && r.ctx.stats.skippedReleaseSize == c.stats.skippedReleaseSize
      && r.ctx.stats.deletedCount == c.stats.deletedCount
  {
  }

  /** A core file that no release protects and that is not newer than the
      safe time is deleted, even the first time its name is seen. */
  lemma CoreFileDeleted(c: Context, f: SentryFile)
    requires IsCore(f.name)
    requires !IsProtected(c.releases, f.dateCreated)
    requires f.dateCreated <= c.safeTime
    ensures ProcessFile(c, f).verdict == Delete
    ensures ProcessFile(c, f).ctx.nonAudacityLibs == c.nonAudacityLibs
  {
  }

  /** A file the rules do not protect is deleted exactly when its name is
      core or already in the registry. */
  lemma {:induction false} UnprotectedFileDeletedIff(c: Context, f: SentryFile)
    requires !IsProtected(c.releases, f.dateCreated)
    requires f.dateCreated <= c.safeTime
    ensures ProcessFile(c, f).verdict == Delete <==> CoreByPrefix(f.name) || f.name in c.nonAudacityLibs
  {
    IsCoreIffCoreByPrefix(f.name);
  }

  /** Two old, unprotected foreign files with the same new name, processed in
      order: the first is kept as the first occurrence, the second deleted. */
  lemma DuplicateForeignNames(c: Context, a: SentryFile, b: SentryFile)
    requires a.name == b.name && !IsCore(a.name) && a.name !in c.nonAudacityLibs
    requires !IsProtected(c.releases, a.dateCreated) && a.dateCreated <= c.safeTime
    requires !IsProtected(c.releases, b.dateCreated) && b.dateCreated <= c.safeTime
    ensures ProcessFile(c, a).verdict == Skip(FirstOccurrence)
    ensures ProcessFile(ProcessFile(c, a).ctx, b).verdict == Delete
  {
  }

  /** The registry is filled by every kept foreign file, including one kept
      for a release window: a later old copy of the same name is then deleted
      although no copy was ever kept as a first occurrence. */
  lemma ReleaseSkipRegistersForeignName(c: Context, a: SentryFile, b: SentryFile)
    requires a.name == b.name && !IsCore(a.name)
    requires IsProtected(c.releases, a.dateCreated)
    requires !IsProtected(c.releases, b.dateCreated) && b.dateCreated <= c.safeTime
    ensures ProcessFile(c, a).verdict == Skip(MatchesRelease)
    ensures a.name in ProcessFile(c, a).ctx.nonAudacityLibs
    ensures ProcessFile(ProcessFile(c, a).ctx, b).verdict == Delete
  {
  }

  /* ---------------- a whole run ---------------- */

  /** The foreign names among `files`. */
  function ForeignNames(files: seq<SentryFile>): set<string>
    decreases |files|
  {
    if |files| == 0 then {}
    else (if IsCore(files[0].name) then {} else {files[0].name}) + ForeignNames(files[1..])
  }

  /** The number and total size of the files that some release protects. */
  function CountProtected(releases: seq<Timestamp>, files: seq<SentryFile>): nat
    decreases |files|
  {
    if |files| == 0 then 0
    else (if IsProtected(releases, files[0].dateCreated) then 1 else 0) + CountProtected(releases, files[1..])
  }

  function SizeProtected(releases: seq<Timestamp>, files: seq<SentryFile>): nat
    decreases |files|
  {
    if |files| == 0 then 0
    else (if IsProtected(releases, files[0].dateCreated) then files[0].size else 0) + SizeProtected(releases, files[1..])
  }

  /** After a completed run the registry holds exactly the names it started
      with plus the name of every foreign file of the run. */
  lemma {:induction false} RunRegistry(c: Context, files: seq<SentryFile>, deleteOk: string -> bool)
    requires Run(c, files, deleteOk).Completed?
    ensures Run(c, files, deleteOk).ctx.nonAudacityLibs == c.nonAudacityLibs + ForeignNames(files)
    decreases |files|
  {
    if |files| > 0 {
      RunRegistry(ProcessFile(c, files[0]).ctx, files[1..], deleteOk);
    }
  }

  /** A run ends early only at a file whose verdict was Delete: the files
      before it were all processed without stopping, and the final state is
      the state right after the failed file. */
  lemma {:induction false} RunAborted(c: Context, files: seq<SentryFile>, deleteOk: string -> bool)
    requires Run(c, files, deleteOk).Aborted?
    ensures var r := Run(c, files, deleteOk);
      exists k :: 0 <= k < |files| && files[k] == r.failed
        && Run(c, files[..k], deleteOk).Completed?
        && var p := ProcessFile(Run(c, files[..k], deleteOk).ctx, files[k]);
           p.verdict == Delete && r.ctx == p.ctx
    decreases |files|
  {
    var r := Run(c, files, deleteOk);
    var p := ProcessFile(c, files[0]);
    if p.verdict.Delete? && !deleteOk(files[0].id) {
      assert files[..0] == [];
      assert files[0] == r.failed;
    } else {
      var rest := files[1..];
      assert Run(p.ctx, rest, deleteOk) == r;
      RunAborted(p.ctx, rest, deleteOk);
      var k :| 0 <= k < |rest| && rest[k] == r.failed
        && Run(p.ctx, rest[..k], deleteOk).Completed?
        && var q := ProcessFile(Run(p.ctx, rest[..k], deleteOk).ctx, rest[k]);
           q.verdict == Delete && r.ctx == q.ctx;
      var prefix := files[..k + 1];
      assert prefix[0] == files[0];
      assert prefix[1..] == rest[..k];
      assert Run(c, prefix, deleteOk) == Run(p.ctx, rest[..k], deleteOk);
      assert files[k + 1] == rest[k];
    }
  }

  /** After a completed run the release-skip counters grew by the number and
      the total size of the files that a release protects. */
  lemma {:induction false} RunReleaseSkips(c: Context, files: seq<SentryFile>, deleteOk: string -> bool)
    requires Run(c, files, deleteOk).Completed?
    ensures var s := Run(c, files, deleteOk).ctx.stats;
      && s.skippedReleaseCount == c.stats.skippedReleaseCount + CountProtected(c.releases, files)
      && s.skippedReleaseSize == c.stats.skippedReleaseSize + SizeProtected(c.releases, files)
    decreases |files|
  {
    if |files| > 0 {
      RunReleaseSkips(ProcessFile(c, files[0]).ctx, files[1..], deleteOk);
    }
  }

  /** When every deletion request succeeds the run processes every file. */
  lemma {:induction false} RunWithoutFailuresCompletes(c: Context, files: seq<SentryFile>, deleteOk: string -> bool)
    requires forall id :: deleteOk(id)
    ensures Run(c, files, deleteOk).Completed?
    decreases |files|
  {
    if |files| > 0 {
      RunWithoutFailuresCompletes(ProcessFile(c, files[0]).ctx, files[1..], deleteOk);
    }
  }

  /** Files arrive page by page: running the pages one after the other is the
      same as running their concatenation. */
  lemma {:induction false} RunPages(c: Context, a: seq<SentryFile>, b: seq<SentryFile>, deleteOk: string -> bool)
    requires Run(c, a, deleteOk).Completed?
    ensures Run(c, a + b, deleteOk) == Run(Run(c, a, deleteOk).ctx, b, deleteOk)
    decreases |a|
  {
    if |a| > 0 {
      assert (a + b)[0] == a[0];
      assert (a + b)[1..] == a[1..] + b;
      RunPages(ProcessFile(c, a[0]).ctx, a[1..], b, deleteOk);
    } else {
      assert a + b == b;
    }
  }

  /** A run stopped by a failed deletion on one page never reaches the next
      page: the result is that of the first page alone. */
  lemma {:induction false} RunPagesAborted(c: Context, a: seq<SentryFile>, b: seq<SentryFile>, deleteOk: string -> bool)
    requires Run(c, a, deleteOk).Aborted?
    ensures Run(c, a + b, deleteOk) == Run(c, a, deleteOk)
    decreases |a|
  {
    assert (a + b)[0] == a[0];
    var p := ProcessFile(c, a[0]);
    if !(p.verdict.Delete? && !deleteOk(a[0].id)) {
      assert (a + b)[1..] == a[1..] + b;
      RunPagesAborted(p.ctx, a[1..], b, deleteOk);
    }
  }

  /** A deletion request that fails stops the run at that file: whatever
      follows it is never processed, and the final state is the state right
      after the failed file. */
  lemma RunStopsAtFailedDelete(c: Context, a: seq<SentryFile>, f: SentryFile, b: seq<SentryFile>, deleteOk: string -> bool)
    requires Run(c, a, deleteOk).Completed?
    requires ProcessFile(Run(c, a, deleteOk).ctx, f).verdict == Delete && !deleteOk(f.id)
    ensures Run(c, a + [f] + b, deleteOk) == Aborted(ProcessFile(Run(c, a, deleteOk).ctx, f).ctx, f)
  {
    RunPages(c, a, [f] + b, deleteOk);
    assert a + [f] + b == a + ([f] + b);
  }

  /* ---------------- a concrete run ---------------- */

  // One release on 2024-01-10T00:00:00Z; the run starts on 2024-01-27, so the
  // safe time is 2024-01-20. Three copies of `foo.dylib` are listed: one
  // created 2024-01-09T12:00:00Z, inside the release window, then one on
  // 2024-01-15 and one on 2024-01-16.
  const Release: Timestamp := 1_704_844_800_000_000
  const Now: Timestamp := 1_706_313_600_000_000
  const FileX: SentryFile := SentryFile("x", 1_704_801_600_000_000, 100, "foo.dylib")
  const FileY: SentryFile := SentryFile("y", 1_705_276_800_000_000, 200, "foo.dylib")
  const FileZ: SentryFile := SentryFile("z", 1_705_363_200_000_000, 300, "foo.dylib")

  const Libs: set<string> := {"foo.dylib"}
  const SafeTime: Timestamp := 1_705_708_800_000_000
  const Start: Context := Context([Release], SafeTime, NoStats, {})
  const AfterX: Context := Start.(stats := Stats(1, 0, 0, 1, 100, 1, 100), nonAudacityLibs := Libs)
  const AfterY: Context := AfterX.(stats := Stats(2, 1, 200, 1, 100, 1, 100))
  const AfterZ: Context := Context([Release], SafeTime, Stats(3, 2, 500, 1, 100, 1, 100), {"foo.dylib"})

  /** The scenario starts from the state of a fresh run. */
  lemma ScenarioStart()
    ensures Start == NewContext(Now, [Release])
    ensures SafeTime == Now - 7 * MicrosPerDay
  {
  }

  /** The first copy is kept for the release and enters the registry. */
  lemma ScenarioFirstCopy()
    ensures ProcessFile(Start, FileX) == Processed(AfterX, Skip(MatchesRelease))
  {
    ForeignExamples();
    assert InWindow(Start.releases[0], FileX.dateCreated);
  }

  /** The two later copies are deleted, since the name is already registered. */
  lemma ScenarioLaterCopies()
    ensures ProcessFile(AfterX, FileY) == Processed(AfterY, Delete)
    ensures ProcessFile(AfterY, FileZ) == Processed(AfterZ, Delete)
  {
    OutsideEveryWindow(AfterX.releases, FileY.dateCreated);
    OutsideEveryWindow(AfterY.releases, FileZ.dateCreated);
  }

  /** Every deletion request is answered with "no content". */
  function AllSucceed(id: string): bool
  {
    true
  }

  /** The whole run from the fresh state `Start` (see `ScenarioStart`), with
      every deletion request succeeding: three files processed, the two later
      copies deleted (500 bytes), the first kept for the release (100 bytes),
      and `foo.dylib` registered. */
  lemma EndToEndScenario()
    ensures Run(Start, [FileX, FileY, FileZ], AllSucceed)
      == Completed(Context([Release], SafeTime, Stats(3, 2, 500, 1, 100, 1, 100), {"foo.dylib"}))
  {
    ScenarioFirstCopy();
    ScenarioLaterCopies();
    RunFirstFile(Start, [FileX, FileY, FileZ], AllSucceed);
    RunFirstFile(AfterX, [FileY, FileZ], AllSucceed);
    RunFirstFile(AfterY, [FileZ], AllSucceed);
    assert [FileX, FileY, FileZ][1..] == [FileY, FileZ];
    assert [FileY, FileZ][1..] == [FileZ];
    assert [FileZ][1..] == [];
  }

  /** A run that gets past its first file continues from the state after it. */
  lemma RunFirstFile(c: Context, files: seq<SentryFile>, deleteOk: string -> bool)
    requires |files| > 0
    requires ProcessFile(c, files[0]).verdict.Skip? || deleteOk(files[0].id)
    ensures Run(c, files, deleteOk) == Run(ProcessFile(c, files[0]).ctx, files[1..], deleteOk)
  {
  }
}
