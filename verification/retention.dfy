/**
 The retention decision engine (`Contex.process_file`): for each debug-symbol
 file it decides whether to keep or delete it, updates the run counters and
 records foreign file names that were kept.

 The class-level mutable attributes of `Contex` become an immutable
 `Context` value threaded from one file to the next. The deletion request is
 an external call; `Run` takes its outcome as the parameter `deleteOk`.
 */
module Retention {
  import opened ReleaseWindow
  import opened CoreNames

  /** One debug-symbol file as listed by the crash backend (`SentryFile`). */
  datatype SentryFile = SentryFile(id: string, dateCreated: Timestamp, size: nat, name: string)

  /** The run counters; sizes are byte totals. */
  datatype Stats = Stats(
    processed: nat,
    deletedCount: nat,
    deletedSize: nat,
    skippedReleaseCount: nat,
    skippedReleaseSize: nat,
    skippedCount: nat,
    skippedSize: nat)

  const NoStats: Stats := Stats(0, 0, 0, 0, 0, 0, 0)

  /** Every processed file was either deleted or skipped, and the release
      skips are among the skips. */
  predicate Balanced(s: Stats)
  {
    && s.processed == s.deletedCount + s.skippedCount
    && s.skippedReleaseCount <= s.skippedCount
    && s.skippedReleaseSize <= s.skippedSize
  }

  /** No counter of `s` is above the matching counter of `t`. */
  predicate StatsGrow(s: Stats, t: Stats)
  {
    && s.processed <= t.processed
    && s.deletedCount <= t.deletedCount
    && s.deletedSize <= t.deletedSize
    && s.skippedReleaseCount <= t.skippedReleaseCount
    && s.skippedReleaseSize <= t.skippedReleaseSize
    && s.skippedCount <= t.skippedCount
    && s.skippedSize <= t.skippedSize
  }

  /** The run state: the known releases, the safe time, the counters and the
      set of foreign names already kept (`non_audacity_libs`). */
  datatype Context = Context(
    releases: seq<Timestamp>,
    safeTime: Timestamp,
    stats: Stats,
    nonAudacityLibs: set<string>)

  /** Files created within this span before the start of the run are kept. */
  const SafetyMargin: int := 7 * MicrosPerDay

  /** The state at the start of a run that began at `now`. */
  function NewContext(now: Timestamp, releases: seq<Timestamp>): (c: Context)
    ensures c.releases == releases
    ensures c.safeTime < now && now - c.safeTime == 7 * MicrosPerDay
    ensures c.stats == Stats(0, 0, 0, 0, 0, 0, 0) && Balanced(c.stats)
    ensures c.nonAudacityLibs == {}
  {
    Context(releases, now - SafetyMargin, NoStats, {})
  }

  datatype SkipReason = MatchesRelease | TooNew | FirstOccurrence

  datatype Verdict = Skip(reason: SkipReason) | Delete

  /** The retention rules in the order they are tried; the first that applies
      decides. */
  function Rule(c: Context, f: SentryFile): Verdict
  {
    if IsProtected(c.releases, f.dateCreated) then Skip(MatchesRelease)
    else if f.dateCreated > c.safeTime then Skip(TooNew)
    else if !IsCore(f.name) && f.name !in c.nonAudacityLibs then Skip(FirstOccurrence)
    else Delete
  }

  datatype Processed = Processed(ctx: Context, verdict: Verdict)

  /** `process_file`, without the deletion request. The counters are raised
      for a deletion before the request is made, so the returned state is the
      state after the file whatever the request's outcome. */
  function ProcessFile(c: Context, f: SentryFile): (r: Processed)
    ensures r.verdict == Rule(c, f)
    ensures r.ctx.releases == c.releases && r.ctx.safeTime == c.safeTime
    // exactly one file more, counted exactly once
    ensures r.ctx.stats.processed == c.stats.processed + 1
    ensures r.verdict.Delete? ==>
      && r.ctx.stats.deletedCount == c.stats.deletedCount + 1
      && r.ctx.stats.deletedSize == c.stats.deletedSize + f.size
      && r.ctx.stats.skippedCount == c.stats.skippedCount
      && r.ctx.stats.skippedSize == c.stats.skippedSize
    ensures r.verdict.Skip? ==>
      && r.ctx.stats.skippedCount == c.stats.skippedCount + 1
      && r.ctx.stats.skippedSize == c.stats.skippedSize + f.size
      && r.ctx.stats.deletedCount == c.stats.deletedCount
      && r.ctx.stats.deletedSize == c.stats.deletedSize
    ensures r.verdict == Skip(MatchesRelease) ==>
      && r.ctx.stats.skippedReleaseCount == c.stats.skippedReleaseCount + 1
      && r.ctx.stats.skippedReleaseSize == c.stats.skippedReleaseSize + f.size
    ensures r.verdict != Skip(MatchesRelease) ==>
      && r.ctx.stats.skippedReleaseCount == c.stats.skippedReleaseCount
      && r.ctx.stats.skippedReleaseSize == c.stats.skippedReleaseSize
    // a foreign name is in the registry after its file, whatever the verdict;
    // core names never enter it
    ensures r.ctx.nonAudacityLibs ==
      if IsCore(f.name) then c.nonAudacityLibs else c.nonAudacityLibs + {f.name}
    ensures Balanced(c.stats) ==> Balanced(r.ctx.stats)
    ensures StatsGrow(c.stats, r.ctx.stats)
  {
    var stats := c.stats.(processed := c.stats.processed + 1);
    var inRelease := IsProtected(c.releases, f.dateCreated);
    var tooNew := !inRelease && f.dateCreated > c.safeTime;
    var stats :=
      if inRelease then
        stats.(skippedReleaseCount := stats.skippedReleaseCount + 1,
               skippedReleaseSize := stats.skippedReleaseSize + f.size)
      else stats;
    var isCore := IsCore(f.name);
    var firstOccurrence := !inRelease && !tooNew && !isCore && f.name !in c.nonAudacityLibs;
    if inRelease || tooNew || firstOccurrence then
      var libs := if !isCore then c.nonAudacityLibs + {f.name} else c.nonAudacityLibs;
      var stats := stats.(skippedCount := stats.skippedCount + 1,
                          skippedSize := stats.skippedSize + f.size);
      var reason := if inRelease then MatchesRelease else if tooNew then TooNew else FirstOccurrence;
      Processed(c.(stats := stats, nonAudacityLibs := libs), Skip(reason))
    else
      var stats := stats.(deletedCount := stats.deletedCount + 1,
                          deletedSize := stats.deletedSize + f.size);
      Processed(c.(stats := stats), Delete)
  }

  /** How a run ends: every file processed, or stopped by a deletion request
      that the backend did not answer with "no content". */
  datatype RunOutcome =
    | Completed(ctx: Context)
    | Aborted(ctx: Context, failed: SentryFile)

  /** Processes `files` in order. `deleteOk(id)` is the outcome of the
      deletion request for the file with that id; a failed request ends the
      run with the counters already raised for that file. */
  function Run(c: Context, files: seq<SentryFile>, deleteOk: string -> bool): (r: RunOutcome)
    ensures r.ctx.releases == c.releases && r.ctx.safeTime == c.safeTime
    ensures Balanced(c.stats) ==> Balanced(r.ctx.stats)
    ensures StatsGrow(c.stats, r.ctx.stats)
    ensures c.nonAudacityLibs <= r.ctx.nonAudacityLibs
    ensures r.Completed? ==> r.ctx.stats.processed == c.stats.processed + |files|
    ensures r.Aborted? ==>
      && !deleteOk(r.failed.id)
      && r.ctx.stats.deletedCount > c.stats.deletedCount
      && exists k :: 0 <= k < |files| && files[k] == r.failed
                     && r.ctx.stats.processed == c.stats.processed + k + 1
    decreases |files|
  {
    if |files| == 0 then Completed(c)
    else
      var p := ProcessFile(c, files[0]);
      if p.verdict.Delete? && !deleteOk(files[0].id) then
        Aborted(p.ctx, files[0])
      else
        var r := Run(p.ctx, files[1..], deleteOk);
        assert forall k :: 0 <= k < |files| - 1 ==> files[1..][k] == files[k + 1];
        r
  }
}
