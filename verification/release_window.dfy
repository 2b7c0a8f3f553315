/**
 The release protection window (`Contex._is_in_release_timeframe`). A debug
 symbol file is protected when it was created during the day before some
 known release was published; both ends of that day are excluded.
 Timestamps are UTC instants counted in microseconds, the resolution of
 Python's `datetime`.
 */
module ReleaseWindow {

  type Timestamp = int

  const MicrosPerDay: int := 86_400_000_000

  /** `release - 1 day < t < release`. */
  predicate InWindow(release: Timestamp, t: Timestamp)
  {
    release - MicrosPerDay < t < release
  }

  /** Some known release protects `t`. */
  predicate IsProtected(releases: seq<Timestamp>, t: Timestamp)
  {
    exists i :: 0 <= i < |releases| && InWindow(releases[i], t)
  }

  /** The loop over the release list, returning at the first release whose
      window contains the creation time. */
  method IsInReleaseTimeframe(releases: seq<Timestamp>, t: Timestamp) returns (r: bool)
    ensures r <==> IsProtected(releases, t)
  {
    var k := 0;
    while k < |releases|
      invariant 0 <= k <= |releases|
      invariant forall j :: 0 <= j < k ==> !InWindow(releases[j], t)
    {
      if releases[k] - MicrosPerDay < t < releases[k] {
        return true;
      }
      k := k + 1;
    }
    return false;
  }

  /** Both ends of a window are excluded: a file created exactly at a release,
      or exactly one day before it, is not protected by a release list that
      holds only that release. */
  lemma WindowEndsExcluded(release: Timestamp, t: Timestamp)
    requires t == release || t == release - MicrosPerDay
    ensures !IsProtected([release], t)
  {
  }

  /** A creation time on or before the start of every window, or on or after
      every release, is unprotected. */
  lemma OutsideEveryWindow(releases: seq<Timestamp>, t: Timestamp)
    requires forall i :: 0 <= i < |releases| ==> t <= releases[i] - MicrosPerDay || releases[i] <= t
    ensures !IsProtected(releases, t)
  {
  }

  /** The check is existential over the releases: the order in which they were
      fetched, and repetitions, do not matter. */
  lemma {:induction false} ProtectionDependsOnlyOnTheSet(a: seq<Timestamp>, b: seq<Timestamp>, t: Timestamp)
    requires forall x :: x in a <==> x in b
    ensures IsProtected(a, t) <==> IsProtected(b, t)
  {
    if IsProtected(a, t) {
      var i :| 0 <= i < |a| && InWindow(a[i], t);
      assert a[i] in b;
      var j :| 0 <= j < |b| && b[j] == a[i];
      assert InWindow(b[j], t);
    }
    if IsProtected(b, t) {
      var j :| 0 <= j < |b| && InWindow(b[j], t);
      assert b[j] in a;
      var i :| 0 <= i < |a| && a[i] == b[j];
      assert InWindow(a[i], t);
    }
  }
}
