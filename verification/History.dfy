/** What the outbox records: its replay, its per-path grammar and its gapless snapshots, read off
    the log alone and then tied to the rows over every run in Runs. */
module History {
  import opened Prelude
  import opened Catalog

  // ----- replay -----

  ghost function Replay(log: seq<Event>): set<Path> {
    if log == [] then {}
    else
      var front, e := Replay(log[..|log| - 1]), log[|log| - 1];
      if !e.FileEvent? then front
      else match e.change
        case Added => front + {e.path}
        case Changed => front
        case Removed => front - {e.path}
  }

  /** An event that makes sense after `log`: only absent paths are added, only present ones change
      or go, and the snapshots are there exactly when they should be. */
  ghost predicate Sensible(log: seq<Event>, e: Event) {
    e.FileEvent? ==>
      && (e.change == Added <==> e.path !in Replay(log))
      && (e.before.Some? <==> e.change != Added)
      && (e.after.Some? <==> e.change != Removed)
  }

  ghost predicate Orderly(log: seq<Event>) {
    log == [] || (Orderly(log[..|log| - 1]) && Sensible(log[..|log| - 1], log[|log| - 1]))
  }

  /** The kinds of one path's events, oldest first. */
  ghost function KindsOf(log: seq<Event>, path: Path): seq<FileChange> {
    if log == [] then []
    else
      var front, e := KindsOf(log[..|log| - 1], path), log[|log| - 1];
      if e.FileEvent? && e.path == path then front + [e.change] else front
  }

  /** Prefixes of (added changed* removed)*: an addition opens every life and nothing else does. */
  ghost predicate Lifecycle(kinds: seq<FileChange>) {
    && (kinds != [] ==> kinds[0] == Added)
    && (forall i | 0 < i < |kinds| :: kinds[i] == Added <==> kinds[i - 1] == Removed)
  }

  lemma {:induction false} OrderlyLogsAreLifecycles(log: seq<Event>, path: Path)
    requires Orderly(log)
    ensures Lifecycle(KindsOf(log, path))
    ensures var kinds := KindsOf(log, path);
            path in Replay(log) <==> kinds != [] && kinds[|kinds| - 1] != Removed
    decreases |log|
  {
    if log == [] {
    } else {
      var front, e := log[..|log| - 1], log[|log| - 1];
      OrderlyLogsAreLifecycles(front, path);
      assert Sensible(front, e);
      if e.FileEvent? && e.path == path {
        LifecycleExtends(KindsOf(front, path), e.change);
      }
    }
  }

  lemma LifecycleExtends(kinds: seq<FileChange>, next: FileChange)
    requires Lifecycle(kinds)
    requires next == Added <==> kinds == [] || kinds[|kinds| - 1] == Removed
    ensures Lifecycle(kinds + [next])
  {
    var longer := kinds + [next];
    forall i | 0 < i < |longer| ensures longer[i] == Added <==> longer[i - 1] == Removed {
      if i < |kinds| {
        assert kinds[i] == Added <==> kinds[i - 1] == Removed;
      }
    }
  }

  // ----- gapless snapshots -----

  /** Both absent, or both present with the same gap-free columns. */
  predicate Agree(a: Option<Body>, b: Option<Body>) {
    a.Some? == b.Some? && (a.Some? ==> a.value.facts == b.value.facts)
  }

  /** What the outbox last said about a path. */
  ghost function Latest(log: seq<Event>, path: Path): Option<Body> {
    if log == [] then None
    else
      var e := log[|log| - 1];
      if e.FileEvent? && e.path == path then e.after else Latest(log[..|log| - 1], path)
  }

  ghost predicate Gapless(log: seq<Event>) {
    log == [] ||
    var front, e := log[..|log| - 1], log[|log| - 1];
    Gapless(front) && (e.FileEvent? ==> Agree(Latest(front, e.path), e.before))
  }

  ghost predicate IsEventOf(e: Event, path: Path) {
    e.FileEvent? && e.path == path
  }

  lemma {:induction false} LatestIsLast(log: seq<Event>, path: Path, i: nat)
    requires i < |log| && IsEventOf(log[i], path)
    requires forall k | i < k < |log| :: !IsEventOf(log[k], path)
    ensures Latest(log, path) == log[i].after
    decreases |log|
  {
    if i < |log| - 1 {
      LatestIsLast(log[..|log| - 1], path, i);
    }
  }

  /** Between consecutive events of a path nothing is lost: the later one starts from the columns
      the earlier one ended with. */
  lemma {:induction false} GaplessMeansConsecutive(log: seq<Event>, path: Path, i: nat, j: nat)
    requires Gapless(log) && i < j < |log|
    requires IsEventOf(log[i], path) && IsEventOf(log[j], path)
    requires forall k | i < k < j :: !IsEventOf(log[k], path)
    ensures Agree(log[i].after, log[j].before)
    decreases |log|
  {
    var front := log[..|log| - 1];
    if j < |log| - 1 {
      GaplessMeansConsecutive(front, path, i, j);
    } else {
      LatestIsLast(front, path, i);
    }
  }

  // ----- the log against the rows -----

  /** Replaying the outbox gives back the file table's paths. */
  ghost predicate Accounted(db: Db) {
    UniquePaths(db) && Orderly(db.log) && Replay(db.log) == Paths(db)
  }

  /** The outbox's last word on every path is what the row holds now. */
  ghost predicate UpToTheRow(db: Db) {
    && (forall f <- db.files :: Agree(Latest(db.log, db.files[f].path), Some(db.files[f].body)))
    && (forall p: Path :: p !in Paths(db) ==> Latest(db.log, p).None?)
  }

  lemma NonFileEventsDoNotCount(log: seq<Event>, e: Event)
    requires !e.FileEvent?
    ensures Replay(log + [e]) == Replay(log)
    ensures Orderly(log) ==> Orderly(log + [e])
    ensures Gapless(log) ==> Gapless(log + [e])
    ensures forall p: Path :: Latest(log + [e], p) == Latest(log, p)
  {
    assert (log + [e])[..|log|] == log;
  }

  /** No other row has row f's path. */
  ghost predicate Sole(db: Db, f: nat, path: Path) {
    forall g <- db.files :: g != f ==> db.files[g].path != path
  }

  lemma NewRowIsSole(db: Db, next: Db, f: nat)
    requires UniquePaths(next) && f in next.files && next.files == db.files[f := next.files[f]]
    ensures Sole(db, f, next.files[f].path)
  {
    forall g <- db.files ensures g != f ==> db.files[g].path != next.files[f].path {
      assert g != f ==> next.files[g] == db.files[g];
    }
  }

  /** Storing row `f` with no event, or with the one event that tells the difference. */
  lemma StoringIsAccounted(db: Db, next: Db, f: nat)
    requires Accounted(db) && f in next.files && next.files == db.files[f := next.files[f]]
    requires UniquePaths(next)
    requires f in db.files ==> db.files[f].path == next.files[f].path
    requires Told(db, next, f)
    ensures Accounted(next)
  {
    NewRowIsSole(db, next, f);
    PathsAfterStoring(db, next, f);
    if next.log != db.log {
      assert next.log[..|db.log|] == db.log;
    }
  }

  lemma PathsAfterStoring(db: Db, next: Db, f: nat)
    requires f in next.files && next.files == db.files[f := next.files[f]]
    requires f in db.files ==> db.files[f].path == next.files[f].path
    requires Sole(db, f, next.files[f].path)
    ensures Paths(next) == Paths(db) + {next.files[f].path}
    ensures next.files[f].path in Paths(db) <==> f in db.files
  {
    forall p | p in Paths(db) + {next.files[f].path} ensures p in Paths(next) {
      if p in Paths(db) {
        var g :| g in db.files && db.files[g].path == p;
        assert next.files[g].path == p;
      }
    }
  }

  ghost predicate Told(db: Db, next: Db, f: nat)
    requires f in next.files
  {
    var row := next.files[f];
    if f !in db.files then next.log == db.log + [FileEvent(Added, f, row.path, None, Some(row.body))]
    else
      || next.log == db.log
      || next.log == db.log + [FileEvent(Changed, f, row.path, Some(db.files[f].body), Some(row.body))]
  }

  lemma StoringIsGapless(db: Db, next: Db, f: nat)
    requires Gapless(db.log) && UpToTheRow(db) && f in next.files && Sole(db, f, next.files[f].path)
    requires next.files == db.files[f := next.files[f]] && Told(db, next, f)
    requires f in db.files ==> db.files[f].path == next.files[f].path
    requires f in db.files && next.log == db.log ==> next.files[f].body.facts == db.files[f].body.facts
    ensures Gapless(next.log) && UpToTheRow(next)
  {
    PathsAfterStoring(db, next, f);
    if next.log != db.log {
      assert next.log[..|db.log|] == db.log;
    }
  }

  lemma RemovingIsAccounted(db: Db, next: Db, f: nat)
    requires Accounted(db) && f in db.files && next.files == db.files - {f}
    requires next.log == db.log + [FileEvent(Removed, f, db.files[f].path, Some(db.files[f].body), None)]
    ensures Accounted(next)
  {
    assert next.log[..|db.log|] == db.log;
    assert Paths(next) == Paths(db) - {db.files[f].path} by {
      forall p | p in Paths(db) && p != db.files[f].path ensures p in Paths(next) {
        var g :| g in db.files && db.files[g].path == p;
        assert next.files[g].path == p;
      }
    }
  }

  lemma RemovingIsGapless(db: Db, next: Db, f: nat)
    requires UniquePaths(db) && Gapless(db.log) && UpToTheRow(db)
    requires f in db.files && next.files == db.files - {f}
    requires next.log == db.log + [FileEvent(Removed, f, db.files[f].path, Some(db.files[f].body), None)]
    ensures Gapless(next.log) && UpToTheRow(next)
  {
    assert next.log[..|db.log|] == db.log;
    forall p: Path | p !in Paths(next) && p != db.files[f].path ensures p !in Paths(db) {
      if g :| g in db.files && db.files[g].path == p {
        assert next.files[g].path == p;
      }
    }
  }
}
