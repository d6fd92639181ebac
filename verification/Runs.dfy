/** Every interleaving of committed transactions from an empty database, and what no run can break. */
module Runs {
  import opened Prelude
  import opened Catalog
  import opened Probing
  import opened Ingest
  import opened Upkeep
  import opened History

  // ----- title-only transactions: enrichment, manual identification, manual override -----

  datatype ProviderHit = ProviderHit(answer: ProviderAnswer, ids: Ids)

  /** _store_provider_signals: a miss clears the stored answer, a hit fills in missing ids, and counts as a
      match unless the status was set by hand. */
  function Enriched(i: Item, hit: Option<ProviderHit>): Item {
    if hit.None? then i.(provider := None)
    else
      var ids := hit.value.ids;
      i.(provider := Some(hit.value.answer),
         ids := Ids(i.ids.year, FillText(i.ids.imdb, ids.imdb), FillInt(i.ids.tmdb, ids.tmdb),
                    FillInt(i.ids.tvdb, ids.tvdb), i.ids.anidb, FillInt(i.ids.anilist, ids.anilist)),
         status := if (Given(ids.imdb) || NonZero(ids.tmdb) || NonZero(ids.tvdb)) && i.status != Manual
                   then Matched else i.status)
  }

  predicate NonZero(n: Option<int>) { n.Some? && n.value != 0 }

  function OverriddenBy(i: Item, choice: Label): Item {
    i.(classification := Some(choice), confidence := Some(1.0), overridden := true)
  }

  function IdentifiedAs(i: Item, ids: Ids, status: MatchStatus, choice: Option<Label>): Item {
    var known := i.(ids := ids, status := status);
    if choice.Some? then known.(classification := choice, overridden := true) else known
  }

  /** RelabelRemoved: a scan relabels a title its own last transaction has deleted. */
  datatype Action =
    | ScanFile(library: nat, path: Path, obs: Observation, force: bool)
    | Prune(library: nat, disk: set<Path>, gone: seq<nat>)
    | LosePath(path: Path)
    | Relabel(item: nat, judge: Judge)
    | RelabelRemoved(item: nat, last: Item, judge: Judge)
    | Enrich(item: nat, hit: Option<ProviderHit>)
    | Identify(item: nat, ids: Ids, status: MatchStatus, choice: Option<Label>, announced: bool)
    | Override(item: nat, verdict: Label)

  function WithItem(db: Db, i: nat, row: Item): Db {
    db.(items := db.items[i := row])
  }

  /** The path's row is removed, if there is one. */
  ghost predicate Loses(db: Db, path: Path, next: Db) {
    if PathTaken(db, path)
    then exists f :: f in db.files && db.files[f].path == path && next == Swept(db, [f])
    else next == db
  }

  predicate OnTitle(a: Action) {
    !a.ScanFile? && !a.Prune? && !a.LosePath?
  }

  /** The transactions on one title's own columns. */
  function TitleStep(db: Db, a: Action): Db
    requires OnTitle(a)
  {
    if a.RelabelRemoved? then (if a.item in db.items then db else Echoed(db, a.item, a.last, a.judge))
    else if a.item !in db.items then db
    else match a
      case Relabel(item, judge) => Relabelled(db, item, judge)
      case Enrich(item, hit) => WithItem(db, item, Enriched(db.items[item], hit))
      case Identify(item, ids, status, choice, announced) =>
        WithItem(db, item, IdentifiedAs(db.items[item], ids, status, choice))
        .(log := if announced then db.log + [Identified(item)] else db.log)
      case Override(item, verdict) => WithItem(db, item, OverriddenBy(db.items[item], verdict))
  }

  /** One transaction, committed or rolled back. */
  ghost predicate Next(db: Db, a: Action, next: Db) {
    match a
    case ScanFile(library, path, obs, force) => next == After(db, Process(db, library, path, obs, force))
    case Prune(library, disk, gone) =>
      ForeignKeys(db) && Lists(gone, Missing(db, library, disk)) && next == Swept(db, gone)
    case LosePath(path) => Loses(db, path, next)
    case _ => next == TitleStep(db, a)
  }

  ghost predicate StepAt(trace: seq<Db>, actions: seq<Action>, k: nat)
    requires |trace| == |actions| + 1 && k < |actions|
  {
    Next(trace[k], actions[k], trace[k + 1])
  }

  ghost predicate IsRun(trace: seq<Db>, actions: seq<Action>) {
    && |trace| == |actions| + 1 && trace[0] == EMPTY
    && forall k | 0 <= k < |actions| :: StepAt(trace, actions, k)
  }

  // ----- one step keeps the outbox and the rows in step -----

  /** Content behind a digest: what probing and stat report for a file with that fingerprint. */
  datatype Reading = Reading(probe: Probe, size: nat)

  type World = string -> Reading

  /** Equal fingerprints imply equal probes and sizes. */
  predicate Faithful(obs: Observation, world: World) {
    obs.stat.Some? && obs.probe.Some? ==> world(obs.stat.value.digest) == Reading(obs.probe.value, obs.stat.value.size)
  }

  /** Re-reading the content behind a row's fingerprint would not move its gap-free columns. */
  predicate Stable(b: Body, world: World) {
    b.fingerprint.Some? ==>
      var content := world(b.fingerprint.value);
      Observed(b.facts, content.probe, content.size) == b.facts
  }

  predicate AllStable(db: Db, world: World) {
    forall f <- db.files :: Stable(db.files[f].body, world)
  }

  lemma RescanTells(db: Db, shelf: Shelf, f: nat, obs: Observation, force: bool)
    requires f in db.files && Rescan(db, shelf, f, obs, force).Committed?
    ensures var s := Rescan(db, shelf, f, obs, force); f in s.db.files && Told(db, s.db, f)
  {
  }

  /** Probing leaves a stable body, and one it finds no meaningful change in keeps its gap-free columns. */
  lemma RefreshIsStable(before: Body, p: Probe, st: Stat, sidecars: seq<Sidecar>, world: World)
    requires Stable(before, world) && world(st.digest) == Reading(p, st.size)
    ensures var after := Refreshed(before, p, st, sidecars);
            && Stable(after, world)
            && (!MeaningfulChange(before, after) ==> after.facts == before.facts)
  {
    ObservedIsStable(before.facts, p, st.size);
  }

  lemma RescanIsStable(db: Db, shelf: Shelf, f: nat, obs: Observation, force: bool, world: World)
    requires f in db.files && Rescan(db, shelf, f, obs, force).Committed?
    requires Stable(db.files[f].body, world) && Faithful(obs, world)
    ensures var s := Rescan(db, shelf, f, obs, force);
            && f in s.db.files && Stable(s.db.files[f].body, world)
            && (s.db.log == db.log ==> s.db.files[f].body.facts == db.files[f].body.facts)
  {
    if Readable(obs) {
      RefreshIsStable(db.files[f].body, obs.probe.value, obs.stat.value, obs.sidecars.value, world);
    }
  }

  lemma ProcessTells(db: Db, library: nat, path: Path, obs: Observation, force: bool)
    requires Process(db, library, path, obs, force).Committed?
    ensures var s := Process(db, library, path, obs, force); s.file in s.db.files && Told(db, s.db, s.file)
  {
    var shelf := Shelve(db, library, obs.found.value);
    var row := FindFile(db.files, shelf.season, path);
    if row.Some? {
      RescanTells(db, shelf, row.value, obs, force);
      RescanShape(db, shelf, row.value, obs, force);
    }
  }

  lemma ProcessIsStable(db: Db, library: nat, path: Path, obs: Observation, force: bool, world: World)
    requires Process(db, library, path, obs, force).Committed?
    requires AllStable(db, world) && Faithful(obs, world)
    ensures var s := Process(db, library, path, obs, force);
            && s.file in s.db.files && Stable(s.db.files[s.file].body, world)
            && (s.file in db.files && s.db.log == db.log
                ==> s.db.files[s.file].body.facts == db.files[s.file].body.facts)
  {
    var shelf := Shelve(db, library, obs.found.value);
    var row := FindFile(db.files, shelf.season, path);
    if row.Some? {
      RescanIsStable(db, shelf, row.value, obs, force, world);
      RescanShape(db, shelf, row.value, obs, force);
    }
  }

  lemma DetachOneMore(db: Db, gone: seq<nat>)
    requires gone != [] && NoDuplicates(gone) && forall f <- gone :: f in db.files
    ensures forall f <- gone[..|gone| - 1] :: f in gone
    ensures var front, f := Detached(db, gone[..|gone| - 1]), gone[|gone| - 1];
            && f in front.files && front.files[f] == db.files[f]
            && Detached(db, gone).files == front.files - {f}
            && Detached(db, gone).log == front.log + [Removal(front, f)]
  {
    var front := gone[..|gone| - 1];
    assert forall f <- gone :: f in front || f == gone[|gone| - 1];
  }

  lemma {:induction false} SweepIsAccounted(db: Db, gone: seq<nat>)
    requires Accounted(db) && NoDuplicates(gone) && forall f <- gone :: f in db.files
    ensures Accounted(Detached(db, gone))
    decreases |gone|
  {
    if gone == [] {
      assert db.files - (set f | f in gone) == db.files;
      assert Detached(db, gone) == db;
    } else {
      DetachOneMore(db, gone);
      SweepIsAccounted(db, gone[..|gone| - 1]);
      RemovingIsAccounted(Detached(db, gone[..|gone| - 1]), Detached(db, gone), gone[|gone| - 1]);
    }
  }

  lemma {:induction false} SweepIsGapless(db: Db, gone: seq<nat>)
    requires UniquePaths(db) && Gapless(db.log) && UpToTheRow(db)
    requires NoDuplicates(gone) && forall f <- gone :: f in db.files
    ensures Gapless(Detached(db, gone).log) && UpToTheRow(Detached(db, gone))
    decreases |gone|
  {
    if gone == [] {
      assert db.files - (set f | f in gone) == db.files;
      assert Detached(db, gone) == db;
    } else {
      DetachOneMore(db, gone);
      SweepIsGapless(db, gone[..|gone| - 1]);
      RemovingIsGapless(Detached(db, gone[..|gone| - 1]), Detached(db, gone), gone[|gone| - 1]);
    }
  }

  /** Removal steps, whichever trigger: the rows gone and the state they leave. */
  ghost predicate Removes(db: Db, next: Db, gone: seq<nat>) {
    NoDuplicates(gone) && (forall f <- gone :: f in db.files) && next == Swept(db, gone)
  }

  /** At most one event more, and none about a file. */
  ghost predicate AddsTitleEvent(db: Db, next: Db) {
    next.log == db.log || exists e: Event :: !e.FileEvent? && next.log == db.log + [e]
  }

  lemma TitleStepRetouches(db: Db, a: Action)
    requires OnTitle(a)
    ensures Retouches(db, TitleStep(db, a)) && AddsTitleEvent(db, TitleStep(db, a))
  {
    var next := TitleStep(db, a);
    if next.log != db.log {
      var e := next.log[|db.log|];
      assert !e.FileEvent? && next.log == db.log + [e];
    }
  }

  ghost predicate IsCommitOf(db: Db, a: Action, next: Db) {
    && a.ScanFile? && Process(db, a.library, a.path, a.obs, a.force).Committed?
    && next == Process(db, a.library, a.path, a.obs, a.force).db
  }

  /** The shapes a step can have, as far as files and their events are concerned. */
  lemma StepShapes(db: Db, a: Action, next: Db)
    requires Next(db, a, next)
    ensures || next == db
            || IsCommitOf(db, a, next)
            || (exists gone :: Removes(db, next, gone))
            || (Retouches(db, next) && AddsTitleEvent(db, next))
  {
    match a
    case ScanFile(library, path, obs, force) =>
    case Prune(library, disk, gone) => assert Removes(db, next, gone);
    case LosePath(path) =>
      if f :| f in db.files && db.files[f].path == path && next == Swept(db, [f]) {
        assert Removes(db, next, [f]);
      }
    case _ => TitleStepRetouches(db, a);
  }

  lemma StepKeepsStructure(db: Db, a: Action, next: Db)
    requires Structural(db) && Next(db, a, next)
    ensures Structural(next)
  {
    StepShapes(db, a, next);
    if IsCommitOf(db, a, next) {
      ProcessKeepsStructure(db, a.library, a.path, a.obs, a.force);
    } else if gone :| Removes(db, next, gone) {
      SweepKeepsStructure(db, gone);
    } else if next != db {
      RetouchKeepsStructure(db, next);
    }
  }

  lemma CommitIsAccounted(db: Db, library: nat, path: Path, obs: Observation, force: bool)
    requires Accounted(db) && Process(db, library, path, obs, force).Committed?
    requires UniquePaths(Process(db, library, path, obs, force).db)
    ensures Accounted(Process(db, library, path, obs, force).db)
  {
    var s := Process(db, library, path, obs, force);
    ProcessUpserts(db, library, path, obs, force);
    ProcessTells(db, library, path, obs, force);
    StoringIsAccounted(db, s.db, s.file);
  }

  lemma RemovalIsAccounted(db: Db, next: Db, gone: seq<nat>)
    requires Accounted(db) && Removes(db, next, gone)
    ensures Accounted(next)
  {
    SweepIsAccounted(db, gone);
    assert Paths(next) == Paths(Detached(db, gone));
  }

  lemma StepIsAccounted(db: Db, a: Action, next: Db)
    requires Accounted(db) && Next(db, a, next) && UniquePaths(next)
    ensures Accounted(next)
  {
    StepShapes(db, a, next);
    if IsCommitOf(db, a, next) {
      CommitIsAccounted(db, a.library, a.path, a.obs, a.force);
    } else if gone :| Removes(db, next, gone) {
      RemovalIsAccounted(db, next, gone);
    } else if next != db {
      TitleEventsDoNotCount(db, next);
    }
  }

  lemma TitleEventsDoNotCount(db: Db, next: Db)
    requires Accounted(db) && next.files == db.files && AddsTitleEvent(db, next)
    ensures Accounted(next)
  {
    assert Paths(next) == Paths(db);
    if e: Event :| !e.FileEvent? && next.log == db.log + [e] {
      NonFileEventsDoNotCount(db.log, e);
    }
  }

  lemma StepIsGapless(db: Db, a: Action, next: Db, world: World)
    requires UniquePaths(db) && UniquePaths(next) && Gapless(db.log) && UpToTheRow(db) && AllStable(db, world)
    requires Next(db, a, next) && (a.ScanFile? ==> Faithful(a.obs, world))
    ensures Gapless(next.log) && UpToTheRow(next) && AllStable(next, world)
  {
    StepShapes(db, a, next);
    if IsCommitOf(db, a, next) {
      ScanIsGapless(db, a.library, a.path, a.obs, a.force, world);
    } else if gone :| Removes(db, next, gone) {
      RemovalStepIsGapless(db, next, gone, world);
    } else if next != db {
      TitleStepIsGapless(db, next, world);
    }
  }

  lemma RemovalStepIsGapless(db: Db, next: Db, gone: seq<nat>, world: World)
    requires UniquePaths(db) && Gapless(db.log) && UpToTheRow(db) && AllStable(db, world)
    requires Removes(db, next, gone)
    ensures Gapless(next.log) && UpToTheRow(next) && AllStable(next, world)
  {
    SweepIsGapless(db, gone);
    var mid := Detached(db, gone);
    assert next.files == mid.files && next.log == mid.log && Paths(next) == Paths(mid);
  }

  lemma TitleStepIsGapless(db: Db, next: Db, world: World)
    requires Gapless(db.log) && UpToTheRow(db) && AllStable(db, world) && next.files == db.files
    requires AddsTitleEvent(db, next)
    ensures Gapless(next.log) && UpToTheRow(next) && AllStable(next, world)
  {
    assert Paths(next) == Paths(db);
    if e: Event :| !e.FileEvent? && next.log == db.log + [e] {
      NonFileEventsDoNotCount(db.log, e);
    }
  }

  lemma ScanIsGapless(db: Db, library: nat, path: Path, obs: Observation, force: bool, world: World)
    requires Gapless(db.log) && UpToTheRow(db) && AllStable(db, world) && Faithful(obs, world)
    requires UniquePaths(After(db, Process(db, library, path, obs, force)))
    ensures var next := After(db, Process(db, library, path, obs, force));
            Gapless(next.log) && UpToTheRow(next) && AllStable(next, world)
  {
    var s := Process(db, library, path, obs, force);
    if s.Committed? {
      ProcessUpserts(db, library, path, obs, force);
      ProcessTells(db, library, path, obs, force);
      ProcessIsStable(db, library, path, obs, force, world);
      ScanStepIsGapless(db, s.db, s.file, world);
    }
  }

  lemma ScanStepIsGapless(db: Db, next: Db, f: nat, world: World)
    requires Gapless(db.log) && UpToTheRow(db) && AllStable(db, world) && UniquePaths(next)
    requires f in next.files && next.files == db.files[f := next.files[f]] && Told(db, next, f)
    requires f in db.files ==> db.files[f].path == next.files[f].path
    requires f in db.files && next.log == db.log ==> next.files[f].body.facts == db.files[f].body.facts
    requires Stable(next.files[f].body, world)
    ensures Gapless(next.log) && UpToTheRow(next) && AllStable(next, world)
  {
    NewRowIsSole(db, next, f);
    StoringIsGapless(db, next, f);
  }

  // ----- every run -----

  /** Every committed state of every run is structurally sound, and replaying its outbox yields
      exactly the paths in its file table. */
  lemma {:induction false} RunsStaySound(trace: seq<Db>, actions: seq<Action>, k: nat)
    requires IsRun(trace, actions) && k < |trace|
    ensures Structural(trace[k]) && Accounted(trace[k])
  {
    if k > 0 {
      RunsStaySound(trace, actions, k - 1);
      assert StepAt(trace, actions, k - 1);
      StepKeepsStructure(trace[k - 1], actions[k - 1], trace[k]);
      StepIsAccounted(trace[k - 1], actions[k - 1], trace[k]);
    }
  }

  /** Over every run each path's events read (added changed* removed)*, cut off anywhere, and the
      path is in the file table exactly when its last event is not a removal. */
  lemma RunsWriteLifecycles(trace: seq<Db>, actions: seq<Action>, k: nat, path: Path)
    requires IsRun(trace, actions) && k < |trace|
    ensures var kinds := KindsOf(trace[k].log, path);
            && Lifecycle(kinds)
            && (path in Paths(trace[k]) <==> kinds != [] && kinds[|kinds| - 1] != Removed)
  {
    RunsStaySound(trace, actions, k);
    OrderlyLogsAreLifecycles(trace[k].log, path);
  }

  lemma RunsKeepPathsUnique(trace: seq<Db>, actions: seq<Action>, k: nat)
    requires IsRun(trace, actions) && k < |trace|
    ensures UniquePaths(trace[k])
  {
    RunsStaySound(trace, actions, k);
  }

  /** When equal fingerprints imply equal content, no run leaves a gap in any path's history, silent
      re-probes included: the log is gapless and its last word on each path is what the row holds. */
  lemma {:induction false} RunsAreGapless(trace: seq<Db>, actions: seq<Action>, k: nat, world: World)
    requires IsRun(trace, actions) && k < |trace|
    requires forall a <- actions :: a.ScanFile? ==> Faithful(a.obs, world)
    ensures Gapless(trace[k].log) && UpToTheRow(trace[k]) && AllStable(trace[k], world)
  {
    if k > 0 {
      RunsAreGapless(trace, actions, k - 1, world);
      RunsKeepPathsUnique(trace, actions, k - 1);
      RunsKeepPathsUnique(trace, actions, k);
      assert actions[k - 1] in actions && StepAt(trace, actions, k - 1);
      StepIsGapless(trace[k - 1], actions[k - 1], trace[k], world);
    }
  }

  /** The same, read off two consecutive events of one path. */
  lemma ConsecutiveEventsAgree(trace: seq<Db>, actions: seq<Action>, k: nat, world: World,
                               path: Path, i: nat, j: nat)
    requires IsRun(trace, actions) && k < |trace|
    requires forall a <- actions :: a.ScanFile? ==> Faithful(a.obs, world)
    requires i < j < |trace[k].log| && IsEventOf(trace[k].log[i], path) && IsEventOf(trace[k].log[j], path)
    requires forall m | i < m < j :: !IsEventOf(trace[k].log[m], path)
    ensures Agree(trace[k].log[i].after, trace[k].log[j].before)
  {
    RunsAreGapless(trace, actions, k, world);
    GaplessMeansConsecutive(trace[k].log, path, i, j);
  }
}
