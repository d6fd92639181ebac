/** The transactions that remove rows and the ones that relabel titles. */
module Upkeep {
  import opened Prelude
  import opened Catalog

  // ----- removing rows: _remove_file, _cleanup_empty, _prune_missing, handle_missing_path -----

  ghost function Removal(db: Db, f: nat): Event
    requires f in db.files
  {
    FileEvent(Removed, f, db.files[f].path, Some(db.files[f].body), None)
  }

  /** The rows `gone`, removed in that order, each leaving its last snapshot in the outbox. */
  ghost function Detached(db: Db, gone: seq<nat>): Db
    requires forall f <- gone :: f in db.files
  {
    db.(files := db.files - (set f | f in gone),
        log := db.log + seq(|gone|, k requires 0 <= k < |gone| => Removal(db, gone[k])))
  }

  /** Seasons left without files go, then titles left without seasons. */
  ghost function WithoutEmpties(db: Db): Db {
    var seasons := map s | s in db.seasons && HasFile(db, s) :: db.seasons[s];
    db.(seasons := seasons,
        items := map i | i in db.items && HasSeason(db.(seasons := seasons), i) :: db.items[i])
  }

  ghost function Swept(db: Db, gone: seq<nat>): Db
    requires forall f <- gone :: f in db.files
  {
    WithoutEmpties(Detached(db, gone))
  }

  /** What a prune of one library must remove: its rows whose path is no longer on disk. */
  ghost function Missing(db: Db, library: nat, disk: set<Path>): set<nat>
    requires ForeignKeys(db)
  {
    set f | f in db.files && LibraryOf(db, f) == library && db.files[f].path !in disk
  }

  lemma CleanupKeepsKeys(db: Db)
    requires ForeignKeys(db)
    ensures ForeignKeys(WithoutEmpties(db)) && NoEmptyParents(WithoutEmpties(db))
  {
    var next := WithoutEmpties(db);
    forall s <- next.seasons ensures next.seasons[s].item in next.items && HasFile(next, s) {
      assert HasFile(db, s);
      var f :| f in db.files && db.files[f].season == s;
      assert next.files[f].season == s;
      assert HasSeason(db.(seasons := next.seasons), next.seasons[s].item);
    }
    forall i <- next.items ensures HasSeason(next, i) {
      assert HasSeason(db.(seasons := next.seasons), i);
      var s :| s in next.seasons && next.seasons[s].item == i;
      assert next.seasons[s].item == i;
    }
    forall f <- next.files ensures next.files[f].season in next.seasons {
      assert HasFile(db, next.files[f].season);
    }
  }

  lemma SweepKeepsStructure(db: Db, gone: seq<nat>)
    requires Structural(db) && forall f <- gone :: f in db.files
    ensures Structural(Swept(db, gone))
  {
    var mid := Detached(db, gone);
    assert ForeignKeys(mid);
    CleanupKeepsKeys(mid);
    SweepKeepsUniqueness(db, gone);
  }

  lemma SweepKeepsUniqueness(db: Db, gone: seq<nat>)
    requires UniquePaths(db) && UniqueTitles(db) && UniqueSeasons(db)
    requires forall f <- gone :: f in db.files
    ensures var next := Swept(db, gone); UniquePaths(next) && UniqueTitles(next) && UniqueSeasons(next)
  {
    var next := Swept(db, gone);
    assert forall i <- next.items :: i in db.items && next.items[i] == db.items[i];
    assert forall s <- next.seasons :: s in db.seasons && next.seasons[s] == db.seasons[s];
    assert forall f <- next.files :: f in db.files && next.files[f] == db.files[f];
  }

  /** Whatever is removed: the other rows stay as they are, each removed row leaves one event with its last
      contents, and of the parents exactly those stay that still have something under them. */
  lemma SweptExactly(db: Db, gone: seq<nat>, next: Db)
    requires (forall f <- gone :: f in db.files) && next == Swept(db, gone)
    ensures forall f :: f in next.files <==> f in db.files && f !in gone
    ensures forall f <- next.files :: next.files[f] == db.files[f]
    ensures |next.log| == |db.log| + |gone| && db.log <= next.log
    ensures forall k | 0 <= k < |gone| ::
              next.log[|db.log| + k]
              == FileEvent(Removed, gone[k], db.files[gone[k]].path, Some(db.files[gone[k]].body), None)
    ensures forall s :: s in next.seasons <==> s in db.seasons && exists f <- next.files :: next.files[f].season == s
    ensures forall s <- next.seasons :: next.seasons[s] == db.seasons[s]
    ensures forall i :: i in next.items <==> i in db.items && exists s <- next.seasons :: next.seasons[s].item == i
    ensures forall i <- next.items :: next.items[i] == db.items[i]
  {
    assert forall s :: HasFile(Detached(db, gone), s) <==> exists f <- next.files :: next.files[f].season == s;
  }

  /** A prune removes the rows of its library whose path is not on disk, each once, and no other row. */
  lemma PruneExactly(db: Db, library: nat, disk: set<Path>, gone: seq<nat>)
    requires ForeignKeys(db) && Lists(gone, Missing(db, library, disk))
    ensures NoDuplicates(gone)
    ensures forall f <- db.files ::
              f in Swept(db, gone).files
              <==> db.files[f].path in disk || db.items[db.seasons[db.files[f].season].item].library != library
  {
    SweptExactly(db, gone, Swept(db, gone));
  }

  // ----- relabelling titles: _reclassify_item and its callers -----

  /** What classify() reads of a title: everything stored about it except its current verdict. */
  datatype Evidence = Evidence(item: Item, seasons: map<nat, Season>, files: map<nat, File>)

  type Judge = Evidence -> Verdict

  function Unjudged(i: Item): Item {
    i.(classification := None, confidence := None, reasons := [])
  }

  function EvidenceOf(db: Db, i: nat): Evidence
    requires i in db.items
  {
    var seasons := map s | s in db.seasons && db.seasons[s].item == i :: db.seasons[s];
    Evidence(Unjudged(db.items[i]), seasons,
             map f | f in db.files && db.files[f].season in seasons :: db.files[f])
  }

  function Judged(i: Item, v: Verdict): Item {
    i.(classification := Some(v.classification), confidence := Some(v.confidence), reasons := v.reasons)
  }

  function Relabelled(db: Db, i: nat, judge: Judge): Db
    requires i in db.items
  {
    var item := db.items[i];
    if item.overridden then db
    else
      var v := judge(EvidenceOf(db, i));
      var moved := Some(v.classification) != item.classification;
      db.(items := db.items[i := Judged(item, v)],
          log := if moved then db.log + [Reclassified(i, item.classification, Some(v.classification))]
                 else db.log)
  }

  /** What a title is judged to be once it has no season left. */
  function EmptyVerdict(last: Item, judge: Judge): Verdict {
    judge(Evidence(Unjudged(last), map[], map[]))
  }

  predicate Echoes(last: Item, judge: Judge) {
    !last.overridden && Some(EmptyVerdict(last, judge).classification) != last.classification
  }

  function EchoOf(i: nat, last: Item, judge: Judge): Event {
    Reclassified(i, last.classification, Some(EmptyVerdict(last, judge).classification))
  }

  /** Relabelling a title the same transaction has just deleted: its row object is still in the loaded
      collection, without seasons, so only an event can come of it. */
  function Echoed(db: Db, i: nat, last: Item, judge: Judge): Db {
    if Echoes(last, judge) then db.(log := db.log + [EchoOf(i, last, judge)]) else db
  }

  function Visited(db: Db, removed: map<nat, Item>, i: nat, judge: Judge): Db {
    if i in db.items then Relabelled(db, i, judge)
    else if i in removed then Echoed(db, i, removed[i], judge)
    else db
  }

  /** A whole pass over `order`, one title after another; `removed` are the titles already deleted by the
      same transaction. */
  function RelabelledAll(db: Db, removed: map<nat, Item>, order: seq<nat>, judge: Judge): (next: Db)
    ensures next.items.Keys == db.items.Keys && next.seasons == db.seasons && next.files == db.files
    decreases |order|
  {
    if order == [] then db
    else
      var last := |order| - 1;
      Visited(RelabelledAll(db, removed, order[..last], judge), removed, order[last], judge)
  }

  predicate Settled(db: Db, i: nat, judge: Judge)
    requires i in db.items
  {
    db.items[i].overridden || db.items[i] == Judged(db.items[i], judge(EvidenceOf(db, i)))
  }

  lemma RelabelSettles(db: Db, i: nat, judge: Judge)
    requires i in db.items
    ensures Settled(Relabelled(db, i, judge), i, judge)
    ensures forall j <- db.items :: Settled(db, j, judge) ==> Settled(Relabelled(db, i, judge), j, judge)
  {
    var next := Relabelled(db, i, judge);
    forall j <- db.items ensures EvidenceOf(next, j) == EvidenceOf(db, j) {
      assert Unjudged(next.items[j]) == Unjudged(db.items[j]);
    }
  }

  lemma SettledIsFixed(db: Db, i: nat, judge: Judge)
    requires i in db.items && Settled(db, i, judge)
    ensures Relabelled(db, i, judge) == db
  {
    assert db.items[i := db.items[i]] == db.items;
  }

  lemma {:induction false} PassSettles(db: Db, removed: map<nat, Item>, order: seq<nat>, judge: Judge)
    ensures forall i <- order :: i in db.items ==> Settled(RelabelledAll(db, removed, order, judge), i, judge)
    decreases |order|
  {
    if order == [] {
    } else {
      var last := |order| - 1;
      var front := order[..last];
      PassSettles(db, removed, front, judge);
      VisitSettles(RelabelledAll(db, removed, front, judge), removed, order[last], judge);
      assert forall i <- order :: i in front || i == order[last];
    }
  }

  lemma VisitSettles(db: Db, removed: map<nat, Item>, i: nat, judge: Judge)
    ensures i in db.items ==> Settled(Visited(db, removed, i, judge), i, judge)
    ensures forall j <- db.items :: Settled(db, j, judge) ==> Settled(Visited(db, removed, i, judge), j, judge)
  {
    if i in db.items {
      RelabelSettles(db, i, judge);
    } else {
      assert forall j <- db.items :: EvidenceOf(Visited(db, removed, i, judge), j) == EvidenceOf(db, j);
    }
  }

  lemma {:induction false} SettledPassIsFixed(db: Db, order: seq<nat>, judge: Judge)
    requires forall i <- order :: i in db.items && Settled(db, i, judge)
    ensures RelabelledAll(db, map[], order, judge) == db
    decreases |order|
  {
    if order == [] {
    } else {
      var last := |order| - 1;
      assert forall i <- order[..last] :: i in order;
      SettledPassIsFixed(db, order[..last], judge);
      SettledIsFixed(db, order[last], judge);
    }
  }

  /** Replaying classification over unchanged inputs is idempotent: the second pass, in whatever
      order, changes no row and emits no event, whatever the first one's transaction had deleted. */
  lemma SecondPassIsSilent(db: Db, removed: map<nat, Item>, first: seq<nat>, second: seq<nat>, judge: Judge)
    requires forall i <- second :: i in first && i in db.items
    ensures var once := RelabelledAll(db, removed, first, judge); RelabelledAll(once, map[], second, judge) == once
  {
    PassSettles(db, removed, first, judge);
    SettledPassIsFixed(RelabelledAll(db, removed, first, judge), second, judge);
  }

  ghost predicate Retouches(db: Db, next: Db) {
    && next.seasons == db.seasons && next.files == db.files && next.items.Keys == db.items.Keys
    && forall i <- db.items ::
         next.items[i].library == db.items[i].library && next.items[i].title == db.items[i].title
  }

  lemma RelabelRetouches(db: Db, i: nat, judge: Judge)
    requires i in db.items
    ensures Retouches(db, Relabelled(db, i, judge))
  {
  }

  lemma VisitRetouches(db: Db, removed: map<nat, Item>, i: nat, judge: Judge)
    ensures Retouches(db, Visited(db, removed, i, judge))
    ensures var next := Visited(db, removed, i, judge);
            next.log == db.log || exists e: Event :: e.Reclassified? && e.item == i && next.log == db.log + [e]
  {
    var next := Visited(db, removed, i, judge);
    if i in db.items {
      RelabelRetouches(db, i, judge);
    }
    if next.log != db.log {
      var e := next.log[|db.log|];
      assert e.Reclassified? && e.item == i && next.log == db.log + [e];
    }
  }

  /** Rewriting title columns other than library and title is invisible to the structure. */
  lemma RetouchKeepsStructure(db: Db, next: Db)
    requires Structural(db) && Retouches(db, next)
    ensures Structural(next)
  {
    assert forall s <- next.seasons :: HasFile(db, s) ==> HasFile(next, s);
    assert forall i <- next.items :: HasSeason(db, i) ==> HasSeason(next, i);
  }

  // ----- titles the transaction has removed -----

  ghost predicate OnlyEchoes(events: seq<Event>, i: nat, echo: Event, some: bool) {
    && (forall e <- events :: e.Reclassified? && e.item == i ==> e == echo)
    && (echo in events <==> some)
  }

  lemma OneMoreVisit(events: seq<Event>, more: seq<Event>, i: nat, echo: Event, some: bool, next: bool)
    requires echo.Reclassified? && echo.item == i && OnlyEchoes(events, i, echo, some)
    requires OnlyEchoes(more, i, echo, next)
    ensures OnlyEchoes(events + more, i, echo, some || next)
  {
  }

  /** A pass over a collection that still holds a removed title: it writes an event for it exactly when,
      judged without any file, the title gets another label than it last had. */
  lemma {:induction false} RemovedTitleEchoesExactlyWhen(db: Db, removed: map<nat, Item>, order: seq<nat>,
                                                         judge: Judge, i: nat)
    requires i in removed && i !in db.items
    ensures var next := RelabelledAll(db, removed, order, judge);
            db.log <= next.log
            && OnlyEchoes(next.log[|db.log|..], i, EchoOf(i, removed[i], judge), i in order && Echoes(removed[i], judge))
    decreases |order|
  {
    if order != [] {
      var last := |order| - 1;
      var front, j := order[..last], order[last];
      RemovedTitleEchoesExactlyWhen(db, removed, front, judge, i);
      var mid := RelabelledAll(db, removed, front, judge);
      VisitEchoes(mid, removed, j, judge, i);
      var next := Visited(mid, removed, j, judge);
      assert next.log[|db.log|..] == mid.log[|db.log|..] + next.log[|mid.log|..];
      OneMoreVisit(mid.log[|db.log|..], next.log[|mid.log|..], i, EchoOf(i, removed[i], judge),
                   i in front && Echoes(removed[i], judge), i == j && Echoes(removed[i], judge));
      assert i in order <==> i in front || i == j;
    }
  }

  lemma VisitEchoes(db: Db, removed: map<nat, Item>, j: nat, judge: Judge, i: nat)
    requires i in removed && i !in db.items
    ensures var next := Visited(db, removed, j, judge);
            db.log <= next.log
            && OnlyEchoes(next.log[|db.log|..], i, EchoOf(i, removed[i], judge), i == j && Echoes(removed[i], judge))
  {
    var next := Visited(db, removed, j, judge);
    if next.log != db.log {
      assert next.log[|db.log|..] == [next.log[|db.log|]];
    }
  }
}
