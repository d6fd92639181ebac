/** The outbox history of one title's verdict, over any stretch of a run in which the title lives. */
module Labels {
  import opened Prelude
  import opened Catalog
  import opened Ingest
  import opened Upkeep
  import opened History
  import opened Runs

  ghost predicate Moves(e: Event, item: nat) {
    e.Reclassified? && e.item == item
  }

  /** The label the events leave a title with that started out labelled `start`. */
  ghost function LabelAfter(events: seq<Event>, item: nat, start: Option<Label>): Option<Label> {
    if events == [] then start
    else
      var e := events[|events| - 1];
      if Moves(e, item) then e.newLabel else LabelAfter(events[..|events| - 1], item, start)
  }

  /** Every event of the title picks up the label the one before it left, and really moves it. */
  ghost predicate Chains(events: seq<Event>, item: nat, start: Option<Label>) {
    events == [] ||
    var front, e := events[..|events| - 1], events[|events| - 1];
    && Chains(front, item, start)
    && (Moves(e, item) ==> e.oldLabel == LabelAfter(front, item, start) && e.newLabel != e.oldLabel)
  }

  ghost predicate Quiet(events: seq<Event>, item: nat) {
    forall e <- events :: !Moves(e, item)
  }

  lemma {:induction false} ChainsMeanConsecutive(events: seq<Event>, item: nat, start: Option<Label>, i: nat, j: nat)
    requires Chains(events, item, start) && i < j < |events|
    requires Moves(events[i], item) && Moves(events[j], item)
    requires forall k | i < k < j :: !Moves(events[k], item)
    ensures events[j].oldLabel == events[i].newLabel
    decreases |events|
  {
    var front := events[..|events| - 1];
    if j < |events| - 1 {
      ChainsMeanConsecutive(front, item, start, i, j);
    } else {
      LastMoveStands(front, item, start, i);
    }
  }

  lemma {:induction false} LastMoveStands(events: seq<Event>, item: nat, start: Option<Label>, i: nat)
    requires i < |events| && Moves(events[i], item)
    requires forall k | i < k < |events| :: !Moves(events[k], item)
    ensures LabelAfter(events, item, start) == events[i].newLabel
    decreases |events|
  {
    if i < |events| - 1 {
      LastMoveStands(events[..|events| - 1], item, start, i);
    }
  }

  lemma {:induction false} QuietEventsKeepLabels(events: seq<Event>, more: seq<Event>, item: nat, start: Option<Label>)
    requires Quiet(more, item) && Chains(events, item, start)
    ensures Chains(events + more, item, start)
    ensures LabelAfter(events + more, item, start) == LabelAfter(events, item, start)
    decreases |more|
  {
    if more == [] {
      assert events + more == events;
    } else {
      assert (events + more)[..|events + more| - 1] == events + more[..|more| - 1];
      QuietEventsKeepLabels(events, more[..|more| - 1], item, start);
      assert more[|more| - 1] in more;
    }
  }

  // ----- one step -----

  /** A step that does not relabel a surviving title itself says nothing about its label and leaves
      its verdict alone, unless it pins it by hand. */
  ghost predicate Bystander(db: Db, next: Db, item: nat) {
    && item in db.items && item in next.items
    && db.log <= next.log && Quiet(next.log[|db.log|..], item)
    && (db.items[item].overridden ==> next.items[item].overridden)
    && (!next.items[item].overridden ==>
          next.items[item].classification == db.items[item].classification)
  }

  lemma ScanIsBystander(db: Db, library: nat, path: Path, obs: Observation, force: bool, item: nat)
    requires item in db.items
    ensures Bystander(db, After(db, Process(db, library, path, obs, force)), item)
  {
    var s := Process(db, library, path, obs, force);
    if s.Committed? {
      var shelf := Shelve(db, library, obs.found.value);
      ShelveUpserts(db, library, obs.found.value);
      assert item in shelf.items && shelf.items[item].overridden == db.items[item].overridden
             && shelf.items[item].classification == db.items[item].classification;
      var row := FindFile(db.files, shelf.season, path);
      if row.Some? {
        RescanIsQuiet(db, shelf, row.value, obs, force, item);
      }
    }
  }

  lemma RescanIsQuiet(db: Db, shelf: Shelf, f: nat, obs: Observation, force: bool, item: nat)
    requires f in db.files && Rescan(db, shelf, f, obs, force).Committed?
    ensures var next := Rescan(db, shelf, f, obs, force).db;
            next.items == shelf.items && db.log <= next.log && Quiet(next.log[|db.log|..], item)
  {
    RescanShape(db, shelf, f, obs, force);
    RescanTells(db, shelf, f, obs, force);
    ToldIsQuiet(db, Rescan(db, shelf, f, obs, force).db, f, item);
  }

  lemma ToldIsQuiet(db: Db, next: Db, f: nat, item: nat)
    requires f in next.files && Told(db, next, f)
    ensures db.log <= next.log && Quiet(next.log[|db.log|..], item)
  {
    if next.log != db.log {
      assert next.log[|db.log|..] == [next.log[|db.log|]];
    }
  }

  lemma SweepIsBystander(db: Db, gone: seq<nat>, item: nat)
    requires forall f <- gone :: f in db.files
    requires item in db.items && item in Swept(db, gone).items
    ensures Bystander(db, Swept(db, gone), item)
  {
    var next := Swept(db, gone);
    assert next.log[|db.log|..] == seq(|gone|, k requires 0 <= k < |gone| => Removal(db, gone[k]));
  }

  lemma TitleStepIsBystander(db: Db, a: Action, item: nat)
    requires OnTitle(a) && item in db.items && !(a.Relabel? && a.item == item)
    ensures Bystander(db, TitleStep(db, a), item)
  {
    var next := TitleStep(db, a);
    if next.log != db.log {
      assert next.log[|db.log|..] == [next.log[|db.log|]];
    }
  }

  lemma LossIsBystander(db: Db, path: Path, next: Db, item: nat)
    requires Loses(db, path, next) && item in db.items && item in next.items
    ensures Bystander(db, next, item)
  {
    if f :| f in db.files && db.files[f].path == path && next == Swept(db, [f]) {
      SweepIsBystander(db, [f], item);
    }
  }

  lemma StepIsBystander(db: Db, a: Action, next: Db, item: nat)
    requires Next(db, a, next) && item in db.items && item in next.items
    requires !(a.Relabel? && a.item == item)
    ensures Bystander(db, next, item)
  {
    match a
    case ScanFile(library, path, obs, force) => ScanIsBystander(db, library, path, obs, force, item);
    case Prune(library, disk, gone) => SweepIsBystander(db, gone, item);
    case LosePath(path) => LossIsBystander(db, path, next, item);
    case _ => TitleStepIsBystander(db, a, item);
  }

  // ----- every stretch of every run -----

  /** The life of a title from trace[i] to trace[j]. */
  ghost predicate Lives(trace: seq<Db>, item: nat, i: nat, j: nat) {
    i <= j < |trace| && forall k | i <= k <= j :: item in trace[k].items
  }

  /** The title's verdict is the one its events since `since` lead to. */
  ghost predicate Followed(since: seq<Event>, db: Db, item: nat, start: Option<Label>) {
    && since <= db.log && item in db.items
    && var events := db.log[|since|..];
    && Chains(events, item, start)
    && (!db.items[item].overridden ==> db.items[item].classification == LabelAfter(events, item, start))
  }

  /** While a title lives: its item.reclassified events chain from the label it had at the start,
      and unless it has been pinned by hand it carries the label the last of them announced. Once it
      is pinned it stays pinned. */
  lemma {:induction false} LabelsChain(trace: seq<Db>, actions: seq<Action>, item: nat, i: nat, j: nat)
    requires IsRun(trace, actions) && Lives(trace, item, i, j)
    ensures Followed(trace[i].log, trace[j], item, trace[i].items[item].classification)
    ensures trace[i].items[item].overridden ==> trace[j].items[item].overridden
    decreases j - i
  {
    if i < j {
      LabelsChain(trace, actions, item, i, j - 1);
      var start := trace[i].items[item].classification;
      assert StepAt(trace, actions, j - 1);
      ChainGrows(trace[i].log, trace[j - 1], actions[j - 1], trace[j], item, start);
    }
  }

  lemma RelabelKeepsChain(since: seq<Event>, db: Db, item: nat, judge: Judge, start: Option<Label>)
    requires Followed(since, db, item, start)
    ensures Followed(since, Relabelled(db, item, judge), item, start)
  {
    var next, earlier := Relabelled(db, item, judge), db.log[|since|..];
    if next.log != db.log {
      assert next.log[|since|..] == earlier + [next.log[|db.log|]];
      assert (earlier + [next.log[|db.log|]])[..|earlier|] == earlier;
    }
  }

  lemma ChainGrows(since: seq<Event>, db: Db, a: Action, next: Db, item: nat, start: Option<Label>)
    requires Next(db, a, next) && Followed(since, db, item, start) && item in next.items
    ensures Followed(since, next, item, start)
    ensures db.items[item].overridden ==> next.items[item].overridden
  {
    if a.Relabel? && a.item == item {
      RelabelKeepsChain(since, db, item, a.judge, start);
    } else {
      StepIsBystander(db, a, next, item);
      BystanderKeepsChain(since, db, next, item, start);
    }
  }

  lemma BystanderKeepsChain(since: seq<Event>, db: Db, next: Db, item: nat, start: Option<Label>)
    requires Followed(since, db, item, start) && Bystander(db, next, item)
    ensures Followed(since, next, item, start)
  {
    var earlier := db.log[|since|..];
    assert next.log[|since|..] == earlier + next.log[|db.log|..];
    QuietEventsKeepLabels(earlier, next.log[|db.log|..], item, start);
  }

  /** After any manual override, whatever scans, enrichments, identifications and reclassifications
      follow, no item.reclassified event is ever written for the title again. */
  lemma {:induction false} OverridesAreFinal(trace: seq<Db>, actions: seq<Action>, item: nat, i: nat, j: nat)
    requires IsRun(trace, actions) && Lives(trace, item, i, j) && trace[i].items[item].overridden
    ensures trace[i].log <= trace[j].log && Quiet(trace[j].log[|trace[i].log|..], item)
    ensures trace[j].items[item].overridden
    decreases j - i
  {
    if i < j {
      OverridesAreFinal(trace, actions, item, i, j - 1);
      var db, a, next := trace[j - 1], actions[j - 1], trace[j];
      assert StepAt(trace, actions, j - 1);
      if !(a.Relabel? && a.item == item) {
        StepIsBystander(db, a, next, item);
        assert next.log[|trace[i].log|..] == db.log[|trace[i].log|..] + next.log[|db.log|..];
      }
    }
  }
}
