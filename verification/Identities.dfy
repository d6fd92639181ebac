/** A title's own columns: what a committed file and a provider's answer store, and that no run overwrites an
    external id once it is known. */
module Identities {
  import opened Prelude
  import opened Catalog
  import opened Ingest
  import opened Runs
  import opened Labels

  /** A known number stays; a missing one (or zero) takes what is offered, if that is any. */
  ghost predicate NumberFilled(was: Option<int>, offered: Option<int>, now: Option<int>) {
    now == if was.Some? && was.value != 0 then was
           else if offered.Some? && offered.value != 0 then offered else was
  }

  ghost predicate TextFilled(was: Option<string>, offered: Option<string>, now: Option<string>) {
    now == if was.Some? && was.value != "" then was
           else if offered.Some? && offered.value != "" then offered else was
  }

  /** The title and the season a committed file is filed under: a new title takes the match's ids but no
      anilist id, a known one only fills in what it lacks; the season number is the match's for a show and
      missing for a film. Nothing else of a known title moves. */
  lemma CommittedTitle(db: Db, library: nat, path: Path, obs: Observation, force: bool)
    requires Process(db, library, path, obs, force).Committed?
    ensures var s, m := Process(db, library, path, obs, force), obs.found.value;
            && s.item in s.db.items && s.season in s.db.seasons
            && s.db.seasons[s.season] == Season(s.item, if m.kind == Show then m.season else None)
            && var now := s.db.items[s.item];
            && now.library == library && now.title == m.title && now.kind == m.kind
            && if s.item !in db.items then
                 now == Item(library, m.title, m.kind,
                             Ids(m.ids.year, m.ids.imdb, m.ids.tmdb, m.ids.tvdb, m.ids.anidb, None), m.status,
                             None, None, None, [], false)
               else
                 var was := db.items[s.item];
                 && now == was.(kind := m.kind, ids := now.ids, status := now.status)
                 && NumberFilled(was.ids.year, m.ids.year, now.ids.year)
                 && TextFilled(was.ids.imdb, m.ids.imdb, now.ids.imdb)
                 && NumberFilled(was.ids.tmdb, m.ids.tmdb, now.ids.tmdb)
                 && NumberFilled(was.ids.tvdb, m.ids.tvdb, now.ids.tvdb)
                 && NumberFilled(was.ids.anidb, m.ids.anidb, now.ids.anidb)
                 && now.ids.anilist == was.ids.anilist
                 && now.status == (if m.status == Matched && (was.status == Unmatched || was.status == Unresolved)
                                   then Matched else was.status)
  {
    CommitStoresShelf(db, library, path, obs, force);
  }

  /** Title and season rows of a commit are those of the shelf the match selects. */
  lemma CommitStoresShelf(db: Db, library: nat, path: Path, obs: Observation, force: bool)
    requires Process(db, library, path, obs, force).Committed?
    ensures var s, shelf := Process(db, library, path, obs, force), Shelve(db, library, obs.found.value);
            && s.item == shelf.item && s.season == shelf.season
            && s.db.items == shelf.items && s.db.seasons == shelf.seasons
            && s.item in s.db.items && s.season in s.db.seasons
  {
    var shelf := Shelve(db, library, obs.found.value);
    ShelveUpserts(db, library, obs.found.value);
    var row := FindFile(db.files, shelf.season, path);
    if row.Some? {
      RescanShape(db, shelf, row.value, obs, force);
    }
  }

  /** A provider's answer: a miss clears the stored answer only; a hit stores the answer, fills in the ids it
      resolved, and makes the title matched unless its status was set by hand or it resolved no id. */
  lemma EnrichmentFillsIn(was: Item, hit: Option<ProviderHit>)
    ensures var now := Enriched(was, hit);
            if hit.None? then now == was.(provider := None)
            else
              var ids := hit.value.ids;
              && now == was.(provider := Some(hit.value.answer), ids := now.ids, status := now.status)
              && TextFilled(was.ids.imdb, ids.imdb, now.ids.imdb)
              && NumberFilled(was.ids.tmdb, ids.tmdb, now.ids.tmdb)
              && NumberFilled(was.ids.tvdb, ids.tvdb, now.ids.tvdb)
              && NumberFilled(was.ids.anilist, ids.anilist, now.ids.anilist)
              && now.ids.year == was.ids.year && now.ids.anidb == was.ids.anidb
              && var resolved := (ids.imdb.Some? && ids.imdb.value != "") || (ids.tmdb.Some? && ids.tmdb.value != 0)
                                 || (ids.tvdb.Some? && ids.tvdb.value != 0);
                 now.status == if resolved && was.status != Manual then Matched else was.status
  {
  }

  // ----- over every run -----

  predicate KeepsNumber(was: Option<int>, now: Option<int>) {
    was.Some? && was.value != 0 ==> now == was
  }

  /** Every external id `was` knew is still the same. */
  predicate KeepsKnown(was: Ids, now: Ids) {
    && KeepsNumber(was.year, now.year) && (was.imdb.Some? && was.imdb.value != "" ==> now.imdb == was.imdb)
    && KeepsNumber(was.tmdb, now.tmdb) && KeepsNumber(was.tvdb, now.tvdb)
    && KeepsNumber(was.anidb, now.anidb) && KeepsNumber(was.anilist, now.anilist)
  }

  lemma CommitKeepsKnown(db: Db, library: nat, path: Path, obs: Observation, force: bool, item: nat)
    requires Process(db, library, path, obs, force).Committed? && item in db.items
    ensures var next := Process(db, library, path, obs, force).db;
            item in next.items && KeepsKnown(db.items[item].ids, next.items[item].ids)
  {
    CommittedTitle(db, library, path, obs, force);
    ProcessUpserts(db, library, path, obs, force);
  }

  lemma TitleStepKeepsKnown(db: Db, a: Action, item: nat)
    requires OnTitle(a) && item in db.items && !(a.Identify? && a.item == item)
    ensures var next := TitleStep(db, a); item in next.items && KeepsKnown(db.items[item].ids, next.items[item].ids)
  {
    if a.Enrich? && a.item == item {
      EnrichmentFillsIn(db.items[item], a.hit);
    }
  }

  lemma StepKeepsKnown(db: Db, a: Action, next: Db, item: nat)
    requires Next(db, a, next) && item in db.items && item in next.items && !(a.Identify? && a.item == item)
    ensures KeepsKnown(db.items[item].ids, next.items[item].ids)
  {
    if OnTitle(a) {
      TitleStepKeepsKnown(db, a, item);
    } else {
      StepShapes(db, a, next);
      if IsCommitOf(db, a, next) {
        CommitKeepsKnown(db, a.library, a.path, a.obs, a.force, item);
      }
    }
  }

  /** While a title lives, scans, enrichments, reclassifications and overrides never overwrite an external id
      it knows; only identifying it by hand can. */
  lemma {:induction false} KnownIdsStay(trace: seq<Db>, actions: seq<Action>, item: nat, i: nat, j: nat)
    requires IsRun(trace, actions) && Lives(trace, item, i, j)
    requires forall k | i <= k < j :: !(actions[k].Identify? && actions[k].item == item)
    ensures KeepsKnown(trace[i].items[item].ids, trace[j].items[item].ids)
    decreases j - i
  {
    if i < j {
      KnownIdsStay(trace, actions, item, i, j - 1);
      assert StepAt(trace, actions, j - 1);
      StepKeepsKnown(trace[j - 1], actions[j - 1], trace[j], item);
    }
  }
}
