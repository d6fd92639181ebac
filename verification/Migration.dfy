/** Bringing a database's schema to head (db.py): stamp, upgrade, drift check and repair, over a chain of
    revisions of any length. */
module Migration {
  import opened Prelude

  type Table = string
  type Schema = map<Table, set<string>>

  datatype Column = Column(table: Table, name: string)

  /** alembic_version: absent, present without a row, or recording a revision (0 is the base). */
  datatype Stamp = Unversioned | Blank | At(revision: nat)

  datatype Database = Database(tables: Schema, stamp: Stamp)

  /** The base revision creates tables; revision k + 1 adds the columns later[k], one after another. */
  datatype Chain = Chain(base: Schema, later: seq<seq<Column>>)

  const SENTINEL: Table := "libraries"

  function Head(c: Chain): nat { |c.later| }

  function Flat(cols: seq<seq<Column>>): seq<Column> {
    if cols == [] then [] else cols[0] + Flat(cols[1..])
  }

  /** Every column some revision after `from` adds. */
  function Additions(c: Chain, from: nat): seq<Column>
    requires from <= Head(c)
  {
    Flat(c.later[from..])
  }

  /** The revisions form a schema history: each later column is new, and goes into a table the base has. */
  ghost predicate WellFormed(c: Chain) {
    && SENTINEL in c.base
    && NoDuplicates(Additions(c, 0))
    && (forall col <- Additions(c, 0) :: col.table in c.base && col.name !in c.base[col.table])
  }

  // ----- DDL -----

  datatype Result<T> = Ok(value: T) | Err

  predicate HasColumn(s: Schema, col: Column) {
    col.table in s && col.name in s[col.table]
  }

  function WithColumn(s: Schema, col: Column): Schema
    requires col.table in s
  {
    s[col.table := s[col.table] + {col.name}]
  }

  /** op.add_column: fails on a missing table and on a column that already exists. */
  function AddColumn(s: Schema, col: Column): Result<Schema> {
    if col.table !in s || HasColumn(s, col) then Err else Ok(WithColumn(s, col))
  }

  function AddColumns(s: Schema, cols: seq<Column>): Result<Schema> {
    if cols == [] then Ok(s)
    else
      var next := AddColumn(s, cols[0]);
      if next.Err? then Err else AddColumns(next.value, cols[1..])
  }

  /** op.create_table for the whole base schema: fails if any of its tables is there already. */
  function CreateBase(s: Schema, base: Schema): Result<Schema> {
    if exists t <- base :: t in s then Err else Ok(s + base)
  }

  // ----- the four operations of run_migrations -----

  /** command.stamp at the base revision. */
  function Stamped(db: Database): Database {
    db.(stamp := At(0))
  }

  /** command.upgrade to head: replay every revision after the recorded one. */
  function Upgraded(c: Chain, db: Database): Result<Database> {
    match db.stamp
    case At(r) =>
      if r > Head(c) then Err   // a revision alembic cannot locate
      else
        var s := AddColumns(db.tables, Additions(c, r));
        if s.Err? then Err else Ok(Database(s.value, At(Head(c))))
    case _ =>
      var created := CreateBase(db.tables, c.base);
      if created.Err? then Err
      else
        var s := AddColumns(created.value, Additions(c, 0));
        if s.Err? then Err else Ok(Database(s.value, At(Head(c))))
  }

  /** The models' columns that should exist at head. */
  function ModelColumns(c: Chain): set<Column> {
    (set t, n | t in c.base && n in c.base[t] :: Column(t, n)) + (set col | col in Additions(c, 0))
  }

  /** _missing_columns: model columns absent from tables that exist. */
  function MissingColumns(c: Chain, db: Database): set<Column> {
    set col | col in ModelColumns(c) && col.table in db.tables && col.name !in db.tables[col.table]
  }

  /** A database from before versioning is stamped at the base. */
  function Anchored(db: Database): Database {
    if SENTINEL in db.tables && db.stamp == Unversioned then Stamped(db) else db
  }

  /** run_migrations on one database. */
  function Migrated(c: Chain, db: Database): Result<Database> {
    var up := Upgraded(c, Anchored(db));
    if up.Err? then Err
    else if MissingColumns(c, up.value) == {} then up
    else
      var again := Upgraded(c, Stamped(up.value));
      if again.Err? then Err
      else if MissingColumns(c, again.value) != {} then Err
      else again
  }

  // ----- when replaying columns works -----

  /** Replaying columns succeeds exactly when each has its table and none exists yet. */
  predicate Replayable(s: Schema, cols: seq<Column>) {
    forall col <- cols :: col.table in s && col.name !in s[col.table]
  }

  function NamesFor(cols: seq<Column>, t: Table): set<string> {
    set col | col in cols && col.table == t :: col.name
  }

  function Plus(s: Schema, cols: seq<Column>): Schema {
    map t | t in s :: s[t] + NamesFor(cols, t)
  }

  lemma NamesForSplit(cols: seq<Column>, t: Table)
    requires cols != []
    ensures NamesFor(cols, t) == (if cols[0].table == t then {cols[0].name} else {}) + NamesFor(cols[1..], t)
  {
    assert forall x :: x in cols <==> x == cols[0] || x in cols[1..];
    forall n | n in NamesFor(cols, t)
      ensures n in (if cols[0].table == t then {cols[0].name} else {}) + NamesFor(cols[1..], t)
    {
      var col :| col in cols && col.table == t && col.name == n;
      assert col == cols[0] || col in cols[1..];
    }
  }

  lemma ReplayableAfterOne(s: Schema, cols: seq<Column>)
    requires cols != [] && NoDuplicates(cols) && AddColumn(s, cols[0]).Ok?
    ensures Replayable(WithColumn(s, cols[0]), cols[1..]) <==> Replayable(s, cols)
  {
    var col, rest := cols[0], cols[1..];
    assert forall x :: x in cols <==> x == col || x in rest;
    assert col !in rest;
  }

  lemma PlusOneByOne(s: Schema, cols: seq<Column>)
    requires cols != [] && cols[0].table in s
    ensures Plus(WithColumn(s, cols[0]), cols[1..]) == Plus(s, cols)
  {
    var next := WithColumn(s, cols[0]);
    forall t <- s ensures next[t] + NamesFor(cols[1..], t) == s[t] + NamesFor(cols, t) {
      NamesForSplit(cols, t);
    }
  }

  lemma PlusNothing(s: Schema)
    ensures Plus(s, []) == s
  {
    assert forall t <- s :: s[t] + NamesFor([], t) == s[t];
  }

  lemma {:induction false} ReplayWorksExactlyWhen(s: Schema, cols: seq<Column>)
    requires NoDuplicates(cols)
    ensures AddColumns(s, cols).Ok? <==> Replayable(s, cols)
    ensures AddColumns(s, cols).Ok? ==> AddColumns(s, cols).value == Plus(s, cols)
    decreases |cols|
  {
    if cols == [] {
      PlusNothing(s);
    } else if AddColumn(s, cols[0]).Ok? {
      ReplayWorksExactlyWhen(WithColumn(s, cols[0]), cols[1..]);
      ReplayableAfterOne(s, cols);
      PlusOneByOne(s, cols);
    }
  }

  lemma {:induction false} FlatTail(cols: seq<seq<Column>>, k: nat)
    requires k <= |cols| && NoDuplicates(Flat(cols))
    ensures NoDuplicates(Flat(cols[k..]))
    ensures forall col <- Flat(cols[k..]) :: col in Flat(cols)
    decreases k
  {
    if k == 0 {
      assert cols[0..] == cols;
    } else {
      FlatTail(cols, k - 1);
      var suffix := cols[k - 1..];
      assert cols[k..] == suffix[1..] && Flat(suffix) == suffix[0] + Flat(suffix[1..]);
      assert Flat(suffix[1..]) == Flat(suffix)[|suffix[0]|..];
    }
  }

  lemma AdditionsShrink(c: Chain, from: nat)
    requires WellFormed(c) && from <= Head(c)
    ensures NoDuplicates(Additions(c, from))
    ensures forall col <- Additions(c, from) :: col in Additions(c, 0)
  {
    assert c.later[0..] == c.later;
    FlatTail(c.later, from);
  }

  // ----- the exact condition -----

  /** A column the drift check would report: its table exists, the column does not. */
  predicate Absent(s: Schema, col: Column) {
    col.table in s && col.name !in s[col.table]
  }

  ghost predicate BaseIntact(c: Chain, s: Schema) {
    forall t, n | t in c.base && n in c.base[t] :: !Absent(s, Column(t, n))
  }

  /** No column of the revisions up to r is absent. */
  predicate IntactUpTo(c: Chain, s: Schema, r: nat)
    requires r <= Head(c)
  {
    forall col <- Additions(c, 0) :: col in Additions(c, r) || !Absent(s, col)
  }

  /** What a schema recorded at revision r must look like: nothing later exists yet, no base column is
      absent, and what r promises is either all there, or r is effectively the head and none of it is. */
  ghost predicate MigratableFrom(c: Chain, s: Schema, r: nat) {
    && r <= Head(c) && Replayable(s, Additions(c, r)) && BaseIntact(c, s)
    && (IntactUpTo(c, s, r) || (Additions(c, r) == [] && Replayable(s, Additions(c, 0))))
  }

  ghost predicate Migratable(c: Chain, db: Database) {
    match db.stamp
    case At(r) => MigratableFrom(c, db.tables, r)
    case Unversioned =>
      if SENTINEL in db.tables then MigratableFrom(c, db.tables, 0) else db.tables.Keys !! c.base.Keys
    case Blank => db.tables.Keys !! c.base.Keys
  }

  lemma UpgradeWorksExactlyWhen(c: Chain, s: Schema, r: nat)
    requires WellFormed(c)
    ensures Upgraded(c, Database(s, At(r))).Ok? <==> r <= Head(c) && Replayable(s, Additions(c, r))
    ensures Upgraded(c, Database(s, At(r))).Ok? ==>
              Upgraded(c, Database(s, At(r))).value == Database(Plus(s, Additions(c, r)), At(Head(c)))
  {
    if r <= Head(c) {
      AdditionsShrink(c, r);
      ReplayWorksExactlyWhen(s, Additions(c, r));
    }
  }

  lemma AbsentAfter(s: Schema, cols: seq<Column>, col: Column)
    ensures Absent(Plus(s, cols), col) <==> Absent(s, col) && col !in cols
  {
  }

  lemma MissingAfter(c: Chain, s: Schema, r: nat)
    requires WellFormed(c) && r <= Head(c)
    ensures MissingColumns(c, Database(Plus(s, Additions(c, r)), At(Head(c)))) == {}
            <==> BaseIntact(c, s) && IntactUpTo(c, s, r)
  {
    var after := Plus(s, Additions(c, r));
    AdditionsShrink(c, r);
    forall col: Column ensures Absent(after, col) <==> Absent(s, col) && col !in Additions(c, r) {
      AbsentAfter(s, Additions(c, r), col);
    }
    var missing := MissingColumns(c, Database(after, At(Head(c))));
    assert missing == set col | col in ModelColumns(c) && Absent(after, col);
    if missing == {} {
      forall t, n | t in c.base && n in c.base[t] ensures !Absent(s, Column(t, n)) {
        assert Column(t, n) in ModelColumns(c) && Column(t, n) !in missing;
        BaseIsNotLater(c, t, n);
      }
      forall col <- Additions(c, 0) ensures col in Additions(c, r) || !Absent(s, col) {
        assert col in ModelColumns(c) && col !in missing;
      }
    }
  }

  lemma BaseIsNotLater(c: Chain, t: Table, n: string)
    requires WellFormed(c) && t in c.base && n in c.base[t]
    ensures Column(t, n) !in Additions(c, 0)
    ensures forall r: nat | r <= Head(c) :: Column(t, n) !in Additions(c, r)
  {
    forall r: nat | r <= Head(c) ensures Column(t, n) !in Additions(c, r) {
      AdditionsShrink(c, r);
    }
  }

  /** Replaying everything on top of what `r` left: only possible when there was nothing after r. */
  lemma ReplayTwice(c: Chain, s: Schema, r: nat)
    requires WellFormed(c) && r <= Head(c) && Replayable(s, Additions(c, r))
    ensures Replayable(Plus(s, Additions(c, r)), Additions(c, 0))
            <==> Additions(c, r) == [] && Replayable(s, Additions(c, 0))
  {
    var cols := Additions(c, r);
    AdditionsShrink(c, r);
    if cols == [] {
      assert forall t <- s :: s[t] + NamesFor(cols, t) == s[t];
      assert Plus(s, cols) == s;
    } else {
      AbsentAfter(s, cols, cols[0]);
    }
  }

  lemma MigrateFromRevision(c: Chain, s: Schema, r: nat)
    requires WellFormed(c)
    ensures Migrated(c, Database(s, At(r))).Ok? <==> MigratableFrom(c, s, r)
    ensures Migrated(c, Database(s, At(r))).Ok? ==>
              Migrated(c, Database(s, At(r))).value == Database(Plus(s, Additions(c, 0)), At(Head(c)))
  {
    UpgradeWorksExactlyWhen(c, s, r);
    if r <= Head(c) && Replayable(s, Additions(c, r)) {
      var mid := Plus(s, Additions(c, r));
      MissingAfter(c, s, r);
      if BaseIntact(c, s) && IntactUpTo(c, s, r) {
        IntactMeansWhole(c, s, r);
      } else {
        UpgradeWorksExactlyWhen(c, mid, 0);
        ReplayTwice(c, s, r);
        if Additions(c, r) == [] {
          assert forall t <- s :: s[t] + NamesFor(Additions(c, r), t) == s[t];
          assert mid == s;
          MissingAfter(c, s, 0);
          assert IntactUpTo(c, s, 0);
        }
      }
    }
  }

  lemma IntactMeansWhole(c: Chain, s: Schema, r: nat)
    requires WellFormed(c) && r <= Head(c) && IntactUpTo(c, s, r)
    ensures Plus(s, Additions(c, r)) == Plus(s, Additions(c, 0))
  {
    AdditionsShrink(c, r);
    forall t <- s ensures s[t] + NamesFor(Additions(c, r), t) == s[t] + NamesFor(Additions(c, 0), t) {
      forall n | n in NamesFor(Additions(c, 0), t) ensures n in s[t] + NamesFor(Additions(c, r), t) {
        var col :| col in Additions(c, 0) && col.table == t && col.name == n;
        assert col in Additions(c, r) || !Absent(s, col);
      }
    }
  }

  /** Creating everything from nothing. */
  lemma MigrateFromScratch(c: Chain, db: Database)
    requires WellFormed(c) && (db.stamp == Blank || (db.stamp == Unversioned && SENTINEL !in db.tables))
    ensures Migrated(c, db).Ok? <==> db.tables.Keys !! c.base.Keys
    ensures Migrated(c, db).Ok? ==>
              Migrated(c, db).value == Database(Plus(db.tables + c.base, Additions(c, 0)), At(Head(c)))
  {
    var created := CreateBase(db.tables, c.base);
    assert created.Ok? <==> db.tables.Keys !! c.base.Keys by {
      if t :| t in c.base && t in db.tables {
        assert t in db.tables.Keys * c.base.Keys;
      }
    }
    if created.Ok? {
      var s := db.tables + c.base;
      assert Replayable(s, Additions(c, 0));
      AdditionsShrink(c, 0);
      ReplayWorksExactlyWhen(s, Additions(c, 0));
      assert BaseIntact(c, s);
      assert IntactUpTo(c, s, 0);
      MissingAfter(c, s, 0);
    }
  }

  /** For every chain and every database: run_migrations succeeds exactly when the database is migratable,
      and then it is at head, no model column is missing from any table, and every later column has been
      added to the tables it started with. */
  lemma MigratesExactlyWhen(c: Chain, db: Database)
    requires WellFormed(c)
    ensures Migrated(c, db).Ok? <==> Migratable(c, db)
    ensures Migrated(c, db).Ok? ==>
              var start := if db.stamp == Blank || (db.stamp == Unversioned && SENTINEL !in db.tables)
                           then db.tables + c.base else db.tables;
              && Migrated(c, db).value == Database(Plus(start, Additions(c, 0)), At(Head(c)))
              && MissingColumns(c, Migrated(c, db).value) == {}
  {
    match db.stamp
    case At(r) => MigrateFromRevision(c, db.tables, r);
    case Unversioned =>
      if SENTINEL in db.tables {
        assert Stamped(db) == Database(db.tables, At(0));
        assert Migrated(c, db) == Migrated(c, Database(db.tables, At(0)));
        MigrateFromRevision(c, db.tables, 0);
      } else {
        MigrateFromScratch(c, db);
      }
    case Blank => MigrateFromScratch(c, db);
  }

  /** A migrated database has every column of the models in every table it has of theirs. */
  lemma MigratedHasEveryColumn(c: Chain, db: Database, t: Table, n: string)
    requires WellFormed(c) && Migrated(c, db).Ok? && t in Migrated(c, db).value.tables
    requires (t in c.base && n in c.base[t]) || exists k :: 0 <= k < |c.later| && Column(t, n) in c.later[k]
    ensures n in Migrated(c, db).value.tables[t]
  {
    MigratesExactlyWhen(c, db);
    if k :| 0 <= k < |c.later| && Column(t, n) in c.later[k] {
      assert c.later[0..] == c.later;
      InFlat(c.later, k, Column(t, n));
    }
    assert Column(t, n) in ModelColumns(c) && Column(t, n) !in MissingColumns(c, Migrated(c, db).value);
  }

  lemma {:induction false} InFlat(cols: seq<seq<Column>>, k: nat, col: Column)
    requires k < |cols| && col in cols[k]
    ensures col in Flat(cols)
  {
    if k > 0 {
      InFlat(cols[1..], k - 1, col);
    }
  }

  // ----- the starting points the source names -----

  /** The columns revision k leaves, starting from the base. */
  ghost function PrefixAt(c: Chain, k: nat): Schema
    requires k <= Head(c)
  {
    Plus(c.base, Flat(c.later[..k]))
  }

  lemma {:induction false} FlatSplit(cols: seq<seq<Column>>, k: nat)
    requires k <= |cols|
    ensures Flat(cols) == Flat(cols[..k]) + Flat(cols[k..])
    decreases |cols|
  {
    if k == 0 {
      assert cols[..0] == [] && cols[0..] == cols;
    } else {
      FlatSplit(cols[1..], k - 1);
      assert cols[1..][..k - 1] == cols[..k][1..] && cols[1..][k - 1..] == cols[k..];
    }
  }

  lemma ApartWhenDistinct(a: seq<Column>, b: seq<Column>)
    requires NoDuplicates(a + b)
    ensures forall col <- b :: col !in a
  {
    forall i, j | 0 <= i < |a| && 0 <= j < |b| ensures a[i] != b[j] {
      assert (a + b)[i] == a[i] && (a + b)[|a| + j] == b[j];
    }
  }

  lemma NothingToAdd(c: Chain, s: Schema)
    ensures Plus(s, []) == s
    ensures PrefixAt(c, 0) == Plus(c.base, []) && Additions(c, Head(c)) == []
  {
    assert c.later[..0] == [] && c.later[Head(c)..] == [];
    assert forall t <- s :: s[t] + NamesFor([], t) == s[t];
  }

  lemma PrefixFacts(c: Chain, k: nat)
    requires WellFormed(c) && k <= Head(c)
    ensures Replayable(PrefixAt(c, k), Additions(c, k)) && BaseIntact(c, PrefixAt(c, k))
    ensures IntactUpTo(c, PrefixAt(c, k), k)
    ensures Plus(PrefixAt(c, k), Additions(c, 0)) == PrefixAt(c, Head(c))
  {
    var early, late := Flat(c.later[..k]), Additions(c, k);
    FlatSplit(c.later, k);
    assert c.later[0..] == c.later && c.later[..Head(c)] == c.later;
    assert Additions(c, 0) == early + late;
    forall col: Column ensures Absent(PrefixAt(c, k), col) <==> Absent(c.base, col) && col !in early {
      AbsentAfter(c.base, early, col);
    }
    ApartWhenDistinct(early, late);
    forall t <- c.base
      ensures c.base[t] + NamesFor(early, t) + NamesFor(Additions(c, 0), t) == c.base[t] + NamesFor(Additions(c, 0), t)
    {
      assert NamesFor(early, t) <= NamesFor(Additions(c, 0), t) by {
        forall n <- NamesFor(early, t) ensures n in NamesFor(Additions(c, 0), t) {
          var col :| col in early && col.table == t && col.name == n;
          assert col in Additions(c, 0);
        }
      }
    }
  }

  ghost function AtHead(c: Chain): Database {
    Database(PrefixAt(c, Head(c)), At(Head(c)))
  }

  /** An empty database and an unversioned one whose schema is the base end at head, with the same schema. */
  lemma FreshStartsConverge(c: Chain)
    requires WellFormed(c)
    ensures Migrated(c, Database(map[], Unversioned)) == Ok(AtHead(c))
    ensures Migrated(c, Database(c.base, Unversioned)) == Ok(AtHead(c))
  {
    NothingToAdd(c, c.base);
    PrefixFacts(c, 0);
    var none: Schema := map[];
    assert none + c.base == c.base;
    MigrateFromScratch(c, Database(none, Unversioned));
    MigrateFromRevision(c, c.base, 0);
    assert Migrated(c, Database(c.base, Unversioned)) == Migrated(c, Database(c.base, At(0)));
  }

  /** A database that is exactly what its recorded revision made it ends at head, whatever the revision. */
  lemma RecordedPrefixConverges(c: Chain, k: nat)
    requires WellFormed(c) && k <= Head(c)
    ensures Migrated(c, Database(PrefixAt(c, k), At(k))) == Ok(AtHead(c))
  {
    PrefixFacts(c, k);
    MigrateFromRevision(c, PrefixAt(c, k), k);
  }

  lemma IntactIffNothingEarlier(c: Chain, k: nat)
    requires WellFormed(c) && k <= Head(c)
    ensures Replayable(c.base, Additions(c, 0)) && Replayable(c.base, Additions(c, k)) && BaseIntact(c, c.base)
    ensures IntactUpTo(c, c.base, k) <==> Flat(c.later[..k]) == []
  {
    var early, late := Flat(c.later[..k]), Additions(c, k);
    FlatSplit(c.later, k);
    assert c.later[0..] == c.later;
    assert Additions(c, 0) == early + late;
    ApartWhenDistinct(early, late);
    if early != [] {
      assert early[0] == Additions(c, 0)[0];
      assert Absent(c.base, early[0]);
    }
  }

  /** A base schema under a wrong stamp is repaired exactly when the stamp skips nothing, or when nothing
      comes after it (the head the old code stamped). Stamped strictly inside the chain, the upgrade adds
      what comes later and the repair then replays it onto columns that already exist. */
  lemma WrongStampRepairedExactlyWhen(c: Chain, k: nat)
    requires WellFormed(c) && k <= Head(c)
    ensures Migrated(c, Database(c.base, At(k))).Ok? <==> Flat(c.later[..k]) == [] || Flat(c.later[k..]) == []
    ensures Migrated(c, Database(c.base, At(k))).Ok? ==> Migrated(c, Database(c.base, At(k))) == Ok(AtHead(c))
  {
    IntactIffNothingEarlier(c, k);
    MigrateFromRevision(c, c.base, k);
    assert c.later[0..] == c.later && c.later[..Head(c)] == c.later;
  }

  /** A migrated database stays as it is. */
  lemma MigratingTwiceIsMigratingOnce(c: Chain, db: Database)
    requires WellFormed(c) && Migrated(c, db).Ok?
    ensures Migrated(c, Migrated(c, db).value) == Migrated(c, db)
  {
    MigratesExactlyWhen(c, db);
    var done := Migrated(c, db).value;
    assert c.later[Head(c)..] == [];
    UpgradeWorksExactlyWhen(c, done.tables, Head(c));
    assert forall t <- done.tables :: done.tables[t] + NamesFor([], t) == done.tables[t];
    assert Plus(done.tables, []) == done.tables;
  }

  // ----- what a failed run leaves behind -----

  /** An upgrade from revision r that stopped after n columns, with revision j recorded: every revision up to
      j had been applied by then. */
  ghost predicate StoppedAt(c: Chain, before: Database, r: nat, j: nat, n: nat, after: Database) {
    && r <= j <= Head(c) && |Flat(c.later[r..j])| <= n <= |Additions(c, r)|
    && AddColumns(before.tables, Additions(c, r)[..n]) == Ok(after.tables) && after.stamp == At(j)
  }

  /** Some of the base tables exist by now, those there before are as they were. */
  ghost predicate PartlyCreated(before: Schema, after: Schema, base: Schema) {
    && (forall t <- before :: t in after && after[t] == before[t])
    && (forall t <- after :: t in before || t in base)
  }

  /** What a failing upgrade may leave, whether its statements were rolled back, committed one by one, or
      committed revision by revision. */
  ghost predicate Leaves(c: Chain, before: Database, after: Database) {
    match before.stamp
    case At(r) => if r > Head(c) then after == before else exists j: nat, n: nat :: StoppedAt(c, before, r, j, n, after)
    case _ => after == before || (after.stamp == Blank && PartlyCreated(before.tables, after.tables, c.base))
  }

  /** What a failing run_migrations may leave: a stamp is committed before the upgrade that follows it, and so
      is a first upgrade that the repair then trips over. */
  ghost predicate LeftByFailure(c: Chain, db: Database, after: Database) {
    var up := Upgraded(c, Anchored(db));
    if up.Err? then Leaves(c, Anchored(db), after)
    else
      && MissingColumns(c, up.value) != {}
      && var again := Upgraded(c, Stamped(up.value));
         if again.Err? then Leaves(c, Stamped(up.value), after)
         else MissingColumns(c, again.value) != {} && after == again.value
  }

  /** One call of run_migrations in a fresh process. */
  ghost predicate Attempt(c: Chain, db: Database, after: Database) {
    if Migrated(c, db).Ok? then after == Migrated(c, db).value else LeftByFailure(c, db, after)
  }

  lemma AdditionsSplit(c: Chain, r: nat, j: nat)
    requires r <= j <= Head(c)
    ensures Additions(c, r) == Flat(c.later[r..j]) + Additions(c, j)
  {
    FlatSplit(c.later[r..], j - r);
    assert c.later[r..][..j - r] == c.later[r..j] && c.later[r..][j - r..] == c.later[j..];
  }

  lemma StoppedUpgradeStaysBlocked(c: Chain, s: Schema, r: nat, j: nat, n: nat, after: Database)
    requires WellFormed(c) && r <= Head(c) && StoppedAt(c, Database(s, At(r)), r, j, n, after)
    requires Upgraded(c, after).Ok?
    ensures Replayable(s, Additions(c, r))
  {
    var cols := Additions(c, r);
    AdditionsShrink(c, r);
    AdditionsSplit(c, r, j);
    ReplayWorksExactlyWhen(s, cols[..n]);
    UpgradeWorksExactlyWhen(c, after.tables, j);
    forall col <- cols ensures col.table in s && col.name !in s[col.table] {
      var i :| 0 <= i < |cols| && cols[i] == col;
      if i < n {
        assert col == cols[..n][i];
      } else {
        assert col == Additions(c, j)[i - |Flat(c.later[r..j])|];
      }
    }
  }

  lemma FreshUpgradeWorks(c: Chain, db: Database)
    requires WellFormed(c) && !db.stamp.At?
    ensures Upgraded(c, db).Ok? <==> forall t <- c.base :: t !in db.tables
  {
    if forall t <- c.base :: t !in db.tables {
      var s := db.tables + c.base;
      AdditionsShrink(c, 0);
      ReplayWorksExactlyWhen(s, Additions(c, 0));
    }
  }

  /** Whatever a failing upgrade leaves, upgrading again fails. */
  lemma FailedUpgradesFailAgain(c: Chain, before: Database, after: Database)
    requires WellFormed(c) && Upgraded(c, before).Err? && Leaves(c, before, after)
    ensures Upgraded(c, after).Err? && (Anchored(before) == before ==> Anchored(after) == after)
  {
    match before.stamp
    case At(r) =>
      if r <= Head(c) && Upgraded(c, after).Ok? {
        var j: nat, n: nat :| StoppedAt(c, before, r, j, n, after);
        StoppedUpgradeStaysBlocked(c, before.tables, r, j, n, after);
        UpgradeWorksExactlyWhen(c, before.tables, r);
      }
    case _ =>
      FreshUpgradeWorks(c, before);
      if after != before {
        FreshUpgradeWorks(c, after);
      }
  }

  lemma UnrepairedStaysUnrepaired(c: Chain, before: Database, after: Database)
    requires WellFormed(c) && before.stamp == At(0) && Upgraded(c, before) == Ok(after)
    requires MissingColumns(c, after) != {}
    ensures Migrated(c, after).Err?
  {
    UpgradeWorksExactlyWhen(c, before.tables, 0);
    MissingAfter(c, before.tables, 0);
    assert IntactUpTo(c, before.tables, 0);
    assert !BaseIntact(c, before.tables);
    forall col: Column ensures Absent(after.tables, col) <==> Absent(before.tables, col) && col !in Additions(c, 0) {
      AbsentAfter(before.tables, Additions(c, 0), col);
    }
    var t, n :| t in c.base && n in c.base[t] && Absent(before.tables, Column(t, n));
    BaseIsNotLater(c, t, n);
    assert Absent(after.tables, Column(t, n));
    MigrateFromRevision(c, after.tables, Head(c));
  }

  /** A failed run leaves nothing a later run could migrate. */
  lemma FailureIsPermanent(c: Chain, db: Database, after: Database)
    requires WellFormed(c) && LeftByFailure(c, db, after)
    ensures Migrated(c, after).Err?
  {
    var up := Upgraded(c, Anchored(db));
    if up.Err? {
      FailedUpgradesFailAgain(c, Anchored(db), after);
    } else {
      var again := Upgraded(c, Stamped(up.value));
      if again.Err? {
        FailedUpgradesFailAgain(c, Stamped(up.value), after);
      } else {
        UnrepairedStaysUnrepaired(c, Stamped(up.value), after);
      }
    }
  }

  /** Over any number of processes, each calling run_migrations on what the one before left: all of them
      succeed, or none does, by a condition on the database the first one found. */
  lemma {:induction false} AttemptsAgree(c: Chain, states: seq<Database>, k: nat)
    requires WellFormed(c) && k < |states|
    requires forall m | 0 <= m < |states| - 1 :: Attempt(c, states[m], states[m + 1])
    ensures Migrated(c, states[k]).Ok? <==> Migratable(c, states[0])
  {
    if k == 0 {
      MigratesExactlyWhen(c, states[0]);
    } else {
      AttemptsAgree(c, states, k - 1);
      assert Attempt(c, states[k - 1], states[k - 1 + 1]);
      if Migrated(c, states[k - 1]).Ok? {
        MigratingTwiceIsMigratingOnce(c, states[k - 1]);
      } else {
        FailureIsPermanent(c, states[k - 1], states[k]);
      }
    }
  }

  /** The database the repair cannot mend: a base schema stamped strictly inside the chain. A failed run has
      already added the later columns and recorded the base revision, and no run after it succeeds either. */
  lemma WrongStampIsFinal(c: Chain, k: nat, states: seq<Database>, m: nat)
    requires WellFormed(c) && k <= Head(c) && Flat(c.later[..k]) != [] && Flat(c.later[k..]) != []
    requires m < |states| && states[0] == Database(c.base, At(k))
    requires forall i | 0 <= i < |states| - 1 :: Attempt(c, states[i], states[i + 1])
    ensures Migrated(c, states[m]).Err?
  {
    WrongStampRepairedExactlyWhen(c, k);
    MigratesExactlyWhen(c, states[0]);
    AttemptsAgree(c, states, m);
  }

  // ----- run_migrations as the process runs it -----

  type Url = string

  ghost predicate LeavesSomething(c: Chain, wreck: Database -> Database) {
    forall db :: Upgraded(c, db).Err? ==> Leaves(c, db, wreck(db))
  }

  class Migrator {
    const chain: Chain
    /** What alembic leaves of a database whose upgrade fails. */
    const wreck: Database -> Database
    var migrated: set<Url>
    var databases: map<Url, Database>

    constructor (c: Chain, w: Database -> Database, existing: map<Url, Database>)
      ensures chain == c && wreck == w && migrated == {} && databases == existing
    {
      chain, wreck, migrated, databases := c, w, {}, existing;
    }

    /** command.upgrade to head, on whatever the database holds by then. */
    method Upgrade(db: Database) returns (ok: bool, now: Database)
      requires LeavesSomething(chain, wreck)
      ensures var up := Upgraded(chain, db);
              ok == up.Ok? && (if ok then now == up.value else Leaves(chain, db, now))
    {
      var up := Upgraded(chain, db);
      ok, now := up.Ok?, if up.Ok? then up.value else wreck(db);
    }

    /** _missing_columns: table by table, in the models' order. */
    method FindMissing(db: Database, models: seq<Column>) returns (missing: seq<Column>)
      requires forall col :: col in models <==> col in ModelColumns(chain)
      ensures forall col :: col in missing <==> col in MissingColumns(chain, db)
      ensures missing == [] <==> MissingColumns(chain, db) == {}
    {
      missing := [];
      for i := 0 to |models|
        invariant forall col :: col in missing <==> col in models[..i] && Absent(db.tables, col)
      {
        if models[i].table in db.tables && models[i].name !in db.tables[models[i].table] {
          missing := missing + [models[i]];
        }
        assert models[..i + 1] == models[..i] + [models[i]];
      }
      assert models[..|models|] == models;
      assert missing != [] ==> missing[0] in MissingColumns(chain, db);
    }

    /** The drift repair: back to the base revision, everything again, and a second look. */
    method Repair(db: Database, models: seq<Column>) returns (ok: bool, now: Database)
      requires forall col :: col in models <==> col in ModelColumns(chain)
      requires LeavesSomething(chain, wreck)
      ensures var up := Upgraded(chain, Stamped(db));
              && ok == (up.Ok? && MissingColumns(chain, up.value) == {})
              && (if up.Ok? then now == up.value else Leaves(chain, Stamped(db), now))
    {
      now := Stamped(db);
      ok, now := Upgrade(now);
      if ok {
        var missing := FindMissing(now, models);
        ok := missing == [];
      }
    }

    /** The steps of run_migrations on one database; `now` is what it holds after each of them. */
    method BringUp(db: Database, models: seq<Column>) returns (ok: bool, now: Database)
      requires forall col :: col in models <==> col in ModelColumns(chain)
      requires LeavesSomething(chain, wreck)
      ensures ok == Migrated(chain, db).Ok? && Attempt(chain, db, now)
    {
      now := db;
      if SENTINEL in now.tables && now.stamp == Unversioned {
        now := Stamped(now);
      }
      ok, now := Upgrade(now);
      if ok {
        var missing := FindMissing(now, models);
        if missing != [] {
          ok, now := Repair(now, models);
        }
      }
    }

    /** run_migrations: once per URL and process. */
    method RunMigrations(url: Url, models: seq<Column>) returns (ok: bool)
      requires forall col :: col in models <==> col in ModelColumns(chain)
      requires url in databases && LeavesSomething(chain, wreck)
      modifies this
      ensures url in old(migrated) ==> ok && migrated == old(migrated) && databases == old(databases)
      ensures url !in old(migrated) ==>
                && ok == Migrated(chain, old(databases)[url]).Ok?
                && migrated == old(migrated) + (if ok then {url} else {})
                && url in databases && databases == old(databases)[url := databases[url]]
                && Attempt(chain, old(databases)[url], databases[url])
    {
      if url in migrated {
        return true;
      }
      var now;
      ok, now := BringUp(databases[url], models);
      databases := databases[url := now];
      if ok {
        migrated := migrated + {url};
      }
    }
  }
}
