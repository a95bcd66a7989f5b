/**
 The migration runner. A database records which migrations it has applied; a start of the
 application checks that the record is a prefix of its own list, applies the rest, and validates the
 outcome, all in one transaction. Schemas, statements and the validation are parameters.
 */
module Migrations {
  import opened Wrappers
  import opened CanonicalJson
  import opened SortedStrings

  datatype Migration = Migration(version: int, name: string, checksum: string, sql: string)

  datatype Row = Row(version: int, name: string, checksum: string, appliedAt: string)

  /** The tables of the application, the migration table if it exists, and `user_version`. */
  datatype Database<S> = Database(schema: S, history: Option<seq<Row>>, userVersion: int)

  /** A script cut into statements; it may end in an incomplete one, which is noticed last. */
  datatype Script = Script(statements: seq<string>, complete: bool)

  /** How the database engine cuts and executes SQL. */
  datatype Engine<!S> = Engine(execute: (S, string) -> Option<S>, cut: string -> Script)

  /** One release of the application: its migrations and what it demands of the schema. */
  datatype Release<!S> = Release(migrations: seq<Migration>, valid: S -> bool)

  // ---- What one start does ----

  function Execute<S>(e: Engine<S>, statements: seq<string>, schema: S): Option<S> {
    if statements == [] then Some(schema)
    else
      var before := Execute(e, statements[..|statements| - 1], schema);
      if before.None? then None else e.execute(before.value, statements[|statements| - 1])
  }

  function RunScript<S>(e: Engine<S>, sql: string, schema: S): Option<S> {
    if e.cut(sql).complete then Execute(e, e.cut(sql).statements, schema) else None
  }

  /** The record refuses a second row with the same version or name. */
  predicate Insertable(rows: seq<Row>, m: Migration) {
    forall r | r in rows :: r.version != m.version && r.name != m.name
  }

  function Rows<S>(d: Database<S>): seq<Row> { if d.history.Some? then d.history.value else [] }

  function Apply<S>(e: Engine<S>, m: Migration, at: string, d: Database<S>): Option<Database<S>> {
    var schema := RunScript(e, m.sql, d.schema);
    if schema.None? || !Insertable(Rows(d), m) then None
    else Some(Database(schema.value, Some(Rows(d) + [Row(m.version, m.name, m.checksum, at)]), m.version))
  }

  /** The migrations in order; `clock` gives the time at which each is recorded. */
  function ApplyAll<S>(e: Engine<S>, ms: seq<Migration>, clock: int -> string, d: Database<S>): Option<Database<S>> {
    if ms == [] then Some(d)
    else
      var m := ms[|ms| - 1];
      var before := ApplyAll(e, ms[..|ms| - 1], clock, d);
      if before.None? then None else Apply(e, m, clock(m.version), before.value)
  }

  predicate Records(r: Row, m: Migration) { r.version == m.version && r.name == m.name && r.checksum == m.checksum }

  predicate RecordsPrefix(rows: seq<Row>, ms: seq<Migration>) {
    |rows| <= |ms| && forall i | 0 <= i < |rows| :: Records(rows[i], ms[i])
  }

  predicate VersionAgrees<S>(d: Database<S>) {
    d.userVersion == if Rows(d) == [] then 0 else Rows(d)[|Rows(d)| - 1].version
  }

  function Prepared<S>(d: Database<S>): Database<S> { d.(history := Some(Rows(d))) }

  /** What a start leaves: the migrated database, or a refusal after which nothing has changed. */
  function Start<S>(e: Engine<S>, a: Release<S>, clock: int -> string, d: Database<S>): Option<Database<S>> {
    if !VersionAgrees(d) || !RecordsPrefix(Rows(d), a.migrations) then None
    else
      var r := ApplyAll(e, a.migrations[|Rows(d)|..], clock, Prepared(d));
      if r.None? || !a.valid(r.value.schema) then None else r
  }

  // ---- Composition of runs ----

  lemma {:induction false} ApplyAllConcat<S>(e: Engine<S>, xs: seq<Migration>, ys: seq<Migration>, clock: int -> string, d: Database<S>)
    ensures ApplyAll(e, xs + ys, clock, d) ==
      if ApplyAll(e, xs, clock, d).None? then None else ApplyAll(e, ys, clock, ApplyAll(e, xs, clock, d).value)
  {
    if ys == [] {
      assert xs + ys == xs;
    } else {
      assert (xs + ys)[..|xs + ys| - 1] == xs + ys[..|ys| - 1];
      ApplyAllConcat(e, xs, ys[..|ys| - 1], clock, d);
    }
  }

  ghost predicate SameButTimes<S>(a: Database<S>, b: Database<S>) {
    && a.schema == b.schema && a.userVersion == b.userVersion
    && a.history.Some? == b.history.Some?
    && SameRows(Rows(a), Rows(b))
  }

  predicate SameRows(a: seq<Row>, b: seq<Row>) {
    |a| == |b| && forall i | 0 <= i < |a| :: a[i].(appliedAt := "") == b[i].(appliedAt := "")
  }

  /** Runs at different times, from databases that differ in times only, differ in times only. */
  ghost predicate SameOutcome<S>(a: Option<Database<S>>, b: Option<Database<S>>) {
    a.Some? == b.Some? && (a.Some? ==> SameButTimes(a.value, b.value))
  }

  lemma ApplyIgnoresTimes<S>(e: Engine<S>, m: Migration, at: string, at': string, d: Database<S>, d': Database<S>)
    requires SameButTimes(d, d')
    ensures SameOutcome(Apply(e, m, at, d), Apply(e, m, at', d'))
  {
    assert Insertable(Rows(d), m) <==> Insertable(Rows(d'), m) by {
      assert forall i | 0 <= i < |Rows(d)| ::
        Rows(d)[i].version == Rows(d')[i].version && Rows(d)[i].name == Rows(d')[i].name by {
        forall i | 0 <= i < |Rows(d)|
          ensures Rows(d)[i].version == Rows(d')[i].version && Rows(d)[i].name == Rows(d')[i].name
        {
          assert Rows(d)[i].(appliedAt := "") == Rows(d')[i].(appliedAt := "");
        }
      }
    }
  }

  lemma {:induction false} ApplyAllIgnoresTimes<S>(e: Engine<S>, ms: seq<Migration>, clock: int -> string, clock': int -> string,
                                                   d: Database<S>, d': Database<S>)
    requires SameButTimes(d, d')
    ensures SameOutcome(ApplyAll(e, ms, clock, d), ApplyAll(e, ms, clock', d'))
  {
    if ms != [] {
      var init, m := ms[..|ms| - 1], ms[|ms| - 1];
      ApplyAllIgnoresTimes(e, init, clock, clock', d, d');
      if ApplyAll(e, init, clock, d).Some? {
        ApplyIgnoresTimes(e, m, clock(m.version), clock'(m.version),
                          ApplyAll(e, init, clock, d).value, ApplyAll(e, init, clock', d').value);
      }
    }
  }

  /** Applying `ms` appends exactly their rows and ends at the version of the last of them. */
  lemma {:induction false} ApplyAllRecords<S>(e: Engine<S>, ms: seq<Migration>, clock: int -> string, d: Database<S>)
    requires d.history.Some? && ApplyAll(e, ms, clock, d).Some?
    ensures var d' := ApplyAll(e, ms, clock, d).value;
      && d'.history.Some? && Rows(d') == Rows(d) + seq(|ms|, i requires 0 <= i < |ms| =>
           Row(ms[i].version, ms[i].name, ms[i].checksum, clock(ms[i].version)))
      && d'.userVersion == if ms == [] then d.userVersion else ms[|ms| - 1].version
  {
    if ms != [] {
      var init := ms[..|ms| - 1];
      ApplyAllRecords(e, init, clock, d);
    }
  }

  // ---- What every start keeps ----

  /** A successful start records the whole list of its release and ends at its last version. */
  lemma StartRecordsAll<S>(e: Engine<S>, a: Release<S>, clock: int -> string, d: Database<S>)
    requires Start(e, a, clock, d).Some?
    ensures var d' := Start(e, a, clock, d).value;
      && d'.history.Some? && |Rows(d')| == |a.migrations| && RecordsPrefix(Rows(d'), a.migrations)
      && Rows(d') == Rows(d) + Rows(d')[|Rows(d)|..]
      && VersionAgrees(d') && a.valid(d'.schema)
  {
    ApplyAllRecords(e, a.migrations[|Rows(d)|..], clock, Prepared(d));
  }

  /** A second start of the same release changes nothing, not even the recorded times. */
  lemma RestartChangesNothing<S>(e: Engine<S>, a: Release<S>, clock: int -> string, clock': int -> string, d: Database<S>)
    requires Start(e, a, clock, d).Some?
    ensures Start(e, a, clock', Start(e, a, clock, d).value) == Start(e, a, clock, d)
  {
    StartRecordsAll(e, a, clock, d);
  }

  /**
   Upgrading in two stages is upgrading directly: once the earlier release has started, the later
   release starts exactly when it would have started at once, with the same schema, record and version.
   */
  lemma StagedUpgrade<S>(e: Engine<S>, a: Release<S>, b: Release<S>, clock: int -> string, clock': int -> string,
                         clock'': int -> string, d: Database<S>)
    requires a.migrations <= b.migrations && Start(e, a, clock, d).Some?
    ensures SameOutcome(Start(e, b, clock', Start(e, a, clock, d).value), Start(e, b, clock'', d))
  {
    var staged := Start(e, a, clock, d).value;
    StartRecordsAll(e, a, clock, d);
    var n, mid := |Rows(d)|, |a.migrations|;
    var first, second := b.migrations[n..mid], b.migrations[mid..];
    assert a.migrations[n..] == first;
    assert b.migrations[n..] == first + second;
    assert RecordsPrefix(Rows(staged), b.migrations);
    assert Prepared(staged) == staged;
    StagesCompose(e, first, second, clock, clock', clock'', Prepared(d), staged);
    assert RecordsPrefix(Rows(d), b.migrations);
  }

  lemma StagesCompose<S>(e: Engine<S>, first: seq<Migration>, second: seq<Migration>, clock: int -> string, clock': int -> string,
                         clock'': int -> string, d: Database<S>, staged: Database<S>)
    requires ApplyAll(e, first, clock, d) == Some(staged)
    ensures SameOutcome(ApplyAll(e, second, clock', staged), ApplyAll(e, first + second, clock'', d))
  {
    ApplyAllIgnoresTimes(e, first, clock, clock'', d, d);
    ApplyAllConcat(e, first, second, clock'', d);
    ApplyAllIgnoresTimes(e, second, clock', clock'', staged, ApplyAll(e, first, clock'', d).value);
  }

  lemma StartIgnoresTimes<S>(e: Engine<S>, a: Release<S>, clock: int -> string, clock': int -> string, d: Database<S>, d': Database<S>)
    requires SameButTimes(d, d')
    ensures SameOutcome(Start(e, a, clock, d), Start(e, a, clock', d'))
  {
    SameRowsRecordAlike(Rows(d), Rows(d'), a.migrations);
    ApplyAllIgnoresTimes(e, a.migrations[if |Rows(d)| <= |a.migrations| then |Rows(d)| else 0..], clock, clock', Prepared(d), Prepared(d'));
  }

  lemma SameRowsRecordAlike(rows: seq<Row>, rows': seq<Row>, ms: seq<Migration>)
    requires SameRows(rows, rows')
    ensures RecordsPrefix(rows, ms) <==> RecordsPrefix(rows', ms)
    ensures rows != [] ==> rows[|rows| - 1].version == rows'[|rows| - 1].version
  {
    forall i | 0 <= i < |rows| ensures
      rows[i].version == rows'[i].version && rows[i].name == rows'[i].name && rows[i].checksum == rows'[i].checksum
    {
      assert rows[i].(appliedAt := "") == rows'[i].(appliedAt := "");
    }
  }

  // ---- When a start succeeds ----

  /** The scripts of the migrations in order, and nothing else. */
  function RunScripts<S>(e: Engine<S>, ms: seq<Migration>, schema: S): Option<S> {
    if ms == [] then Some(schema)
    else
      var before := RunScripts(e, ms[..|ms| - 1], schema);
      if before.None? then None else RunScript(e, ms[|ms| - 1].sql, before.value)
  }

  /** No two migrations of the release share a version or a name. */
  ghost predicate DistinctMigrations(ms: seq<Migration>) {
    forall i, j | 0 <= i < j < |ms| :: ms[i].version != ms[j].version && ms[i].name != ms[j].name
  }

  lemma NextIsInsertable(rows: seq<Row>, ms: seq<Migration>)
    requires DistinctMigrations(ms) && |rows| < |ms| && RecordsPrefix(rows, ms)
    ensures Insertable(rows, ms[|rows|])
  {
    forall r | r in rows ensures r.version != ms[|rows|].version && r.name != ms[|rows|].name {
      var i :| 0 <= i < |rows| && rows[i] == r;
      assert Records(rows[i], ms[i]);
    }
  }

  lemma {:induction false} PendingIsFold<S>(e: Engine<S>, ms: seq<Migration>, done: nat, n: nat, clock: int -> string, d: Database<S>)
    requires DistinctMigrations(ms) && done <= n <= |ms| && d.history.Some? && |Rows(d)| == done && RecordsPrefix(Rows(d), ms)
    ensures var r, schema := ApplyAll(e, ms[done..n], clock, d), RunScripts(e, ms[done..n], d.schema);
      && r.Some? == schema.Some?
      && (r.Some? ==> r.value.schema == schema.value && |Rows(r.value)| == n && RecordsPrefix(Rows(r.value), ms))
    decreases n
  {
    if done < n {
      assert ms[done..n][..n - done - 1] == ms[done..n - 1] && ms[done..n][n - done - 1] == ms[n - 1];
      PendingIsFold(e, ms, done, n - 1, clock, d);
      var before := ApplyAll(e, ms[done..n - 1], clock, d);
      if before.Some? {
        NextIsInsertable(Rows(before.value), ms);
      }
    }
  }

  /**
   A database whose record is a prefix of the release starts exactly when the pending scripts all
   execute and the release accepts what they make of the schema, which is then the new schema.
   */
  lemma StartIsFold<S>(e: Engine<S>, a: Release<S>, clock: int -> string, d: Database<S>)
    requires DistinctMigrations(a.migrations) && VersionAgrees(d) && RecordsPrefix(Rows(d), a.migrations)
    ensures var r, schema := Start(e, a, clock, d), RunScripts(e, a.migrations[|Rows(d)|..], d.schema);
      && (r.Some? <==> schema.Some? && a.valid(schema.value))
      && (r.Some? ==> r.value.schema == schema.value)
  {
    var n, ms := |Rows(d)|, a.migrations;
    assert ms[n..|ms|] == ms[n..];
    PendingIsFold(e, ms, n, |ms|, clock, Prepared(d));
  }

  /** The schemas between which the statements lead, each executed once and in order. */
  ghost predicate Leads<S(!new)>(e: Engine<S>, statements: seq<string>, schemas: seq<S>) {
    && |schemas| == |statements| + 1
    && forall i | 0 <= i < |statements| :: e.execute(schemas[i], statements[i]) == Some(schemas[i + 1])
  }

  ghost predicate LeadsFromTo<S(!new)>(e: Engine<S>, statements: seq<string>, first: S, last: S) {
    exists schemas :: Leads(e, statements, schemas) && schemas[0] == first && schemas[|statements|] == last
  }

  lemma {:induction false} ExecuteLeads<S(!new)>(e: Engine<S>, statements: seq<string>, first: S, last: S)
    ensures Execute(e, statements, first) == Some(last) <==> LeadsFromTo(e, statements, first, last)
  {
    if statements == [] {
      assert first == last ==> Leads(e, statements, [first]);
    } else {
      var init, s := statements[..|statements| - 1], statements[|statements| - 1];
      if Execute(e, statements, first) == Some(last) {
        var before := Execute(e, init, first).value;
        ExecuteLeads(e, init, first, before);
        var schemas :| Leads(e, init, schemas) && schemas[0] == first && schemas[|init|] == before;
        assert Leads(e, statements, schemas + [last]);
      }
      if LeadsFromTo(e, statements, first, last) {
        var schemas :| Leads(e, statements, schemas) && schemas[0] == first && schemas[|statements|] == last;
        assert Leads(e, init, schemas[..|statements|]);
        ExecuteLeads(e, init, first, schemas[|init|]);
      }
    }
  }

  /** The statements of all scripts, in the order of the migrations and within them. */
  function StatementsOf<S>(e: Engine<S>, ms: seq<Migration>): seq<string> {
    if ms == [] then [] else StatementsOf(e, ms[..|ms| - 1]) + e.cut(ms[|ms| - 1].sql).statements
  }

  lemma {:induction false} ExecuteConcat<S>(e: Engine<S>, xs: seq<string>, ys: seq<string>, schema: S)
    ensures Execute(e, xs + ys, schema) == if Execute(e, xs, schema).None? then None else Execute(e, ys, Execute(e, xs, schema).value)
  {
    if ys == [] {
      assert xs + ys == xs;
    } else {
      assert (xs + ys)[..|xs + ys| - 1] == xs + ys[..|ys| - 1];
      ExecuteConcat(e, xs, ys[..|ys| - 1], schema);
    }
  }

  lemma {:induction false} ScriptsExecute<S>(e: Engine<S>, ms: seq<Migration>, schema: S)
    ensures RunScripts(e, ms, schema) ==
      if forall m | m in ms :: e.cut(m.sql).complete then Execute(e, StatementsOf(e, ms), schema) else None
  {
    if ms != [] {
      var init, m := ms[..|ms| - 1], ms[|ms| - 1];
      assert ms == init + [m];
      ScriptsExecute(e, init, schema);
      ExecuteConcat(e, StatementsOf(e, init), e.cut(m.sql).statements, schema);
    }
  }

  /** The database's version is that of its last recorded migration, and its record is the beginning of the list. */
  ghost predicate InStep<S>(d: Database<S>, ms: seq<Migration>) {
    var rows := if d.history.Some? then d.history.value else [];
    && d.userVersion == (if rows == [] then 0 else rows[|rows| - 1].version) && |rows| <= |ms|
    && forall i | 0 <= i < |rows| :: rows[i].version == ms[i].version && rows[i].name == ms[i].name && rows[i].checksum == ms[i].checksum
  }

  /**
   A start succeeds exactly when the database is in step with the release, every pending script is
   complete, its statements lead one after the other from the old schema to some schema, and the release
   accepts that, which is then the new one.
   */
  lemma StartIsExact<S(!new)>(e: Engine<S>, a: Release<S>, clock: int -> string, d: Database<S>)
    requires DistinctMigrations(a.migrations)
    ensures Start(e, a, clock, d).Some? <==>
      && InStep(d, a.migrations)
      && var pending := a.migrations[|Rows(d)|..];
      && (forall m | m in pending :: e.cut(m.sql).complete)
      && exists last :: LeadsFromTo(e, StatementsOf(e, pending), d.schema, last) && a.valid(last)
    ensures Start(e, a, clock, d).Some? ==>
      var pending, d' := a.migrations[|Rows(d)|..], Start(e, a, clock, d).value;
      && LeadsFromTo(e, StatementsOf(e, pending), d.schema, d'.schema)
      && d'.history == Some(Rows(d) + seq(|pending|, i requires 0 <= i < |pending| =>
           Row(pending[i].version, pending[i].name, pending[i].checksum, clock(pending[i].version))))
      && d'.userVersion == if a.migrations == [] then 0 else a.migrations[|a.migrations| - 1].version
  {
    if InStep(d, a.migrations) {
      var pending := a.migrations[|Rows(d)|..];
      StartIsFold(e, a, clock, d);
      ScriptsExecute(e, pending, d.schema);
      forall last ensures Execute(e, StatementsOf(e, pending), d.schema) == Some(last) <==> LeadsFromTo(e, StatementsOf(e, pending), d.schema, last) {
        ExecuteLeads(e, StatementsOf(e, pending), d.schema, last);
      }
      if Start(e, a, clock, d).Some? { ApplyAllRecords(e, pending, clock, Prepared(d)); }
    }
  }

  /** A row recorded by a start shares its version and its name with no row before it, whatever the release lists. */
  ghost predicate NewRowsDiffer(rows: seq<Row>, before: nat) {
    forall i, j | 0 <= i < j < |rows| && before <= j :: rows[i].version != rows[j].version && rows[i].name != rows[j].name
  }

  lemma {:induction false} ApplyAllDiffers<S>(e: Engine<S>, ms: seq<Migration>, clock: int -> string, d: Database<S>)
    requires d.history.Some? && ApplyAll(e, ms, clock, d).Some?
    ensures NewRowsDiffer(Rows(ApplyAll(e, ms, clock, d).value), |Rows(d)|)
  {
    if ms != [] {
      var init := ms[..|ms| - 1];
      ApplyAllDiffers(e, init, clock, d);
      ApplyAllRecords(e, init, clock, d);
    }
  }

  lemma StartRecordsOnce<S>(e: Engine<S>, a: Release<S>, clock: int -> string, d: Database<S>)
    requires Start(e, a, clock, d).Some?
    ensures NewRowsDiffer(Rows(Start(e, a, clock, d).value), |Rows(d)|)
  {
    ApplyAllDiffers(e, a.migrations[|Rows(d)|..], clock, Prepared(d));
  }

  // ---- The whole life of a database ----

  /** A start of some release at some time. */
  datatype Deployment<!S> = Deployment(release: Release<S>, clock: int -> string)

  function Started<S>(e: Engine<S>, d: Database<S>, p: Deployment<S>): Database<S> {
    var r := Start(e, p.release, p.clock, d);
    if r.Some? then r.value else d
  }

  /** The database after the given starts, the refused ones included. */
  function Life<S>(e: Engine<S>, schema: S, ps: seq<Deployment<S>>): Database<S> {
    if ps == [] then Database(schema, None, 0)
    else Started(e, Life(e, schema, ps[..|ps| - 1]), ps[|ps| - 1])
  }

  /** Equal checksums stand for equal scripts in all releases. */
  ghost predicate NoCollision<S>(ps: seq<Deployment<S>>) {
    forall a, b, m, m' | a in ps && b in ps && m in a.release.migrations && m' in b.release.migrations
      && m.checksum == m'.checksum :: m.sql == m'.sql
  }

  /** The database is what the release makes of a new database at once. */
  ghost predicate IsMadeBy<S>(e: Engine<S>, schema: S, d: Database<S>, p: Deployment<S>) {
    SameOutcome(Some(d), Start(e, p.release, p.clock, Database(schema, None, 0)))
  }

  lemma RecordedIsPrefix<S>(rows: seq<Row>, a: Deployment<S>, b: Deployment<S>, ps: seq<Deployment<S>>)
    requires NoCollision(ps) && a in ps && b in ps && |rows| == |a.release.migrations|
    requires RecordsPrefix(rows, a.release.migrations) && RecordsPrefix(rows, b.release.migrations)
    ensures a.release.migrations <= b.release.migrations
  {
    var ms, ms' := a.release.migrations, b.release.migrations;
    forall i | 0 <= i < |ms| ensures ms[i] == ms'[i] {
      assert Records(rows[i], ms[i]) && Records(rows[i], ms'[i]);
      assert ms[i] in ms && ms'[i] in ms';
    }
  }

  /**
   However releases came and went, and whatever was refused, the database is new or exactly what one
   of the releases makes of a new database; a start never loses or rewrites a recorded row.
   */
  lemma {:induction false} LifeIsOneStart<S>(e: Engine<S>, schema: S, ps: seq<Deployment<S>>)
    requires NoCollision(ps)
    ensures var d := Life(e, schema, ps);
      || d == Database(schema, None, 0)
      || exists p :: p in ps && IsMadeBy(e, schema, d, p)
  {
    if ps != [] {
      var init, b := ps[..|ps| - 1], ps[|ps| - 1];
      assert NoCollision(init);
      LifeIsOneStart(e, schema, init);
      var before, blank := Life(e, schema, init), Database(schema, None, 0);
      if Start(e, b.release, b.clock, before).Some? {
        if before == blank {
          assert IsMadeBy(e, schema, Life(e, schema, ps), b);
        } else {
          var a :| a in init && IsMadeBy(e, schema, before, a);
          UpgradeOfOneStart(e, schema, before, a, b, ps);
        }
      } else if before != blank {
        var a :| a in init && IsMadeBy(e, schema, before, a);
        assert a in ps && IsMadeBy(e, schema, Life(e, schema, ps), a);
      }
    }
  }

  lemma UpgradeOfOneStart<S>(e: Engine<S>, schema: S, d: Database<S>, a: Deployment<S>, b: Deployment<S>, ps: seq<Deployment<S>>)
    requires NoCollision(ps) && a in ps && b in ps
    requires IsMadeBy(e, schema, d, a) && Start(e, b.release, b.clock, d).Some?
    ensures IsMadeBy(e, schema, Start(e, b.release, b.clock, d).value, b)
  {
    var empty := Database(schema, None, 0);
    var made := Start(e, a.release, a.clock, empty).value;
    StartRecordsAll(e, a.release, a.clock, empty);
    SameRowsRecordAlike(Rows(d), Rows(made), a.release.migrations);
    RecordedIsPrefix(Rows(d), a, b, ps);
    StagedUpgrade(e, a.release, b.release, a.clock, b.clock, b.clock, empty);
    StartIgnoresTimes(e, b.release, b.clock, b.clock, d, made);
    SameButTimesIsTransitive(Start(e, b.release, b.clock, d).value, Start(e, b.release, b.clock, made).value,
                             Start(e, b.release, b.clock, empty).value);
  }

  lemma SameButTimesIsTransitive<S>(a: Database<S>, b: Database<S>, c: Database<S>)
    requires SameButTimes(a, b) && SameButTimes(b, c)
    ensures SameButTimes(a, c)
  {
    forall i | 0 <= i < |Rows(a)| ensures Rows(a)[i].(appliedAt := "") == Rows(c)[i].(appliedAt := "") {
      assert Rows(a)[i].(appliedAt := "") == Rows(b)[i].(appliedAt := "");
      assert Rows(b)[i].(appliedAt := "") == Rows(c)[i].(appliedAt := "");
    }
  }

  // ---- The list of a release ----

  predicate IsNameChar(c: char) { 'a' <= c <= 'z' || IsDigit(c) || c == '_' }

  /** Four digits, an underscore, lower-case words and the suffix. */
  predicate WellNamed(name: string) {
    && |name| >= 10 && (forall c | c in name[..4] :: IsDigit(c)) && name[4] == '_'
    && (forall c | c in name[5..|name| - 4] :: IsNameChar(c)) && name[|name| - 4..] == ".sql"
  }

  /** The name is four ASCII digits, an underscore, a word of ASCII digits, lower-case letters and underscores, and the suffix. */
  ghost predicate MadeOf(name: string, digits: string, word: string) {
    && name == digits + "_" + word + ".sql" && |digits| == 4 && word != ""
    && (forall c | c in digits :: 48 <= c as int && c as int <= 57)
    && forall c | c in word :: (97 <= c as int && c as int <= 122) || (48 <= c as int && c as int <= 57) || c as int == 95
  }

  lemma WellNamedIsExact(name: string)
    ensures WellNamed(name) <==> exists digits, word :: MadeOf(name, digits, word)
  {
    if WellNamed(name) {
      assert name[4..5] == "_";
      assert name == name[..4] + name[4..5] + name[5..|name| - 4] + name[|name| - 4..];
      var digits, word := name[..4], name[5..|name| - 4];
      assert name == digits + "_" + word + ".sql";
      assert forall c | c in digits :: IsDigit(c);
      assert word != "" && |digits| == 4;
      assert forall c | c in digits :: 48 <= c as int && c as int <= 57;
      assert forall c | c in word :: IsNameChar(c);
      assert forall c | c in word :: (97 <= c as int && c as int <= 122) || (48 <= c as int && c as int <= 57) || c as int == 95;
      assert MadeOf(name, digits, word);
    }
    if digits, word :| MadeOf(name, digits, word) {
      assert name[..4] == digits && name[4] == '_' && name[5..|name| - 4] == word && name[|name| - 4..] == ".sql";
    }
  }

  function VersionOf(name: string): nat requires WellNamed(name) { DecimalValue(name[..4]) }

  predicate Usable(dir: map<string, string>, blank: string -> bool, name: string) {
    WellNamed(name) && name in dir && !blank(dir[name])
  }

  function MigrationOf(dir: map<string, string>, sha: string -> string, name: string): Migration
    requires WellNamed(name) && name in dir
  {
    Migration(VersionOf(name), name, sha(dir[name]), dir[name])
  }

  ghost predicate Loadable(dir: map<string, string>, blank: string -> bool) {
    var names := SortedOf(dir.Keys);
    && names != []
    && forall i | 0 <= i < |names| :: Usable(dir, blank, names[i]) && VersionOf(names[i]) == i + 1
  }

  method ReadScripts(dir: map<string, string>, names: seq<string>, blank: string -> bool, sha: string -> string)
    returns (r: Result<seq<Migration>>)
    requires forall name | name in names :: name in dir
    ensures r.Ok? <==> forall i | 0 <= i < |names| :: Usable(dir, blank, names[i])
    ensures r.Ok? ==> |r.value| == |names| && forall i | 0 <= i < |names| :: r.value[i] == MigrationOf(dir, sha, names[i])
  {
    var ms: seq<Migration> := [];
    for n := 0 to |names|
      invariant |ms| == n
      invariant forall i | 0 <= i < n :: Usable(dir, blank, names[i])
      invariant forall i | 0 <= i < n :: ms[i] == MigrationOf(dir, sha, names[i])
    {
      if !WellNamed(names[n]) { return Err("invalid SQLite migration filename"); }
      if blank(dir[names[n]]) { return Err("SQLite migration is empty"); }
      ms := ms + [MigrationOf(dir, sha, names[n])];
    }
    return Ok(ms);
  }

  method AreContiguous(ms: seq<Migration>) returns (ok: bool)
    ensures ok <==> forall i | 0 <= i < |ms| :: ms[i].version == i + 1
  {
    for n := 0 to |ms|
      invariant forall i | 0 <= i < n :: ms[i].version == i + 1
    {
      if ms[n].version != n + 1 { return false; }
    }
    return true;
  }

  /** The scripts of the directory in the order of their names, numbered without gaps from one. */
  method LoadMigrations(dir: map<string, string>, blank: string -> bool, sha: string -> string)
    returns (r: Result<seq<Migration>>)
    ensures r.Ok? <==> Loadable(dir, blank)
    ensures r.Ok? ==> var names := SortedOf(dir.Keys);
      && |r.value| == |names|
      && forall i | 0 <= i < |names| :: r.value[i] == Migration(i + 1, names[i], sha(dir[names[i]]), dir[names[i]])
  {
    var names := Sort(dir.Keys);
    var read := ReadScripts(dir, names, blank, sha);
    if read.Err? { return read; }
    var ms := read.value;
    if ms == [] { return Err("no SQLite migrations were found"); }
    var contiguous := AreContiguous(ms);
    return if contiguous then Ok(ms) else Err("SQLite migration sequence must be contiguous");
  }

  // ---- The database object ----

  class SQLiteProductDatabase<S> {
    const engine: Engine<S>
    var data: Database<S>

    constructor (engine: Engine<S>, schema: S)
      ensures this.engine == engine && data == Database(schema, None, 0)
    {
      this.engine := engine;
      data := Database(schema, None, 0);
    }

    /** One transaction: either all pending migrations are applied and validated, or nothing changes. */
    method Initialize(a: Release<S>, clock: int -> string) returns (r: Result<int>)
      modifies this
      ensures r.Ok? <==> Start(engine, a, clock, old(data)).Some?
      ensures data == if r.Ok? then Start(engine, a, clock, old(data)).value else old(data)
      ensures r.Ok? ==> r.value == |Rows(data)|
    {
      if data.history.None? && data.userVersion != 0 {
        return Err("SQLite user_version is set but migration history is missing");
      }
      var work := Prepared(data);
      var applied := work.history.value;
      if data.history.Some? {
        var recorded := if applied == [] then 0 else applied[|applied| - 1].version;
        if data.userVersion != recorded {
          return Err("SQLite user_version does not match migration history");
        }
      }
      if |applied| > |a.migrations| { return Err("database schema is newer than this application"); }
      for n := 0 to |applied|
        invariant forall i | 0 <= i < n :: Records(applied[i], a.migrations[i])
      {
        if applied[n].version != a.migrations[n].version {
          return Err("SQLite migration history is not a valid prefix");
        }
        if applied[n].name != a.migrations[n].name || applied[n].checksum != a.migrations[n].checksum {
          return Err("SQLite migration history drift detected");
        }
      }
      var pending := a.migrations[|applied|..];
      var done := ApplyPending(pending, clock, work);
      if done.None? { return Err("SQLite migration execution failed"); }
      if !a.valid(done.value.schema) { return Err("SQLite schema validation failed"); }
      StartRecordsAll(engine, a, clock, data);
      data := done.value;
      return Ok(|a.migrations|);
    }

    method ApplyPending(pending: seq<Migration>, clock: int -> string, work: Database<S>) returns (r: Option<Database<S>>)
      ensures r == ApplyAll(engine, pending, clock, work)
    {
      var d := work;
      for n := 0 to |pending|
        invariant ApplyAll(engine, pending[..n], clock, work) == Some(d)
      {
        assert pending[..n + 1][..n] == pending[..n];
        var one := ApplyOne(pending[n], clock(pending[n].version), d);
        if one.None? {
          ApplyAllFails(engine, pending, n + 1, clock, work);
          return None;
        }
        d := one.value;
      }
      assert pending[..|pending|] == pending;
      return Some(d);
    }

    method ApplyOne(m: Migration, at: string, d: Database<S>) returns (r: Option<Database<S>>)
      ensures r == Apply(engine, m, at, d)
    {
      var schema := RunStatements(m.sql, d.schema);
      if schema.None? || !Insertable(Rows(d), m) { return None; }
      var row := Row(m.version, m.name, m.checksum, at);
      return Some(Database(schema.value, Some(Rows(d) + [row]), m.version));
    }

    method RunStatements(sql: string, schema: S) returns (r: Option<S>)
      ensures r == RunScript(engine, sql, schema)
    {
      var script := engine.cut(sql);
      var s := schema;
      for n := 0 to |script.statements|
        invariant Execute(engine, script.statements[..n], schema) == Some(s)
      {
        assert script.statements[..n + 1][..n] == script.statements[..n];
        var next := engine.execute(s, script.statements[n]);
        if next.None? {
          ExecuteFails(engine, script.statements, n + 1, schema);
          return None;
        }
        s := next.value;
      }
      assert script.statements[..|script.statements|] == script.statements;
      if !script.complete { return None; }
      return Some(s);
    }
  }

  lemma ApplyAllFails<S>(e: Engine<S>, ms: seq<Migration>, n: nat, clock: int -> string, d: Database<S>)
    requires n <= |ms| && ApplyAll(e, ms[..n], clock, d).None?
    ensures ApplyAll(e, ms, clock, d).None?
  {
    ApplyAllConcat(e, ms[..n], ms[n..], clock, d);
    assert ms == ms[..n] + ms[n..];
  }

  lemma {:induction false} ExecuteFails<S>(e: Engine<S>, statements: seq<string>, n: nat, schema: S)
    requires n <= |statements| && Execute(e, statements[..n], schema).None?
    ensures Execute(e, statements, schema).None?
    decreases |statements| - n
  {
    if n == |statements| {
      assert statements[..n] == statements;
    } else {
      assert statements[..n + 1][..n] == statements[..n];
      ExecuteFails(e, statements, n + 1, schema);
    }
  }
}
