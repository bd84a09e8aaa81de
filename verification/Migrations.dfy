/** The migration runner of one database connection.

    A database is what it has been made to execute. Every statement may fail in three ways: with no effect, with
    part of its effect, or with all of it and only the report lost. */
module Migrations {

  datatype Step = Step(id: string, sql: string)

  datatype Outcome = Fine | Refused | Partly(part: int) | Unheard

  datatype Effect = Whole(sql: string) | Part(sql: string, part: int)

  /** `recorded` is _cslua_migrations, whose id is a primary key. */
  datatype Db = Db(table: bool, recorded: seq<string>, history: seq<Effect>)

  datatype Error = None | CannotCreate | CannotRead | InStep(id: string) | NotRecorded(id: string)

  datatype Result = Result(ok: bool, applied: seq<string>, error: Error)

  /** Reading the recorded ids may fail outright, or come back empty without a word. */
  datatype ReadOutcome = Read | Failed | Lost

  /** How the statements of the steps executed go: SQL and record, in turn; what is not listed goes fine. */
  type Outcomes = seq<(Outcome, Outcome)>

  const ALL_FINE: Outcomes := []

  // ---------------------------------------------------------------------------
  // Statements

  function ExecSql(db: Db, sql: string, o: Outcome): (Db, bool) {
    match o
    case Fine => (db.(history := db.history + [Whole(sql)]), true)
    case Refused => (db, false)
    case Partly(part) => (db.(history := db.history + [Part(sql, part)]), false)
    case Unheard => (db.(history := db.history + [Whole(sql)]), false)
  }

  /** A single-row insert happens or does not; a recorded id is refused as a duplicate key. */
  function ExecRecord(db: Db, id: string, o: Outcome): (Db, bool) {
    if id in db.recorded then (db, false)
    else match o
      case Fine => (db.(recorded := db.recorded + [id]), true)
      case Unheard => (db.(recorded := db.recorded + [id]), false)
      case _ => (db, false)
  }

  function Head(o: Outcomes): (Outcome, Outcome) { if o == [] then (Fine, Fine) else o[0] }

  function Tail(o: Outcomes): Outcomes { if o == [] then [] else o[1..] }

  // ---------------------------------------------------------------------------
  // What a run does

  /** `known` was read before the first step; ids applied by this very run are not added to it. */
  function RunSteps(db: Db, known: seq<string>, steps: seq<Step>, o: Outcomes, applied: seq<string>): (Db, Result)
    decreases |steps|
  {
    if steps == [] then (db, Result(true, applied, None))
    else if steps[0].id in known then RunSteps(db, known, steps[1..], o, applied)
    else
      var (db1, ok1) := ExecSql(db, steps[0].sql, Head(o).0);
      if !ok1 then (db1, Result(false, applied, InStep(steps[0].id)))
      else
        var (db2, ok2) := ExecRecord(db1, steps[0].id, Head(o).1);
        if !ok2 then (db2, Result(false, applied, NotRecorded(steps[0].id)))
        else RunSteps(db2, known, steps[1..], Tail(o), applied + [steps[0].id])
  }

  function Migrate(db: Db, steps: seq<Step>, create: Outcome, read: ReadOutcome, o: Outcomes): (Db, Result) {
    var db0 := if create.Fine? || create.Unheard? then db.(table := true) else db;
    if !create.Fine? then (db0, Result(false, [], CannotCreate))
    else if read.Failed? then (db0, Result(false, [], CannotRead))
    else RunSteps(db0, if read.Read? then db0.recorded else [], steps, o, [])
  }

  function CleanRun(db: Db, steps: seq<Step>): (Db, Result) { Migrate(db, steps, Fine, Read, ALL_FINE) }

  // ---------------------------------------------------------------------------
  // What it should have done

  /** The steps not yet recorded. */
  function Todo(steps: seq<Step>, known: seq<string>): seq<Step> {
    if steps == [] then []
    else if steps[0].id in known then Todo(steps[1..], known)
    else [steps[0]] + Todo(steps[1..], known)
  }

  function IdsOf(steps: seq<Step>): seq<string> { seq(|steps|, i requires 0 <= i < |steps| => steps[i].id) }

  function EffectsOf(steps: seq<Step>): seq<Effect> { seq(|steps|, i requires 0 <= i < |steps| => Whole(steps[i].sql)) }

  ghost predicate Distinct(steps: seq<Step>) {
    forall i, j :: 0 <= i < j < |steps| ==> steps[i].id != steps[j].id
  }

  /** None of them recorded yet, and no id twice. */
  ghost predicate Fresh(steps: seq<Step>, recorded: seq<string>) {
    Distinct(steps) && forall i :: 0 <= i < |steps| ==> steps[i].id !in recorded
  }

  /** The database once the steps have been executed and recorded, once each, in order. */
  function Applied(db: Db, steps: seq<Step>): Db {
    db.(recorded := db.recorded + IdsOf(steps), history := db.history + EffectsOf(steps))
  }

  // ---------------------------------------------------------------------------
  // Skipping is all the runner does besides running

  lemma {:induction false} SkipsKnown(db: Db, known: seq<string>, steps: seq<Step>, o: Outcomes, applied: seq<string>)
    ensures RunSteps(db, known, steps, o, applied) == RunSteps(db, known, Todo(steps, known), o, applied)
    decreases |steps|
  {
    if steps != [] {
      if steps[0].id in known {
        SkipsKnown(db, known, steps[1..], o, applied);
      } else {
        var todo := Todo(steps, known);
        assert todo[0] == steps[0] && todo[1..] == Todo(steps[1..], known);
        var (db1, ok1) := ExecSql(db, steps[0].sql, Head(o).0);
        var (db2, ok2) := ExecRecord(db1, steps[0].id, Head(o).1);
        SkipsKnown(db2, known, steps[1..], Tail(o), applied + [steps[0].id]);
      }
    }
  }

  lemma {:induction false} TodoIn(steps: seq<Step>, known: seq<string>, s: Step)
    ensures s in Todo(steps, known) <==> s in steps && s.id !in known
  {
    if steps != [] { TodoIn(steps[1..], known, s); }
  }

  lemma {:induction false} TodoDistinct(steps: seq<Step>, known: seq<string>)
    requires Distinct(steps)
    ensures Fresh(Todo(steps, known), known)
  {
    var todo := Todo(steps, known);
    if steps != [] {
      TodoDistinct(steps[1..], known);
      var rest := Todo(steps[1..], known);
      forall i | 0 <= i < |rest| ensures rest[i].id != steps[0].id {
        TodoIn(steps[1..], known, rest[i]);
      }
    }
  }

  // ---------------------------------------------------------------------------
  // How far a run gets

  lemma AppliedOne(db: Db, s: Step, rest: seq<Step>)
    ensures Applied(Applied(db, [s]), rest) == Applied(db, [s] + rest)
    ensures IdsOf([s] + rest) == [s.id] + IdsOf(rest)
  {
    assert IdsOf([s] + rest) == IdsOf([s]) + IdsOf(rest);
    assert EffectsOf([s] + rest) == EffectsOf([s]) + EffectsOf(rest);
  }

  /** What is left behind by the step that fails, when it does. */
  function LeftBehind(db: Db, s: Step, o: (Outcome, Outcome)): Db {
    var (db1, ok1) := ExecSql(db, s.sql, o.0);
    if !ok1 then db1 else ExecRecord(db1, s.id, o.1).0
  }

  /** The first k steps went fine. */
  ghost predicate Goes(o: Outcomes, k: nat) {
    forall i :: 0 <= i < k && i < |o| ==> o[i].0.Fine? && o[i].1.Fine?
  }

  ghost predicate FailsAt(o: Outcomes, k: nat) {
    Goes(o, k) && k < |o| && !(o[k].0.Fine? && o[k].1.Fine?)
  }

  /** What is applied is exactly the to-do list in batch order up to the first failure; an id is recorded only after
      its SQL has been executed. */
  lemma {:induction false} GoesSoFar(db: Db, known: seq<string>, todo: seq<Step>, o: Outcomes, applied: seq<string>,
      k: nat)
    requires Fresh(todo, db.recorded) && (forall i :: 0 <= i < |todo| ==> todo[i].id !in known)
    requires k <= |todo| && Goes(o, k) && (k < |todo| ==> FailsAt(o, k))
    ensures var (db', r) := RunSteps(db, known, todo, o, applied);
      && r.ok == (k == |todo|)
      && r.applied == applied + IdsOf(todo[..k])
      && db' == (if k == |todo| then Applied(db, todo) else LeftBehind(Applied(db, todo[..k]), todo[k], o[k]))
      && (k < |todo| ==> r.error == if o[k].0.Fine? then NotRecorded(todo[k].id) else InStep(todo[k].id))
    decreases |todo|
  {
    if k == 0 {
      assert todo[..0] == [];
      assert Applied(db, []) == db;
      assert IdsOf([]) == [] && applied + [] == applied;
    } else {
      var s, rest := todo[0], todo[1..];
      var db1 := Applied(db, [s]);
      assert todo == [s] + rest && todo[..k] == [s] + rest[..k - 1];
      AppliedOne(db, s, rest);
      AppliedOne(db, s, rest[..k - 1]);
      assert IdsOf([s]) == [s.id] && EffectsOf([s]) == [Whole(s.sql)];
      assert ExecRecord(ExecSql(db, s.sql, Fine).0, s.id, Fine) == (db1, true);
      GoesSoFar(db1, known, rest, Tail(o), applied + [s.id], k - 1);
      assert applied + [s.id] + IdsOf(rest[..k - 1]) == applied + ([s.id] + IdsOf(rest[..k - 1]));
    }
  }

  // ---------------------------------------------------------------------------
  // Whole runs

  /** A run that nothing disturbs applies what was not recorded, once each, in batch order. */
  lemma CleanRunApplies(db: Db, steps: seq<Step>)
    requires Fresh(Todo(steps, db.recorded), db.recorded)
    ensures var todo := Todo(steps, db.recorded);
      CleanRun(db, steps) == (Applied(db.(table := true), todo), Result(true, IdsOf(todo), None))
  {
    var todo, db0 := Todo(steps, db.recorded), db.(table := true);
    SkipsKnown(db0, db.recorded, steps, ALL_FINE, []);
    GoesSoFar(db0, db.recorded, todo, ALL_FINE, [], |todo|);
    assert todo[..|todo|] == todo;
    assert [] + IdsOf(todo) == IdsOf(todo);
    OkHasNoError(db0, db.recorded, todo, ALL_FINE, []);
  }

  lemma {:induction false} OkHasNoError(db: Db, known: seq<string>, steps: seq<Step>, o: Outcomes, applied: seq<string>)
    ensures RunSteps(db, known, steps, o, applied).1.ok <==> RunSteps(db, known, steps, o, applied).1.error == None
    decreases |steps|
  {
    if steps != [] {
      var (db1, ok1) := ExecSql(db, steps[0].sql, Head(o).0);
      var (db2, ok2) := ExecRecord(db1, steps[0].id, Head(o).1);
      OkHasNoError(db, known, steps[1..], o, applied);
      OkHasNoError(db2, known, steps[1..], Tail(o), applied + [steps[0].id]);
    }
  }

  /** With ids told apart from the recorded ones, success is exactly: no id twice, and none recorded. */
  lemma {:induction false} OkExactly(db: Db, known: seq<string>, todo: seq<Step>, applied: seq<string>)
    requires forall i :: 0 <= i < |todo| ==> todo[i].id !in known
    ensures RunSteps(db, known, todo, ALL_FINE, applied).1.ok <==> Fresh(todo, db.recorded)
    decreases |todo|
  {
    if todo != [] {
      var db2 := ExecRecord(ExecSql(db, todo[0].sql, Fine).0, todo[0].id, Fine).0;
      OkExactly(db2, known, todo[1..], applied + [todo[0].id]);
      assert Fresh(todo, db.recorded) ==> todo[0].id !in db.recorded;
      if todo[0].id !in db.recorded {
        assert db2.recorded == db.recorded + [todo[0].id];
        assert Fresh(todo, db.recorded) <==> Fresh(todo[1..], db2.recorded);
      }
    }
  }

  /** An undisturbed run succeeds if and only if no id still to be applied occurs twice in the batch. */
  lemma CleanRunSucceeds(db: Db, steps: seq<Step>)
    ensures CleanRun(db, steps).1.ok <==> Distinct(Todo(steps, db.recorded))
  {
    var todo := Todo(steps, db.recorded);
    forall i | 0 <= i < |todo| ensures todo[i].id !in db.recorded { TodoIn(steps, db.recorded, todo[i]); }
    SkipsKnown(db.(table := true), db.recorded, steps, ALL_FINE, []);
    OkExactly(db.(table := true), db.recorded, todo, []);
  }

  /** When the recorded ids come back empty unnoticed, the run succeeds if and only if nothing of the batch was
      recorded and no id occurs twice. */
  lemma LostReadSucceeds(db: Db, steps: seq<Step>)
    ensures Migrate(db, steps, Fine, Lost, ALL_FINE).1.ok <==> Fresh(steps, db.recorded)
  {
    OkExactly(db.(table := true), [], steps, []);
  }

  /** A run whose set-up fails executes no step and records none, and says which part of the set-up it was. */
  lemma SetupFails(db: Db, steps: seq<Step>, create: Outcome, read: ReadOutcome, o: Outcomes)
    requires !create.Fine? || read.Failed?
    ensures var (db', r) := Migrate(db, steps, create, read, o);
      && db'.recorded == db.recorded && db'.history == db.history
      && r == Result(false, [], if create.Fine? then CannotRead else CannotCreate)
  {
  }

  /** After a success, running again executes nothing. */
  lemma RerunDoesNothing(db: Db, steps: seq<Step>)
    requires CleanRun(db, steps).1.ok
    ensures var db' := CleanRun(db, steps).0; CleanRun(db', steps) == (db', Result(true, [], None))
  {
    var todo, db' := Todo(steps, db.recorded), CleanRun(db, steps).0;
    CleanRunSucceeds(db, steps);
    forall i | 0 <= i < |todo| ensures todo[i].id !in db.recorded { TodoIn(steps, db.recorded, todo[i]); }
    CleanRunApplies(db, steps);
    var again := Todo(steps, db'.recorded);
    forall i | 0 <= i < |todo| ensures todo[i].id in db'.recorded { assert IdsOf(todo)[i] in db'.recorded; }
    if again != [] {
      TodoIn(steps, db'.recorded, again[0]);
      TodoIn(steps, db.recorded, again[0]);
    }
    SkipsKnown(db', db'.recorded, steps, ALL_FINE, []);
  }

  /** What a recorded prefix of the to-do list leaves to do. */
  lemma {:induction false} TodoAfter(steps: seq<Step>, known: seq<string>, known': seq<string>, m: nat)
    requires Distinct(steps) && m <= |Todo(steps, known)|
    requires forall s :: s in steps ==> (s.id in known' <==> s.id in known || s.id in IdsOf(Todo(steps, known)[..m]))
    ensures Todo(steps, known') == Todo(steps, known)[m..]
    decreases |steps|
  {
    if steps != [] {
      var s, todo := steps[0], Todo(steps, known);
      assert s in steps;
      if s.id in known {
        TodoAfter(steps[1..], known, known', m);
      } else {
        var rest := Todo(steps[1..], known);
        assert todo == [s] + rest;
        if m == 0 {
          assert IdsOf(todo[..0]) == [] && IdsOf(rest[..0]) == [];
          TodoAfter(steps[1..], known, known', 0);
          assert rest[0..] == rest;
        } else {
          assert IdsOf(todo[..m]) == [s.id] + IdsOf(rest[..m - 1]);
          TodoAfter(steps[1..], known, known', m - 1);
          assert todo[m..] == rest[m - 1..];
        }
      }
    }
  }

  /** A failure that either did nothing, or only lost the report of the record. */
  predicate Harmless(o: (Outcome, Outcome)) { o.0.Refused? || (o.0.Fine? && o.1.Unheard?) }

  /** How far into the to-do list the record table is after a failure at k. */
  function Recorded(o: (Outcome, Outcome), k: nat): nat { if o.0.Fine? && o.1.Unheard? then k + 1 else k }

  lemma FailedRun(db: Db, steps: seq<Step>, o: Outcomes, k: nat)
    requires Distinct(steps) && k < |Todo(steps, db.recorded)| && FailsAt(o, k)
    ensures var todo := Todo(steps, db.recorded); var (db', r) := Migrate(db, steps, Fine, Read, o);
      !r.ok && r.applied == IdsOf(todo[..k]) && db' == LeftBehind(Applied(db.(table := true), todo[..k]), todo[k], o[k])
  {
    var todo, db0 := Todo(steps, db.recorded), db.(table := true);
    TodoDistinct(steps, db.recorded);
    SkipsKnown(db0, db.recorded, steps, o, []);
    GoesSoFar(db0, db.recorded, todo, o, [], k);
    assert [] + IdsOf(todo[..k]) == IdsOf(todo[..k]);
  }

  /** The record table after a failure: the to-do list up to where it was recorded. */
  lemma LeftRecorded(db: Db, todo: seq<Step>, o: (Outcome, Outcome), k: nat)
    requires Fresh(todo, db.recorded) && k < |todo| && !(o.0.Fine? && o.1.Fine?)
    ensures var db' := LeftBehind(Applied(db, todo[..k]), todo[k], o);
      && db'.recorded == db.recorded + IdsOf(todo[..Recorded(o, k)])
      && db'.table == db.table
      && |db'.history| == |db.history| + k + (if o.0.Refused? then 0 else 1)
      && (o.0.Fine? && o.1.Unheard? ==> db' == Applied(db, todo[..k + 1]))
      && (o.0.Refused? ==> db' == Applied(db, todo[..k]))
  {
    assert todo[..k + 1] == todo[..k] + [todo[k]];
    assert IdsOf(todo[..k + 1]) == IdsOf(todo[..k]) + [todo[k].id];
    assert EffectsOf(todo[..k + 1]) == EffectsOf(todo[..k]) + [Whole(todo[k].sql)];
    assert todo[k].id !in Applied(db, todo[..k]).recorded;
  }

  lemma TodoLeft(db: Db, steps: seq<Step>, db': Db, m: nat)
    requires Distinct(steps) && m <= |Todo(steps, db.recorded)|
    requires db'.recorded == db.recorded + IdsOf(Todo(steps, db.recorded)[..m])
    ensures Todo(steps, db'.recorded) == Todo(steps, db.recorded)[m..]
  {
    TodoAfter(steps, db.recorded, db'.recorded, m);
  }

  lemma AppliedTwice(db: Db, a: seq<Step>, b: seq<Step>)
    ensures Applied(Applied(db, a), b) == Applied(db, a + b)
  {
    assert IdsOf(a + b) == IdsOf(a) + IdsOf(b);
    assert EffectsOf(a + b) == EffectsOf(a) + EffectsOf(b);
  }

  /** Where an undisturbed run takes a database left by a failure at k. */
  lemma RerunAfter(db: Db, steps: seq<Step>, o: Outcomes, k: nat)
    requires Distinct(steps) && k < |Todo(steps, db.recorded)| && FailsAt(o, k)
    ensures var todo := Todo(steps, db.recorded); var failed := Migrate(db, steps, Fine, Read, o).0;
      && CleanRun(failed, steps).1.ok
      && CleanRun(failed, steps).0 == Applied(failed, todo[Recorded(o[k], k)..])
      && failed == LeftBehind(Applied(db.(table := true), todo[..k]), todo[k], o[k])
  {
    var todo, db0, failed := Todo(steps, db.recorded), db.(table := true), Migrate(db, steps, Fine, Read, o).0;
    TodoDistinct(steps, db.recorded);
    FailedRun(db, steps, o, k);
    LeftRecorded(db0, todo, o[k], k);
    TodoLeft(db, steps, failed, Recorded(o[k], k));
    TodoDistinct(steps, failed.recorded);
    CleanRunSucceeds(failed, steps);
    CleanRunApplies(failed, steps);
    assert failed.(table := true) == failed;
  }

  lemma HarmlessEnds(db: Db, todo: seq<Step>, o: (Outcome, Outcome), k: nat)
    requires Fresh(todo, db.recorded) && k < |todo| && !(o.0.Fine? && o.1.Fine?)
    ensures var left := LeftBehind(Applied(db, todo[..k]), todo[k], o);
      Applied(left, todo[Recorded(o, k)..]) == Applied(db, todo) <==> Harmless(o)
  {
    var m, left := Recorded(o, k), LeftBehind(Applied(db, todo[..k]), todo[k], o);
    LeftRecorded(db, todo, o, k);
    if Harmless(o) {
      AppliedTwice(db, todo[..m], todo[m..]);
      assert todo[..m] + todo[m..] == todo;
    } else {
      assert |Applied(left, todo[m..]).history| > |Applied(db, todo).history|;
    }
  }

  /** Resuming: after a failed run, an undisturbed one always succeeds; it ends where a single undisturbed run would
      have ended if and only if the failure was harmless. */
  lemma ResumesExactly(db: Db, steps: seq<Step>, o: Outcomes, k: nat)
    requires Distinct(steps) && k < |Todo(steps, db.recorded)| && FailsAt(o, k)
    ensures var failed := Migrate(db, steps, Fine, Read, o).0;
      && CleanRun(failed, steps).1.ok
      && (CleanRun(failed, steps).0 == CleanRun(db, steps).0 <==> Harmless(o[k]))
  {
    TodoDistinct(steps, db.recorded);
    RerunAfter(db, steps, o, k);
    HarmlessEnds(db.(table := true), Todo(steps, db.recorded), o[k], k);
    CleanRunApplies(db, steps);
  }

  // ---------------------------------------------------------------------------
  // What the code does not promise

  const EMPTY := Db(false, [], [])

  lemma OneStep(db: Db, known: seq<string>, step: Step, o: Outcomes, applied: seq<string>)
    requires step.id !in known
    ensures var sql := ExecSql(db, step.sql, Head(o).0); var record := ExecRecord(sql.0, step.id, Head(o).1);
      RunSteps(db, known, [step], o, applied) ==
        if !sql.1 then (sql.0, Result(false, applied, InStep(step.id)))
        else if !record.1 then (record.0, Result(false, applied, NotRecorded(step.id)))
        else (record.0, Result(true, applied + [step.id], None))
  {
    assert [step][1..] == [];
  }

  /** A statement that fails half done is done again from its beginning. */
  lemma HalfDoneAgain()
    ensures var steps, o := [Step("1", "S")], [(Partly(0), Fine)];
      var failed := Migrate(EMPTY, steps, Fine, Read, o).0;
      && CleanRun(failed, steps).0.history == [Part("S", 0), Whole("S")]
      && CleanRun(EMPTY, steps).0.history == [Whole("S")]
  {
    var step, db := Step("1", "S"), EMPTY.(table := true);
    OneStep(db, [], step, [(Partly(0), Fine)], []);
    OneStep(db, [], step, ALL_FINE, []);
    OneStep(db.(history := [Part("S", 0)]), [], step, ALL_FINE, []);
  }

  /** An id given twice: the second step is executed as well, and then the run fails. */
  lemma TwiceGiven()
    ensures CleanRun(EMPTY, [Step("1", "S"), Step("1", "T")])
      == (Db(true, ["1"], [Whole("S"), Whole("T")]), Result(false, ["1"], NotRecorded("1")))
  {
    var first, second := Step("1", "S"), Step("1", "T");
    assert [first, second][1..] == [second];
    assert [Whole("S")] + [Whole("T")] == [Whole("S"), Whole("T")];
    var db := Db(true, ["1"], [Whole("S")]);
    assert [] + ["1"] == ["1"] && [] + [Whole("S")] == [Whole("S")];
    assert ExecSql(EMPTY.(table := true), "S", Fine) == (db.(recorded := []), true);
    assert ExecRecord(db.(recorded := []), "1", Fine) == (db, true);
    OneStep(db, [], second, ALL_FINE, ["1"]);
  }

  /** The recorded ids come back empty: what was applied long ago is executed once more. */
  lemma LostReadRepeats()
    ensures Migrate(Db(true, ["1"], [Whole("S")]), [Step("1", "S")], Fine, Lost, ALL_FINE)
      == (Db(true, ["1"], [Whole("S"), Whole("S")]), Result(false, [], NotRecorded("1")))
  {
    assert [Whole("S")] + [Whole("S")] == [Whole("S"), Whole("S")];
    OneStep(Db(true, ["1"], [Whole("S")]), [], Step("1", "S"), ALL_FINE, []);
  }

  // ---------------------------------------------------------------------------
  // The runner itself

  method RunSql(db: Db, sql: string, o: Outcome) returns (db': Db, ok: bool)
    ensures (db', ok) == ExecSql(db, sql, o)
  {
    db' := db;
    ok := o.Fine?;
    if o.Refused? { return; }
    db' := db.(history := db.history + [if o.Partly? then Part(sql, o.part) else Whole(sql)]);
  }

  class Conn {
    /** Whether the connection is up; a failed set-up closes it so that the next request reconnects. */
    var handle: bool
    var db: Db

    constructor (db: Db)
      ensures this.db == db && handle
    {
      this.db, handle := db, true;
    }

    /** perform_migrate on an open connection */
    method PerformMigrate(steps: seq<Step>, create: Outcome, read: ReadOutcome, o: Outcomes) returns (res: Result)
      requires handle
      modifies this
      ensures (db, res) == Migrate(old(db), steps, create, read, o)
      ensures handle <==> create.Fine? && !read.Failed?
    {
      if create.Fine? || create.Unheard? { db := db.(table := true); }
      if !create.Fine? {
        handle := false;
        return Result(false, [], CannotCreate);
      }
      if read.Failed? {
        handle := false;
        return Result(false, [], CannotRead);
      }
      var known := if read.Read? then db.recorded else [];
      res := ApplySteps(steps, known, o);
    }

    method ApplySteps(steps: seq<Step>, known: seq<string>, o: Outcomes) returns (res: Result)
      modifies this`db
      ensures (db, res) == RunSteps(old(db), known, steps, o, [])
    {
      var i, left, applied := 0, o, [];
      while i < |steps|
        invariant i <= |steps|
        invariant RunSteps(old(db), known, steps, o, []) == RunSteps(db, known, steps[i..], left, applied)
      {
        var step := steps[i];
        assert steps[i..][0] == step && steps[i..][1..] == steps[i + 1..];
        i := i + 1;
        if step.id in known { continue; }
        var db1, ok1 := RunSql(db, step.sql, Head(left).0);
        db := db1;
        if !ok1 { return Result(false, applied, InStep(step.id)); }
        var (db2, ok2) := ExecRecord(db, step.id, Head(left).1);
        db := db2;
        if !ok2 { return Result(false, applied, NotRecorded(step.id)); }
        applied, left := applied + [step.id], Tail(left);
      }
      return Result(true, applied, None);
    }
  }
}
