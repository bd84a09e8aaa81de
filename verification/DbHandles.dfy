/** Database and statement handles: what every script, with transactions inside transactions, keeps. */
module DbHandles {

  datatype Db = Db(live: bool, plugin: int, path: string, inTransaction: bool)

  datatype Stmt = Stmt(live: bool, db: nat)

  datatype Entry =
    | Opened(db: nat)
    | Closed(db: nat)
    | Prepared(stmt: nat, db: nat)
    | Finalized(stmt: nat)
    | Began(db: nat)
    | Committed(db: nat)
    | RolledBack(db: nat)

  /** What a plugin may do. SQLite's own verdicts are part of the script: whether it opens, prepares, begins and
      commits. */
  datatype Op =
    | Open(path: string, plugin: int, opens: bool)
    | Prepare(db: nat, prepares: bool)
    | CloseStmt(stmt: nat)
    | CloseDb(db: nat)
    | Transaction(db: nat, begins: bool, body: Script, fails: bool, commits: bool)
    | RemovePlugin(plugin: int)

  datatype Script = End | Do(op: Op, next: Script)

  /** Index 0 of either list is a placeholder, so that 0 is never a handle. */
  datatype State = State(dbs: seq<Db>, stmts: seq<Stmt>, log: seq<Entry>)

  const MEMORY := ":memory:"

  const INIT := State([Db(false, -1, "", false)], [Stmt(false, 0)], [])

  predicate LiveDb(s: State, id: nat) { id < |s.dbs| && s.dbs[id].live }

  predicate LiveStmt(s: State, id: nat) { id < |s.stmts| && s.stmts[id].live }

  function Logged(s: State, e: Entry): State { s.(log := s.log + [e]) }

  // ---------------------------------------------------------------------------
  // Operations

  function Finalize(s: State, i: nat): State
    requires i < |s.stmts|
  {
    Logged(s, Finalized(i)).(stmts := s.stmts[i := s.stmts[i].(live := false)])
  }

  /** Finalizes the statements of a database from index i on. */
  function CloseStmtsOf(s: State, db: nat, i: nat): State
    decreases |s.stmts| - i
  {
    if i >= |s.stmts| then s
    else if s.stmts[i].live && s.stmts[i].db == db then
      CloseStmtsOf(Finalize(s, i), db, i + 1)
    else CloseStmtsOf(s, db, i + 1)
  }

  function Close(s: State, id: nat): State {
    if id == 0 || !LiveDb(s, id) then s else
      var t := CloseStmtsOf(s, id, 1);
      if id >= |t.dbs| then t
      else Logged(t, Closed(id)).(dbs := t.dbs[id := t.dbs[id].(live := false, inTransaction := false)])
  }

  function CloseIfOf(s: State, plugin: int, i: nat): State {
    if i < |s.dbs| && s.dbs[i].live && s.dbs[i].plugin == plugin then Close(s, i) else s
  }

  function CloseAllOf(s: State, plugin: int, i: nat): State
    decreases |s.dbs| - i
  {
    if i >= |s.dbs| then s
    else
      var t := CloseIfOf(s, plugin, i);
      if |t.dbs| == |s.dbs| then CloseAllOf(t, plugin, i + 1) else t
  }

  /** The plugin's own open database of that name, from index i on; |dbs| when there is none. */
  function AlreadyOpen(dbs: seq<Db>, path: string, plugin: int, i: nat): nat
    decreases |dbs| - i
  {
    if i >= |dbs| then |dbs|
    else if dbs[i].live && dbs[i].plugin == plugin && dbs[i].path == path then i
    else AlreadyOpen(dbs, path, plugin, i + 1)
  }

  function OpenNew(s: State, path: string, plugin: int): State {
    Logged(s, Opened(|s.dbs|)).(dbs := s.dbs + [Db(true, plugin, path, false)])
  }

  /** What follows the callback of a transaction: nothing to end when the callback closed the database. */
  function EndTransaction(s: State, id: nat, fails: bool, commits: bool): State {
    if id >= |s.dbs| then s else
      var t := s.(dbs := s.dbs[id := s.dbs[id].(inTransaction := false)]);
      if !t.dbs[id].live then t
      else if !fails && commits then Logged(t, Committed(id))
      else Logged(t, RolledBack(id))
  }

  function RunOp(s: State, op: Op): State
    decreases op, 0
  {
    match op
    case Open(path, plugin, opens) =>
      if path != MEMORY && AlreadyOpen(s.dbs, path, plugin, 1) < |s.dbs| then s
      else if !opens then s
      else OpenNew(s, path, plugin)
    case Prepare(db, prepares) =>
      if db == 0 || !LiveDb(s, db) || !prepares then s
      else Logged(s, Prepared(|s.stmts|, db)).(stmts := s.stmts + [Stmt(true, db)])
    case CloseStmt(stmt) =>
      if stmt == 0 || !LiveStmt(s, stmt) then s
      else Finalize(s, stmt)
    case CloseDb(db) => Close(s, db)
    case Transaction(db, begins, body, fails, commits) =>
      if db == 0 || !LiveDb(s, db) || s.dbs[db].inTransaction || !begins then s
      else
        var begun := Logged(s, Began(db)).(dbs := s.dbs[db := s.dbs[db].(inTransaction := true)]);
        EndTransaction(RunScript(begun, body), db, fails, commits)
    case RemovePlugin(plugin) => CloseAllOf(s, plugin, 1)
  }

  function RunScript(s: State, script: Script): State
    decreases script, 0
  {
    match script
    case End => s
    case Do(op, next) => RunScript(RunOp(s, op), next)
  }

  // ---------------------------------------------------------------------------
  // What the history must look like

  /** Statements of `db` prepared and not finalized. */
  ghost predicate Alive(log: seq<Entry>, stmt: nat, db: nat) {
    if log == [] then false else
      var e := log[|log| - 1];
      e == Prepared(stmt, db) || (e != Finalized(stmt) && Alive(log[..|log| - 1], stmt, db))
  }

  ghost predicate Exists(log: seq<Entry>, db: nat) {
    if log == [] then false else
      var e := log[|log| - 1];
      e == Opened(db) || (e != Closed(db) && Exists(log[..|log| - 1], db))
  }

  /** A BEGIN of `db` that nothing has ended. */
  ghost predicate Pending(log: seq<Entry>, db: nat) {
    if log == [] then false else
      var e := log[|log| - 1];
      e == Began(db) || (e != Committed(db) && e != RolledBack(db) && e != Closed(db) && Pending(log[..|log| - 1], db))
  }

  /** Ids handed out so far stay below. */
  ghost predicate Mentions(e: Entry, dbs: nat, stmts: nat) {
    (e.Opened? ==> e.db < dbs) && (e.Prepared? ==> e.stmt < stmts)
  }

  /** Each call to SQLite is a legal one: nothing closed with statements alive, nothing prepared, begun or ended on a
      closed database, nothing finalized or closed twice, no BEGIN inside a BEGIN, no id handed out twice. */
  ghost predicate Legal(log: seq<Entry>, k: nat)
    requires k < |log|
  {
    var before := log[..k];
    match log[k]
    case Opened(db) => forall i :: 0 <= i < k && log[i].Opened? ==> log[i].db < db
    case Closed(db) => Exists(before, db) && forall stmt: nat :: !Alive(before, stmt, db)
    case Prepared(stmt, db) => Exists(before, db) && forall i :: 0 <= i < k && log[i].Prepared? ==> log[i].stmt < stmt
    case Finalized(stmt) => exists db: nat :: Alive(before, stmt, db)
    case Began(db) => Exists(before, db) && !Pending(before, db)
    case Committed(db) => Exists(before, db) && Pending(before, db)
    case RolledBack(db) => Exists(before, db) && Pending(before, db)
  }

  ghost predicate AllLegal(log: seq<Entry>) { forall k :: 0 <= k < |log| ==> Legal(log, k) }

  ghost predicate Inv(s: State) {
    && |s.dbs| >= 1 && !s.dbs[0].live && |s.stmts| >= 1 && !s.stmts[0].live
    && (forall i :: 0 <= i < |s.stmts| && s.stmts[i].live ==> LiveDb(s, s.stmts[i].db))
    && (forall i :: 0 <= i < |s.dbs| && s.dbs[i].inTransaction ==> s.dbs[i].live)
    && AllLegal(s.log)
    && (forall k :: 0 <= k < |s.log| ==> Mentions(s.log[k], |s.dbs|, |s.stmts|))
    && (forall d: nat :: Exists(s.log, d) <==> LiveDb(s, d))
    && (forall d: nat :: Pending(s.log, d) <==> d < |s.dbs| && s.dbs[d].inTransaction)
    && (forall i: nat, d: nat :: Alive(s.log, i, d) <==> LiveStmt(s, i) && s.stmts[i].db == d)
  }

  lemma Snoc(log: seq<Entry>, e: Entry)
    ensures forall i: nat, d: nat ::
              Alive(log + [e], i, d) <==> e == Prepared(i, d) || (e != Finalized(i) && Alive(log, i, d))
    ensures forall d: nat :: Exists(log + [e], d) <==> e == Opened(d) || (e != Closed(d) && Exists(log, d))
    ensures forall d: nat :: Pending(log + [e], d) <==>
              e == Began(d) || (e != Committed(d) && e != RolledBack(d) && e != Closed(d) && Pending(log, d))
  {
    assert (log + [e])[..|log|] == log;
  }

  lemma LegalSnoc(log: seq<Entry>, e: Entry)
    requires AllLegal(log) && Legal(log + [e], |log|)
    ensures AllLegal(log + [e])
  {
    forall k | 0 <= k < |log| ensures Legal(log + [e], k) {
      assert Legal(log, k) && (log + [e])[..k] == log[..k];
    }
  }

  // ---------------------------------------------------------------------------
  // Every operation keeps it

  /** Nothing reopens, and no transaction is left behind or ended behind its back. */
  ghost predicate Scoped(s: State, s': State) {
    && |s.dbs| <= |s'.dbs| && |s.stmts| <= |s'.stmts| && s.log <= s'.log
    && (forall d :: 0 <= d < |s.dbs| ==>
          && (s'.dbs[d].live ==> s.dbs[d].live)
          && (s'.dbs[d].inTransaction ==> s.dbs[d].inTransaction)
          && (s.dbs[d].inTransaction && s'.dbs[d].live ==> s'.dbs[d].inTransaction))
    && (forall d :: |s.dbs| <= d < |s'.dbs| ==> !s'.dbs[d].inTransaction)
    && (forall i :: 0 <= i < |s.stmts| ==> s'.stmts[i].db == s.stmts[i].db && (s'.stmts[i].live ==> s.stmts[i].live))
  }

  lemma FinalizeKeeps(s: State, i: nat)
    requires Inv(s) && LiveStmt(s, i)
    ensures Inv(Finalize(s, i)) && Scoped(s, Finalize(s, i))
  {
    var e := Finalized(i);
    Snoc(s.log, e);
    assert Alive(s.log, i, s.stmts[i].db);
    assert (s.log + [e])[..|s.log|] == s.log;
    LegalSnoc(s.log, e);
  }

  /** Of the first n statements none that is alive belongs to db. */
  ghost predicate NoneLeft(stmts: seq<Stmt>, db: nat, n: nat) {
    forall j :: 0 <= j < n && j < |stmts| && stmts[j].db == db ==> !stmts[j].live
  }

  lemma FinalizeNext(s: State, db: nat, i: nat)
    requires i < |s.stmts| && NoneLeft(s.stmts, db, i)
    ensures s.stmts[i].db == db ==> NoneLeft(Finalize(s, i).stmts, db, i + 1)
    ensures s.stmts[i].db != db || !s.stmts[i].live ==> NoneLeft(s.stmts, db, i + 1)
  {
  }

  lemma {:induction false} CloseStmtsKeeps(s: State, db: nat, i: nat)
    requires Inv(s) && i >= 1 && NoneLeft(s.stmts, db, i)
    ensures var s' := CloseStmtsOf(s, db, i);
      Inv(s') && Scoped(s, s') && s'.dbs == s.dbs && |s'.stmts| == |s.stmts| && NoneLeft(s'.stmts, db, |s'.stmts|)
    decreases |s.stmts| - i
  {
    if i < |s.stmts| {
      FinalizeNext(s, db, i);
      if s.stmts[i].live && s.stmts[i].db == db {
        FinalizeKeeps(s, i);
        CloseStmtsKeeps(Finalize(s, i), db, i + 1);
        ScopedTrans(s, Finalize(s, i), CloseStmtsOf(s, db, i));
      } else {
        CloseStmtsKeeps(s, db, i + 1);
      }
    }
  }

  lemma CloseKeeps(s: State, id: nat)
    requires Inv(s)
    ensures Inv(Close(s, id)) && Scoped(s, Close(s, id)) && |Close(s, id).dbs| == |s.dbs|
      && !(id > 0 && LiveDb(Close(s, id), id))
  {
    if id > 0 && LiveDb(s, id) {
      CloseStmtsKeeps(s, id, 1);
      DropKeeps(CloseStmtsOf(s, id, 1), id);
    }
  }

  lemma DropKeeps(t: State, id: nat)
    requires Inv(t) && LiveDb(t, id) && NoneLeft(t.stmts, id, |t.stmts|)
    ensures var s' := Logged(t, Closed(id)).(dbs := t.dbs[id := t.dbs[id].(live := false, inTransaction := false)]);
      Inv(s') && Scoped(t, s')
  {
    var e := Closed(id);
    Snoc(t.log, e);
    assert (t.log + [e])[..|t.log|] == t.log;
    LegalSnoc(t.log, e);
  }

  lemma CloseIfKeeps(s: State, plugin: int, i: nat)
    requires Inv(s) && 1 <= i < |s.dbs|
    ensures var t := CloseIfOf(s, plugin, i);
      && Inv(t) && Scoped(s, t) && |t.dbs| == |s.dbs| && (t.dbs[i].live ==> s.dbs[i].plugin != plugin)
      && forall d :: 0 <= d < |s.dbs| ==> t.dbs[d].plugin == s.dbs[d].plugin
  {
    CloseKeeps(s, i);
    SamePlugins(s, i);
  }

  lemma {:induction false} CloseAllKeeps(s: State, plugin: int, i: nat)
    requires Inv(s) && i >= 1
    ensures Inv(CloseAllOf(s, plugin, i)) && Scoped(s, CloseAllOf(s, plugin, i))
    decreases |s.dbs| - i
  {
    if i < |s.dbs| {
      var t := CloseIfOf(s, plugin, i);
      CloseIfKeeps(s, plugin, i);
      CloseAllKeeps(t, plugin, i + 1);
      ScopedTrans(s, t, CloseAllOf(t, plugin, i + 1));
    }
  }

  lemma {:induction false} CloseAllCloses(s: State, plugin: int, i: nat, d: nat)
    requires Inv(s) && 1 <= i <= d < |s.dbs|
    ensures d < |CloseAllOf(s, plugin, i).dbs|
    ensures CloseAllOf(s, plugin, i).dbs[d].live ==> s.dbs[d].plugin != plugin
    decreases |s.dbs| - i
  {
    var t := CloseIfOf(s, plugin, i);
    CloseIfKeeps(s, plugin, i);
    CloseAllKeeps(t, plugin, i + 1);
    if d > i { CloseAllCloses(t, plugin, i + 1, d); }
  }

  /** Closing changes no owner and no path. */
  lemma SamePlugins(s: State, id: nat)
    ensures |Close(s, id).dbs| == |s.dbs|
    ensures forall d :: 0 <= d < |s.dbs| ==> Close(s, id).dbs[d].plugin == s.dbs[d].plugin
  {
    if id > 0 && LiveDb(s, id) { SameDbs(s, id, 1); }
  }

  lemma {:induction false} SameDbs(s: State, db: nat, i: nat)
    ensures CloseStmtsOf(s, db, i).dbs == s.dbs
    decreases |s.stmts| - i
  {
    if i < |s.stmts| {
      SameDbs(s, db, i + 1);
      SameDbs(Finalize(s, i), db, i + 1);
    }
  }

  lemma {:induction false} SamePluginsAll(s: State, plugin: int, i: nat)
    ensures |CloseAllOf(s, plugin, i).dbs| == |s.dbs|
    ensures forall d :: 0 <= d < |s.dbs| ==> CloseAllOf(s, plugin, i).dbs[d].plugin == s.dbs[d].plugin
    decreases |s.dbs| - i
  {
    if i < |s.dbs| {
      SamePlugins(s, i);
      SamePluginsAll(CloseIfOf(s, plugin, i), plugin, i + 1);
    }
  }

  lemma OpenKeeps(s: State, path: string, plugin: int)
    requires Inv(s)
    ensures Inv(OpenNew(s, path, plugin)) && Scoped(s, OpenNew(s, path, plugin))
  {
    var e := Opened(|s.dbs|);
    Snoc(s.log, e);
    assert (s.log + [e])[..|s.log|] == s.log;
    forall i | 0 <= i < |s.log| && s.log[i].Opened?
      ensures s.log[i].db < |s.dbs|
    {
      assert Mentions(s.log[i], |s.dbs|, |s.stmts|);
    }
    LegalSnoc(s.log, e);
  }

  lemma PrepareKeeps(s: State, db: nat)
    requires Inv(s) && LiveDb(s, db)
    ensures var s' := Logged(s, Prepared(|s.stmts|, db)).(stmts := s.stmts + [Stmt(true, db)]);
      Inv(s') && Scoped(s, s')
  {
    var e := Prepared(|s.stmts|, db);
    Snoc(s.log, e);
    assert (s.log + [e])[..|s.log|] == s.log;
    forall i | 0 <= i < |s.log| && s.log[i].Prepared?
      ensures s.log[i].stmt < |s.stmts|
    {
      assert Mentions(s.log[i], |s.dbs|, |s.stmts|);
    }
    LegalSnoc(s.log, e);
  }

  lemma BeginKeeps(s: State, db: nat)
    requires Inv(s) && LiveDb(s, db) && !s.dbs[db].inTransaction
    ensures Inv(Logged(s, Began(db)).(dbs := s.dbs[db := s.dbs[db].(inTransaction := true)]))
  {
    Snoc(s.log, Began(db));
    assert (s.log + [Began(db)])[..|s.log|] == s.log;
    LegalSnoc(s.log, Began(db));
  }

  lemma EndKeeps(s: State, db: nat, fails: bool, commits: bool)
    requires Inv(s) && db < |s.dbs| && (s.dbs[db].live ==> s.dbs[db].inTransaction)
    ensures Inv(EndTransaction(s, db, fails, commits))
  {
    var e := if !fails && commits then Committed(db) else RolledBack(db);
    if s.dbs[db].live {
      Snoc(s.log, e);
      assert (s.log + [e])[..|s.log|] == s.log;
      LegalSnoc(s.log, e);
    } else {
      assert s.dbs[db := s.dbs[db].(inTransaction := false)] == s.dbs;
    }
  }

  lemma {:induction false} OpKeeps(s: State, op: Op)
    requires Inv(s)
    ensures Inv(RunOp(s, op)) && Scoped(s, RunOp(s, op))
    decreases op, 0
  {
    match op
    case Open(path, plugin, opens) => OpenKeeps(s, path, plugin);
    case Prepare(db, prepares) => if LiveDb(s, db) { PrepareKeeps(s, db); }
    case CloseStmt(stmt) => if LiveStmt(s, stmt) { FinalizeKeeps(s, stmt); }
    case CloseDb(db) => CloseKeeps(s, db);
    case Transaction(db, begins, body, fails, commits) => TransactionKeeps(s, db, begins, body, fails, commits);
    case RemovePlugin(plugin) => CloseAllKeeps(s, plugin, 1);
  }

  lemma {:induction false} TransactionKeeps(s: State, db: nat, begins: bool, body: Script, fails: bool, commits: bool)
    requires Inv(s)
    ensures var s' := RunOp(s, Transaction(db, begins, body, fails, commits)); Inv(s') && Scoped(s, s')
    decreases body, 2
  {
    if db > 0 && LiveDb(s, db) && !s.dbs[db].inTransaction && begins { BodyKeeps(s, db, body, fails, commits); }
  }

  lemma {:induction false} BodyKeeps(s: State, db: nat, body: Script, fails: bool, commits: bool)
    requires Inv(s) && LiveDb(s, db) && !s.dbs[db].inTransaction
    ensures var begun := Logged(s, Began(db)).(dbs := s.dbs[db := s.dbs[db].(inTransaction := true)]);
      var end := EndTransaction(RunScript(begun, body), db, fails, commits);
      Inv(end) && Scoped(s, end)
    decreases body, 1
  {
    var begun := Logged(s, Began(db)).(dbs := s.dbs[db := s.dbs[db].(inTransaction := true)]);
    var ran := RunScript(begun, body);
    BeginKeeps(s, db);
    ScriptKeeps(begun, body);
    EndKeeps(ran, db, fails, commits);
    EndScoped(s, begun, ran, db, fails, commits);
  }

  lemma EndScoped(s: State, begun: State, ran: State, db: nat, fails: bool, commits: bool)
    requires db < |s.dbs| && s.dbs[db].live && !s.dbs[db].inTransaction
    requires begun == Logged(s, Began(db)).(dbs := s.dbs[db := s.dbs[db].(inTransaction := true)]) && Scoped(begun, ran)
    ensures Scoped(s, EndTransaction(ran, db, fails, commits))
  {
  }

  lemma {:induction false} ScriptKeeps(s: State, script: Script)
    requires Inv(s)
    ensures Inv(RunScript(s, script)) && Scoped(s, RunScript(s, script))
    decreases script, 0
  {
    if script.Do? {
      OpKeeps(s, script.op);
      ScriptKeeps(RunOp(s, script.op), script.next);
      ScopedTrans(s, RunOp(s, script.op), RunScript(s, script));
    }
  }

  lemma ScopedTrans(a: State, b: State, c: State)
    requires Scoped(a, b) && Scoped(b, c)
    ensures Scoped(a, c)
  {
  }

  // ---------------------------------------------------------------------------
  // Whole runs

  /** Any script, however deep its transactions nest: every call to SQLite is a legal one, every live statement
      belongs to a live database, and every BEGIN has been answered by a COMMIT, a ROLLBACK or the close. */
  lemma AnyScript(script: Script)
    ensures var s := RunScript(INIT, script);
      && AllLegal(s.log)
      && (forall i :: 0 <= i < |s.stmts| && s.stmts[i].live ==> LiveDb(s, s.stmts[i].db))
      && (forall d: nat :: !Pending(s.log, d))
  {
    ScriptKeeps(INIT, script);
  }

  // ---------------------------------------------------------------------------
  // Inside a transaction

  predicate Touches(e: Entry, db: nat) { e == Began(db) || e == Committed(db) || e == RolledBack(db) }

  /** What was added to the history neither begins nor ends a transaction on db. */
  ghost predicate Apart(a: seq<Entry>, b: seq<Entry>, db: nat) {
    a <= b && forall k :: |a| <= k < |b| ==> !Touches(b[k], db)
  }

  /** db is in a transaction, or was and has been closed. */
  ghost predicate Busy(s: State, db: nat) { db < |s.dbs| && (s.dbs[db].live ==> s.dbs[db].inTransaction) }

  lemma ApartTrans(a: seq<Entry>, b: seq<Entry>, c: seq<Entry>, db: nat)
    requires Apart(a, b, db) && Apart(b, c, db)
    ensures Apart(a, c, db)
  {
    forall k | |a| <= k < |c| ensures !Touches(c[k], db) { if k < |b| { assert c[k] == b[k]; } }
  }

  lemma {:induction false} CloseStmtsApart(s: State, id: nat, i: nat, db: nat)
    ensures Apart(s.log, CloseStmtsOf(s, id, i).log, db)
    decreases |s.stmts| - i
  {
    if i < |s.stmts| {
      if s.stmts[i].live && s.stmts[i].db == id {
        var t := Finalize(s, i);
        CloseStmtsApart(t, id, i + 1, db);
        ApartTrans(s.log, t.log, CloseStmtsOf(t, id, i + 1).log, db);
      } else {
        CloseStmtsApart(s, id, i + 1, db);
      }
    }
  }

  lemma CloseApart(s: State, id: nat, db: nat)
    ensures Apart(s.log, Close(s, id).log, db)
  {
    if id > 0 && LiveDb(s, id) {
      CloseStmtsApart(s, id, 1, db);
      ApartTrans(s.log, CloseStmtsOf(s, id, 1).log, Close(s, id).log, db);
    }
  }

  lemma {:induction false} CloseAllApart(s: State, plugin: int, i: nat, db: nat)
    ensures Apart(s.log, CloseAllOf(s, plugin, i).log, db)
    decreases |s.dbs| - i
  {
    if i < |s.dbs| {
      var t := CloseIfOf(s, plugin, i);
      CloseApart(s, i, db);
      if |t.dbs| == |s.dbs| {
        CloseAllApart(t, plugin, i + 1, db);
        ApartTrans(s.log, t.log, CloseAllOf(t, plugin, i + 1).log, db);
      }
    }
  }

  lemma StaysBusy(s: State, s': State, db: nat)
    requires Scoped(s, s') && Busy(s, db)
    ensures Busy(s', db)
  {
  }

  lemma {:induction false} OpApart(s: State, op: Op, db: nat)
    requires Inv(s) && Busy(s, db)
    ensures Apart(s.log, RunOp(s, op).log, db)
    decreases op, 0
  {
    match op
    case CloseDb(id) => CloseApart(s, id, db);
    case RemovePlugin(plugin) => CloseAllApart(s, plugin, 1, db);
    case Transaction(id, begins, body, fails, commits) =>
      if id > 0 && LiveDb(s, id) && !s.dbs[id].inTransaction && begins { OtherApart(s, id, body, fails, commits, db); }
    case _ =>
  }

  lemma {:induction false} OtherApart(s: State, id: nat, body: Script, fails: bool, commits: bool, db: nat)
    requires Inv(s) && Busy(s, db) && LiveDb(s, id) && !s.dbs[id].inTransaction
    ensures var begun := Logged(s, Began(id)).(dbs := s.dbs[id := s.dbs[id].(inTransaction := true)]);
      Apart(s.log, EndTransaction(RunScript(begun, body), id, fails, commits).log, db)
    decreases body, 1
  {
    var begun := Logged(s, Began(id)).(dbs := s.dbs[id := s.dbs[id].(inTransaction := true)]);
    BeginKeeps(s, id);
    NothingInside(begun, body, db);
    var ran := RunScript(begun, body);
    ApartTrans(s.log, begun.log, ran.log, db);
    ApartTrans(s.log, ran.log, EndTransaction(ran, id, fails, commits).log, db);
  }

  /** Whatever a callback does, with transactions of other databases as deep as it likes: inside a transaction nothing
      begins, commits or rolls back on its database, which cannot even be opened again under the same id. */
  lemma {:induction false} NothingInside(s: State, script: Script, db: nat)
    requires Inv(s) && Busy(s, db)
    ensures Apart(s.log, RunScript(s, script).log, db)
    decreases script, 0
  {
    if script.Do? {
      var t := RunOp(s, script.op);
      OpApart(s, script.op, db);
      OpKeeps(s, script.op);
      StaysBusy(s, t, db);
      NothingInside(t, script.next, db);
      ApartTrans(s.log, t.log, RunScript(t, script.next).log, db);
    }
  }

  /** What a transaction adds to the history: its BEGIN, whatever its callback did, and one end, unless the callback
      closed the database; in between nothing else begins or ends on it. */
  lemma TransactionEnds(s: State, db: nat, body: Script, fails: bool, commits: bool)
    requires Inv(s) && db > 0 && LiveDb(s, db) && !s.dbs[db].inTransaction
    ensures var begun := Logged(s, Began(db)).(dbs := s.dbs[db := s.dbs[db].(inTransaction := true)]);
      var ran, end := RunScript(begun, body), RunOp(s, Transaction(db, true, body, fails, commits));
      && |ran.dbs| >= |s.dbs| && |end.dbs| == |ran.dbs| && Apart(begun.log, ran.log, db)
      && end.log == ran.log + (if !ran.dbs[db].live then []
                               else if !fails && commits then [Committed(db)] else [RolledBack(db)])
      && !end.dbs[db].inTransaction
  {
    var begun := Logged(s, Began(db)).(dbs := s.dbs[db := s.dbs[db].(inTransaction := true)]);
    BeginKeeps(s, db);
    ScriptKeeps(begun, body);
    NothingInside(begun, body, db);
  }

  // ---------------------------------------------------------------------------
  // What each operation touches

  /** One entry before and after, `goes` saying whether it is closed. */
  ghost predicate StmtLeft(x: Stmt, x': Stmt, goes: bool) { x' == if goes then x.(live := false) else x }

  ghost predicate DbLeft(d: Db, d': Db, goes: bool) {
    d' == if goes then d.(live := false, inTransaction := false) else d
  }

  /** The statements after the ones of some databases have been finalized. */
  ghost predicate Left(s: State, s': State, gone: nat -> bool) {
    && |s'.stmts| == |s.stmts|
    && forall i :: 0 <= i < |s.stmts| ==> StmtLeft(s.stmts[i], s'.stmts[i], gone(s.stmts[i].db))
  }

  lemma {:induction false} CloseStmtsExactly(s: State, db: nat, from: nat)
    ensures var s' := CloseStmtsOf(s, db, from);
      && |s'.stmts| == |s.stmts|
      && forall i :: 0 <= i < |s.stmts| ==> StmtLeft(s.stmts[i], s'.stmts[i], i >= from && s.stmts[i].db == db)
    decreases |s.stmts| - from
  {
    if from < |s.stmts| {
      if s.stmts[from].live && s.stmts[from].db == db {
        CloseStmtsExactly(Finalize(s, from), db, from + 1);
      } else {
        CloseStmtsExactly(s, db, from + 1);
      }
    }
  }

  /** Closing an open database closes that one and finalizes its statements, no other. */
  lemma CloseExactly(s: State, id: nat)
    requires Inv(s)
    ensures var s' := Close(s, id);
      if id > 0 && LiveDb(s, id) then
        s'.dbs == s.dbs[id := s.dbs[id].(live := false, inTransaction := false)] && Left(s, s', db => db == id)
      else s' == s
  {
    if id > 0 && LiveDb(s, id) {
      CloseStmtsExactly(s, id, 1);
      SameDbs(s, id, 1);
    }
  }

  ghost predicate OfPlugin(s: State, db: nat, plugin: int) { db < |s.dbs| && s.dbs[db].plugin == plugin }

  /** After closing those of a plugin from index `from` on. */
  ghost predicate ClosedFrom(s: State, s': State, plugin: int, from: nat) {
    && |s'.dbs| == |s.dbs| && |s'.stmts| == |s.stmts|
    && (forall d :: 0 <= d < |s.dbs| ==>
          DbLeft(s.dbs[d], s'.dbs[d], d >= from && s.dbs[d].live && s.dbs[d].plugin == plugin))
    && forall i :: 0 <= i < |s.stmts| ==>
         StmtLeft(s.stmts[i], s'.stmts[i],
                  s.stmts[i].live && s.stmts[i].db >= from && OfPlugin(s, s.stmts[i].db, plugin))
  }

  lemma {:induction false} CloseAllExactly(s: State, plugin: int, from: nat)
    requires Inv(s) && from >= 1
    ensures ClosedFrom(s, CloseAllOf(s, plugin, from), plugin, from)
    decreases |s.dbs| - from
  {
    if from < |s.dbs| {
      var t := CloseIfOf(s, plugin, from);
      CloseIfKeeps(s, plugin, from);
      CloseExactly(s, from);
      CloseAllExactly(t, plugin, from + 1);
      CloseAllNext(s, t, CloseAllOf(t, plugin, from + 1), plugin, from);
    }
  }

  lemma CloseAllNext(s: State, t: State, end: State, plugin: int, from: nat)
    requires Inv(s) && 1 <= from < |s.dbs| && t == CloseIfOf(s, plugin, from)
    requires var c := Close(s, from); if LiveDb(s, from) then
        c.dbs == s.dbs[from := s.dbs[from].(live := false, inTransaction := false)] && Left(s, c, db => db == from)
      else c == s
    requires ClosedFrom(t, end, plugin, from + 1)
    ensures ClosedFrom(s, end, plugin, from)
  {
  }

  ghost predicate HasOpen(dbs: seq<Db>, path: string, plugin: int) {
    exists i :: 0 <= i < |dbs| && dbs[i].live && dbs[i].plugin == plugin && dbs[i].path == path
  }

  /** What each operation does to the tables, and that it does nothing else: only a plugin's own databases go with it,
      and their statements; nobody else's is closed. */
  lemma TouchesExactly(s: State, op: Op)
    requires Inv(s)
    ensures var s' := RunOp(s, op);
      match op
      case Open(path, plugin, opens) =>
        s'.stmts == s.stmts &&
        if !opens || (path != ":memory:" && HasOpen(s.dbs, path, plugin)) then s' == s
        else s'.dbs == s.dbs + [Db(true, plugin, path, false)]
      case Prepare(db, prepares) =>
        s'.dbs == s.dbs &&
        s'.stmts == if db < |s.dbs| && s.dbs[db].live && prepares then s.stmts + [Stmt(true, db)] else s.stmts
      case CloseStmt(stmt) =>
        s'.dbs == s.dbs &&
        s'.stmts == if stmt < |s.stmts| then s.stmts[stmt := s.stmts[stmt].(live := false)] else s.stmts
      case CloseDb(db) =>
        if db < |s.dbs| && s.dbs[db].live then
          s'.dbs == s.dbs[db := s.dbs[db].(live := false, inTransaction := false)] && Left(s, s', x => x == db)
        else s' == s
      case Transaction(db, begins, _, _, _) =>
        (db >= |s.dbs| || !s.dbs[db].live || s.dbs[db].inTransaction || !begins) ==> s' == s
      case RemovePlugin(plugin) =>
        && |s'.dbs| == |s.dbs|
        && (forall d :: 0 <= d < |s.dbs| ==>
              DbLeft(s.dbs[d], s'.dbs[d], s.dbs[d].live && s.dbs[d].plugin == plugin))
        && Left(s, s', (db: nat) => OfPlugin(s, db, plugin))
  {
    match op
    case Open(path, plugin, _) => OpenFinds(s.dbs, path, plugin, 1);
    case CloseDb(db) => CloseExactly(s, db);
    case RemovePlugin(plugin) => CloseAllExactly(s, plugin, 1);
    case _ =>
  }

  lemma {:induction false} OpenFinds(dbs: seq<Db>, path: string, plugin: int, from: nat)
    ensures AlreadyOpen(dbs, path, plugin, from) < |dbs| <==>
      exists i :: from <= i < |dbs| && dbs[i].live && dbs[i].plugin == plugin && dbs[i].path == path
    decreases |dbs| - from
  {
    if from < |dbs| {
      OpenFinds(dbs, path, plugin, from + 1);
    }
  }

  /** After a plugin's removal it has no open database. */
  lemma RemovedPluginClosed(s: State, plugin: int)
    requires Inv(s)
    ensures forall d :: 0 <= d < |RunOp(s, RemovePlugin(plugin)).dbs| && RunOp(s, RemovePlugin(plugin)).dbs[d].live ==>
              RunOp(s, RemovePlugin(plugin)).dbs[d].plugin != plugin
  {
    CloseAllKeeps(s, plugin, 1);
    SamePluginsAll(s, plugin, 1);
    forall d | 1 <= d < |s.dbs| ensures RunOp(s, RemovePlugin(plugin)).dbs[d].live ==> s.dbs[d].plugin != plugin {
      CloseAllCloses(s, plugin, 1, d);
    }
  }
}
