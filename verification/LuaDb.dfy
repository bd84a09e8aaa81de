/** The handle tables as the module keeps them: entries nulled in place, never removed. */
module LuaDb {
  import opened DbHandles

  lemma {:induction false} Found(dbs: seq<Db>, path: string, plugin: int, from: nat, i: nat)
    requires from <= i <= |dbs|
    requires forall j :: from <= j < i ==> !(dbs[j].live && dbs[j].plugin == plugin && dbs[j].path == path)
    requires i < |dbs| ==> dbs[i].live && dbs[i].plugin == plugin && dbs[i].path == path
    ensures AlreadyOpen(dbs, path, plugin, from) == i
    decreases i - from
  {
    if from < i { Found(dbs, path, plugin, from + 1, i); }
  }

  class Handles {
    /** s_dbs and s_stmts; an entry's handle is NULL when it is not live. */
    var dbs: seq<Db>
    var stmts: seq<Stmt>
    ghost var log: seq<Entry>

    ghost function View(): State reads this { State(dbs, stmts, log) }

    ghost predicate Valid() reads this { |dbs| >= 1 }

    constructor ()
      ensures Valid() && View() == INIT
    {
      dbs, stmts, log := [Db(false, -1, "", false)], [Stmt(false, 0)], [];
    }

    /** db.open: the id of the database, or none. */
    method OpenDb(path: string, plugin: int, opens: bool) returns (id: nat)
      requires Valid()
      modifies this
      ensures Valid()
      ensures View() == RunOp(old(View()), Open(path, plugin, opens))
      ensures id > 0 ==> id < |dbs| && dbs[id].live == true && dbs[id].plugin == plugin && dbs[id].path == path
      ensures id == 0 ==> !opens
      ensures path == ":memory:" && opens ==> id == |old(dbs)|
    {
      if path != MEMORY {
        var i := 1;
        while i < |dbs| && !(dbs[i].live && dbs[i].plugin == plugin && dbs[i].path == path)
          invariant 1 <= i <= |dbs|
          invariant forall j :: 1 <= j < i ==> !(dbs[j].live && dbs[j].plugin == plugin && dbs[j].path == path)
        {
          i := i + 1;
        }
        Found(dbs, path, plugin, 1, i);
        if i < |dbs| { return i; }
      }
      if !opens { return 0; }
      id := |dbs|;
      dbs := dbs + [Db(true, plugin, path, false)];
      log := log + [Opened(id)];
    }

    method PrepareStmt(db: nat, prepares: bool)
      requires Valid()
      modifies this
      ensures Valid()
      ensures View() == RunOp(old(View()), Prepare(db, prepares))
    {
      if db == 0 || db >= |dbs| || !dbs[db].live || !prepares { return; }
      log := log + [Prepared(|stmts|, db)];
      stmts := stmts + [Stmt(true, db)];
    }

    method Finalize(i: nat)
      requires i < |stmts|
      modifies this`stmts, this`log
      ensures View() == Logged(old(View()), Finalized(i)).(stmts := old(stmts)[i := old(stmts)[i].(live := false)])
    {
      stmts := stmts[i := stmts[i].(live := false)];
      log := log + [Finalized(i)];
    }

    method CloseStatement(id: nat)
      modifies this`stmts, this`log
      ensures View() == RunOp(old(View()), CloseStmt(id))
    {
      if id > 0 && id < |stmts| && stmts[id].live { Finalize(id); }
    }

    method CloseStatementsOf(db: nat)
      modifies this`stmts, this`log
      ensures View() == CloseStmtsOf(old(View()), db, 1)
    {
      ghost var goal := CloseStmtsOf(View(), db, 1);
      var i := 1;
      while i < |stmts|
        invariant 1 <= i && CloseStmtsOf(View(), db, i) == goal
        decreases |stmts| - i
      {
        if stmts[i].db == db && stmts[i].live { Finalize(i); }
        i := i + 1;
      }
    }

    /** close_db: closing twice is not an error. */
    method CloseDatabase(id: nat)
      modifies this
      ensures View() == Close(old(View()), id)
      ensures |dbs| == |old(dbs)| && forall d :: 0 <= d < |dbs| ==>
        dbs[d].plugin == old(dbs)[d].plugin && (d != id ==> dbs[d] == old(dbs)[d])
    {
      if id == 0 || id >= |dbs| || !dbs[id].live { return; }
      CloseStatementsOf(id);
      dbs := dbs[id := dbs[id].(live := false, inTransaction := false)];
      log := log + [Closed(id)];
      SameDbs(old(View()), id, 1);
    }

    method RemovePluginDbs(plugin: int)
      requires Valid()
      modifies this
      ensures Valid()
      ensures View() == RunOp(old(View()), RemovePlugin(plugin))
      ensures |dbs| == |old(dbs)|
      ensures forall d :: 0 <= d < |dbs| && old(dbs)[d].plugin != plugin ==> dbs[d] == old(dbs)[d]
    {
      ghost var goal := CloseAllOf(View(), plugin, 1);
      var i := 1;
      while i < |dbs|
        invariant 1 <= i && Valid() && CloseAllOf(View(), plugin, i) == goal
        invariant |dbs| == |old(dbs)|
        invariant forall d :: 0 <= d < |dbs| ==> dbs[d].plugin == old(dbs)[d].plugin
        invariant forall d :: 0 <= d < |dbs| && old(dbs)[d].plugin != plugin ==> dbs[d] == old(dbs)[d]
        decreases |dbs| - i
      {
        ghost var s := View();
        if dbs[i].live && dbs[i].plugin == plugin { CloseDatabase(i); }
        assert View() == CloseIfOf(s, plugin, i);
        i := i + 1;
      }
    }

    /** db:transaction. The id is kept, not the entry: the callback may add databases, or close this one. */
    method Transact(db: nat, begins: bool, body: Script, fails: bool, commits: bool) returns (refused: bool)
      requires Valid()
      modifies this
      ensures Valid()
      ensures View() == RunOp(old(View()), Transaction(db, begins, body, fails, commits))
      ensures refused <==> !(db > 0 && LiveDb(old(View()), db) && !old(dbs)[db].inTransaction && begins)
      decreases body, 1
    {
      refused := db == 0 || db >= |dbs| || !dbs[db].live || dbs[db].inTransaction || !begins;
      if refused { return; }
      log := log + [Began(db)];
      dbs := dbs[db := dbs[db].(inTransaction := true)];
      Run(body);
      Finish(db, fails, commits);
    }

    method Finish(db: nat, fails: bool, commits: bool)
      requires Valid()
      modifies this
      ensures Valid()
      ensures View() == EndTransaction(old(View()), db, fails, commits)
    {
      if db >= |dbs| { return; }
      dbs := dbs[db := dbs[db].(inTransaction := false)];
      if !dbs[db].live { return; }
      log := log + [if !fails && commits then Committed(db) else RolledBack(db)];
    }

    method Run(script: Script)
      requires Valid()
      modifies this
      ensures Valid()
      ensures View() == RunScript(old(View()), script)
      decreases script, 0
    {
      if script.End? { return; }
      match script.op {
        case Open(path, plugin, opens) =>
          var id := OpenDb(path, plugin, opens);
        case Prepare(db, prepares) => PrepareStmt(db, prepares);
        case CloseStmt(stmt) => CloseStatement(stmt);
        case CloseDb(db) => CloseDatabase(db);
        case Transaction(db, begins, body, fails, commits) => var refused := Transact(db, begins, body, fails, commits);
        case RemovePlugin(plugin) => RemovePluginDbs(plugin);
      }
      Run(script.next);
    }
  }
}
