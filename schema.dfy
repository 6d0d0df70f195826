/**
 * Creating and dropping the keyspace (initialize_schema and drop_schema):
 * a fixed script of idempotent creations that stops at its first failure,
 * and a single DROP KEYSPACE IF EXISTS.
 */
module Schema {
  import opened Models
  import opened Store

  /**
   * The statements initialize_schema executes, in order: the keyspace, then
   * set_keyspace, then the three table creations; all of them creations.
   */
  function InitStatements(): (r: seq<Statement>)
    ensures |r| == 5 && r[0] == CreateKeyspace && r[1] == UseKeyspace
    ensures r[2] == CreateTable(SongsBySession) && r[3] == CreateTable(SongsByUserSession) && r[4] == CreateTable(UsersBySong)
    ensures forall i :: 0 <= i < |r| ==> IsCreation(r[i])
  {
    [CreateKeyspace, UseKeyspace] + TableCreateStatements()
  }

  /**
   * initialize_schema: the keyspace statement, set_keyspace, then each table
   * creation in order; True when every execute went through, False at the
   * first one that raised, with nothing executed after it.
   */
  method InitializeSchema(session: Session) returns (ok: bool)
    requires session.Valid()
    modifies session
    ensures session.Valid()
    ensures var r := RunScript(old(session.State()), session.fails, InitStatements());
      ok == r.ok && session.State() == r.db
  {
    ghost var db0 := session.State();
    ghost var script := InitStatements();
    RunScriptSnoc(db0, session.fails, [], CreateKeyspace);
    assert script[..1] == [] + [CreateKeyspace];
    ok := session.Execute(CreateKeyspace);
    if !ok {
      RunScriptAfterFailure(db0, session.fails, script, 1);
      return;
    }
    RunScriptSnoc(db0, session.fails, script[..1], UseKeyspace);
    assert script[..2] == script[..1] + [UseKeyspace];
    ok := session.Execute(UseKeyspace);
    if !ok {
      RunScriptAfterFailure(db0, session.fails, script, 2);
      return;
    }
    var creates := TableCreateStatements();
    for i := 0 to |creates|
      invariant session.Valid()
      invariant var r := RunScript(db0, session.fails, script[..2 + i]); r.ok && session.State() == r.db
    {
      assert script[2 + i] == creates[i] == CreateTable(creates[i].table);
      RunScriptPrefixStep(db0, session.fails, script, 2 + i);
      ok := session.Execute(creates[i]);
      if !ok {
        RunScriptAfterFailure(db0, session.fails, script, 2 + i + 1);
        return;
      }
    }
    assert |script| == 2 + |creates|;
    assert script[..|script|] == script;
  }

  /** drop_schema: one DROP KEYSPACE IF EXISTS; True and an empty store, or False and nothing changed. */
  method DropSchema(session: Session) returns (ok: bool)
    requires session.Valid()
    modifies session
    ensures session.Valid()
    ensures (ok, session.State()) == Step(old(session.State()), session.fails, DropKeyspace)
    ensures ok <==> !session.fails(old(session.executed))
    ensures session.store == if ok then Empty else old(session.store)
  {
    ok := session.Execute(DropKeyspace);
  }

  /** A script made only of creations never changes any row. */
  lemma {:induction false} CreationsKeepRows(db: Db, fails: nat -> bool, stmts: seq<Statement>)
    requires forall i :: 0 <= i < |stmts| ==> IsCreation(stmts[i])
    ensures Rows(RunScript(db, fails, stmts).db.store) == Rows(db.store)
    decreases |stmts|
  {
    if stmts != [] {
      var init := stmts[..|stmts| - 1];
      CreationsKeepRows(db, fails, init);
      var prev := RunScript(db, fails, init);
      CreationKeepsRows(prev.db.store, stmts[|stmts| - 1]);
    }
  }

  predicate IsCreation(stmt: Statement)
  {
    stmt.CreateKeyspace? || stmt.UseKeyspace? || stmt.CreateTable?
  }

  /** After the first k statements of a creation script that starts with the keyspace. */
  ghost predicate CreationProgress(db: Db, fails: nat -> bool, s: seq<Statement>, k: nat)
    requires k <= |s|
  {
    var rk := RunScript(db, fails, s[..k]);
    && (rk.ok <==> AllPass(fails, db.executed, k))
    && (rk.ok && k >= 1 ==> rk.db.store.keyspace)
    && (rk.ok ==> forall j :: 0 <= j < k && s[j].CreateTable? ==> s[j].table in rk.db.store.tables)
  }

  lemma CreationProgressStep(db: Db, fails: nat -> bool, s: seq<Statement>, k: nat)
    requires k < |s| && s[0] == CreateKeyspace && IsCreation(s[k])
    requires CreationProgress(db, fails, s, k)
    ensures CreationProgress(db, fails, s, k + 1)
  {
    RunScriptPrefixStep(db, fails, s, k);
    var rk := RunScript(db, fails, s[..k]);
    var rk1 := RunScript(db, fails, s[..k + 1]);
    if !rk.ok {
      assert rk1 == rk;
      assert !AllPass(fails, db.executed, k + 1);
    } else {
      assert rk.db.executed == db.executed + k;
      var st := rk.db.store;
      assert k == 0 ==> s[k] == CreateKeyspace;
      assert Apply(st, s[k]).Some?;
      var next := Apply(st, s[k]).value;
      assert next.keyspace && st.tables <= next.tables;
      assert s[k].CreateTable? ==> s[k].table in next.tables;
      assert rk1.ok <==> !fails(db.executed + k);
      assert rk1.ok ==> rk1.db.store == next;
    }
  }

  /**
   * A creation script that starts with the keyspace succeeds exactly when
   * the oracle lets all its executes through, and then every table it names exists.
   */
  lemma CreationScriptSucceeds(db: Db, fails: nat -> bool, s: seq<Statement>)
    requires |s| > 0 && s[0] == CreateKeyspace
    requires forall i :: 0 <= i < |s| ==> IsCreation(s[i])
    ensures var r := RunScript(db, fails, s);
      && (r.ok <==> AllPass(fails, db.executed, |s|))
      && (r.ok ==> r.db.store.keyspace)
      && (r.ok ==> forall j :: 0 <= j < |s| && s[j].CreateTable? ==> s[j].table in r.db.store.tables)
  {
    CreationProgressUpTo(db, fails, s, |s|);
    assert s[..|s|] == s;
  }

  lemma {:induction false} CreationProgressUpTo(db: Db, fails: nat -> bool, s: seq<Statement>, k: nat)
    requires k <= |s| && |s| > 0 && s[0] == CreateKeyspace
    requires forall i :: 0 <= i < |s| ==> IsCreation(s[i])
    ensures CreationProgress(db, fails, s, k)
  {
    if k == 0 {
      assert s[..0] == [];
    } else {
      CreationProgressUpTo(db, fails, s, k - 1);
      CreationProgressStep(db, fails, s, k - 1);
    }
  }

  /**
   * initialize_schema never loses data, and it succeeds exactly when the
   * five executes it issues all go through; then the keyspace and all three
   * tables exist.
   */
  lemma InitializeSchemaEstablishesSchema(db: Db, fails: nat -> bool)
    ensures var r := RunScript(db, fails, InitStatements());
      && Rows(r.db.store) == Rows(db.store)
      && (r.ok <==> AllPass(fails, db.executed, 5))
      && (r.ok ==> r.db.store.keyspace && AllTables <= r.db.store.tables)
  {
    var s := InitStatements();
    assert forall i :: 0 <= i < |s| ==> IsCreation(s[i]);
    CreationsKeepRows(db, fails, s);
    CreationScriptSucceeds(db, fails, s);
    var r := RunScript(db, fails, s);
    if r.ok {
      forall t | t in AllTables ensures t in r.db.store.tables {
        assert CreateTable(t) in TableCreateStatements();
        var j :| 0 <= j < 3 && TableCreateStatements()[j] == CreateTable(t);
        assert s[2 + j] == CreateTable(t);
      }
    }
  }

  /**
   * After a DROP KEYSPACE that went through, initialize_schema succeeds
   * exactly when its five executes go through, and then leaves the keyspace
   * and exactly the three tables, all of them empty.
   */
  lemma InitializeAfterDrop(db: Db, fails: nat -> bool)
    requires Step(db, fails, DropKeyspace).0
    ensures var d := Step(db, fails, DropKeyspace).1;
      var r := RunScript(d, fails, InitStatements());
      && (r.ok <==> AllPass(fails, d.executed, 5))
      && (r.ok ==> Initialised(r.db.store) && Rows(r.db.store) == (map[], map[], map[]))
  {
    var d := Step(db, fails, DropKeyspace).1;
    assert d.store == Empty;
    InitializeSchemaEstablishesSchema(d, fails);
    var r := RunScript(d, fails, InitStatements());
    if r.ok {
      forall t | t in r.db.store.tables ensures t in AllTables {
        AllTablesComplete(t);
      }
    }
  }

  /**
   * Every creation is IF NOT EXISTS: on a store that is already initialised,
   * initialize_schema changes neither the schema nor any row, whichever of
   * its executes fail.
   */
  lemma InitializeSchemaIdempotent(db: Db, fails: nat -> bool)
    requires Initialised(db.store)
    ensures RunScript(db, fails, InitStatements()).db.store == db.store
    ensures RunScript(db, fails, InitStatements()).ok <==> AllPass(fails, db.executed, 5)
  {
    var s := InitStatements();
    forall i | 0 <= i < |s| ensures Apply(db.store, s[i]) == Some(db.store) {
      CreationKeepsRows(db.store, s[i]);
    }
    RunScriptOfNoOps(db, fails, s);
  }
}
