/**
 * The store the core talks to, reduced to what the core relies on: one
 * keyspace flag, the set of created tables, and one finite map per table
 * from primary key to row. A write is an upsert by primary key; a scan of a
 * partition returns its rows in ascending clustering order. The session
 * that carries statements to the store fails on the k-th execute when its
 * fault oracle says so or the store refuses the statement; an arbitrary
 * oracle stands for every pattern of transport failures.
 */
module Store {
  import opened Models

  datatype Store = Store(
    keyspace: bool,
    tables: set<Table>,
    songsBySession: map<(int, int), SongBySession>,
    songsByUserSession: map<(int, int, int), SongByUserSession>,
    usersBySong: map<(string, int), UserBySong>)

  /** The store before the keyspace exists, and after it is dropped. */
  const Empty: Store := Store(false, {}, map[], map[], map[])

  /**
   * Every row sits under its own primary key, every row is one Cassandra can
   * hold (`Fits`: INT columns within 32 bits, no empty users_by_song
   * partition key), and only created tables hold rows.
   */
  ghost predicate Wf(st: Store)
  {
    && (forall k :: k in st.songsBySession ==> st.songsBySession[k].Key() == k && st.songsBySession[k].Fits())
    && (forall k :: k in st.songsByUserSession ==> st.songsByUserSession[k].Key() == k && st.songsByUserSession[k].Fits())
    && (forall k :: k in st.usersBySong ==> st.usersBySong[k].Key() == k && st.usersBySong[k].Fits())
    && (!st.keyspace ==> st.tables == {})
    && (SongsBySession !in st.tables ==> st.songsBySession == map[])
    && (SongsByUserSession !in st.tables ==> st.songsByUserSession == map[])
    && (UsersBySong !in st.tables ==> st.usersBySong == map[])
  }

  /** The keyspace and all three tables exist. */
  predicate Initialised(st: Store)
  {
    st.keyspace && st.tables == AllTables
  }

  /** The three tables' contents, without the schema. */
  function Rows(st: Store): (map<(int, int), SongBySession>, map<(int, int, int), SongByUserSession>, map<(string, int), UserBySong>)
  {
    (st.songsBySession, st.songsByUserSession, st.usersBySong)
  }

  /** `after` is `before` with v stored under k: one key more at most, every other entry kept. */
  ghost predicate PutAt<K, V>(after: map<K, V>, before: map<K, V>, k: K, v: V)
  {
    && k in after && after[k] == v
    && after.Keys == before.Keys + {k}
    && (forall j :: j in before && j != k ==> after[j] == before[j])
  }

  /**
   * An INSERT: it lands exactly when the tuple binds; then the decoded row
   * sits under its own key, every other key of the table keeps its row, and
   * the schema and the other two tables are unchanged.
   */
  function Upsert(st: Store, t: Table, params: seq<Value>): (r: Option<Store>)
    ensures r.Some? <==> Decodes(t, params)
    ensures r.Some? ==> r.value.keyspace == st.keyspace && r.value.tables == st.tables
    ensures r.Some? && t == SongsBySession ==>
      var row := DecodeSongBySession(params).value;
      && PutAt(r.value.songsBySession, st.songsBySession, row.Key(), row)
      && r.value.songsByUserSession == st.songsByUserSession && r.value.usersBySong == st.usersBySong
    ensures r.Some? && t == SongsByUserSession ==>
      var row := DecodeSongByUserSession(params).value;
      && PutAt(r.value.songsByUserSession, st.songsByUserSession, row.Key(), row)
      && r.value.songsBySession == st.songsBySession && r.value.usersBySong == st.usersBySong
    ensures r.Some? && t == UsersBySong ==>
      var row := DecodeUserBySong(params).value;
      && PutAt(r.value.usersBySong, st.usersBySong, row.Key(), row)
      && r.value.songsBySession == st.songsBySession && r.value.songsByUserSession == st.songsByUserSession
  {
    match t
    case SongsBySession =>
      (match DecodeSongBySession(params)
       case None => None
       case Some(row) => Some(st.(songsBySession := st.songsBySession[row.Key() := row])))
    case SongsByUserSession =>
      (match DecodeSongByUserSession(params)
       case None => None
       case Some(row) => Some(st.(songsByUserSession := st.songsByUserSession[row.Key() := row])))
    case UsersBySong =>
      (match DecodeUserBySong(params)
       case None => None
       case Some(row) => Some(st.(usersBySong := st.usersBySong[row.Key() := row])))
  }

  /**
   * What the store does with a statement; None when it refuses it. Only
   * DROP removes schema, an INSERT needs its table, and only INSERT and DROP
   * touch rows.
   */
  function Apply(st: Store, stmt: Statement): (r: Option<Store>)
    ensures r.Some? && !stmt.DropKeyspace? ==> (st.keyspace ==> r.value.keyspace) && st.tables <= r.value.tables
    ensures r.Some? && stmt.Insert? ==> stmt.table in st.tables
    ensures r.Some? && !stmt.Insert? && !stmt.DropKeyspace? ==> Rows(r.value) == Rows(st)
    ensures stmt.Rejected? ==> r.None?
  {
    match stmt
    case CreateKeyspace => Some(st.(keyspace := true))
    case UseKeyspace => if st.keyspace then Some(st) else None
    case CreateTable(t) => if st.keyspace then Some(st.(tables := st.tables + {t})) else None
    case DropKeyspace => Some(Empty)
    case Insert(t, params) => if t in st.tables then Upsert(st, t, params) else None
    case Rejected => None
  }

  lemma ApplyPreservesWf(st: Store, stmt: Statement)
    ensures Wf(st) && Apply(st, stmt).Some? ==> Wf(Apply(st, stmt).value)
  {
    if Wf(st) && Apply(st, stmt).Some? {
      var r := Apply(st, stmt).value;
      match stmt
      case Insert(t, params) =>
        UpsertPreservesWf(st, t, params);
      case DropKeyspace =>
        assert r == Empty;
      case CreateTable(t) =>
        assert r == st.(tables := st.tables + {t});
      case _ =>
    }
  }

  /** An accepted INSERT into an existing table keeps every row under its own key. */
  lemma UpsertPreservesWf(st: Store, t: Table, params: seq<Value>)
    requires Wf(st) && t in st.tables && Upsert(st, t, params).Some?
    ensures Wf(Upsert(st, t, params).value)
  {
    var r := Upsert(st, t, params).value;
    match t
    case SongsBySession =>
      var row := DecodeSongBySession(params).value;
      forall k | k in r.songsBySession ensures r.songsBySession[k].Key() == k && r.songsBySession[k].Fits() {
        if k != row.Key() {
          assert r.songsBySession[k] == st.songsBySession[k];
        }
      }
    case SongsByUserSession =>
      var row := DecodeSongByUserSession(params).value;
      forall k | k in r.songsByUserSession ensures r.songsByUserSession[k].Key() == k && r.songsByUserSession[k].Fits() {
        if k != row.Key() {
          assert r.songsByUserSession[k] == st.songsByUserSession[k];
        }
      }
    case UsersBySong =>
      var row := DecodeUserBySong(params).value;
      forall k | k in r.usersBySong ensures r.usersBySong[k].Key() == k && r.usersBySong[k].Fits() {
        if k != row.Key() {
          assert r.usersBySong[k] == st.usersBySong[k];
        }
      }
  }

  /** Creation statements never touch rows, and on an initialised store they change nothing. */
  lemma CreationKeepsRows(st: Store, stmt: Statement)
    requires stmt.CreateKeyspace? || stmt.UseKeyspace? || stmt.CreateTable?
    ensures Apply(st, stmt).Some? ==> Rows(Apply(st, stmt).value) == Rows(st)
    ensures Initialised(st) ==> Apply(st, stmt) == Some(st)
  {
    if Initialised(st) && stmt.CreateTable? {
      AllTablesComplete(stmt.table);
      assert st.tables + {stmt.table} == st.tables;
    }
  }

  /** An INSERT lands exactly when its table exists and the tuple conforms to the table. */
  lemma InsertAcceptedIff(st: Store, t: Table, params: seq<Value>)
    ensures Apply(st, Insert(t, params)).Some? <==> t in st.tables && Conforms(t, params)
  {
    DecodesIffConforms(t, params);
  }

  /** Writing a second row with the same primary key after an accepted first write replaces the first. */
  lemma UpsertReplaces(st: Store, a: SongBySession, b: SongBySession, c: SongByUserSession, d: SongByUserSession, e: UserBySong, f: UserBySong)
    requires a.Key() == b.Key() && c.Key() == d.Key() && e.Key() == f.Key()
    requires a.Fits() && c.Fits() && e.Fits()
    ensures Upsert(Upsert(st, SongsBySession, EncodeSongBySession(a)).value, SongsBySession, EncodeSongBySession(b))
         == Upsert(st, SongsBySession, EncodeSongBySession(b))
    ensures Upsert(Upsert(st, SongsByUserSession, EncodeSongByUserSession(c)).value, SongsByUserSession, EncodeSongByUserSession(d))
         == Upsert(st, SongsByUserSession, EncodeSongByUserSession(d))
    ensures Upsert(Upsert(st, UsersBySong, EncodeUserBySong(e)).value, UsersBySong, EncodeUserBySong(f))
         == Upsert(st, UsersBySong, EncodeUserBySong(f))
  {
    SongsBySessionUpsertReplaces(st, a, b);
    SongsByUserSessionUpsertReplaces(st, c, d);
    UsersBySongUpsertReplaces(st, e, f);
  }

  lemma SongsBySessionUpsertReplaces(st: Store, a: SongBySession, b: SongBySession)
    requires a.Key() == b.Key() && a.Fits()
    ensures Upsert(Upsert(st, SongsBySession, EncodeSongBySession(a)).value, SongsBySession, EncodeSongBySession(b))
         == Upsert(st, SongsBySession, EncodeSongBySession(b))
  {
    EncodeDecodeRoundTrip(a, SongByUserSession(0, 0, 0, "", "", "", ""), UserBySong("", 0, "", ""));
    EncodeDecodeRoundTrip(b, SongByUserSession(0, 0, 0, "", "", "", ""), UserBySong("", 0, "", ""));
    assert st.songsBySession[a.Key() := a][b.Key() := b] == st.songsBySession[b.Key() := b];
  }

  lemma SongsByUserSessionUpsertReplaces(st: Store, c: SongByUserSession, d: SongByUserSession)
    requires c.Key() == d.Key() && c.Fits()
    ensures Upsert(Upsert(st, SongsByUserSession, EncodeSongByUserSession(c)).value, SongsByUserSession, EncodeSongByUserSession(d))
         == Upsert(st, SongsByUserSession, EncodeSongByUserSession(d))
  {
    EncodeDecodeRoundTrip(SongBySession(0, 0, "", "", ""), c, UserBySong("", 0, "", ""));
    EncodeDecodeRoundTrip(SongBySession(0, 0, "", "", ""), d, UserBySong("", 0, "", ""));
    assert st.songsByUserSession[c.Key() := c][d.Key() := d] == st.songsByUserSession[d.Key() := d];
  }

  lemma UsersBySongUpsertReplaces(st: Store, e: UserBySong, f: UserBySong)
    requires e.Key() == f.Key() && e.Fits()
    ensures Upsert(Upsert(st, UsersBySong, EncodeUserBySong(e)).value, UsersBySong, EncodeUserBySong(f))
         == Upsert(st, UsersBySong, EncodeUserBySong(f))
  {
    EncodeDecodeRoundTrip(SongBySession(0, 0, "", "", ""), SongByUserSession(0, 0, 0, "", "", "", ""), e);
    EncodeDecodeRoundTrip(SongBySession(0, 0, "", "", ""), SongByUserSession(0, 0, 0, "", "", "", ""), f);
    assert st.usersBySong[e.Key() := e][f.Key() := f] == st.usersBySong[f.Key() := f];
  }

  /** Replaying an accepted INSERT leaves the store as it is. */
  lemma InsertIdempotent(st: Store, t: Table, params: seq<Value>)
    requires Apply(st, Insert(t, params)).Some?
    ensures Apply(Apply(st, Insert(t, params)).value, Insert(t, params)) == Apply(st, Insert(t, params))
  {
    match t
    case SongsBySession =>
      var row := DecodeSongBySession(params).value;
      assert st.songsBySession[row.Key() := row][row.Key() := row] == st.songsBySession[row.Key() := row];
    case SongsByUserSession =>
      var row := DecodeSongByUserSession(params).value;
      assert st.songsByUserSession[row.Key() := row][row.Key() := row] == st.songsByUserSession[row.Key() := row];
    case UsersBySong =>
      var row := DecodeUserBySong(params).value;
      assert st.usersBySong[row.Key() := row][row.Key() := row] == st.usersBySong[row.Key() := row];
  }

  // ---------------------------------------------------------------------
  // Clustering order

  predicate StrictlyIncreasing(s: seq<int>)
  {
    forall i, j :: 0 <= i < j < |s| ==> s[i] < s[j]
  }

  lemma EmptyIfNoMember(s: set<int>)
    ensures (forall z :: z !in s) ==> s == {}
  {
    if forall z :: z !in s {
      assert s == {};
    }
  }

  lemma {:induction false} Least(s: set<int>) returns (m: int)
    requires s != {}
    ensures m in s && forall x :: x in s ==> m <= x
    decreases |s|
  {
    EmptyIfNoMember(s);
    var y :| y in s;
    var rest := s - {y};
    if rest == {} {
      m := y;
      forall x | x in s ensures m <= x {
        assert x !in rest;
      }
    } else {
      var k := Least(rest);
      m := if y < k then y else k;
      forall x | x in s ensures m <= x {
        if x != y { assert x in rest; }
      }
    }
  }

  lemma LeastExists(s: set<int>)
    requires s != {}
    ensures exists m :: m in s && forall x :: x in s ==> m <= x
  {
    var m := Least(s);
  }

  /** The elements of a set of clustering values in ascending order. */
  function Ascending(s: set<int>): (r: seq<int>)
    ensures |r| == |s|
    decreases |s|
  {
    if s == {} then []
    else
      LeastExists(s);
      var m :| m in s && forall x :: x in s ==> m <= x;
      [m] + Ascending(s - {m})
  }

  /** r lists exactly the elements of s, each once, smallest first. */
  ghost predicate Enumerates(r: seq<int>, s: set<int>)
  {
    && StrictlyIncreasing(r)
    && (forall i :: 0 <= i < |r| ==> r[i] in s)
    && (forall x :: x in s ==> x in r)
  }

  lemma AscendingHead(s: set<int>)
    requires s != {}
    ensures var r := Ascending(s);
      |r| > 0 && r[0] in s && (forall x :: x in s ==> r[0] <= x) && r[1..] == Ascending(s - {r[0]})
  {
  }

  lemma EnumeratesCons(m: int, tail: seq<int>, s: set<int>)
    requires m in s && forall x :: x in s ==> m <= x
    requires Enumerates(tail, s - {m})
    ensures Enumerates([m] + tail, s)
  {
    var r := [m] + tail;
    forall i, j | 0 <= i < j < |r| ensures r[i] < r[j] {
      assert r[j] == tail[j - 1] && r[j] in s - {m};
      if i > 0 { assert r[i] == tail[i - 1]; }
    }
    forall i | 0 <= i < |r| ensures r[i] in s {
      if i > 0 { assert r[i] == tail[i - 1]; }
    }
    forall x | x in s ensures x in r {
      if x != m { assert x in s - {m}; }
    }
  }

  lemma {:induction false} AscendingEnumerates(s: set<int>)
    ensures Enumerates(Ascending(s), s)
    decreases |s|
  {
    if s != {} {
      var r := Ascending(s);
      AscendingHead(s);
      AscendingEnumerates(s - {r[0]});
      EnumeratesCons(r[0], r[1..], s);
      assert r == [r[0]] + r[1..];
    }
  }

  // ---------------------------------------------------------------------
  // Reads

  /** The rows of songs_by_session under the full key (session_id, item_in_session). */
  function LookupSongsBySession(st: Store, sessionId: int, itemInSession: int): (rows: seq<SongBySession>)
    ensures |rows| <= 1
    ensures |rows| == 1 <==> (sessionId, itemInSession) in st.songsBySession
    ensures |rows| == 1 ==> rows[0] == st.songsBySession[(sessionId, itemInSession)]
  {
    if (sessionId, itemInSession) in st.songsBySession then [st.songsBySession[(sessionId, itemInSession)]] else []
  }

  /** The clustering values present in partition (user_id, session_id) of songs_by_user_session. */
  function SessionItems(m: map<(int, int, int), SongByUserSession>, userId: int, sessionId: int): (items: set<int>)
    ensures forall i :: i in items <==> (userId, sessionId, i) in m
  {
    set k | k in m.Keys && k.0 == userId && k.1 == sessionId :: k.2
  }

  function RowsAtItems(m: map<(int, int, int), SongByUserSession>, userId: int, sessionId: int, items: seq<int>): (rows: seq<SongByUserSession>)
    requires forall i :: 0 <= i < |items| ==> (userId, sessionId, items[i]) in m
    ensures |rows| == |items|
    ensures forall i :: 0 <= i < |items| ==> rows[i] == m[(userId, sessionId, items[i])]
  {
    if items == [] then [] else [m[(userId, sessionId, items[0])]] + RowsAtItems(m, userId, sessionId, items[1..])
  }

  /** A partition scan of songs_by_user_session, in ascending item_in_session. */
  function ScanSongsByUserSession(st: Store, userId: int, sessionId: int): (rows: seq<SongByUserSession>)
    ensures |rows| == |SessionItems(st.songsByUserSession, userId, sessionId)|
  {
    var m := st.songsByUserSession;
    AscendingEnumerates(SessionItems(m, userId, sessionId));
    RowsAtItems(m, userId, sessionId, Ascending(SessionItems(m, userId, sessionId)))
  }

  /** The clustering values present in partition song_title of users_by_song. */
  function SongUsers(m: map<(string, int), UserBySong>, songTitle: string): (users: set<int>)
    ensures forall u :: u in users <==> (songTitle, u) in m
  {
    set k | k in m.Keys && k.0 == songTitle :: k.1
  }

  function RowsAtUsers(m: map<(string, int), UserBySong>, songTitle: string, users: seq<int>): (rows: seq<UserBySong>)
    requires forall i :: 0 <= i < |users| ==> (songTitle, users[i]) in m
    ensures |rows| == |users|
    ensures forall i :: 0 <= i < |users| ==> rows[i] == m[(songTitle, users[i])]
  {
    if users == [] then [] else [m[(songTitle, users[0])]] + RowsAtUsers(m, songTitle, users[1..])
  }

  /** A partition scan of users_by_song, in ascending user_id. */
  function ScanUsersBySong(st: Store, songTitle: string): (rows: seq<UserBySong>)
    ensures |rows| == |SongUsers(st.usersBySong, songTitle)|
  {
    var m := st.usersBySong;
    AscendingEnumerates(SongUsers(m, songTitle));
    RowsAtUsers(m, songTitle, Ascending(SongUsers(m, songTitle)))
  }

  /**
   * A scan of songs_by_user_session returns every row of the partition once,
   * nothing else, in strictly ascending item_in_session.
   */
  lemma ScanSongsByUserSessionIsPartitionInOrder(st: Store, userId: int, sessionId: int)
    requires Wf(st)
    ensures var rows := ScanSongsByUserSession(st, userId, sessionId);
      && (forall i :: 0 <= i < |rows| ==> rows[i].Key() in st.songsByUserSession && st.songsByUserSession[rows[i].Key()] == rows[i])
      && (forall i :: 0 <= i < |rows| ==> rows[i].userId == userId && rows[i].sessionId == sessionId)
      && (forall i, j :: 0 <= i < j < |rows| ==> rows[i].itemInSession < rows[j].itemInSession)
      && (forall k :: k in st.songsByUserSession && k.0 == userId && k.1 == sessionId ==>
            exists i :: 0 <= i < |rows| && rows[i] == st.songsByUserSession[k])
  {
    var m := st.songsByUserSession;
    var items := Ascending(SessionItems(m, userId, sessionId));
    var rows := ScanSongsByUserSession(st, userId, sessionId);
    AscendingEnumerates(SessionItems(m, userId, sessionId));
    assert rows == RowsAtItems(m, userId, sessionId, items);
    forall i | 0 <= i < |rows|
      ensures rows[i].Key() == (userId, sessionId, items[i]) && rows[i].Key() in m && m[rows[i].Key()] == rows[i]
    {
      assert items[i] in SessionItems(m, userId, sessionId);
      assert rows[i] == m[(userId, sessionId, items[i])];
    }
    forall i, j | 0 <= i < j < |rows| ensures rows[i].itemInSession < rows[j].itemInSession {
      assert items[i] < items[j];
    }
    forall k | k in m && k.0 == userId && k.1 == sessionId
      ensures exists i :: 0 <= i < |rows| && rows[i] == m[k]
    {
      assert k.2 in SessionItems(m, userId, sessionId);
      var i :| 0 <= i < |items| && items[i] == k.2;
      assert (userId, sessionId, k.2) == k;
      assert rows[i] == m[k];
    }
  }

  /**
   * A scan of users_by_song returns every row of the partition once, nothing
   * else, in strictly ascending user_id: at most one row per user.
   */
  lemma ScanUsersBySongIsPartitionInOrder(st: Store, songTitle: string)
    requires Wf(st)
    ensures var rows := ScanUsersBySong(st, songTitle);
      && (forall i :: 0 <= i < |rows| ==> rows[i].Key() in st.usersBySong && st.usersBySong[rows[i].Key()] == rows[i])
      && (forall i :: 0 <= i < |rows| ==> rows[i].songTitle == songTitle)
      && (forall i, j :: 0 <= i < j < |rows| ==> rows[i].userId < rows[j].userId)
      && (forall k :: k in st.usersBySong && k.0 == songTitle ==>
            exists i :: 0 <= i < |rows| && rows[i] == st.usersBySong[k])
  {
    var m := st.usersBySong;
    var userSet := SongUsers(m, songTitle);
    var users := Ascending(userSet);
    AscendingEnumerates(userSet);
    var rows := ScanUsersBySong(st, songTitle);
    assert rows == RowsAtUsers(m, songTitle, users);
    forall i | 0 <= i < |rows|
      ensures rows[i].Key() == (songTitle, users[i]) && rows[i].Key() in m && m[rows[i].Key()] == rows[i]
    {
      assert users[i] in userSet;
      assert rows[i] == m[(songTitle, users[i])];
    }
    forall i, j | 0 <= i < j < |rows| ensures rows[i].userId < rows[j].userId {
      assert users[i] < users[j];
    }
    forall k | k in m && k.0 == songTitle
      ensures exists i :: 0 <= i < |rows| && rows[i] == m[k]
    {
      assert k.1 in SongUsers(m, songTitle);
      var i :| 0 <= i < |users| && users[i] == k.1;
      assert (songTitle, k.1) == k;
      assert rows[i] == m[k];
    }
  }

  // ---------------------------------------------------------------------
  // The session: statements in order, each one possibly failing

  /** The store together with the number of executes issued so far. */
  datatype Db = Db(store: Store, executed: nat)

  /**
   * One execute: it succeeds when the oracle lets this call through and the
   * store accepts the statement; a failed execute leaves the store as it was.
   */
  function Step(db: Db, fails: nat -> bool, stmt: Statement): (r: (bool, Db))
    ensures r.1.executed == db.executed + 1
    ensures r.0 <==> !fails(db.executed) && Apply(db.store, stmt).Some?
    ensures r.1.store == if r.0 then Apply(db.store, stmt).value else db.store
  {
    var applied := Apply(db.store, stmt);
    var ok := !fails(db.executed) && applied.Some?;
    (ok, Db(if ok then applied.value else db.store, db.executed + 1))
  }

  datatype ScriptResult = ScriptResult(ok: bool, db: Db, ran: nat)

  /**
   * Executes statements in order and stops at the first one that fails:
   * `ran` counts the executes issued, and `ok` says that all of them succeeded.
   */
  function RunScript(db: Db, fails: nat -> bool, stmts: seq<Statement>): (r: ScriptResult)
    ensures 0 < r.ran <= |stmts| || (r.ran == 0 && stmts == [])
    ensures r.db.executed == db.executed + r.ran
    ensures r.ok ==> r.ran == |stmts|
    ensures Wf(db.store) ==> Wf(r.db.store)
    decreases |stmts|
  {
    if stmts == [] then ScriptResult(true, db, 0)
    else
      var prev := RunScript(db, fails, stmts[..|stmts| - 1]);
      if !prev.ok then prev
      else
        ApplyPreservesWf(prev.db.store, stmts[|stmts| - 1]);
        var step := Step(prev.db, fails, stmts[|stmts| - 1]);
        ScriptResult(step.0, step.1, prev.ran + 1)
  }

  /** Running one more statement after a successful prefix is one more step. */
  lemma RunScriptSnoc(db: Db, fails: nat -> bool, stmts: seq<Statement>, s: Statement)
    ensures var prev := RunScript(db, fails, stmts);
      RunScript(db, fails, stmts + [s])
        == if prev.ok then ScriptResult(Step(prev.db, fails, s).0, Step(prev.db, fails, s).1, prev.ran + 1) else prev
  {
    assert (stmts + [s])[..|stmts + [s]| - 1] == stmts;
  }

  /** The same step on a prefix of a script: running statement n after the first n. */
  lemma RunScriptPrefixStep(db: Db, fails: nat -> bool, stmts: seq<Statement>, n: nat)
    requires n < |stmts|
    ensures var prev := RunScript(db, fails, stmts[..n]);
      RunScript(db, fails, stmts[..n + 1])
        == if prev.ok then ScriptResult(Step(prev.db, fails, stmts[n]).0, Step(prev.db, fails, stmts[n]).1, prev.ran + 1) else prev
  {
    RunScriptSnoc(db, fails, stmts[..n], stmts[n]);
    assert stmts[..n + 1] == stmts[..n] + [stmts[n]];
  }

  /**
   * The script stops at its first failure: on success every prefix
   * succeeded; on failure the first `ran - 1` statements succeeded, the next
   * one failed, and nothing after it ran.
   */
  lemma {:induction false} RunScriptStopsAtFirstFailure(db: Db, fails: nat -> bool, stmts: seq<Statement>)
    ensures var r := RunScript(db, fails, stmts);
      && (r.ok ==> forall n :: 0 <= n <= |stmts| ==> RunScript(db, fails, stmts[..n]).ok)
      && (!r.ok ==>
            var p := RunScript(db, fails, stmts[..r.ran - 1]);
            p.ok && p.ran == r.ran - 1 && Step(p.db, fails, stmts[r.ran - 1]) == (false, r.db))
  {
    RunScriptPrefixesOk(db, fails, stmts);
    RunScriptFailsAtLast(db, fails, stmts);
  }

  /** Every prefix of a successful script succeeds. */
  lemma {:induction false} RunScriptPrefixesOk(db: Db, fails: nat -> bool, stmts: seq<Statement>)
    ensures RunScript(db, fails, stmts).ok ==> forall n :: 0 <= n <= |stmts| ==> RunScript(db, fails, stmts[..n]).ok
    decreases |stmts|
  {
    if stmts != [] && RunScript(db, fails, stmts).ok {
      var init := stmts[..|stmts| - 1];
      RunScriptPrefixesOk(db, fails, init);
      forall n | 0 <= n <= |stmts| ensures RunScript(db, fails, stmts[..n]).ok {
        if n < |stmts| {
          assert stmts[..n] == init[..n];
        } else {
          assert stmts[..n] == stmts;
        }
      }
    }
  }

  /** A failed script ran a successful prefix of `ran - 1` statements, then one step that failed. */
  lemma {:induction false} RunScriptFailsAtLast(db: Db, fails: nat -> bool, stmts: seq<Statement>)
    ensures var r := RunScript(db, fails, stmts);
      !r.ok ==>
        var p := RunScript(db, fails, stmts[..r.ran - 1]);
        p.ok && p.ran == r.ran - 1 && Step(p.db, fails, stmts[r.ran - 1]) == (false, r.db)
    decreases |stmts|
  {
    var r := RunScript(db, fails, stmts);
    if stmts != [] && !r.ok {
      var init := stmts[..|stmts| - 1];
      RunScriptFailsAtLast(db, fails, init);
      var prev := RunScript(db, fails, init);
      if prev.ok {
        var step := Step(prev.db, fails, stmts[|stmts| - 1]);
        assert r == ScriptResult(step.0, step.1, prev.ran + 1);
        assert stmts[..r.ran - 1] == init;
      } else {
        assert stmts[..r.ran - 1] == init[..r.ran - 1];
      }
    }
  }

  /** Once a prefix of a script has failed, the rest of the script never runs. */
  lemma {:induction false} RunScriptAfterFailure(db: Db, fails: nat -> bool, stmts: seq<Statement>, n: nat)
    requires n <= |stmts|
    requires !RunScript(db, fails, stmts[..n]).ok
    ensures RunScript(db, fails, stmts) == RunScript(db, fails, stmts[..n])
    decreases |stmts| - n
  {
    if n < |stmts| {
      RunScriptPrefixStep(db, fails, stmts, n);
      RunScriptAfterFailure(db, fails, stmts, n + 1);
    } else {
      assert stmts[..n] == stmts;
    }
  }

  /** The oracle lets the n executes numbered from `from` on through. */
  predicate AllPass(fails: nat -> bool, from: nat, n: nat)
  {
    forall i :: from <= i < from + n ==> !fails(i)
  }

  /**
   * A script whose every statement the store accepts without change leaves
   * the store as it is whatever the oracle does, and succeeds exactly when
   * the oracle lets every execute through.
   */
  lemma {:induction false} RunScriptOfNoOps(db: Db, fails: nat -> bool, stmts: seq<Statement>)
    requires forall i :: 0 <= i < |stmts| ==> Apply(db.store, stmts[i]) == Some(db.store)
    ensures RunScript(db, fails, stmts).db.store == db.store
    ensures RunScript(db, fails, stmts).ok <==> AllPass(fails, db.executed, |stmts|)
    decreases |stmts|
  {
    if stmts != [] {
      var init := stmts[..|stmts| - 1];
      assert forall i :: 0 <= i < |init| ==> init[i] == stmts[i];
      RunScriptOfNoOps(db, fails, init);
      var prev := RunScript(db, fails, init);
      assert Apply(db.store, stmts[|stmts| - 1]) == Some(db.store);
      if !prev.ok {
        var i :| db.executed <= i < db.executed + |init| && fails(i);
      } else {
        assert prev.db.executed == db.executed + |init|;
      }
    }
  }

  /**
   * A model of the driver session: the store, the number of executes so far,
   * the fault oracle, and the server's reading of statement text.
   */
  class Session {
    var store: Store
    var executed: nat
    const fails: nat -> bool
    const parse: string -> Statement

    ghost predicate Valid()
      reads this
    {
      Wf(store)
    }

    function State(): Db
      reads this
    {
      Db(store, executed)
    }

    /** A session attached to the cluster as it stands, before any execute. */
    constructor (st: Store, fails: nat -> bool, parse: string -> Statement)
      requires Wf(st)
      ensures Valid()
      ensures store == st && executed == 0
      ensures this.fails == fails && this.parse == parse
    {
      store := st;
      executed := 0;
      this.fails := fails;
      this.parse := parse;
    }

    /** session.execute(statement): True when it went through, False when it raised. */
    method Execute(stmt: Statement) returns (ok: bool)
      requires Valid()
      modifies this
      ensures Valid()
      ensures (ok, State()) == Step(old(State()), fails, stmt)
    {
      var applied := Apply(store, stmt);
      ok := !fails(executed) && applied.Some?;
      if ok {
        ApplyPreservesWf(store, stmt);
        store := applied.value;
      }
      executed := executed + 1;
    }

    /** session.execute(text) for statement text read from a file. */
    method ExecuteText(text: string) returns (ok: bool)
      requires Valid()
      modifies this
      ensures Valid()
      ensures (ok, State()) == Step(old(State()), fails, parse(text))
    {
      ok := Execute(parse(text));
    }

    /**
     * The prepared point lookup on songs_by_session; None when the execute
     * raised, which includes the driver refusing to bind an id outside 32 bits.
     */
    method SelectSongsBySession(sessionId: int, itemInSession: int) returns (rows: Option<seq<SongBySession>>)
      modifies this`executed
      ensures executed == old(executed) + 1
      ensures rows == if fails(old(executed)) || SongsBySession !in store.tables
                         || !IsInt32(sessionId) || !IsInt32(itemInSession) then None
                      else Some(LookupSongsBySession(store, sessionId, itemInSession))
    {
      if fails(executed) || SongsBySession !in store.tables || !IsInt32(sessionId) || !IsInt32(itemInSession) {
        rows := None;
      } else {
        rows := Some(LookupSongsBySession(store, sessionId, itemInSession));
      }
      executed := executed + 1;
    }

    /**
     * The prepared partition scan on songs_by_user_session; None when the
     * execute raised, which includes the driver refusing to bind an id
     * outside 32 bits.
     */
    method SelectSongsByUserSession(userId: int, sessionId: int) returns (rows: Option<seq<SongByUserSession>>)
      modifies this`executed
      ensures executed == old(executed) + 1
      ensures rows == if fails(old(executed)) || SongsByUserSession !in store.tables
                         || !IsInt32(userId) || !IsInt32(sessionId) then None
                      else Some(ScanSongsByUserSession(store, userId, sessionId))
    {
      if fails(executed) || SongsByUserSession !in store.tables || !IsInt32(userId) || !IsInt32(sessionId) {
        rows := None;
      } else {
        rows := Some(ScanSongsByUserSession(store, userId, sessionId));
      }
      executed := executed + 1;
    }

    /**
     * The prepared partition scan on users_by_song; None when the execute
     * raised, which includes the server refusing an empty partition key.
     */
    method SelectUsersBySong(songTitle: string) returns (rows: Option<seq<UserBySong>>)
      modifies this`executed
      ensures executed == old(executed) + 1
      ensures rows == if fails(old(executed)) || UsersBySong !in store.tables || songTitle == "" then None
                      else Some(ScanUsersBySong(store, songTitle))
    {
      if fails(executed) || UsersBySong !in store.tables || songTitle == "" {
        rows := None;
      } else {
        rows := Some(ScanUsersBySong(store, songTitle));
      }
      executed := executed + 1;
    }
  }
}
