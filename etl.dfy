/**
 * The ingestion pipeline (MusicStreamingETL): keep the event records whose
 * artist is non-empty, fan each one out into the three tables through fixed
 * field mappings, and count every attempted write as either an insert into
 * its table or an error.
 */
module Etl {
  import opened Models
  import opened Store

  /** One event record: the CSV header names mapped to the row's cells. */
  type Record = map<string, string>

  // ---------------------------------------------------------------------
  // int(...) on a cell

  predicate IsDigit(c: char)
  {
    '0' <= c <= '9'
  }

  predicate AllDigits(s: string)
  {
    forall i :: 0 <= i < |s| ==> IsDigit(s[i])
  }

  /** The number a string of decimal digits denotes, most significant digit first. */
  function DigitsValue(s: string): nat
    requires AllDigits(s)
    decreases |s|
  {
    if s == [] then 0 else DigitsValue(s[..|s| - 1]) * 10 + (s[|s| - 1] as int - '0' as int)
  }

  /** int(cell): an optional sign followed by at least one decimal digit; None where int() raises. */
  function ParseInt(s: string): (r: Option<int>)
    ensures r.Some? ==> s != [] && forall i :: 0 <= i < |s| ==> IsDigit(s[i]) || (i == 0 && (s[0] == '-' || s[0] == '+'))
    ensures r.Some? && r.value < 0 ==> s[0] == '-'
    ensures s != [] && AllDigits(s) ==> r == Some(DigitsValue(s))
    ensures |s| >= 2 && (s[0] == '-' || s[0] == '+') && AllDigits(s[1..]) ==>
      r.Some? && r.value == (if s[0] == '-' then -1 else 1) * DigitsValue(s[1..])
  {
    if |s| >= 2 && (s[0] == '-' || s[0] == '+') && AllDigits(s[1..]) then
      var v: int := DigitsValue(s[1..]);
      Some(if s[0] == '-' then -v else v)
    else if |s| >= 1 && AllDigits(s) then Some(DigitsValue(s))
    else None
  }

  function DigitChar(d: nat): char
    requires d < 10
  {
    ('0' as int + d) as char
  }

  /** The decimal text of a number, as str() writes it. */
  function ShowNat(n: nat): string
    decreases n
  {
    if n < 10 then [DigitChar(n)] else ShowNat(n / 10) + [DigitChar(n % 10)]
  }

  function ShowInt(n: int): string
  {
    if n < 0 then "-" + ShowNat(-n) else ShowNat(n)
  }

  lemma {:induction false} ShowNatDigits(n: nat)
    ensures |ShowNat(n)| >= 1 && AllDigits(ShowNat(n)) && DigitsValue(ShowNat(n)) == n
    decreases n
  {
    if n >= 10 {
      ShowNatDigits(n / 10);
      var s := ShowNat(n);
      assert s[..|s| - 1] == ShowNat(n / 10);
    }
  }

  /** Every integer written in decimal is read back as itself. */
  lemma ParseIntShowInt(n: int)
    ensures ParseInt(ShowInt(n)) == Some(n)
  {
    var s := ShowInt(n);
    if n < 0 {
      ShowNatDigits(-n);
      assert s[0] == '-' && s[1..] == ShowNat(-n);
    } else {
      ShowNatDigits(n);
      assert s == ShowNat(n) && IsDigit(s[0]);
    }
  }

  // ---------------------------------------------------------------------
  // The three projections

  /** The songs_by_session row of an event: (sessionId, itemInSession, artist, song, length). */
  function SongBySessionOf(e: Record): Option<SongBySession>
  {
    if "sessionId" in e && "itemInSession" in e && "artist" in e && "song" in e && "length" in e then
      match (ParseInt(e["sessionId"]), ParseInt(e["itemInSession"]))
      case (Some(sessionId), Some(item)) => Some(SongBySession(sessionId, item, e["artist"], e["song"], e["length"]))
      case _ => None
    else None
  }

  /**
   * The songs_by_user_session row of an event:
   * (userId, sessionId, itemInSession, artist, song, firstName, lastName).
   */
  function SongByUserSessionOf(e: Record): Option<SongByUserSession>
  {
    if "userId" in e && "sessionId" in e && "itemInSession" in e && "artist" in e && "song" in e
       && "firstName" in e && "lastName" in e then
      match (ParseInt(e["userId"]), ParseInt(e["sessionId"]), ParseInt(e["itemInSession"]))
      case (Some(userId), Some(sessionId), Some(item)) =>
        Some(SongByUserSession(userId, sessionId, item, e["artist"], e["song"], e["firstName"], e["lastName"]))
      case _ => None
    else None
  }

  /** The users_by_song row of an event: (song, userId, firstName, lastName). */
  function UserBySongOf(e: Record): Option<UserBySong>
  {
    if "song" in e && "userId" in e && "firstName" in e && "lastName" in e then
      match ParseInt(e["userId"])
      case Some(userId) => Some(UserBySong(e["song"], userId, e["firstName"], e["lastName"]))
      case None => None
    else None
  }

  /**
   * The tuple an insert_into_* method binds to its prepared INSERT; None
   * when building it raises (a missing field or an int() that fails).
   */
  function Params(t: Table, e: Record): (r: Option<seq<Value>>)
    ensures r.Some? ==> |r.value| == Placeholders(t)
    ensures r.Some? ==> forall i :: 0 <= i < |r.value| ==> KindOf(r.value[i]) == Columns(t)[i].kind
  {
    match t
    case SongsBySession =>
      (match SongBySessionOf(e) case Some(row) => Some(EncodeSongBySession(row)) case None => None)
    case SongsByUserSession =>
      (match SongByUserSessionOf(e) case Some(row) => Some(EncodeSongByUserSession(row)) case None => None)
    case UsersBySong =>
      (match UserBySongOf(e) case Some(row) => Some(EncodeUserBySong(row)) case None => None)
  }

  /** The event projects into t and the store can hold the projected row (`Fits`). */
  predicate RowFits(t: Table, e: Record)
  {
    match t
    case SongsBySession => SongBySessionOf(e).Some? && SongBySessionOf(e).value.Fits()
    case SongsByUserSession => SongByUserSessionOf(e).Some? && SongByUserSessionOf(e).value.Fits()
    case UsersBySong => UserBySongOf(e).Some? && UserBySongOf(e).value.Fits()
  }

  /**
   * A tuple the loader builds is accepted exactly when the projected row
   * fits (INT columns within 32 bits, a non-empty song title for
   * users_by_song), and then the store reads it back as exactly that row:
   * such an insert is refused only for a missing table, an out-of-range id
   * or an empty song title.
   */
  lemma ParamsFitTable(st: Store, t: Table, e: Record)
    ensures RowFits(t, e) ==> Params(t, e).Some?
    ensures Params(t, e).Some? ==> (Conforms(t, Params(t, e).value) <==> RowFits(t, e))
    ensures Params(t, e).Some? ==> (Apply(st, Insert(t, Params(t, e).value)).Some? <==> t in st.tables && RowFits(t, e))
    ensures t == SongsBySession && Params(t, e).Some? ==>
      DecodeSongBySession(Params(t, e).value) == if RowFits(t, e) then SongBySessionOf(e) else None
    ensures t == SongsByUserSession && Params(t, e).Some? ==>
      DecodeSongByUserSession(Params(t, e).value) == if RowFits(t, e) then SongByUserSessionOf(e) else None
    ensures t == UsersBySong && Params(t, e).Some? ==>
      DecodeUserBySong(Params(t, e).value) == if RowFits(t, e) then UserBySongOf(e) else None
  {
    if Params(t, e).Some? {
      var p := Params(t, e).value;
      InsertAcceptedIff(st, t, p);
      match t
      case SongsBySession =>
        var row := SongBySessionOf(e).value;
        assert p == EncodeSongBySession(row);
        EncodeDecodeRoundTrip(row, SongByUserSession(0, 0, 0, "", "", "", ""), UserBySong("", 0, "", ""));
      case SongsByUserSession =>
        var row := SongByUserSessionOf(e).value;
        assert p == EncodeSongByUserSession(row);
        EncodeDecodeRoundTrip(SongBySession(0, 0, "", "", ""), row, UserBySong("", 0, "", ""));
      case UsersBySong =>
        var row := UserBySongOf(e).value;
        assert p == EncodeUserBySong(row);
        EncodeDecodeRoundTrip(SongBySession(0, 0, "", "", ""), SongByUserSession(0, 0, 0, "", "", "", ""), row);
    }
  }

  /**
   * The three rows of one event agree on every field they share; an event
   * with a songs_by_user_session row has a users_by_song row too (the
   * converse fails for an event without sessionId), and then a
   * songs_by_session row exactly when it has a length.
   */
  lemma ProjectionsAgree(e: Record)
    ensures SongBySessionOf(e).Some? && SongByUserSessionOf(e).Some? ==>
      var a, b := SongBySessionOf(e).value, SongByUserSessionOf(e).value;
      a.sessionId == b.sessionId && a.itemInSession == b.itemInSession && a.artist == b.artist && a.songTitle == b.songTitle
    ensures SongByUserSessionOf(e).Some? && UserBySongOf(e).Some? ==>
      var b, c := SongByUserSessionOf(e).value, UserBySongOf(e).value;
      b.userId == c.userId && b.songTitle == c.songTitle && b.userFirstName == c.userFirstName && b.userLastName == c.userLastName
    ensures SongByUserSessionOf(e).Some? ==> UserBySongOf(e).Some?
    ensures SongByUserSessionOf(e).Some? ==> (SongBySessionOf(e).Some? <==> "length" in e)
  {
  }

  // ---------------------------------------------------------------------
  // Counters and the effect of one write

  /** The stats counters (the timestamps are left out). */
  datatype Stats = Stats(rowsRead: nat, inserted1: nat, inserted2: nat, inserted3: nat, errors: nat)
  {
    /** Write attempts so far: every attempt bumps exactly one of these four. */
    function Attempts(): nat
    {
      inserted1 + inserted2 + inserted3 + errors
    }

    function Succeeded(t: Table): Stats
    {
      match t
      case SongsBySession => this.(inserted1 := inserted1 + 1)
      case SongsByUserSession => this.(inserted2 := inserted2 + 1)
      case UsersBySong => this.(inserted3 := inserted3 + 1)
    }

    function Failed(): Stats
    {
      this.(errors := errors + 1)
    }
  }

  const ZeroStats: Stats := Stats(0, 0, 0, 0, 0)

  datatype EtlState = EtlState(db: Db, stats: Stats)

  /**
   * One insert_into_* call: a tuple that cannot be built counts an error
   * without any execute; otherwise one execute, counted as an insert into
   * the table when it goes through and as an error when it raises.
   */
  function InsertInto(s: EtlState, fails: nat -> bool, t: Table, e: Record): (r: EtlState)
    ensures r.stats == s.stats.Succeeded(t) || r.stats == s.stats.Failed()
    ensures r.stats.Attempts() == s.stats.Attempts() + 1 && r.stats.rowsRead == s.stats.rowsRead
  {
    match Params(t, e)
    case None => EtlState(s.db, s.stats.Failed())
    case Some(p) =>
      var step := Step(s.db, fails, Insert(t, p));
      EtlState(step.1, if step.0 then s.stats.Succeeded(t) else s.stats.Failed())
  }

  /** The two stores agree on the schema and on every table other than t. */
  predicate SameExcept(a: Store, b: Store, t: Table)
  {
    && a.keyspace == b.keyspace && a.tables == b.tables
    && (t != SongsBySession ==> a.songsBySession == b.songsBySession)
    && (t != SongsByUserSession ==> a.songsByUserSession == b.songsByUserSession)
    && (t != UsersBySong ==> a.usersBySong == b.usersBySong)
  }

  /** The table t exists and holds the event's row under the row's key. */
  predicate Holds(st: Store, t: Table, e: Record)
  {
    t in st.tables &&
    match t
    case SongsBySession =>
      (match SongBySessionOf(e)
       case Some(row) => row.Key() in st.songsBySession && st.songsBySession[row.Key()] == row
       case None => false)
    case SongsByUserSession =>
      (match SongByUserSessionOf(e)
       case Some(row) => row.Key() in st.songsByUserSession && st.songsByUserSession[row.Key()] == row
       case None => false)
    case UsersBySong =>
      (match UserBySongOf(e)
       case Some(row) => row.Key() in st.usersBySong && st.usersBySong[row.Key()] == row
       case None => false)
  }

  /** The key the event's songs_by_session row is stored under, when that row can be bound. */
  function SessionKeyOf(e: Record): set<(int, int)>
  {
    if RowFits(SongsBySession, e) then {SongBySessionOf(e).value.Key()} else {}
  }

  /** The key the event's songs_by_user_session row is stored under, when that row can be bound. */
  function UserSessionKeyOf(e: Record): set<(int, int, int)>
  {
    if RowFits(SongsByUserSession, e) then {SongByUserSessionOf(e).value.Key()} else {}
  }

  /** The key the event's users_by_song row is stored under, when that row can be bound. */
  function SongUserKeyOf(e: Record): set<(string, int)>
  {
    if RowFits(UsersBySong, e) then {UserBySongOf(e).value.Key()} else {}
  }

  /**
   * One write touches only its own table: it is counted as an insert exactly
   * when the projected row binds, the table exists and the execute went
   * through, and then the table holds the event's row and gains no key but
   * the row's own; counted as an error, it changed nothing.
   */
  lemma InsertIntoEffect(s: EtlState, fails: nat -> bool, t: Table, e: Record)
    ensures var r := InsertInto(s, fails, t, e);
      && (r.stats == s.stats.Succeeded(t) <==> RowFits(t, e) && t in s.db.store.tables && !fails(s.db.executed))
      && SameExcept(r.db.store, s.db.store, t)
      && (r.stats == s.stats.Succeeded(t) ==> Holds(r.db.store, t, e))
      && (r.stats == s.stats.Failed() ==> r.db.store == s.db.store)
      && r.db.executed == s.db.executed + (if Params(t, e).Some? then 1 else 0)
    ensures var r := InsertInto(s, fails, t, e);
      var ok := r.stats == s.stats.Succeeded(t);
      && r.db.store.songsBySession.Keys
           == s.db.store.songsBySession.Keys + (if ok && t == SongsBySession then SessionKeyOf(e) else {})
      && r.db.store.songsByUserSession.Keys
           == s.db.store.songsByUserSession.Keys + (if ok && t == SongsByUserSession then UserSessionKeyOf(e) else {})
      && r.db.store.usersBySong.Keys
           == s.db.store.usersBySong.Keys + (if ok && t == UsersBySong then SongUserKeyOf(e) else {})
  {
    ParamsFitTable(s.db.store, t, e);
    assert s.stats.Succeeded(t) != s.stats.Failed();
    if Params(t, e).Some? {
      var p := Params(t, e).value;
      var step := Step(s.db, fails, Insert(t, p));
      assert InsertInto(s, fails, t, e).db == step.1;
      if step.0 {
        UpsertKeys(s.db.store, t, p);
      }
    }
  }

  /** An accepted INSERT adds the decoded row's key to its own table and no key elsewhere. */
  lemma UpsertKeys(st: Store, t: Table, p: seq<Value>)
    requires Upsert(st, t, p).Some?
    ensures var b := Upsert(st, t, p).value;
      && b.songsBySession.Keys == st.songsBySession.Keys + (if t == SongsBySession then {DecodeSongBySession(p).value.Key()} else {})
      && b.songsByUserSession.Keys == st.songsByUserSession.Keys + (if t == SongsByUserSession then {DecodeSongByUserSession(p).value.Key()} else {})
      && b.usersBySong.Keys == st.usersBySong.Keys + (if t == UsersBySong then {DecodeUserBySong(p).value.Key()} else {})
  {
  }

  /**
   * An event with an empty `song` cell is refused by users_by_song: the
   * write is counted as an error and the store is not changed.
   */
  lemma InsertIntoEmptySongTitle(s: EtlState, fails: nat -> bool, e: Record)
    requires "song" in e && e["song"] == ""
    ensures InsertInto(s, fails, UsersBySong, e).stats == s.stats.Failed()
    ensures InsertInto(s, fails, UsersBySong, e).db.store == s.db.store
  {
    InsertIntoEffect(s, fails, UsersBySong, e);
  }

  /** The event's row for t is in the store already, or the event has no row that can be bound. */
  predicate Settled(st: Store, t: Table, e: Record)
  {
    !RowFits(t, e) || Holds(st, t, e)
  }

  /** Writing a row that is already stored changes nothing, whatever the execute does. */
  lemma InsertIntoSettled(s: EtlState, fails: nat -> bool, t: Table, e: Record)
    requires Settled(s.db.store, t, e)
    ensures InsertInto(s, fails, t, e).db.store == s.db.store
  {
    var st := s.db.store;
    ParamsFitTable(st, t, e);
    if RowFits(t, e) {
      match t
      case SongsBySession =>
        var row := SongBySessionOf(e).value;
        assert st.songsBySession[row.Key() := row] == st.songsBySession;
      case SongsByUserSession =>
        var row := SongByUserSessionOf(e).value;
        assert st.songsByUserSession[row.Key() := row] == st.songsByUserSession;
      case UsersBySong =>
        var row := UserBySongOf(e).value;
        assert st.usersBySong[row.Key() := row] == st.usersBySong;
    }
  }

  // ---------------------------------------------------------------------
  // load_event and the drain loop

  /** load_event: the three writes in order, none of them stopping the next. */
  function FanOut(s: EtlState, fails: nat -> bool, e: Record): EtlState
  {
    var s1 := InsertInto(s, fails, SongsBySession, e);
    var s2 := InsertInto(s1, fails, SongsByUserSession, e);
    InsertInto(s2, fails, UsersBySong, e)
  }

  /**
   * Each of the three writes is attempted; each insert counter rises by at
   * most one; the attempts rise by exactly three.
   */
  lemma FanOutCounts(s: EtlState, fails: nat -> bool, e: Record)
    ensures var r := FanOut(s, fails, e);
      && r.stats.Attempts() == s.stats.Attempts() + 3
      && r.stats.rowsRead == s.stats.rowsRead
      && s.stats.inserted1 <= r.stats.inserted1 <= s.stats.inserted1 + 1
      && s.stats.inserted2 <= r.stats.inserted2 <= s.stats.inserted2 + 1
      && s.stats.inserted3 <= r.stats.inserted3 <= s.stats.inserted3 + 1
      && s.stats.errors <= r.stats.errors <= s.stats.errors + 3
  {
  }

  /** When none of the three writes was counted as an error, all three tables hold the event's rows. */
  lemma FanOutSettles(s: EtlState, fails: nat -> bool, e: Record)
    requires FanOut(s, fails, e).stats.errors == s.stats.errors
    ensures forall t :: Holds(FanOut(s, fails, e).db.store, t, e)
  {
    var s1 := InsertInto(s, fails, SongsBySession, e);
    var s2 := InsertInto(s1, fails, SongsByUserSession, e);
    var s3 := InsertInto(s2, fails, UsersBySong, e);
    InsertIntoEffect(s, fails, SongsBySession, e);
    InsertIntoEffect(s1, fails, SongsByUserSession, e);
    InsertIntoEffect(s2, fails, UsersBySong, e);
    assert s1.stats.errors == s.stats.errors && s2.stats.errors == s1.stats.errors && s3.stats.errors == s2.stats.errors;
    forall t ensures Holds(s3.db.store, t, e) {
      match t
      case SongsBySession =>
      case SongsByUserSession =>
      case UsersBySong =>
    }
  }

  /**
   * load_event adds to each table at most the key of the event's row there,
   * never removes a key, and adds exactly those keys when none of its
   * writes was counted as an error.
   */
  lemma FanOutKeys(s: EtlState, fails: nat -> bool, e: Record)
    ensures var a, b := s.db.store, FanOut(s, fails, e).db.store;
      && a.songsBySession.Keys <= b.songsBySession.Keys <= a.songsBySession.Keys + SessionKeyOf(e)
      && a.songsByUserSession.Keys <= b.songsByUserSession.Keys <= a.songsByUserSession.Keys + UserSessionKeyOf(e)
      && a.usersBySong.Keys <= b.usersBySong.Keys <= a.usersBySong.Keys + SongUserKeyOf(e)
    ensures FanOut(s, fails, e).stats.errors == s.stats.errors ==>
      var a, b := s.db.store, FanOut(s, fails, e).db.store;
      && b.songsBySession.Keys == a.songsBySession.Keys + SessionKeyOf(e)
      && b.songsByUserSession.Keys == a.songsByUserSession.Keys + UserSessionKeyOf(e)
      && b.usersBySong.Keys == a.usersBySong.Keys + SongUserKeyOf(e)
  {
    var s1 := InsertInto(s, fails, SongsBySession, e);
    var s2 := InsertInto(s1, fails, SongsByUserSession, e);
    var s3 := InsertInto(s2, fails, UsersBySong, e);
    InsertIntoEffect(s, fails, SongsBySession, e);
    InsertIntoEffect(s1, fails, SongsByUserSession, e);
    InsertIntoEffect(s2, fails, UsersBySong, e);
    if s3.stats.errors == s.stats.errors {
      assert s1.stats == s.stats.Succeeded(SongsBySession);
      assert s2.stats == s1.stats.Succeeded(SongsByUserSession);
      assert s3.stats == s2.stats.Succeeded(UsersBySong);
    }
  }

  /** Loading an event whose rows are all stored already changes no table, whatever the oracle does. */
  lemma FanOutOfSettled(s: EtlState, fails: nat -> bool, e: Record)
    requires forall t :: Settled(s.db.store, t, e)
    ensures FanOut(s, fails, e).db.store == s.db.store
  {
    var s1 := InsertInto(s, fails, SongsBySession, e);
    var s2 := InsertInto(s1, fails, SongsByUserSession, e);
    InsertIntoSettled(s, fails, SongsBySession, e);
    InsertIntoSettled(s1, fails, SongsByUserSession, e);
    InsertIntoSettled(s2, fails, UsersBySong, e);
  }

  /** A write whose row cannot be bound, is stored already, or whose table is missing changes nothing. */
  lemma InsertIntoNoOp(s: EtlState, fails: nat -> bool, t: Table, e: Record)
    requires !RowFits(t, e) || Holds(s.db.store, t, e) || t !in s.db.store.tables
    ensures InsertInto(s, fails, t, e).db.store == s.db.store
  {
    if t in s.db.store.tables {
      InsertIntoSettled(s, fails, t, e);
    } else {
      InsertIntoEffect(s, fails, t, e);
    }
  }

  /** With the oracle passing, the write for t lands exactly when its row binds and its table exists. */
  predicate Lands(st: Store, t: Table, e: Record)
  {
    RowFits(t, e) && t in st.tables
  }

  /**
   * load_event when none of its executes raises: the schema is unchanged,
   * each table's insert counter rises exactly when its write lands, every
   * other write is counted as an error, and each landed row is stored.
   */
  lemma FanOutPassing(s: EtlState, fails: nat -> bool, e: Record)
    requires AllPass(fails, s.db.executed, 3)
    ensures var r, st := FanOut(s, fails, e), s.db.store;
      && r.db.store.tables == st.tables
      && r.stats.inserted1 == s.stats.inserted1 + (if Lands(st, SongsBySession, e) then 1 else 0)
      && r.stats.inserted2 == s.stats.inserted2 + (if Lands(st, SongsByUserSession, e) then 1 else 0)
      && r.stats.inserted3 == s.stats.inserted3 + (if Lands(st, UsersBySong, e) then 1 else 0)
      && r.stats.rowsRead == s.stats.rowsRead
    ensures forall t :: Lands(s.db.store, t, e) ==> Holds(FanOut(s, fails, e).db.store, t, e)
  {
    var s1 := InsertInto(s, fails, SongsBySession, e);
    var s2 := InsertInto(s1, fails, SongsByUserSession, e);
    var s3 := InsertInto(s2, fails, UsersBySong, e);
    InsertIntoEffect(s, fails, SongsBySession, e);
    InsertIntoEffect(s1, fails, SongsByUserSession, e);
    InsertIntoEffect(s2, fails, UsersBySong, e);
    assert !fails(s.db.executed) && !fails(s1.db.executed) && !fails(s2.db.executed);
    forall t | Lands(s.db.store, t, e) ensures Holds(s3.db.store, t, e) {
      match t
      case SongsBySession =>
      case SongsByUserSession =>
      case UsersBySong =>
    }
  }

  /**
   * Replaying an event whose first load raised on no execute leaves all
   * three tables as they are, whatever the second run's executes do: every
   * write either landed the first time or is refused by the data or the
   * schema again. The attempts still rise by three, and when the replay's
   * executes pass too, each insert counter and the error counter rise by
   * as much as they did the first time.
   */
  lemma ReplayIsNoOp(s: EtlState, fails: nat -> bool, fails2: nat -> bool, e: Record)
    requires AllPass(fails, s.db.executed, 3)
    ensures var once := FanOut(s, fails, e);
      && FanOut(once, fails2, e).db.store == once.db.store
      && FanOut(once, fails2, e).stats.Attempts() == once.stats.Attempts() + 3
    ensures var once := FanOut(s, fails, e);
      var twice := FanOut(once, fails2, e);
      AllPass(fails2, once.db.executed, 3) ==>
        && twice.stats.inserted1 - once.stats.inserted1 == once.stats.inserted1 - s.stats.inserted1
        && twice.stats.inserted2 - once.stats.inserted2 == once.stats.inserted2 - s.stats.inserted2
        && twice.stats.inserted3 - once.stats.inserted3 == once.stats.inserted3 - s.stats.inserted3
        && twice.stats.errors - once.stats.errors == once.stats.errors - s.stats.errors
  {
    var once := FanOut(s, fails, e);
    FanOutPassing(s, fails, e);
    FanOutCounts(s, fails, e);
    var r1 := InsertInto(once, fails2, SongsBySession, e);
    var r2 := InsertInto(r1, fails2, SongsByUserSession, e);
    InsertIntoNoOp(once, fails2, SongsBySession, e);
    InsertIntoNoOp(r1, fails2, SongsByUserSession, e);
    InsertIntoNoOp(r2, fails2, UsersBySong, e);
    FanOutCounts(once, fails2, e);
    if AllPass(fails2, once.db.executed, 3) {
      FanOutPassing(once, fails2, e);
    }
  }

  /** The loop in run: load_event on every event, in order. */
  function LoadAll(s: EtlState, fails: nat -> bool, events: seq<Record>): EtlState
    decreases |events|
  {
    if events == [] then s
    else FanOut(LoadAll(s, fails, events[..|events| - 1]), fails, events[|events| - 1])
  }

  lemma LoadAllPrefixStep(s: EtlState, fails: nat -> bool, events: seq<Record>, i: nat)
    requires i < |events|
    ensures LoadAll(s, fails, events[..i + 1]) == FanOut(LoadAll(s, fails, events[..i]), fails, events[i])
  {
    assert events[..i + 1][..i] == events[..i];
  }

  /** The keys the events' songs_by_session rows are stored under, for the rows that can be bound. */
  function SessionKeysOf(events: seq<Record>): set<(int, int)>
    decreases |events|
  {
    if events == [] then {} else SessionKeysOf(events[..|events| - 1]) + SessionKeyOf(events[|events| - 1])
  }

  /** The keys the events' songs_by_user_session rows are stored under, for the rows that can be bound. */
  function UserSessionKeysOf(events: seq<Record>): set<(int, int, int)>
    decreases |events|
  {
    if events == [] then {} else UserSessionKeysOf(events[..|events| - 1]) + UserSessionKeyOf(events[|events| - 1])
  }

  /** The keys the events' users_by_song rows are stored under, for the rows that can be bound. */
  function SongUserKeysOf(events: seq<Record>): set<(string, int)>
    decreases |events|
  {
    if events == [] then {} else SongUserKeysOf(events[..|events| - 1]) + SongUserKeyOf(events[|events| - 1])
  }

  /**
   * Draining the events never removes a key and adds to each table only the
   * keys of the events' rows; with no write error it adds exactly those keys.
   */
  lemma {:induction false} LoadAllKeys(s: EtlState, fails: nat -> bool, events: seq<Record>)
    ensures var a, b := s.db.store, LoadAll(s, fails, events).db.store;
      && a.songsBySession.Keys <= b.songsBySession.Keys <= a.songsBySession.Keys + SessionKeysOf(events)
      && a.songsByUserSession.Keys <= b.songsByUserSession.Keys <= a.songsByUserSession.Keys + UserSessionKeysOf(events)
      && a.usersBySong.Keys <= b.usersBySong.Keys <= a.usersBySong.Keys + SongUserKeysOf(events)
    ensures LoadAll(s, fails, events).stats.errors == s.stats.errors ==>
      var a, b := s.db.store, LoadAll(s, fails, events).db.store;
      && b.songsBySession.Keys == a.songsBySession.Keys + SessionKeysOf(events)
      && b.songsByUserSession.Keys == a.songsByUserSession.Keys + UserSessionKeysOf(events)
      && b.usersBySong.Keys == a.usersBySong.Keys + SongUserKeysOf(events)
    decreases |events|
  {
    if events != [] {
      var init := events[..|events| - 1];
      var last := events[|events| - 1];
      var prev := LoadAll(s, fails, init);
      assert LoadAll(s, fails, events) == FanOut(prev, fails, last);
      LoadAllKeys(s, fails, init);
      FanOutKeys(prev, fails, last);
      var a, m, b := s.db.store, prev.db.store, LoadAll(s, fails, events).db.store;
      var clean := LoadAll(s, fails, events).stats.errors == s.stats.errors;
      if clean {
        LoadAllLastClean(s, fails, events);
      }
      KeysGrow(a.songsBySession.Keys, m.songsBySession.Keys, b.songsBySession.Keys,
               SessionKeysOf(init), SessionKeyOf(last), clean);
      KeysGrow(a.songsByUserSession.Keys, m.songsByUserSession.Keys, b.songsByUserSession.Keys,
               UserSessionKeysOf(init), UserSessionKeyOf(last), clean);
      KeysGrow(a.usersBySong.Keys, m.usersBySong.Keys, b.usersBySong.Keys,
               SongUserKeysOf(init), SongUserKeyOf(last), clean);
    }
  }

  /** Two growth steps of a key set compose; when both add exactly their keys, so does the whole. */
  lemma KeysGrow<K>(a: set<K>, m: set<K>, b: set<K>, before: set<K>, added: set<K>, exact: bool)
    requires a <= m <= a + before && m <= b <= m + added
    requires exact ==> m == a + before && b == m + added
    ensures a <= b <= a + (before + added)
    ensures exact ==> b == a + (before + added)
  {
  }

  /** Each event costs exactly three write attempts: attempts rise by 3 × events. */
  lemma {:induction false} LoadAllCounts(s: EtlState, fails: nat -> bool, events: seq<Record>)
    ensures LoadAll(s, fails, events).stats.Attempts() == s.stats.Attempts() + 3 * |events|
    ensures LoadAll(s, fails, events).stats.rowsRead == s.stats.rowsRead
    ensures LoadAll(s, fails, events).db.executed <= s.db.executed + 3 * |events|
    decreases |events|
  {
    if events != [] {
      var init := events[..|events| - 1];
      LoadAllCounts(s, fails, init);
      var prev := LoadAll(s, fails, init);
      var e := events[|events| - 1];
      FanOutCounts(prev, fails, e);
      var s1 := InsertInto(prev, fails, SongsBySession, e);
      var s2 := InsertInto(s1, fails, SongsByUserSession, e);
      InsertIntoEffect(prev, fails, SongsBySession, e);
      InsertIntoEffect(s1, fails, SongsByUserSession, e);
      InsertIntoEffect(s2, fails, UsersBySong, e);
    }
  }

  /** The two events project to rows with the same primary key in t. */
  predicate SameKey(t: Table, a: Record, b: Record)
  {
    match t
    case SongsBySession =>
      SongBySessionOf(a).Some? && SongBySessionOf(b).Some? && SongBySessionOf(a).value.Key() == SongBySessionOf(b).value.Key()
    case SongsByUserSession =>
      SongByUserSessionOf(a).Some? && SongByUserSessionOf(b).Some?
      && SongByUserSessionOf(a).value.Key() == SongByUserSessionOf(b).value.Key()
    case UsersBySong =>
      UserBySongOf(a).Some? && UserBySongOf(b).Some? && UserBySongOf(a).value.Key() == UserBySongOf(b).value.Key()
  }

  /** A write of another event leaves a stored row alone unless it hits the same key of the same table. */
  lemma HoldsPreserved(s: EtlState, fails: nat -> bool, t2: Table, e2: Record, t: Table, e: Record)
    requires Holds(s.db.store, t, e)
    requires t2 != t || !SameKey(t, e, e2)
    ensures Holds(InsertInto(s, fails, t2, e2).db.store, t, e)
  {
    InsertIntoEffect(s, fails, t2, e2);
    ParamsFitTable(s.db.store, t2, e2);
  }

  lemma FanOutPreserves(s: EtlState, fails: nat -> bool, e2: Record, t: Table, e: Record)
    requires Holds(s.db.store, t, e)
    requires !SameKey(t, e, e2)
    ensures Holds(FanOut(s, fails, e2).db.store, t, e)
  {
    var s1 := InsertInto(s, fails, SongsBySession, e2);
    var s2 := InsertInto(s1, fails, SongsByUserSession, e2);
    HoldsPreserved(s, fails, SongsBySession, e2, t, e);
    HoldsPreserved(s1, fails, SongsByUserSession, e2, t, e);
    HoldsPreserved(s2, fails, UsersBySong, e2, t, e);
  }

  lemma {:induction false} LoadAllErrorsGrow(s: EtlState, fails: nat -> bool, events: seq<Record>)
    ensures LoadAll(s, fails, events).stats.errors >= s.stats.errors
    decreases |events|
  {
    if events != [] {
      var init := events[..|events| - 1];
      LoadAllErrorsGrow(s, fails, init);
      FanOutCounts(LoadAll(s, fails, init), fails, events[|events| - 1]);
    }
  }

  /** No later event of the list reuses event i's key in table t. */
  predicate LastWithKey(events: seq<Record>, i: nat, t: Table)
    requires i < |events|
  {
    forall j :: i < j < |events| ==> !SameKey(t, events[i], events[j])
  }

  /** A load with no write error splits into a clean load of the prefix and a clean last fan-out. */
  lemma LoadAllLastClean(s: EtlState, fails: nat -> bool, events: seq<Record>)
    requires events != []
    requires LoadAll(s, fails, events).stats.errors == s.stats.errors
    ensures var prev := LoadAll(s, fails, events[..|events| - 1]);
      && prev.stats.errors == s.stats.errors
      && LoadAll(s, fails, events) == FanOut(prev, fails, events[|events| - 1])
      && FanOut(prev, fails, events[|events| - 1]).stats.errors == prev.stats.errors
  {
    var init := events[..|events| - 1];
    var prev := LoadAll(s, fails, init);
    LoadAllErrorsGrow(s, fails, init);
    FanOutCounts(prev, fails, events[|events| - 1]);
  }

  /** An event that is last with its key in a list is so in the list without its final event, too. */
  lemma LastWithKeyInit(events: seq<Record>, i: nat, t: Table)
    requires i < |events| - 1 && LastWithKey(events, i, t)
    ensures var init := events[..|events| - 1];
      && init[i] == events[i]
      && LastWithKey(init, i, t)
      && !SameKey(t, events[i], events[|events| - 1])
  {
    var init := events[..|events| - 1];
    forall j | i < j < |init| ensures !SameKey(t, init[i], init[j]) {
      assert init[j] == events[j];
    }
  }


  /**
   * Fan-out completeness: after a load with no write error, every table
   * holds the row of every event that no later event overwrites there, and
   * each table's keys are its old keys plus exactly the events' keys.
   */
  lemma {:induction false} LoadAllComplete(s: EtlState, fails: nat -> bool, events: seq<Record>)
    requires LoadAll(s, fails, events).stats.errors == s.stats.errors
    ensures forall i, t :: 0 <= i < |events| && LastWithKey(events, i, t) ==>
      Holds(LoadAll(s, fails, events).db.store, t, events[i])
    ensures var a, b := s.db.store, LoadAll(s, fails, events).db.store;
      && b.songsBySession.Keys == a.songsBySession.Keys + SessionKeysOf(events)
      && b.songsByUserSession.Keys == a.songsByUserSession.Keys + UserSessionKeysOf(events)
      && b.usersBySong.Keys == a.usersBySong.Keys + SongUserKeysOf(events)
    decreases |events|
  {
    LoadAllKeys(s, fails, events);
    if events != [] {
      var init := events[..|events| - 1];
      var last := events[|events| - 1];
      var prev := LoadAll(s, fails, init);
      LoadAllLastClean(s, fails, events);
      LoadAllComplete(s, fails, init);
      forall i, t | 0 <= i < |events| && LastWithKey(events, i, t)
        ensures Holds(FanOut(prev, fails, last).db.store, t, events[i])
      {
        if i < |init| {
          LastWithKeyInit(events, i, t);
          FanOutPreserves(prev, fails, last, t, events[i]);
        } else {
          FanOutSettles(prev, fails, last);
          assert events[i] == last;
        }
      }
    }
  }

  // ---------------------------------------------------------------------
  // read_csv

  /** What read_csv has read: `ok` is false when a row lacks the artist column (the KeyError). */
  datatype ReadResult = ReadResult(ok: bool, kept: seq<Record>)

  /** read_csv's loop over the rows, in order, stopping at a row it cannot read. */
  function ReadRows(rows: seq<Record>): ReadResult
    decreases |rows|
  {
    if rows == [] then ReadResult(true, [])
    else
      var prev := ReadRows(rows[..|rows| - 1]);
      var row := rows[|rows| - 1];
      if !prev.ok then prev
      else if "artist" !in row then ReadResult(false, prev.kept)
      else if row["artist"] != "" then ReadResult(true, prev.kept + [row])
      else prev
  }

  predicate HaveArtist(rows: seq<Record>)
  {
    forall i :: 0 <= i < |rows| ==> "artist" in rows[i]
  }

  /** The comprehension keeping the rows with a non-empty artist, in input order. */
  function WithArtist(rows: seq<Record>): seq<Record>
    requires HaveArtist(rows)
    decreases |rows|
  {
    if rows == [] then []
    else (if rows[0]["artist"] != "" then [rows[0]] else []) + WithArtist(rows[1..])
  }

  /** The filter distributes over concatenation: it keeps the input order. */
  lemma {:induction false} WithArtistAppend(a: seq<Record>, b: seq<Record>)
    requires HaveArtist(a) && HaveArtist(b)
    ensures HaveArtist(a + b)
    ensures WithArtist(a + b) == WithArtist(a) + WithArtist(b)
    decreases |a|
  {
    forall i | 0 <= i < |a + b| ensures "artist" in (a + b)[i] {
      if i < |a| { assert (a + b)[i] == a[i]; } else { assert (a + b)[i] == b[i - |a|]; }
    }
    if a == [] {
      assert a + b == b;
    } else {
      assert (a + b)[0] == a[0];
      assert (a + b)[1..] == a[1..] + b;
      assert HaveArtist(a[1..]);
      WithArtistAppend(a[1..], b);
    }
  }

  /** The filter keeps exactly the rows with a non-empty artist, and nothing else. */
  lemma {:induction false} WithArtistKeeps(rows: seq<Record>)
    requires HaveArtist(rows)
    ensures |WithArtist(rows)| <= |rows|
    ensures forall r :: r in WithArtist(rows) <==> r in rows && r["artist"] != ""
    decreases |rows|
  {
    if rows != [] {
      WithArtistKeeps(rows[1..]);
      forall r ensures r in WithArtist(rows) <==> r in rows && r["artist"] != "" {
        if r in rows && r != rows[0] {
          var i :| 0 <= i < |rows| && rows[i] == r;
          assert rows[1..][i - 1] == r;
        }
      }
    }
  }

  lemma WithArtistSnoc(rows: seq<Record>, row: Record)
    requires HaveArtist(rows) && "artist" in row
    ensures HaveArtist(rows + [row])
    ensures WithArtist(rows + [row]) == WithArtist(rows) + (if row["artist"] != "" then [row] else [])
  {
    WithArtistAppend(rows, [row]);
    assert WithArtist([row]) == (if row["artist"] != "" then [row] else []) + WithArtist([]);
  }

  /**
   * read_csv succeeds exactly when every row has the artist column, and then
   * keeps exactly the rows with a non-empty artist, in order; otherwise it
   * stops at the first row without one, having kept the qualifying rows before it.
   */
  lemma {:induction false} ReadRowsIsFilter(rows: seq<Record>)
    ensures ReadRows(rows).ok <==> HaveArtist(rows)
    ensures ReadRows(rows).ok ==> ReadRows(rows).kept == WithArtist(rows)
    ensures !ReadRows(rows).ok ==> exists n :: 0 <= n < |rows| && "artist" !in rows[n] && HaveArtist(rows[..n])
                                       && ReadRows(rows).kept == WithArtist(rows[..n])
    decreases |rows|
  {
    if rows != [] {
      var init := rows[..|rows| - 1];
      var row := rows[|rows| - 1];
      ReadRowsIsFilter(init);
      assert rows == init + [row];
      assert forall i :: 0 <= i < |init| ==> init[i] == rows[i];
      if ReadRows(init).ok {
        if "artist" in row {
          WithArtistSnoc(init, row);
        } else {
          assert rows[..|init|] == init;
        }
      } else {
        var n :| 0 <= n < |init| && "artist" !in init[n] && HaveArtist(init[..n]) && ReadRows(init).kept == WithArtist(init[..n]);
        assert rows[..n] == init[..n];
      }
    }
  }

  // ---------------------------------------------------------------------
  // run

  /**
   * read_csv on the input (None: the file cannot be opened): the events it
   * returns, or None when it raises, and the counters after it; rows_read
   * counts the rows kept before a read failure too.
   */
  function ReadInput(s: EtlState, source: Option<seq<Record>>): (Option<seq<Record>>, EtlState)
  {
    match source
    case None => (None, s)
    case Some(rows) =>
      var rd := ReadRows(rows);
      (if rd.ok then Some(rd.kept) else None, s.(stats := s.stats.(rowsRead := s.stats.rowsRead + |rd.kept|)))
  }

  /**
   * run: read the input, then drain every event; False when reading raised.
   */
  function RunPipeline(s: EtlState, fails: nat -> bool, source: Option<seq<Record>>): (bool, EtlState)
  {
    var read := ReadInput(s, source);
    if read.0.None? then (false, read.1) else (true, LoadAll(read.1, fails, read.0.value))
  }

  /**
   * run returns True exactly when the input could be read, however many
   * writes failed; then every kept event cost three write attempts; when it
   * returns False no write was issued.
   */
  lemma RunPipelineOutcome(s: EtlState, fails: nat -> bool, source: Option<seq<Record>>)
    ensures var r := RunPipeline(s, fails, source);
      && (r.0 <==> source.Some? && HaveArtist(source.value))
      && (r.0 ==> r.1.stats.rowsRead == s.stats.rowsRead + |WithArtist(source.value)|)
      && (r.0 ==> r.1.stats.Attempts() == s.stats.Attempts() + 3 * (r.1.stats.rowsRead - s.stats.rowsRead))
      && (!r.0 ==> r.1.db == s.db && r.1.stats.Attempts() == s.stats.Attempts())
  {
    if source.Some? {
      var rows := source.value;
      var rd := ReadRows(rows);
      assert rd.ok <==> HaveArtist(rows) by { ReadRowsIsFilter(rows); }
      var s1 := s.(stats := s.stats.(rowsRead := s.stats.rowsRead + |rd.kept|));
      assert s1.db == s.db && s1.stats.Attempts() == s.stats.Attempts();
      if rd.ok {
        assert rd.kept == WithArtist(rows) by { ReadRowsIsFilter(rows); }
        var fin := LoadAll(s1, fails, rd.kept);
        assert RunPipeline(s, fails, source) == (true, fin);
        LoadAllCounts(s1, fails, rd.kept);
      } else {
        assert RunPipeline(s, fails, source) == (false, s1);
      }
    }
  }

  /** From fresh counters: the four write counters add up to three per event read. */
  lemma CounterTotal(db: Db, fails: nat -> bool, source: Option<seq<Record>>)
    ensures var r := RunPipeline(EtlState(db, ZeroStats), fails, source);
      r.0 ==> r.1.stats.inserted1 + r.1.stats.inserted2 + r.1.stats.inserted3 + r.1.stats.errors == 3 * r.1.stats.rowsRead
  {
    RunPipelineOutcome(EtlState(db, ZeroStats), fails, source);
  }

  /** An empty input means success with no write and no counter change. */
  lemma RunPipelineOfEmpty(s: EtlState, fails: nat -> bool)
    ensures RunPipeline(s, fails, Some([])) == (true, s)
  {
  }

  /** A model of MusicStreamingETL: the session it writes through and its stats. */
  class MusicStreamingEtl {
    const session: Session
    var stats: Stats

    function State(): EtlState
      reads this, session
    {
      EtlState(session.State(), stats)
    }

    constructor (session: Session)
      ensures this.session == session && stats == ZeroStats
    {
      this.session := session;
      stats := ZeroStats;
    }

    /** read_csv over the given rows: the loop keeps and counts what ReadInput says. */
    method ReadCsv(source: Option<seq<Record>>) returns (events: Option<seq<Record>>)
      modifies this`stats
      ensures (events, State()) == ReadInput(old(State()), source)
    {
      if source.None? {
        return None;
      }
      var rows := source.value;
      var kept: seq<Record> := [];
      var i := 0;
      while i < |rows|
        invariant 0 <= i <= |rows|
        invariant ReadRows(rows[..i]) == ReadResult(true, kept)
        invariant stats == old(stats).(rowsRead := old(stats).rowsRead + |kept|)
      {
        var row := rows[i];
        assert rows[..i + 1][..i] == rows[..i];
        if "artist" !in row {
          ReadRowsAfterFailure(rows, i + 1);
          return None;
        }
        if row["artist"] != "" {
          kept := kept + [row];
          stats := stats.(rowsRead := stats.rowsRead + 1);
        }
        i := i + 1;
      }
      assert rows[..i] == rows;
      events := Some(kept);
    }

    /** One write: build the tuple, execute it, count the outcome. */
    method Write(t: Table, event: Record)
      requires session.Valid()
      modifies this`stats, session
      ensures session.Valid()
      ensures State() == InsertInto(old(State()), session.fails, t, event)
    {
      var params := Params(t, event);
      if params.None? {
        stats := stats.Failed();
        return;
      }
      var ok := session.Execute(Insert(t, params.value));
      stats := if ok then stats.Succeeded(t) else stats.Failed();
    }

    method InsertIntoSongsBySession(event: Record)
      requires session.Valid()
      modifies this`stats, session
      ensures session.Valid()
      ensures State() == InsertInto(old(State()), session.fails, SongsBySession, event)
    {
      Write(SongsBySession, event);
    }

    method InsertIntoSongsByUserSession(event: Record)
      requires session.Valid()
      modifies this`stats, session
      ensures session.Valid()
      ensures State() == InsertInto(old(State()), session.fails, SongsByUserSession, event)
    {
      Write(SongsByUserSession, event);
    }

    method InsertIntoUsersBySong(event: Record)
      requires session.Valid()
      modifies this`stats, session
      ensures session.Valid()
      ensures State() == InsertInto(old(State()), session.fails, UsersBySong, event)
    {
      Write(UsersBySong, event);
    }

    method LoadEvent(event: Record)
      requires session.Valid()
      modifies this`stats, session
      ensures session.Valid()
      ensures State() == FanOut(old(State()), session.fails, event)
    {
      InsertIntoSongsBySession(event);
      InsertIntoSongsByUserSession(event);
      InsertIntoUsersBySong(event);
    }

    /** The drain loop of run: load_event on each event, in order. */
    method LoadEvents(events: seq<Record>)
      requires session.Valid()
      modifies this`stats, session
      ensures session.Valid()
      ensures State() == LoadAll(old(State()), session.fails, events)
    {
      ghost var start := State();
      for i := 0 to |events|
        invariant session.Valid()
        invariant State() == LoadAll(start, session.fails, events[..i])
      {
        LoadAllPrefixStep(start, session.fails, events, i);
        LoadEvent(events[i]);
      }
      assert events[..|events|] == events;
    }

    /** run: True once every event has been drained, False when reading the input raised. */
    method Run(source: Option<seq<Record>>) returns (ok: bool)
      requires session.Valid()
      modifies this`stats, session
      ensures session.Valid()
      ensures (ok, State()) == RunPipeline(old(State()), session.fails, source)
    {
      var events := ReadCsv(source);
      if events.None? {
        return false;
      }
      LoadEvents(events.value);
      ok := true;
    }
  }

  /** Once a prefix of the rows has failed to read, the rest is never read. */
  lemma {:induction false} ReadRowsAfterFailure(rows: seq<Record>, n: nat)
    requires n <= |rows|
    requires !ReadRows(rows[..n]).ok
    ensures ReadRows(rows) == ReadRows(rows[..n])
    decreases |rows| - n
  {
    if n < |rows| {
      assert rows[..n + 1][..n] == rows[..n];
      ReadRowsAfterFailure(rows, n + 1);
    } else {
      assert rows[..n] == rows;
    }
  }
}
