/**
 * The query service (QueryExecutor): one prepared SELECT per table, each
 * answering one business question, with every failed execute answered by
 * an empty result.
 */
module Queries {
  import opened Models
  import opened Store

  /** query_1's answer: the empty record, or the song's details. */
  datatype SongDetails = NoSong | SongDetails(artist: string, songTitle: string, songLength: string)

  /** One entry of query_2's answer. */
  datatype HistoryEntry = HistoryEntry(
    artist: string, songTitle: string, itemInSession: int, userFirstName: string, userLastName: string)

  /** One entry of query_3's answer. */
  datatype Listener = Listener(userFirstName: string, userLastName: string)

  /** run_all_queries's answer: exactly the entries query_1, query_2 and query_3. */
  datatype AllResults = AllResults(query1: SongDetails, query2: seq<HistoryEntry>, query3: seq<Listener>)

  const DefaultSessionId: int := 338
  const DefaultItemInSession: int := 4
  const DefaultUserId: int := 10
  const DefaultUserSessionId: int := 182
  const DefaultSongTitle: string := "All Hands Against His Own"

  function DetailsOf(row: SongBySession): SongDetails
  {
    SongDetails(row.artist, row.songTitle, row.songLength)
  }

  function EntryOf(row: SongByUserSession): HistoryEntry
  {
    HistoryEntry(row.artist, row.songTitle, row.itemInSession, row.userFirstName, row.userLastName)
  }

  function ListenerOf(row: UserBySong): Listener
  {
    Listener(row.userFirstName, row.userLastName)
  }

  /** The loop of query_2 over the rows returned, one entry per row, in order. */
  function Entries(rows: seq<SongByUserSession>): (r: seq<HistoryEntry>)
    ensures |r| == |rows|
    ensures forall i :: 0 <= i < |rows| ==> r[i] == EntryOf(rows[i])
    decreases |rows|
  {
    if rows == [] then [] else Entries(rows[..|rows| - 1]) + [EntryOf(rows[|rows| - 1])]
  }

  /** The loop of query_3 over the rows returned, one entry per row, in order. */
  function ListenersOf(rows: seq<UserBySong>): (r: seq<Listener>)
    ensures |r| == |rows|
    ensures forall i :: 0 <= i < |rows| ==> r[i] == ListenerOf(rows[i])
    decreases |rows|
  {
    if rows == [] then [] else ListenersOf(rows[..|rows| - 1]) + [ListenerOf(rows[|rows| - 1])]
  }

  lemma EntriesPrefixStep(rows: seq<SongByUserSession>, i: nat)
    requires i < |rows|
    ensures Entries(rows[..i + 1]) == Entries(rows[..i]) + [EntryOf(rows[i])]
  {
    assert rows[..i + 1][..i] == rows[..i];
  }

  lemma ListenersPrefixStep(rows: seq<UserBySong>, i: nat)
    requires i < |rows|
    ensures ListenersOf(rows[..i + 1]) == ListenersOf(rows[..i]) + [ListenerOf(rows[i])]
  {
    assert rows[..i + 1][..i] == rows[..i];
  }

  /** query_1 on a store, given whether its execute raised. */
  function SessionItem(st: Store, failed: bool, sessionId: int, itemInSession: int): SongDetails
  {
    if failed || SongsBySession !in st.tables || !IsInt32(sessionId) || !IsInt32(itemInSession) then NoSong
    else
      var rows := LookupSongsBySession(st, sessionId, itemInSession);
      if rows == [] then NoSong else DetailsOf(rows[0])
  }

  /** query_2 on a store, given whether its execute raised. */
  function UserSessionHistory(st: Store, failed: bool, userId: int, sessionId: int): seq<HistoryEntry>
  {
    if failed || SongsByUserSession !in st.tables || !IsInt32(userId) || !IsInt32(sessionId) then [] else Entries(ScanSongsByUserSession(st, userId, sessionId))
  }

  /** query_3 on a store, given whether its execute raised; the server refuses an empty song title. */
  function UsersBySongTitle(st: Store, failed: bool, songTitle: string): seq<Listener>
  {
    if failed || UsersBySong !in st.tables || songTitle == "" then [] else ListenersOf(ScanUsersBySong(st, songTitle))
  }

  /**
   * query_1 finds a song exactly when the execute went through and a row is
   * stored at the full key, and then answers that row's details; a failed
   * execute and a missing row give the same empty record.
   */
  lemma SessionItemIsLookup(st: Store, failed: bool, sessionId: int, itemInSession: int)
    ensures var r := SessionItem(st, failed, sessionId, itemInSession);
      && (r.SongDetails? <==>
            && !failed && SongsBySession in st.tables && IsInt32(sessionId) && IsInt32(itemInSession)
            && (sessionId, itemInSession) in st.songsBySession)
      && (r.SongDetails? ==> r == DetailsOf(st.songsBySession[(sessionId, itemInSession)]))
      && (failed ==> r == SessionItem(st.(songsBySession := map[]), false, sessionId, itemInSession))
  {
  }

  /**
   * query_2 answers one entry per row of partition (user_id, session_id),
   * ordered by strictly ascending item_in_session, and no other entry; a
   * failed execute answers the empty list.
   */
  lemma UserSessionHistoryIsPartitionInOrder(st: Store, failed: bool, userId: int, sessionId: int)
    requires Wf(st)
    ensures var r := UserSessionHistory(st, failed, userId, sessionId);
      var m := st.songsByUserSession;
      var items := Ascending(SessionItems(m, userId, sessionId));
      && (failed || SongsByUserSession !in st.tables || !IsInt32(userId) || !IsInt32(sessionId) ==> r == [])
      && (!failed && SongsByUserSession in st.tables && IsInt32(userId) && IsInt32(sessionId) ==>
            && |r| == |items|
            && (forall i :: 0 <= i < |r| ==>
                  (userId, sessionId, items[i]) in m && r[i] == EntryOf(m[(userId, sessionId, items[i])])
                  && r[i].itemInSession == items[i])
            && (forall i, j :: 0 <= i < j < |r| ==> r[i].itemInSession < r[j].itemInSession)
            && (forall k :: k in m && k.0 == userId && k.1 == sessionId ==> EntryOf(m[k]) in r))
  {
    if !failed && SongsByUserSession in st.tables && IsInt32(userId) && IsInt32(sessionId) {
      var m := st.songsByUserSession;
      var itemSet := SessionItems(m, userId, sessionId);
      var items := Ascending(itemSet);
      AscendingEnumerates(itemSet);
      var rows := ScanSongsByUserSession(st, userId, sessionId);
      assert rows == RowsAtItems(m, userId, sessionId, items);
      var r := Entries(rows);
      assert UserSessionHistory(st, failed, userId, sessionId) == r;
      forall i | 0 <= i < |r|
        ensures (userId, sessionId, items[i]) in m && r[i] == EntryOf(m[(userId, sessionId, items[i])])
        ensures r[i].itemInSession == items[i]
      {
        var k := (userId, sessionId, items[i]);
        assert items[i] in itemSet;
        assert rows[i] == m[k];
        assert m[k].Key() == k;
      }
      forall i, j | 0 <= i < j < |r| ensures r[i].itemInSession < r[j].itemInSession {
        assert items[i] < items[j];
      }
      forall k | k in m && k.0 == userId && k.1 == sessionId ensures EntryOf(m[k]) in r {
        assert k.2 in itemSet;
        var i :| 0 <= i < |items| && items[i] == k.2;
        assert k == (userId, sessionId, items[i]);
        assert r[i] == EntryOf(m[k]);
      }
    }
  }

  /**
   * query_3 answers the names of the partition's users in strictly ascending
   * user_id, one entry per user and no other entry; a failed execute answers
   * the empty list.
   */
  lemma UsersBySongTitleIsPartitionInOrder(st: Store, failed: bool, songTitle: string)
    requires Wf(st)
    ensures var r := UsersBySongTitle(st, failed, songTitle);
      var m := st.usersBySong;
      var users := Ascending(SongUsers(m, songTitle));
      && (failed || UsersBySong !in st.tables || songTitle == "" ==> r == [])
      && (!failed && UsersBySong in st.tables && songTitle != "" ==>
            && |r| == |users|
            && StrictlyIncreasing(users)
            && (forall u :: u in users <==> (songTitle, u) in m)
            && (forall i :: 0 <= i < |r| ==> (songTitle, users[i]) in m && r[i] == ListenerOf(m[(songTitle, users[i])])))
  {
    if !failed && UsersBySong in st.tables && songTitle != "" {
      AscendingEnumerates(SongUsers(st.usersBySong, songTitle));
    }
  }

  /**
   * After a DROP KEYSPACE that went through, every query answers empty for
   * every argument, whether or not its own execute raises.
   */
  lemma QueriesAfterDrop(db: Db, fails: nat -> bool, failed: bool, sessionId: int, itemInSession: int,
                         userId: int, userSessionId: int, songTitle: string)
    requires Step(db, fails, DropKeyspace).0
    ensures var st := Step(db, fails, DropKeyspace).1.store;
      && SessionItem(st, failed, sessionId, itemInSession) == NoSong
      && UserSessionHistory(st, failed, userId, userSessionId) == []
      && UsersBySongTitle(st, failed, songTitle) == []
  {
    assert Step(db, fails, DropKeyspace).1.store == Empty;
  }

  /** A model of QueryExecutor over a session. */
  class QueryExecutor {
    const session: Session

    constructor (session: Session)
      ensures this.session == session
    {
      this.session := session;
    }

    /** query_1_session_item_lookup: the store is read, never written. */
    method SessionItemLookup(sessionId: int, itemInSession: int) returns (data: SongDetails)
      modifies session`executed
      ensures session.store == old(session.store)
      ensures session.executed == old(session.executed) + 1
      ensures data == SessionItem(session.store, session.fails(old(session.executed)), sessionId, itemInSession)
    {
      var rows := session.SelectSongsBySession(sessionId, itemInSession);
      if rows.None? || rows.value == [] {
        return NoSong;
      }
      var row := rows.value[0];
      data := SongDetails(row.artist, row.songTitle, row.songLength);
    }

    /** query_2_user_session_history: the store is read, never written. */
    method UserSessionHistoryLookup(userId: int, sessionId: int) returns (data: seq<HistoryEntry>)
      modifies session`executed
      ensures session.store == old(session.store)
      ensures session.executed == old(session.executed) + 1
      ensures data == UserSessionHistory(session.store, session.fails(old(session.executed)), userId, sessionId)
    {
      var rows := session.SelectSongsByUserSession(userId, sessionId);
      if rows.None? {
        return [];
      }
      var rs := rows.value;
      data := [];
      for i := 0 to |rs|
        invariant data == Entries(rs[..i])
        invariant session.executed == old(session.executed) + 1
      {
        EntriesPrefixStep(rs, i);
        var row := rs[i];
        data := data + [HistoryEntry(row.artist, row.songTitle, row.itemInSession, row.userFirstName, row.userLastName)];
      }
      assert rs[..|rs|] == rs;
    }

    /** query_3_users_by_song: the store is read, never written. */
    method UsersBySongLookup(songTitle: string) returns (data: seq<Listener>)
      modifies session`executed
      ensures session.store == old(session.store)
      ensures session.executed == old(session.executed) + 1
      ensures data == UsersBySongTitle(session.store, session.fails(old(session.executed)), songTitle)
    {
      var rows := session.SelectUsersBySong(songTitle);
      if rows.None? {
        return [];
      }
      var rs := rows.value;
      data := [];
      for i := 0 to |rs|
        invariant data == ListenersOf(rs[..i])
        invariant session.executed == old(session.executed) + 1
      {
        ListenersPrefixStep(rs, i);
        var row := rs[i];
        data := data + [Listener(row.userFirstName, row.userLastName)];
      }
      assert rs[..|rs|] == rs;
    }

    /** run_all_queries: the three queries in order, with their default arguments. */
    method RunAllQueries() returns (results: AllResults)
      modifies session`executed
      ensures session.store == old(session.store)
      ensures session.executed == old(session.executed) + 3
      ensures var st, k := session.store, old(session.executed);
        results == AllResults(
          SessionItem(st, session.fails(k), DefaultSessionId, DefaultItemInSession),
          UserSessionHistory(st, session.fails(k + 1), DefaultUserId, DefaultUserSessionId),
          UsersBySongTitle(st, session.fails(k + 2), DefaultSongTitle))
    {
      var q1 := SessionItemLookup(DefaultSessionId, DefaultItemInSession);
      var q2 := UserSessionHistoryLookup(DefaultUserId, DefaultUserSessionId);
      var q3 := UsersBySongLookup(DefaultSongTitle);
      results := AllResults(q1, q2, q3);
    }
  }
}
