/**
 * The schema of the music streaming keyspace: three denormalised tables,
 * each laid out around the one query that reads it, the rows they hold,
 * the positional parameter tuples their prepared INSERTs bind, and the
 * statements the schema layer sends to the store.
 */
module Models {

  datatype Option<T> = None | Some(value: T)

  /** A bound parameter or a stored cell. A DECIMAL is kept as its text. */
  datatype Value = IntV(i: int) | TextV(s: string) | DecimalV(d: string)

  datatype ColumnType = Int | Text | Decimal

  datatype Column = Column(name: string, kind: ColumnType)

  datatype Table = SongsBySession | SongsByUserSession | UsersBySong

  /** CQL INT is a 32-bit signed integer: the driver refuses to bind a value outside this range. */
  predicate IsInt32(i: int)
  {
    -0x8000_0000 <= i < 0x8000_0000
  }

  /** Every table of the keyspace. */
  const AllTables: set<Table> := {SongsBySession, SongsByUserSession, UsersBySong}

  lemma AllTablesComplete(t: Table)
    ensures t in AllTables
  {
  }

  /** The columns of each CREATE TABLE, in declaration order. */
  function Columns(t: Table): seq<Column>
  {
    match t
    case SongsBySession =>
      [Column("session_id", Int), Column("item_in_session", Int), Column("artist", Text),
       Column("song_title", Text), Column("song_length", Decimal)]
    case SongsByUserSession =>
      [Column("user_id", Int), Column("session_id", Int), Column("item_in_session", Int),
       Column("artist", Text), Column("song_title", Text),
       Column("user_first_name", Text), Column("user_last_name", Text)]
    case UsersBySong =>
      [Column("song_title", Text), Column("user_id", Int),
       Column("user_first_name", Text), Column("user_last_name", Text)]
  }

  function ColumnNames(cols: seq<Column>): (names: seq<string>)
    ensures |names| == |cols|
    ensures forall i :: 0 <= i < |cols| ==> names[i] == cols[i].name
  {
    if cols == [] then [] else [cols[0].name] + ColumnNames(cols[1..])
  }

  /** The partition key of each table. */
  function PartitionKey(t: Table): seq<string>
  {
    match t
    case SongsBySession => ["session_id"]
    case SongsByUserSession => ["user_id", "session_id"]
    case UsersBySong => ["song_title"]
  }

  /** The clustering key of each table; every table clusters ascending. */
  function ClusteringKey(t: Table): seq<string>
  {
    match t
    case SongsBySession => ["item_in_session"]
    case SongsByUserSession => ["item_in_session"]
    case UsersBySong => ["user_id"]
  }

  /** The column list each prepared INSERT names. */
  function InsertColumns(t: Table): seq<string>
  {
    match t
    case SongsBySession => ["session_id", "item_in_session", "artist", "song_title", "song_length"]
    case SongsByUserSession =>
      ["user_id", "session_id", "item_in_session", "artist", "song_title", "user_first_name", "user_last_name"]
    case UsersBySong => ["song_title", "user_id", "user_first_name", "user_last_name"]
  }

  /** Number of `?` placeholders in each prepared INSERT. */
  function Placeholders(t: Table): nat
  {
    match t
    case SongsBySession => 5
    case SongsByUserSession => 7
    case UsersBySong => 4
  }

  /** The column list each prepared SELECT returns. */
  function SelectColumns(t: Table): seq<string>
  {
    match t
    case SongsBySession => ["artist", "song_title", "song_length"]
    case SongsByUserSession => ["artist", "song_title", "item_in_session", "user_first_name", "user_last_name"]
    case UsersBySong => ["user_first_name", "user_last_name"]
  }

  /** The columns each prepared SELECT restricts in its WHERE clause. */
  function WhereColumns(t: Table): seq<string>
  {
    match t
    case SongsBySession => ["session_id", "item_in_session"]
    case SongsByUserSession => ["user_id", "session_id"]
    case UsersBySong => ["song_title"]
  }

  /**
   * Every INSERT names exactly the table's columns, in declaration order,
   * with one placeholder per column; the primary key is made of columns of
   * the table, and every SELECT restricts exactly the partition key, or the
   * whole primary key for the point lookup.
   */
  lemma StatementsMatchLayout(t: Table)
    ensures InsertColumns(t) == ColumnNames(Columns(t))
    ensures |InsertColumns(t)| == Placeholders(t)
    ensures forall c :: c in PartitionKey(t) + ClusteringKey(t) ==> c in InsertColumns(t)
    ensures forall c :: c in SelectColumns(t) ==> c in InsertColumns(t)
    ensures WhereColumns(t) == if t == SongsBySession then PartitionKey(t) + ClusteringKey(t) else PartitionKey(t)
  {
    assert InsertColumns(t) == ColumnNames(Columns(t)) by {
      match t
      case SongsBySession =>
      case SongsByUserSession =>
      case UsersBySong =>
    }
    KeysAndSelectsAreInserted(t);
  }

  lemma KeysAndSelectsAreInserted(t: Table)
    ensures forall c :: c in PartitionKey(t) + ClusteringKey(t) ==> c in InsertColumns(t)
    ensures forall c :: c in SelectColumns(t) ==> c in InsertColumns(t)
  {
    var ins := InsertColumns(t);
    forall c | c in PartitionKey(t) + ClusteringKey(t) ensures c in ins {
      match t
      case SongsBySession => assert c == ins[0] || c == ins[1];
      case SongsByUserSession => assert c == ins[0] || c == ins[1] || c == ins[2];
      case UsersBySong => assert c == ins[0] || c == ins[1];
    }
    forall c | c in SelectColumns(t) ensures c in ins {
      match t
      case SongsBySession => assert c == ins[2] || c == ins[3] || c == ins[4];
      case SongsByUserSession => assert c == ins[2] || c == ins[3] || c == ins[4] || c == ins[5] || c == ins[6];
      case UsersBySong => assert c == ins[2] || c == ins[3];
    }
  }

  /** A row of songs_by_session, keyed by (session_id, item_in_session). */
  datatype SongBySession = SongBySession(
    sessionId: int, itemInSession: int, artist: string, songTitle: string, songLength: string)
  {
    function Key(): (int, int) { (sessionId, itemInSession) }

    /** The row can be stored: both INT columns fit in 32 bits. */
    predicate Fits() { IsInt32(sessionId) && IsInt32(itemInSession) }
  }

  /** A row of songs_by_user_session, keyed by ((user_id, session_id), item_in_session). */
  datatype SongByUserSession = SongByUserSession(
    userId: int, sessionId: int, itemInSession: int, artist: string, songTitle: string,
    userFirstName: string, userLastName: string)
  {
    function Key(): (int, int, int) { (userId, sessionId, itemInSession) }

    /** The row can be stored: all three INT columns fit in 32 bits. */
    predicate Fits() { IsInt32(userId) && IsInt32(sessionId) && IsInt32(itemInSession) }
  }

  /** A row of users_by_song, keyed by (song_title, user_id). */
  datatype UserBySong = UserBySong(songTitle: string, userId: int, userFirstName: string, userLastName: string)
  {
    function Key(): (string, int) { (songTitle, userId) }

    /**
     * The row can be stored: the INT column fits in 32 bits, and the
     * partition key song_title is not empty (Cassandra refuses an empty
     * single-column partition key).
     */
    predicate Fits() { songTitle != "" && IsInt32(userId) }
  }

  function KindOf(v: Value): ColumnType
  {
    match v
    case IntV(_) => Int
    case TextV(_) => Text
    case DecimalV(_) => Decimal
  }

  /** A value the driver can bind to a column of the given type: the right kind, and an INT within 32 bits. */
  predicate Binds(v: Value, kind: ColumnType)
  {
    KindOf(v) == kind && (v.IntV? ==> IsInt32(v.i))
  }

  /**
   * A parameter tuple fits a table when it has one bindable value per column
   * and, for users_by_song, its partition key song_title is not empty.
   */
  predicate Conforms(t: Table, params: seq<Value>)
  {
    && |params| == |Columns(t)|
    && (forall i :: 0 <= i < |params| ==> Binds(params[i], Columns(t)[i].kind))
    && (t == UsersBySong ==> params[0] != TextV(""))
  }

  function EncodeSongBySession(r: SongBySession): seq<Value>
  {
    [IntV(r.sessionId), IntV(r.itemInSession), TextV(r.artist), TextV(r.songTitle), DecimalV(r.songLength)]
  }

  function EncodeSongByUserSession(r: SongByUserSession): seq<Value>
  {
    [IntV(r.userId), IntV(r.sessionId), IntV(r.itemInSession), TextV(r.artist), TextV(r.songTitle),
     TextV(r.userFirstName), TextV(r.userLastName)]
  }

  function EncodeUserBySong(r: UserBySong): seq<Value>
  {
    [TextV(r.songTitle), IntV(r.userId), TextV(r.userFirstName), TextV(r.userLastName)]
  }

  /** An INT parameter the driver can serialise. */
  predicate Int32V(v: Value)
  {
    v.IntV? && IsInt32(v.i)
  }

  /**
   * How a bound parameter tuple becomes a row (None: the execute raises, for
   * a value of the wrong type, an INT outside 32 bits, or an empty
   * song_title partition key).
   */
  function DecodeSongBySession(p: seq<Value>): Option<SongBySession>
  {
    if |p| == 5 && Int32V(p[0]) && Int32V(p[1]) && p[2].TextV? && p[3].TextV? && p[4].DecimalV?
    then Some(SongBySession(p[0].i, p[1].i, p[2].s, p[3].s, p[4].d))
    else None
  }

  function DecodeSongByUserSession(p: seq<Value>): Option<SongByUserSession>
  {
    if |p| == 7 && Int32V(p[0]) && Int32V(p[1]) && Int32V(p[2]) && p[3].TextV? && p[4].TextV? && p[5].TextV? && p[6].TextV?
    then Some(SongByUserSession(p[0].i, p[1].i, p[2].i, p[3].s, p[4].s, p[5].s, p[6].s))
    else None
  }

  function DecodeUserBySong(p: seq<Value>): Option<UserBySong>
  {
    if |p| == 4 && p[0].TextV? && p[0].s != "" && Int32V(p[1]) && p[2].TextV? && p[3].TextV?
    then Some(UserBySong(p[0].s, p[1].i, p[2].s, p[3].s))
    else None
  }

  /** The store accepts a tuple exactly when it conforms to the table's columns. */
  predicate Decodes(t: Table, p: seq<Value>)
  {
    match t
    case SongsBySession => DecodeSongBySession(p).Some?
    case SongsByUserSession => DecodeSongByUserSession(p).Some?
    case UsersBySong => DecodeUserBySong(p).Some?
  }

  lemma DecodesIffConforms(t: Table, p: seq<Value>)
    ensures Decodes(t, p) <==> Conforms(t, p)
  {
    if Conforms(t, p) {
      match t
      case SongsBySession =>
        assert Binds(p[0], Int) && Binds(p[1], Int) && Binds(p[2], Text) && Binds(p[3], Text) && Binds(p[4], Decimal);
      case SongsByUserSession =>
        assert Binds(p[0], Int) && Binds(p[1], Int) && Binds(p[2], Int);
        assert Binds(p[3], Text) && Binds(p[4], Text) && Binds(p[5], Text) && Binds(p[6], Text);
      case UsersBySong =>
        assert Binds(p[0], Text) && Binds(p[1], Int) && Binds(p[2], Text) && Binds(p[3], Text);
    }
    if Decodes(t, p) {
      forall i | 0 <= i < |p| ensures Binds(p[i], Columns(t)[i].kind) {
        match t
        case SongsBySession =>
          assert i == 0 || i == 1 || i == 2 || i == 3 || i == 4;
        case SongsByUserSession =>
          assert i == 0 || i == 1 || i == 2 || i == 3 || i == 4 || i == 5 || i == 6;
        case UsersBySong =>
          assert i == 0 || i == 1 || i == 2 || i == 3;
      }
    }
  }

  /**
   * Binding a row and reading it back gives the row exactly when the row
   * can be stored (its INT columns fit in 32 bits and, for users_by_song,
   * song_title is not empty): every column is bound, in column order;
   * otherwise the store refuses it.
   */
  lemma EncodeDecodeRoundTrip(r1: SongBySession, r2: SongByUserSession, r3: UserBySong)
    ensures DecodeSongBySession(EncodeSongBySession(r1)) == if r1.Fits() then Some(r1) else None
    ensures DecodeSongByUserSession(EncodeSongByUserSession(r2)) == if r2.Fits() then Some(r2) else None
    ensures DecodeUserBySong(EncodeUserBySong(r3)) == if r3.Fits() then Some(r3) else None
    ensures Conforms(SongsBySession, EncodeSongBySession(r1)) <==> r1.Fits()
    ensures Conforms(SongsByUserSession, EncodeSongByUserSession(r2)) <==> r2.Fits()
    ensures Conforms(UsersBySong, EncodeUserBySong(r3)) <==> r3.Fits()
  {
    DecodesIffConforms(SongsBySession, EncodeSongBySession(r1));
    DecodesIffConforms(SongsByUserSession, EncodeSongByUserSession(r2));
    DecodesIffConforms(UsersBySong, EncodeUserBySong(r3));
  }

  /** The statements the schema layer and the loader send to the store. */
  datatype Statement =
    | CreateKeyspace                            // CREATE KEYSPACE IF NOT EXISTS music_streaming ...
    | UseKeyspace                               // set_keyspace('music_streaming')
    | CreateTable(table: Table)                 // CREATE TABLE IF NOT EXISTS ...
    | DropKeyspace                              // DROP KEYSPACE IF EXISTS music_streaming
    | Insert(table: Table, params: seq<Value>)  // a prepared INSERT with its bound values
    | Rejected                                  // text the server does not accept

  /** The three table creations, in the order the schema layer issues them. */
  function TableCreateStatements(): (r: seq<Statement>)
    ensures |r| == 3
    ensures forall i :: 0 <= i < |r| ==> r[i].CreateTable?
    ensures forall t :: t in AllTables ==> CreateTable(t) in r
    ensures forall i, j :: 0 <= i < j < |r| ==> r[i] != r[j]
    ensures r[0].table == SongsBySession && r[1].table == SongsByUserSession && r[2].table == UsersBySong
  {
    [CreateTable(SongsBySession), CreateTable(SongsByUserSession), CreateTable(UsersBySong)]
  }
}
