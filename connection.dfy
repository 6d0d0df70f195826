/**
 * execute_cql_file: split the file's text on ';', strip each piece, drop
 * the blank ones, and execute the statements in order, stopping at the
 * first one that raises.
 */
module Connection {
  import opened Models
  import opened Store

  /** str.isspace on one character: the characters str.strip() removes. */
  predicate IsSpace(c: char)
  {
    || c == ' '
    || ('\t' <= c <= '\r')                   // tab, line feed, vertical tab, form feed, carriage return
    || ('\U{1C}' <= c <= '\U{1F}')           // the four information separators
    || c == '\U{85}' || c == '\U{A0}' || c == '\U{1680}'
    || ('\U{2000}' <= c <= '\U{200A}')
    || c == '\U{2028}' || c == '\U{2029}' || c == '\U{202F}' || c == '\U{205F}' || c == '\U{3000}'
  }

  predicate AllSpace(s: string)
  {
    forall i :: 0 <= i < |s| ==> IsSpace(s[i])
  }

  // ---------------------------------------------------------------------
  // str.strip()

  /** s with its leading whitespace removed. */
  function TrimLeft(s: string): string
    decreases |s|
  {
    if s != [] && IsSpace(s[0]) then TrimLeft(s[1..]) else s
  }

  /** s with its trailing whitespace removed. */
  function TrimRight(s: string): string
    decreases |s|
  {
    if s != [] && IsSpace(s[|s| - 1]) then TrimRight(s[..|s| - 1]) else s
  }

  /** TrimLeft drops a whitespace prefix and keeps the rest, which does not start with whitespace. */
  lemma {:induction false} TrimLeftDropsSpace(s: string)
    ensures var r := TrimLeft(s);
      |r| <= |s| && r == s[|s| - |r|..] && AllSpace(s[..|s| - |r|]) && (r != [] ==> !IsSpace(r[0]))
    decreases |s|
  {
    if s != [] && IsSpace(s[0]) {
      TrimLeftDropsSpace(s[1..]);
      var r := TrimLeft(s);
      assert s[1..][|s| - 1 - |r|..] == s[|s| - |r|..];
      assert s[..|s| - |r|] == [s[0]] + s[1..][..|s| - 1 - |r|];
    }
  }

  /** TrimRight drops a whitespace suffix and keeps the rest, which does not end with whitespace. */
  lemma {:induction false} TrimRightDropsSpace(s: string)
    ensures var r := TrimRight(s);
      |r| <= |s| && r == s[..|r|] && AllSpace(s[|r|..]) && (r != [] ==> !IsSpace(r[|r| - 1]))
    decreases |s|
  {
    if s != [] && IsSpace(s[|s| - 1]) {
      TrimRightDropsSpace(s[..|s| - 1]);
      var r := TrimRight(s);
      assert s[..|s| - 1][..|r|] == s[..|r|];
      assert s[|r|..] == s[..|s| - 1][|r|..] + [s[|s| - 1]];
    }
  }

  /** str.strip(): whitespace removed at both ends. */
  function Strip(s: string): string
  {
    TrimRight(TrimLeft(s))
  }

  /**
   * strip keeps a contiguous middle slice of s and removes only whitespace
   * around it; the slice neither starts nor ends with whitespace, and it is
   * empty exactly when s is all whitespace.
   */
  lemma StripIsTrimmedSlice(s: string)
    ensures exists i, j :: 0 <= i <= j <= |s| && Strip(s) == s[i..j] && AllSpace(s[..i]) && AllSpace(s[j..])
    ensures Strip(s) != [] ==> !IsSpace(Strip(s)[0]) && !IsSpace(Strip(s)[|Strip(s)| - 1])
    ensures Strip(s) == [] <==> AllSpace(s)
    ensures forall c :: c in Strip(s) ==> c in s
  {
    var t := TrimLeft(s);
    var r := TrimRight(t);
    var i := |s| - |t|;
    TrimLeftDropsSpace(s);
    TrimRightDropsSpace(t);
    StripSlice(s, t, r, i);
    SliceChars(s, i, i + |r|);
    if r != [] {
      assert r[0] == t[0];
    }
    StripEmpty(s, t, r, i);
  }

  lemma StripSlice(s: string, t: string, r: string, i: int)
    requires |t| <= |s| && t == s[|s| - |t|..] && AllSpace(s[..|s| - |t|])
    requires |r| <= |t| && r == t[..|r|] && AllSpace(t[|r|..])
    requires i == |s| - |t|
    ensures 0 <= i <= i + |r| <= |s| && r == s[i..i + |r|] && AllSpace(s[..i]) && AllSpace(s[i + |r|..])
  {
    assert t == s[i..];
    assert r == t[..|r|];
    assert r == s[i..i + |r|];
    assert s[i + |r|..] == t[|r|..];
  }

  lemma SliceChars(s: string, i: int, j: int)
    requires 0 <= i <= j <= |s|
    ensures forall c :: c in s[i..j] ==> c in s
  {
    forall c | c in s[i..j] ensures c in s {
      var k :| 0 <= k < j - i && s[i..j][k] == c;
      assert s[i + k] == c;
    }
  }

  lemma StripEmpty(s: string, t: string, r: string, i: int)
    requires |t| <= |s| && t == s[|s| - |t|..] && AllSpace(s[..|s| - |t|]) && (t != [] ==> !IsSpace(t[0]))
    requires |r| <= |t| && r == t[..|r|] && AllSpace(t[|r|..]) && (r != [] ==> !IsSpace(r[|r| - 1]))
    requires i == |s| - |t|
    requires r == s[i..i + |r|]
    ensures r == [] <==> AllSpace(s)
  {
    if r == [] {
      assert t[|r|..] == t;
      assert t == [];
      assert s[..i] == s;
    } else {
      assert r[0] == s[i];
    }
  }

  /** Stripping twice is stripping once. */
  lemma StripIdempotent(s: string)
    ensures Strip(Strip(s)) == Strip(s)
  {
    StripIsTrimmedSlice(s);
    var r := Strip(s);
    if r != [] {
      assert TrimLeft(r) == r;
      assert TrimRight(r) == r;
    }
  }

  // ---------------------------------------------------------------------
  // str.split(';')

  /** str.split(';'): the pieces between the separators, always at least one. */
  function SplitOn(s: string): (r: seq<string>)
    ensures |r| >= 1
    decreases |s|
  {
    if s == [] then [[]]
    else
      var rest := SplitOn(s[1..]);
      if s[0] == ';' then [[]] + rest else [[s[0]] + rest[0]] + rest[1..]
  }

  /** ';'.join(pieces). */
  function Join(pieces: seq<string>): string
    requires |pieces| >= 1
    decreases |pieces|
  {
    if |pieces| == 1 then pieces[0] else pieces[0] + ";" + Join(pieces[1..])
  }

  /** Joining the pieces back with ';' gives the text. */
  lemma {:induction false} JoinSplitOn(s: string)
    ensures Join(SplitOn(s)) == s
    decreases |s|
  {
    if s != [] {
      JoinSplitOn(s[1..]);
      var rest := SplitOn(s[1..]);
      if s[0] == ';' {
        assert ([[]] + rest)[1..] == rest;
      } else if |rest| > 1 {
        var r := [[s[0]] + rest[0]] + rest[1..];
        assert r[1..] == rest[1..];
        assert s == [s[0]] + s[1..];
      } else {
        assert s == [s[0]] + s[1..];
      }
    }
  }

  /** No piece contains the separator, and there is one piece more than there are separators. */
  lemma {:induction false} SplitOnPieces(s: string)
    ensures forall i :: 0 <= i < |SplitOn(s)| ==> ';' !in SplitOn(s)[i]
    ensures |SplitOn(s)| == multiset(s)[';'] + 1
    decreases |s|
  {
    if s != [] {
      SplitOnPieces(s[1..]);
      assert s == [s[0]] + s[1..];
      assert multiset(s) == multiset{s[0]} + multiset(s[1..]);
      var rest := SplitOn(s[1..]);
      if s[0] != ';' {
        var r := SplitOn(s);
        forall i | 0 <= i < |r| ensures ';' !in r[i] {
          if i > 0 { assert r[i] == rest[i]; }
        }
      }
    }
  }

  /** A separator between two texts separates their pieces. */
  lemma {:induction false} SplitOnConcat(a: string, b: string)
    ensures SplitOn(a + ";" + b) == SplitOn(a) + SplitOn(b)
    decreases |a|
  {
    if a == [] {
      assert a + ";" + b == [';'] + b;
      assert ([';'] + b)[1..] == b;
    } else {
      var s := a + ";" + b;
      assert s[0] == a[0];
      assert s[1..] == a[1..] + ";" + b;
      SplitOnConcat(a[1..], b);
      var ra, rb := SplitOn(a[1..]), SplitOn(b);
      if a[0] == ';' {
        assert SplitOn(s) == [[]] + (ra + rb);
      } else {
        assert (ra + rb)[0] == ra[0];
        assert (ra + rb)[1..] == ra[1..] + rb;
        assert SplitOn(s) == [[a[0]] + ra[0]] + (ra[1..] + rb);
      }
    }
  }

  /** A text without a separator is a single piece. */
  lemma {:induction false} SplitOnWithoutSeparator(p: string)
    requires ';' !in p
    ensures SplitOn(p) == [p]
    decreases |p|
  {
    if p != [] {
      assert ';' !in p[1..] by {
        forall i | 0 <= i < |p[1..]| ensures p[1..][i] != ';' { assert p[1..][i] == p[i + 1]; }
      }
      SplitOnWithoutSeparator(p[1..]);
      assert p == [p[0]] + p[1..];
    }
  }

  /** Splitting is the inverse of joining pieces that contain no separator. */
  lemma {:induction false} SplitOnJoin(pieces: seq<string>)
    requires |pieces| >= 1
    requires forall i :: 0 <= i < |pieces| ==> ';' !in pieces[i]
    ensures SplitOn(Join(pieces)) == pieces
    decreases |pieces|
  {
    SplitOnWithoutSeparator(pieces[0]);
    if |pieces| > 1 {
      SplitOnJoin(pieces[1..]);
      SplitOnConcat(pieces[0], Join(pieces[1..]));
      assert pieces == [pieces[0]] + pieces[1..];
    }
  }

  // ---------------------------------------------------------------------
  // The statement list

  /** [p.strip() for p in pieces]. */
  function StripAll(pieces: seq<string>): (r: seq<string>)
    ensures |r| == |pieces|
    ensures forall i :: 0 <= i < |pieces| ==> r[i] == Strip(pieces[i])
    decreases |pieces|
  {
    if pieces == [] then [] else [Strip(pieces[0])] + StripAll(pieces[1..])
  }

  /** [s for s in strings if s]: the non-empty strings, in order. */
  function NonEmpty(strings: seq<string>): seq<string>
    decreases |strings|
  {
    if strings == [] then []
    else (if strings[0] != [] then [strings[0]] else []) + NonEmpty(strings[1..])
  }

  /** The statements execute_cql_file runs for a file's text. */
  function SplitStatements(text: string): seq<string>
  {
    NonEmpty(StripAll(SplitOn(text)))
  }

  lemma {:induction false} StripAllAppend(a: seq<string>, b: seq<string>)
    ensures StripAll(a + b) == StripAll(a) + StripAll(b)
  {
    assert forall i :: 0 <= i < |a + b| ==> (a + b)[i] == if i < |a| then a[i] else b[i - |a|];
  }

  lemma {:induction false} NonEmptyAppend(a: seq<string>, b: seq<string>)
    ensures NonEmpty(a + b) == NonEmpty(a) + NonEmpty(b)
    decreases |a|
  {
    if a == [] {
      assert a + b == b;
    } else {
      assert (a + b)[0] == a[0];
      assert (a + b)[1..] == a[1..] + b;
      NonEmptyAppend(a[1..], b);
    }
  }

  /** The filter keeps exactly the non-empty strings. */
  lemma {:induction false} NonEmptyKeeps(strings: seq<string>)
    ensures forall x :: x in NonEmpty(strings) <==> x in strings && x != []
    decreases |strings|
  {
    if strings != [] {
      NonEmptyKeeps(strings[1..]);
      assert strings == [strings[0]] + strings[1..];
    }
  }

  /**
   * What execute_cql_file runs when the text splits into pieces: every
   * statement is non-empty, contains no ';', and neither starts nor ends
   * with whitespace; the statements are exactly the stripped pieces that
   * are not blank.
   */
  ghost predicate CleanStatements(ss: seq<string>, pieces: seq<string>)
  {
    && (forall i :: 0 <= i < |ss| ==> ss[i] != [])
    && (forall i :: 0 <= i < |ss| ==> ';' !in ss[i])
    && (forall i :: 0 <= i < |ss| ==> !IsSpace(ss[i][0]) && !IsSpace(ss[i][|ss[i]| - 1]))
    && (forall x :: x in ss <==> x != [] && exists j :: 0 <= j < |pieces| && x == Strip(pieces[j]))
  }

  /** The statements of any text are clean, and are exactly its non-blank stripped pieces. */
  lemma SplitStatementsAreClean(text: string)
    ensures CleanStatements(SplitStatements(text), SplitOn(text))
  {
    SplitOnPieces(text);
    StrippedPiecesAreClean(SplitOn(text));
  }

  /** The non-blank stripped pieces of ';'-free pieces are clean. */
  lemma StrippedPiecesAreClean(pieces: seq<string>)
    requires forall i :: 0 <= i < |pieces| ==> ';' !in pieces[i]
    ensures CleanStatements(NonEmpty(StripAll(pieces)), pieces)
  {
    StrippedPiecesAreTrimmed(pieces);
    StrippedPiecesMembership(pieces);
  }

  /** The non-blank stripped pieces of ';'-free pieces are non-empty, ';'-free and trimmed. */
  lemma StrippedPiecesAreTrimmed(pieces: seq<string>)
    requires forall i :: 0 <= i < |pieces| ==> ';' !in pieces[i]
    ensures var ss := NonEmpty(StripAll(pieces));
      forall i :: 0 <= i < |ss| ==> ss[i] != [] && ';' !in ss[i] && !IsSpace(ss[i][0]) && !IsSpace(ss[i][|ss[i]| - 1])
  {
    var stripped := StripAll(pieces);
    var ss := NonEmpty(stripped);
    NonEmptyKeeps(stripped);
    forall i | 0 <= i < |ss| ensures ss[i] != [] && ';' !in ss[i] && !IsSpace(ss[i][0]) && !IsSpace(ss[i][|ss[i]| - 1]) {
      assert ss[i] in stripped;
      var j :| 0 <= j < |stripped| && stripped[j] == ss[i];
      CleanPiece(pieces[j]);
    }
  }

  /** A piece without ';' strips to a string without ';' that neither starts nor ends with whitespace. */
  lemma CleanPiece(piece: string)
    requires ';' !in piece
    ensures var t := Strip(piece); ';' !in t && (t != [] ==> !IsSpace(t[0]) && !IsSpace(t[|t| - 1]))
  {
    StripIsTrimmedSlice(piece);
  }

  /** The non-blank stripped pieces are exactly the strips of the pieces that are not blank. */
  lemma StrippedPiecesMembership(pieces: seq<string>)
    ensures var ss := NonEmpty(StripAll(pieces));
      forall x :: x in ss <==> x != [] && exists j :: 0 <= j < |pieces| && x == Strip(pieces[j])
  {
    var stripped := StripAll(pieces);
    var ss := NonEmpty(stripped);
    NonEmptyKeeps(stripped);
    forall x ensures x in ss <==> x != [] && exists j :: 0 <= j < |pieces| && x == Strip(pieces[j]) {
      if x in stripped {
        var j :| 0 <= j < |stripped| && stripped[j] == x;
        assert x == Strip(pieces[j]);
      }
      if exists j :: 0 <= j < |pieces| && x == Strip(pieces[j]) {
        var j :| 0 <= j < |pieces| && x == Strip(pieces[j]);
        assert stripped[j] == x;
      }
    }
  }

  /** The statements of two texts joined by ';' are the first text's, then the second's: order is kept. */
  lemma SplitStatementsConcat(a: string, b: string)
    ensures SplitStatements(a + ";" + b) == SplitStatements(a) + SplitStatements(b)
  {
    SplitOnConcat(a, b);
    StripAllAppend(SplitOn(a), SplitOn(b));
    NonEmptyAppend(StripAll(SplitOn(a)), StripAll(SplitOn(b)));
  }

  /** A text without ';' is one statement, its stripped self, unless it is blank. */
  lemma SplitStatementsOfOne(text: string)
    requires ';' !in text
    ensures SplitStatements(text) == if Strip(text) == [] then [] else [Strip(text)]
  {
    SplitOnWithoutSeparator(text);
    assert StripAll([text]) == [Strip(text)];
    assert NonEmpty([Strip(text)]) == (if Strip(text) != [] then [Strip(text)] else []) + NonEmpty([]);
  }

  // ---------------------------------------------------------------------
  // The execution loop

  /** The statements the server reads the texts as. */
  function ParseAll(parse: string -> Statement, texts: seq<string>): (r: seq<Statement>)
    ensures |r| == |texts|
    ensures forall i :: 0 <= i < |texts| ==> r[i] == parse(texts[i])
    decreases |texts|
  {
    if texts == [] then [] else [parse(texts[0])] + ParseAll(parse, texts[1..])
  }

  /** The loop of execute_cql_file: each statement once, in order, up to the first that raises. */
  method ExecuteAll(session: Session, statements: seq<string>) returns (ok: bool)
    requires session.Valid()
    modifies session
    ensures session.Valid()
    ensures var r := RunScript(old(session.State()), session.fails, ParseAll(session.parse, statements));
      ok == r.ok && session.State() == r.db
  {
    ghost var db0 := session.State();
    ghost var script := ParseAll(session.parse, statements);
    assert script[..0] == [];
    for i := 0 to |statements|
      invariant session.Valid()
      invariant var r := RunScript(db0, session.fails, script[..i]); r.ok && session.State() == r.db
    {
      RunScriptPrefixStep(db0, session.fails, script, i);
      ok := session.ExecuteText(statements[i]);
      if !ok {
        RunScriptAfterFailure(db0, session.fails, script, i + 1);
        return;
      }
    }
    assert script[..|statements|] == script;
    ok := true;
  }

  /**
   * execute_cql_file on a file's text (None: the file cannot be read): the
   * statements of the text, executed in order; False when the file cannot
   * be read or a statement raised.
   */
  method ExecuteCqlFile(session: Session, file: Option<string>) returns (ok: bool)
    requires session.Valid()
    modifies session
    ensures session.Valid()
    ensures file.None? ==> !ok && session.State() == old(session.State())
    ensures file.Some? ==>
      var r := RunScript(old(session.State()), session.fails, ParseAll(session.parse, SplitStatements(file.value)));
      ok == r.ok && session.State() == r.db
  {
    if file.None? {
      return false;
    }
    var statements := SplitStatements(file.value);
    ok := ExecuteAll(session, statements);
  }
}
