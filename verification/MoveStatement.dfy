/**
 The agreement between the executor, which writes ALTER TABLE ... MOVE PARTITION ID statements,
 and the observer, which later recovers the partition id from the statement text. The observer
 looks for its marker in the lower-case text and cuts the original text at the place it found,
 so everything depends on where the folded names put the marker. `lower` and `space` are the
 tables of Utf8Text; nothing is assumed about them.
 */
module MoveStatement {
  import opened Wrappers
  import opened GoStrings
  import opened SqlText
  import opened Utf8Text

  const MARKER := "partition id"
  const HEAD := "ALTER TABLE "
  const MIDDLE := " MOVE PARTITION ID"
  const SETTINGS := " SETTINGS alter_move_to_space_execute_async = 1"

  /** The statement up to the words that introduce the partition id. */
  function Beginning(database: string, table: string): string {
    HEAD + QuoteQualified(database, table) + MIDDLE
  }

  /** What follows them, behind one blank. */
  function Argument(partitionID: string, targetClause: string): string {
    QuoteString(partitionID) + (" " + targetClause + SETTINGS)
  }

  /** The statement moveAttempt executes. */
  function MoveQuery(database: string, table: string, partitionID: string, targetClause: string): string {
    Beginning(database, table) + (" " + Argument(partitionID, targetClause))
  }

  /** The statement in full. */
  lemma MoveQueryText(database: string, table: string, partitionID: string, targetClause: string)
    ensures MoveQuery(database, table, partitionID, targetClause)
         == "ALTER TABLE " + QuoteQualified(database, table) + " MOVE PARTITION ID " + QuoteString(partitionID)
            + " " + targetClause + " SETTINGS alter_move_to_space_execute_async = 1"
  {
    assert MIDDLE + " " == " MOVE PARTITION ID ";
    Chained(HEAD, QuoteQualified(database, table), MIDDLE, " ", QuoteString(partitionID), targetClause, SETTINGS);
  }

  lemma Chained(a: string, b: string, c: string, d: string, e: string, f: string, g: string)
    ensures a + b + c + (d + (e + (d + f + g))) == a + b + (c + d) + e + d + f + g
  {
  }

  /** Slicing behind the end of a string panics. */
  datatype Extraction = Recovered(id: string) | Absent | OutOfRange

  /** extractMovePartitionID */
  function ExtractMovePartitionID(lower: string -> string, space: string -> bool, query: string): Extraction {
    ReadBehind(ToLower(lower, query), MARKER, space, query)
  }

  /** The marker is found in the folded text, and the text itself is cut behind that place. */
  function ReadBehind(low: string, marker: string, space: string -> bool, query: string): Extraction {
    var idx := Index(low, marker);
    if idx < 0 then Absent
    else if idx + |marker| > |query| then OutOfRange
    else ReadLiteral(TrimSpace(space, query[idx + |marker|..]))
  }

  /** The value of the string literal a text starts with. */
  function ReadLiteral(tail: string): Extraction {
    if tail == "" || tail[0] != '\'' then Absent
    else match LexString(tail[1..])
      case None => Absent
      case Some((value, _)) => Recovered(value)
  }

  /**
   How far behind the statement's own marker the observer starts to read: negative when the
   names pull the marker to the left, positive when they push it to the right.
   */
  function Landing(lower: string -> string, database: string, table: string): int {
    LandingIn(lower, Beginning(database, table))
  }

  function LandingIn(lower: string -> string, text: string): int {
    Index(ToLower(lower, text), MARKER) + |MARKER| - |text|
  }

  // ---- where the marker is found ---------------------------------------------------------------

  lemma Shape(database: string, table: string, partitionID: string, targetClause: string)
    ensures var name := QuoteQualified(database, table); |name| > 0 && name[0] == '`' && name[|name| - 1] == '`'
    ensures var text := Beginning(database, table); text[|text| - 1] == 'D' && text[|text| - 12..] == "PARTITION ID"
    ensures var arg := Argument(partitionID, targetClause); |arg| > 0 && arg[0] == '\'' && arg[|arg| - 1] == '1'
  {
  }

  /** The folded beginning ends with the marker. */
  lemma FoldedEnds(lower: string -> string, database: string, table: string)
    ensures var low := ToLower(lower, Beginning(database, table)); |low| >= 12 && OccursAt(low, MARKER, |low| - 12)
  {
    Folded(lower, database, table);
    var low := ToLower(lower, Beginning(database, table));
    assert low[|low| - 12..] == LowerAscii(MIDDLE)[6..];
    MiddleIsMarker();
  }

  lemma Folded(lower: string -> string, database: string, table: string)
    ensures ToLower(lower, Beginning(database, table))
         == LowerAscii(HEAD) + ToLower(lower, QuoteQualified(database, table)) + LowerAscii(MIDDLE)
  {
    Shape(database, table, "", "");
    AroundAscii();
    ToLowerAround(lower, HEAD, QuoteQualified(database, table), MIDDLE);
  }

  lemma AroundAscii()
    ensures AllAscii(HEAD) && AllAscii(MIDDLE) && IsAscii('`')
  {
  }

  lemma MiddleIsMarker()
    ensures LowerAscii(MIDDLE)[6..] == MARKER
  {
    var w := LowerAscii(MIDDLE);
    assert forall k :: 0 <= k < 12 ==> w[6..][k] == MARKER[k];
  }

  /** What is found first stays first whatever is appended. */
  lemma FirstStays(s: string, more: string, pat: string)
    requires Index(s, pat) >= 0
    ensures Index(s + more, pat) == Index(s, pat)
  {
    var k := Index(s, pat);
    assert (s + more)[k..k + |pat|] == s[k..k + |pat|];
    forall j | 0 <= j < k ensures !OccursAt(s + more, pat, j) {
      assert !OccursAt(s, pat, j);
      assert (s + more)[j..j + |pat|] == s[j..j + |pat|];
    }
    IndexIs(s + more, pat, k);
  }

  /** With the marker in a text, what follows it does not change where the observer reads from. */
  lemma ReadsFrom(lower: string -> string, space: string -> bool, text: string, more: string)
    requires Index(ToLower(lower, text), MARKER) >= 0 && more != "" && IsAscii(more[0])
    ensures var from := |text| + LandingIn(lower, text);
            && 12 <= from
            && ExtractMovePartitionID(lower, space, text + more)
               == if from > |text + more| then OutOfRange else ReadLiteral(TrimSpace(space, (text + more)[from..]))
  {
    ToLowerCat(lower, text, more);
    FirstStays(ToLower(lower, text), ToLower(lower, more), MARKER);
  }

  lemma Marked(lower: string -> string, database: string, table: string)
    ensures Index(ToLower(lower, Beginning(database, table)), MARKER) >= 0
  {
    FoldedEnds(lower, database, table);
  }

  /** The part of a statement that names the partition: quoted at its start, ending in the settings. */
  predicate IsArgument(arg: string) {
    |arg| > 0 && arg[0] == '\'' && arg[|arg| - 1] == '1'
  }

  // ---- any statement -------------------------------------------------------------------------

  lemma ReadsExactly(rest: string, id: string)
    ensures ReadLiteral(rest) != OutOfRange
    ensures ReadLiteral(rest) == Recovered(id) <==> StartsLiteral(rest, id)
  {
    if ReadLiteral(rest) == Recovered(id) {
      var tail := LexString(rest[1..]).value.1;
      LexExactly(rest, id, tail);
    }
    if StartsLiteral(rest, id) {
      var ps, tail :| IsLiteral(rest, ps, id, tail);
      assert rest[0] == '\'';
      LexExactly(rest, id, tail);
    }
  }

  lemma BehindFirst(low: string, marker: string, space: string -> bool, query: string, k: int, id: string)
    requires OccursAt(low, marker, k) && forall j :: 0 <= j < k ==> !OccursAt(low, marker, j)
    ensures ReadBehind(low, marker, space, query) == OutOfRange <==> k + |marker| > |query|
    ensures ReadBehind(low, marker, space, query) == Recovered(id)
       <==> k + |marker| <= |query| && StartsLiteral(TrimSpace(space, query[k + |marker|..]), id)
  {
    IndexIs(low, marker, k);
    if k + |marker| <= |query| {
      ReadsExactly(TrimSpace(space, query[k + |marker|..]), id);
    }
  }

  /** A statement whose folded text does not hold the marker names no partition. */
  lemma UnmarkedIsAbsent(lower: string -> string, space: string -> bool, query: string)
    requires forall k: int :: !OccursAt(ToLower(lower, query), MARKER, k)
    ensures ExtractMovePartitionID(lower, space, query) == Absent
  {
    IndexNone(ToLower(lower, query), MARKER);
  }

  /**
   In any other it is looked for behind the first marker, in the unfolded text: there is nothing
   to slice when the marker ends behind that text; otherwise an id is recovered exactly when what
   follows, trimmed, is a quote, a body that reads as that id and a closing quote, and anything
   else names no partition.
   */
  lemma MarkedReads(lower: string -> string, space: string -> bool, query: string, k: int, id: string)
    requires OccursAt(ToLower(lower, query), MARKER, k)
    requires forall j :: 0 <= j < k ==> !OccursAt(ToLower(lower, query), MARKER, j)
    ensures ExtractMovePartitionID(lower, space, query) == OutOfRange <==> k + |MARKER| > |query|
    ensures ExtractMovePartitionID(lower, space, query) == Recovered(id)
       <==> k + |MARKER| <= |query| && StartsLiteral(TrimSpace(space, query[k + |MARKER|..]), id)
  {
    BehindFirst(ToLower(lower, query), MARKER, space, query, k, id);
  }

  // ---- when it is in the right place -----------------------------------------------------------

  lemma ArgumentReads(partitionID: string, targetClause: string)
    ensures ReadLiteral(Argument(partitionID, targetClause)) == Recovered(partitionID)
  {
    var end := " " + targetClause + SETTINGS;
    QuoteStringReads(partitionID, end);
    assert Argument(partitionID, targetClause)[1..] == QuoteString(partitionID)[1..] + end;
  }

  /** Reading at the argument or at the blank before it. */
  lemma ReadHere(space: string -> bool, text: string, arg: string, off: int)
    requires 0 <= off <= 1 && |arg| > 0 && arg[0] == '\'' && arg[|arg| - 1] == '1'
    ensures TrimSpace(space, (text + (" " + arg))[|text| + off..]) == arg
  {
    var a := if off == 0 then " " else "";
    assert (text + (" " + arg))[|text| + off..] == a + arg;
    TrimsTo(space, a, arg);
    BlankTrimmed(space, a);
    assert "" + arg == arg;
  }

  lemma LandsRight(lower: string -> string, space: string -> bool, text: string, arg: string)
    requires Index(ToLower(lower, text), MARKER) >= 0 && IsArgument(arg) && 0 <= LandingIn(lower, text) <= 1
    ensures ExtractMovePartitionID(lower, space, text + (" " + arg)) == ReadLiteral(arg)
  {
    ReadsFrom(lower, space, text, " " + arg);
    ReadHere(space, text, arg, LandingIn(lower, text));
  }

  // ---- when it is not --------------------------------------------------------------------------

  /** Reading inside `text`, which ends with a letter. */
  lemma ReadEarlier(space: string -> bool, text: string, arg: string, from: nat)
    requires from < |text| && text[|text| - 1] == 'D' && |arg| > 0 && arg[|arg| - 1] == '1'
    ensures TrimSpace(space, (text + (" " + arg))[from..]) == TrimLeft(space, text[from..|text| - 1]) + ("D " + arg)
  {
    assert (text + (" " + arg))[from..] == text[from..|text| - 1] + ("D " + arg);
    TrimsTo(space, text[from..|text| - 1], "D " + arg);
  }

  /** Too far to the left: what is read starts with text that does not depend on the id. */
  lemma LandsEarly(lower: string -> string, space: string -> bool, text: string, arg: string)
    requires Index(ToLower(lower, text), MARKER) >= 0 && IsArgument(arg) && LandingIn(lower, text) < 0
    requires text != "" && text[|text| - 1] == 'D'
    ensures ExtractMovePartitionID(lower, space, text + (" " + arg))
            == ReadLiteral(Fixed(lower, space, text) + ("D " + arg))
  {
    ReadsFrom(lower, space, text, " " + arg);
    EarlyTail(lower, space, text, arg, text + (" " + arg));
  }

  lemma EarlyTail(lower: string -> string, space: string -> bool, text: string, arg: string, query: string)
    requires 0 <= |text| + LandingIn(lower, text) < |text| && IsArgument(arg) && text[|text| - 1] == 'D'
    requires query == text + (" " + arg)
    ensures TrimSpace(space, query[|text| + LandingIn(lower, text)..]) == Fixed(lower, space, text) + ("D " + arg)
  {
    ReadEarlier(space, text, arg, |text| + LandingIn(lower, text));
  }

  /** That text, up to the last letter of the statement's own marker. */
  function Fixed(lower: string -> string, space: string -> bool, text: string): string {
    var from := |text| + LandingIn(lower, text);
    if 0 <= from < |text| then TrimLeft(space, text[from..|text| - 1]) else ""
  }

  /** Whether a literal is empty is decided by the fixed part alone. */
  lemma EmptyIsFixed(fixed: string, free: string, free': string)
    requires ReadLiteral(fixed + ("D" + free)) == Recovered("")
    ensures ReadLiteral(fixed + ("D" + free')) == Recovered("")
  {
    var t, t' := fixed + ("D" + free), fixed + ("D" + free');
    assert t[0] == t'[0] && t[1] == t'[1];
    assert t[1..][0] == t[1] && t'[1..][0] == t'[1];
    assert |t[1..]| > 1 ==> t[1..][1] == t[2];
    if fixed != "'" {
      assert t[2] == t'[2];
    }
  }

  function Exes(n: nat): (r: string)
    ensures |r| == n && forall i :: 0 <= i < n ==> r[i] == 'x'
  {
    seq(n, i => 'x')
  }

  lemma {:induction false} ExesQuoted(s: string)
    requires forall i :: 0 <= i < |s| ==> s[i] == 'x'
    ensures Escape(s) == s
  {
    if s != "" {
      ExesQuoted(s[1..]);
    }
  }

  lemma ExesInside(id: string, targetClause: string)
    requires forall i :: 0 <= i < |id| ==> id[i] == 'x'
    ensures var arg := Argument(id, targetClause); |arg| > |id| && forall i :: 1 <= i <= |id| ==> arg[i] == 'x'
  {
    TwoPasses(id);
    ExesQuoted(id);
    assert Argument(id, targetClause) == "'" + id + "'" + (" " + targetClause + SETTINGS);
  }

  /** Reading inside the argument, at a letter. */
  lemma ReadLater(space: string -> bool, text: string, arg: string, off: nat)
    requires 1 < off < |arg| && arg[off - 1] == 'x' && arg[|arg| - 1] == '1'
    ensures TrimSpace(space, (text + (" " + arg))[|text| + off..]) == arg[off - 1..]
  {
    var tail := arg[off - 1..];
    assert (text + (" " + arg))[|text| + off..] == "" + tail;
    TrimsTo(space, "", tail);
    BlankTrimmed(space, "");
    assert "" + tail == tail;
  }

  /** Too far to the right, at a letter of the argument. */
  lemma LandsLate(lower: string -> string, space: string -> bool, text: string, arg: string)
    requires Index(ToLower(lower, text), MARKER) >= 0 && IsArgument(arg)
    requires var off := LandingIn(lower, text); 1 < off < |arg| && arg[off - 1] == 'x'
    ensures ExtractMovePartitionID(lower, space, text + (" " + arg)) == Absent
  {
    var off := LandingIn(lower, text);
    ReadsFrom(lower, space, text, " " + arg);
    ReadLater(space, text, arg, off);
    assert arg[off - 1..][0] == 'x';
  }

  ghost predicate RecoversAll(lower: string -> string, space: string -> bool, database: string, table: string,
                              targetClause: string) {
    forall partitionID: string ::
      ExtractMovePartitionID(lower, space, MoveQuery(database, table, partitionID, targetClause))
        == Recovered(partitionID)
  }

  /** The observer recovers every partition id exactly when it starts to read at the id or one blank before it. */
  lemma RecoversExactly(lower: string -> string, space: string -> bool, database: string, table: string,
                        targetClause: string)
    ensures RecoversAll(lower, space, database, table, targetClause) <==> 0 <= Landing(lower, database, table) <= 1
  {
    var off := Landing(lower, database, table);
    if 0 <= off <= 1 {
      forall partitionID: string
        ensures ExtractMovePartitionID(lower, space, MoveQuery(database, table, partitionID, targetClause))
                == Recovered(partitionID)
      {
        Recovers(lower, space, database, table, partitionID, targetClause);
      }
    } else if off > 1 {
      LongIdLost(lower, space, database, table, targetClause);
    } else {
      NotBoth(lower, space, database, table, targetClause);
    }
  }

  lemma Recovers(lower: string -> string, space: string -> bool, database: string, table: string,
                 partitionID: string, targetClause: string)
    requires 0 <= Landing(lower, database, table) <= 1
    ensures ExtractMovePartitionID(lower, space, MoveQuery(database, table, partitionID, targetClause))
            == Recovered(partitionID)
  {
    Marked(lower, database, table);
    Shape(database, table, partitionID, targetClause);
    LandsRight(lower, space, Beginning(database, table), Argument(partitionID, targetClause));
    ArgumentReads(partitionID, targetClause);
  }

  /** Too far to the right: an id that is long enough is entered in its middle. */
  lemma LongIdLost(lower: string -> string, space: string -> bool, database: string, table: string,
                   targetClause: string)
    requires Landing(lower, database, table) > 1
    ensures ExtractMovePartitionID(lower, space,
              MoveQuery(database, table, Exes(Landing(lower, database, table)), targetClause)) == Absent
  {
    var id := Exes(Landing(lower, database, table));
    Marked(lower, database, table);
    Shape(database, table, id, targetClause);
    ExesInside(id, targetClause);
    LandsLate(lower, space, Beginning(database, table), Argument(id, targetClause));
  }

  /** Too far to the left: the literal is read from a fixed beginning. */
  lemma ReadsFixed(lower: string -> string, space: string -> bool, database: string, table: string,
                   partitionID: string, targetClause: string)
    requires Landing(lower, database, table) < 0
    ensures ExtractMovePartitionID(lower, space, MoveQuery(database, table, partitionID, targetClause))
         == ReadLiteral(Fixed(lower, space, Beginning(database, table)) + ("D " + Argument(partitionID, targetClause)))
  {
    Marked(lower, database, table);
    Shape(database, table, partitionID, targetClause);
    LandsEarly(lower, space, Beginning(database, table), Argument(partitionID, targetClause));
  }

  /** Then the ids "" and "x" are not both recovered. */
  lemma NotBoth(lower: string -> string, space: string -> bool, database: string, table: string, targetClause: string)
    requires Landing(lower, database, table) < 0
    ensures ExtractMovePartitionID(lower, space, MoveQuery(database, table, "", targetClause)) != Recovered("")
         || ExtractMovePartitionID(lower, space, MoveQuery(database, table, "x", targetClause)) != Recovered("x")
  {
    ReadsFixed(lower, space, database, table, "", targetClause);
    ReadsFixed(lower, space, database, table, "x", targetClause);
    FixedDecides(Fixed(lower, space, Beginning(database, table)),
                 Argument("", targetClause), Argument("x", targetClause));
  }

  lemma FixedDecides(fixed: string, arg: string, arg': string)
    ensures ReadLiteral(fixed + ("D " + arg)) == Recovered("") ==> ReadLiteral(fixed + ("D " + arg')) == Recovered("")
  {
    assert "D " + arg == "D" + (" " + arg) && "D " + arg' == "D" + (" " + arg');
    if ReadLiteral(fixed + ("D " + arg)) == Recovered("") {
      EmptyIsFixed(fixed, " " + arg, " " + arg');
    }
  }

  /** The slice panics exactly when the names push the marker past the end of the statement. */
  lemma PanicsExactly(lower: string -> string, space: string -> bool, database: string, table: string,
                      partitionID: string, targetClause: string)
    ensures ExtractMovePartitionID(lower, space, MoveQuery(database, table, partitionID, targetClause)) == OutOfRange
       <==> Landing(lower, database, table) > 1 + |Argument(partitionID, targetClause)|
  {
    Marked(lower, database, table);
    ReadsFrom(lower, space, Beginning(database, table), " " + Argument(partitionID, targetClause));
    assert forall tail: string :: ReadLiteral(tail) != OutOfRange;
  }

  // ---- what this means for the names -----------------------------------------------------------

  /** The folded name does not contain the marker. */
  predicate MarkerFree(lower: string -> string, database: string, table: string) {
    Index(ToLower(lower, QuoteQualified(database, table)), MARKER) < 0
  }

  /** By how many bytes folding changes the length of the quoted name. */
  function Growth(lower: string -> string, database: string, table: string): int {
    var name := QuoteQualified(database, table);
    |ToLower(lower, name)| - |name|
  }

  lemma FoldedName(lower: string -> string, database: string, table: string)
    ensures var low := ToLower(lower, QuoteQualified(database, table)); |low| > 0 && low[|low| - 1] == '`'
  {
    var name := QuoteQualified(database, table);
    Shape(database, table, "", "");
    EndsFolded(lower, name[..|name| - 1], "`");
    assert name == name[..|name| - 1] + "`";
  }

  lemma EndsFolded(lower: string -> string, a: string, b: string)
    requires |b| == 1 && b[0] == '`'
    ensures ToLower(lower, a + b) == ToLower(lower, a) + b
  {
    ToLowerCat(lower, a, b);
    ToLowerAscii(lower, b);
    assert LowerAscii(b) == b;
  }

  lemma NoBacktick(k: nat)
    requires k < |MARKER|
    ensures MARKER[k] != '`'
  {
  }

  lemma StartsWithP(s: string, j: int)
    requires OccursAt(s, MARKER, j)
    ensures s[j] == 'p'
  {
    assert s[j..j + 12][0] == s[j];
  }

  /** A folded statement: its own marker is found first unless the folded name contains one. */
  lemma FirstMarker(low: string)
    requires |low| > 0 && low[|low| - 1] == '`'
    ensures var text := LowerAscii(HEAD) + low + LowerAscii(MIDDLE);
            && (Index(low, MARKER) < 0 ==> Index(text, MARKER) == 12 + |low| + 6)
            && (Index(low, MARKER) >= 0 ==> Index(text, MARKER) == 12 + Index(low, MARKER) <= |low|)
  {
    var text := LowerAscii(HEAD) + low + LowerAscii(MIDDLE);
    var p := 12 + |low| + 6;
    if Index(low, MARKER) < 0 {
      assert text[p..] == LowerAscii(MIDDLE)[6..];
      OwnMarker(text, p);
      forall j | 0 <= j < p ensures !OccursAt(text, MARKER, j) {
        if OccursAt(text, MARKER, j) {
          EarlierOccurrence(low, j);
        }
      }
      IndexIs(text, MARKER, p);
    } else {
      var k := Index(low, MARKER);
      NoBacktick(11);
      assert low[k + 11] == low[k..k + 12][11] == MARKER[11];
      assert text[12 + k..12 + k + 12] == low[k..k + 12];
      forall j | 0 <= j < 12 + k ensures !OccursAt(text, MARKER, j) {
        if OccursAt(text, MARKER, j) {
          EarlierOccurrence(low, j);
        }
      }
      IndexIs(text, MARKER, 12 + k);
    }
  }

  lemma OwnMarker(text: string, p: nat)
    requires |text| == p + 12 && text[p..] == LowerAscii(MIDDLE)[6..]
    ensures OccursAt(text, MARKER, p)
  {
    MiddleIsMarker();
  }

  /** In front of the statement's own marker it occurs only inside the folded name. */
  lemma EarlierOccurrence(low: string, j: int)
    requires |low| > 0 && low[|low| - 1] == '`'
    requires 0 <= j < 12 + |low| + 6 && OccursAt(LowerAscii(HEAD) + low + LowerAscii(MIDDLE), MARKER, j)
    ensures j >= 12 && OccursAt(low, MARKER, j - 12)
  {
    var text := LowerAscii(HEAD) + low + LowerAscii(MIDDLE);
    var c := 12 + |low| - 1;
    StartsWithP(text, j);
    assert text[c] == '`';
    if j <= c < j + 12 {
      assert text[j..j + 12][c - j] == text[c];
      NoBacktick(c - j);
      assert false;
    }
    InName(low, j);
    assert low[j - 12..j] == text[j..j + 12];
  }

  lemma CharAt(low: string, j: nat)
    requires j < 12 + |low| + 18
    ensures (LowerAscii(HEAD) + low + LowerAscii(MIDDLE))[j]
         == if j < 12 then LowerChar(HEAD[j]) else if j < 12 + |low| then low[j - 12]
           else LowerChar(MIDDLE[j - 12 - |low|])
  {
  }

  lemma NoP(k: nat)
    requires k < 12
    ensures LowerChar(HEAD[k]) != 'p' && (k < 6 ==> LowerChar(MIDDLE[k]) != 'p')
  {
  }

  lemma InName(low: string, j: nat)
    requires j < 12 + |low| + 6 && (LowerAscii(HEAD) + low + LowerAscii(MIDDLE))[j] == 'p'
    ensures 12 <= j < 12 + |low|
  {
    CharAt(low, j);
    if j < 12 {
      NoP(j);
    } else if j >= 12 + |low| {
      NoP(j - 12 - |low|);
    }
  }

  /** Without the marker in the folded name the observer is off by what folding adds to the name. */
  lemma MarkerFreeLanding(lower: string -> string, database: string, table: string)
    requires MarkerFree(lower, database, table)
    ensures Landing(lower, database, table) == Growth(lower, database, table)
  {
    Folded(lower, database, table);
    FoldedName(lower, database, table);
    FirstMarker(ToLower(lower, QuoteQualified(database, table)));
  }

  /** With the marker in the folded name the observer starts to read too early by the rest of the statement. */
  lemma MarkedLanding(lower: string -> string, database: string, table: string)
    requires !MarkerFree(lower, database, table)
    ensures Landing(lower, database, table) <= Growth(lower, database, table) - 18
  {
    Folded(lower, database, table);
    FoldedName(lower, database, table);
    FirstMarker(ToLower(lower, QuoteQualified(database, table)));
  }

  /**
   A name whose length folding does not change, as with every ASCII name, has its ids recovered
   exactly when the folded name is free of the marker.
   */
  lemma SameLengthExactly(lower: string -> string, space: string -> bool, database: string, table: string,
                          targetClause: string)
    requires Growth(lower, database, table) == 0
    ensures RecoversAll(lower, space, database, table, targetClause) <==> MarkerFree(lower, database, table)
  {
    RecoversExactly(lower, space, database, table, targetClause);
    if MarkerFree(lower, database, table) {
      MarkerFreeLanding(lower, database, table);
    } else {
      MarkedLanding(lower, database, table);
    }
  }

  /** A marker-free name has them recovered exactly when folding adds nothing or one byte. */
  lemma MarkerFreeExactly(lower: string -> string, space: string -> bool, database: string, table: string,
                          targetClause: string)
    requires MarkerFree(lower, database, table)
    ensures RecoversAll(lower, space, database, table, targetClause) <==> 0 <= Growth(lower, database, table) <= 1
  {
    RecoversExactly(lower, space, database, table, targetClause);
    MarkerFreeLanding(lower, database, table);
  }

  // ---- tables whose ids are lost -----------------------------------------------------------

  lemma {:induction false} NothingReplaced(s: string, c: char, rep: string)
    requires c !in s
    ensures ReplaceAll(s, c, rep) == s
  {
    if s != "" {
      NothingReplaced(s[1..], c, rep);
    }
  }

  /** Neither part holds a backtick. */
  lemma PlainName(database: string, table: string)
    requires '`' !in database && '`' !in table
    ensures QuoteQualified(database, table) == "`" + database + "`.`" + table + "`"
  {
    NothingReplaced(database, '`', "``");
    NothingReplaced(table, '`', "``");
  }

  /** What is read begins with a backtick or a letter, which opens no literal. */
  lemma NoLiteral(lower: string -> string, space: string -> bool, database: string, table: string,
                  partitionID: string, targetClause: string)
    requires Landing(lower, database, table) < 0
    requires var text := Beginning(database, table);
             text[|text| + Landing(lower, database, table)] == '`' || Landing(lower, database, table) == -1
    requires |Beginning(database, table)| + Landing(lower, database, table) >= 0
    ensures ExtractMovePartitionID(lower, space, MoveQuery(database, table, partitionID, targetClause)) == Absent
  {
    ReadsFixed(lower, space, database, table, partitionID, targetClause);
    var text := Beginning(database, table);
    var cut := text[|text| + Landing(lower, database, table)..|text| - 1];
    if Landing(lower, database, table) == -1 {
      assert cut == "";
    } else {
      assert cut[0] == '`' && cut[..Width(cut)] == ['`'];
    }
  }

  lemma MarkerFoundBehind(before: string, behind: string)
    requires 'p' !in before
    ensures Index(before + MARKER + behind, MARKER) == |before|
  {
    var s := before + MARKER + behind;
    assert s[|before|..|before| + 12] == MARKER;
    forall j | 0 <= j < |before| ensures !OccursAt(s, MARKER, j) {
      assert s[j] == before[j];
      if OccursAt(s, MARKER, j) {
        StartsWithP(s, j);
      }
    }
    IndexIs(s, MARKER, |before|);
  }

  lemma MarkerLands(lower: string -> string, database: string, table: string, before: string)
    requires QuoteQualified(database, table) == before + MARKER + "`" && 'p' !in before
    requires ToLower(lower, QuoteQualified(database, table)) == QuoteQualified(database, table)
    ensures var text := Beginning(database, table);
            && Landing(lower, database, table) == -19 && |text| > 19 && text[|text| - 19] == '`'
  {
    var name := QuoteQualified(database, table);
    Folded(lower, database, table);
    MarkerFoundBehind(before, "`");
    FirstMarker(name);
    assert name[|name| - 1] == '`';
  }

  /** A table with the marker for its name loses every id, in any database with a plain lower-case name. */
  lemma MarkerTable(lower: string -> string, space: string -> bool, database: string, table: string,
                    partitionID: string, targetClause: string)
    requires table == MARKER
    requires forall i :: 0 <= i < |database| ==> 'a' <= database[i] < 'p'
    ensures ExtractMovePartitionID(lower, space, MoveQuery(database, table, partitionID, targetClause)) == Absent
  {
    MarkerPlain(table);
    PlainName(database, table);
    var before := "`" + database + "`.`";
    Around(database);
    LowerParts(before);
    FoldsToItself(lower, before + MARKER + "`");
    MarkerLands(lower, database, table, before);
    NoLiteral(lower, space, database, table, partitionID, targetClause);
  }

  lemma PartitionIdTable(lower: string -> string, space: string -> bool, partitionID: string, targetClause: string)
    ensures ExtractMovePartitionID(lower, space, MoveQuery("d", "partition id", partitionID, targetClause)) == Absent
  {
    MarkerTable(lower, space, "d", "partition id", partitionID, targetClause);
  }

  lemma MarkerPlain(table: string)
    requires table == MARKER
    ensures '`' !in table
  {
    forall k | 0 <= k < |table| ensures table[k] != '`' {
      NoBacktick(k);
    }
  }

  lemma Around(database: string)
    requires forall i :: 0 <= i < |database| ==> 'a' <= database[i] < 'p'
    ensures var before := "`" + database + "`.`"; IsLower(before) && 'p' !in before && '`' !in database
  {
  }

  predicate IsLower(s: string) {
    forall i :: 0 <= i < |s| ==> IsAscii(s[i]) && LowerChar(s[i]) == s[i]
  }

  lemma LowerParts(before: string)
    requires IsLower(before)
    ensures IsLower(before + MARKER + "`")
  {
    var marker, all := MARKER, before + MARKER + "`";
    assert IsLower(marker) && IsLower("`");
    forall i | 0 <= i < |all| ensures IsAscii(all[i]) && LowerChar(all[i]) == all[i] {
      assert |before| <= i < |before| + 12 ==> all[i] == marker[i - |before|];
    }
  }

  lemma FoldsToItself(lower: string -> string, s: string)
    requires IsLower(s)
    ensures ToLower(lower, s) == s
  {
    ToLowerAscii(lower, s);
    assert LowerAscii(s) == s;
  }

  /** The two bytes of the Latin capital letter I with a dot, whose lower-case form is the one-byte i. */
  const DOTTED := "\U{C4}\U{B0}"

  /** The marker is nowhere in this table's name, and every id is lost all the same. */
  lemma DottedTable(lower: string -> string, space: string -> bool, partitionID: string, targetClause: string)
    requires lower(DOTTED) == "i"
    ensures MarkerFree(lower, "d", DOTTED)
    ensures ExtractMovePartitionID(lower, space, MoveQuery("d", DOTTED, partitionID, targetClause)) == Absent
  {
    PlainName("d", DOTTED);
    assert QuoteQualified("d", DOTTED) == "`d`.`" + DOTTED + "`";
    DottedFolds(lower, "`d`.`", "`");
    var low := ToLower(lower, QuoteQualified("d", DOTTED));
    assert |low| == 7;
    assert Index(low, MARKER) < 0;
    MarkerFreeLanding(lower, "d", DOTTED);
    NoLiteral(lower, space, "d", DOTTED, partitionID, targetClause);
  }

  lemma DottedFolds(lower: string -> string, before: string, behind: string)
    requires lower(DOTTED) == "i" && AllAscii(before) && AllAscii(behind) && behind != ""
    ensures |ToLower(lower, before + DOTTED + behind)| == |before| + 1 + |behind|
  {
    ToLowerAscii(lower, behind);
    ToLowerCat(lower, before + DOTTED, behind);
    ToLowerFront(lower, before, DOTTED);
    assert Width(DOTTED) == 2 && DOTTED[..2] == DOTTED && DOTTED[2..] == "";
  }

  /** The two bytes of the Latin capital letter A with stroke, whose lower-case form takes three. */
  const STROKE := "\U{C8}\U{BA}"

  function Strokes(n: nat): (r: string)
    ensures |r| == 2 * n && '`' !in r
  {
    if n == 0 then "" else STROKE + Strokes(n - 1)
  }

  /** A text outside ASCII in lower case, as the three bytes of a folded letter are. */
  predicate ThreeBytes(s: string) {
    |s| == 3 && forall i :: 0 <= i < 3 ==> !IsAscii(s[i])
  }

  lemma {:induction false} StrokesFold(lower: string -> string, n: nat)
    requires ThreeBytes(lower(STROKE))
    ensures var low := ToLower(lower, Strokes(n)); |low| == 3 * n && 'p' !in low
  {
    if n > 0 {
      var s := Strokes(n);
      assert s[0] == STROKE[0] && s[1] == STROKE[1];
      assert Width(s) == 2 && s[..2] == STROKE && s[2..] == Strokes(n - 1);
      StrokesFold(lower, n - 1);
    }
  }

  lemma NoMarker(low: string)
    requires 'p' !in low
    ensures Index(low, MARKER) < 0
  {
    if Index(low, MARKER) >= 0 {
      StartsWithP(low, Index(low, MARKER));
    }
  }

  /** Folding such a table's name adds a byte for each letter, and no marker. */
  lemma StrokesGrow(lower: string -> string, database: string, n: nat)
    requires ThreeBytes(lower(STROKE)) && AllAscii(database) && '`' !in database
    requires 'p' !in LowerAscii(database)
    ensures MarkerFree(lower, database, Strokes(n)) && Growth(lower, database, Strokes(n)) == n
  {
    var before := "`" + database + "`.`";
    PlainName(database, Strokes(n));
    StrokesFold(lower, n);
    FoldedBetween(lower, before, Strokes(n));
    BeforePlain(database);
    NoMarker(LowerAscii(before) + ToLower(lower, Strokes(n)) + "`");
  }

  lemma BeforePlain(database: string)
    requires 'p' !in LowerAscii(database)
    ensures 'p' !in LowerAscii("`" + database + "`.`")
  {
    var before := "`" + database + "`.`";
    forall i | 0 <= i < |before| ensures LowerAscii(before)[i] != 'p' {
      assert 1 <= i < 1 + |database| ==> LowerAscii(before)[i] == LowerAscii(database)[i - 1];
    }
  }

  lemma FoldedBetween(lower: string -> string, before: string, letters: string)
    requires AllAscii(before)
    ensures ToLower(lower, before + letters + "`") == LowerAscii(before) + ToLower(lower, letters) + "`"
  {
    EndsFolded(lower, before + letters, "`");
    ToLowerFront(lower, before, letters);
  }

  /**
   A table named with such letters: every id is recovered with at most one of them, and with
   more of them than the rest of the statement has bytes the slice panics.
   */
  lemma StrokedTable(lower: string -> string, space: string -> bool, n: nat, partitionID: string, targetClause: string)
    requires ThreeBytes(lower(STROKE))
    ensures RecoversAll(lower, space, "d", Strokes(n), targetClause) <==> n <= 1
    ensures ExtractMovePartitionID(lower, space, MoveQuery("d", Strokes(n), partitionID, targetClause)) == OutOfRange
       <==> n > 1 + |Argument(partitionID, targetClause)|
  {
    StrokesGrow(lower, "d", n);
    MarkerFreeExactly(lower, space, "d", Strokes(n), targetClause);
    MarkerFreeLanding(lower, "d", Strokes(n));
    PanicsExactly(lower, space, "d", Strokes(n), partitionID, targetClause);
  }

  /** A concrete statement whose id is not lost but brings the observer down. */
  lemma StrokedPanic(lower: string -> string, space: string -> bool)
    requires ThreeBytes(lower(STROKE))
    ensures ExtractMovePartitionID(lower, space, MoveQuery("d", Strokes(70), "1", "TO DISK 's3'")) == OutOfRange
  {
    StrokedTable(lower, space, 70, "1", "TO DISK 's3'");
    TwoPasses("1");
    assert Escape("1") == "1";
    assert |Argument("1", "TO DISK 's3'")| == 3 + 1 + 12 + |SETTINGS|;
  }
}
