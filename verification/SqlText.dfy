/**
 SQL text that is written by one part of the controller and read back by another: quoted
 identifiers, string literals, and the partition id of a move statement found in query_log.
 */
module SqlText {
  import opened Wrappers
  import opened GoStrings

  // ---- writing --------------------------------------------------------------------------

  function QuoteIdent(ident: string): string {
    "`" + ReplaceAll(ident, '`', "``") + "`"
  }

  function QuoteQualified(database: string, table: string): string {
    QuoteIdent(database) + "." + QuoteIdent(table)
  }

  /** Backslashes are doubled first, quotes second. */
  function QuoteString(value: string): string {
    "'" + ReplaceAll(ReplaceAll(value, '\\', "\\\\"), '\'', "''") + "'"
  }

  /** Character by character: a backslash or a quote is written twice, anything else once. */
  function Escape(value: string): string {
    if value == "" then ""
    else (if value[0] == '\\' || value[0] == '\'' then [value[0], value[0]] else [value[0]]) + Escape(value[1..])
  }

  /** The two replacement passes amount to one escape per character. */
  lemma {:induction false} TwoPasses(value: string)
    ensures ReplaceAll(ReplaceAll(value, '\\', "\\\\"), '\'', "''") == Escape(value)
  {
    if value != "" {
      var c, rest := value[0], value[1..];
      var head := if c == '\\' then "\\\\" else [c];
      ReplaceAllCat(head, ReplaceAll(rest, '\\', "\\\\"), '\'', "''");
      TwoPasses(rest);
      assert head[1..] == if c == '\\' then "\\" else "";
    }
  }

  // ---- reading string literals ------------------------------------------------------------

  /**
   A string literal behind its opening quote: the value and what follows the closing quote.
   A doubled quote is a quote, a backslash takes the next character as it is.
   */
  function LexString(t: string): Option<(string, string)> {
    if t == "" then None
    else if t[0] == '\'' then
      if |t| > 1 && t[1] == '\'' then Prepend('\'', LexString(t[2..])) else Some(("", t[1..]))
    else if t[0] == '\\' then
      if |t| > 1 then Prepend(t[1], LexString(t[2..])) else None
    else Prepend(t[0], LexString(t[1..]))
  }

  function Prepend(c: char, r: Option<(string, string)>): Option<(string, string)> {
    match r
    case None => None
    case Some((v, rest)) => Some(([c] + v, rest))
  }

  /** `whole` is what reading `b` and then `rest` gives. */
  ghost predicate Same(whole: Option<(string, string)>, b: string, rest: Option<(string, string)>) {
    match rest
    case None => whole == None
    case Some((v, tail)) => whole == Some((b + v, tail))
  }

  lemma SameStart(whole: Option<(string, string)>)
    ensures Same(whole, "", whole)
  {
    if whole.Some? {
      assert "" + whole.value.0 == whole.value.0;
    }
  }

  lemma SameShift(whole: Option<(string, string)>, b: string, c: char, next: Option<(string, string)>)
    requires Same(whole, b, Prepend(c, next))
    ensures Same(whole, b + [c], next)
  {
    if next.Some? {
      assert b + ([c] + next.value.0) == b + [c] + next.value.0;
    }
  }

  /** readSQLString: the character at index 0 is taken to be the opening quote. */
  method ReadSQLString(raw: string) returns (r: Option<string>)
    ensures r == if raw == "" || LexString(raw[1..]).None? then None else Some(LexString(raw[1..]).value.0)
  {
    if raw == "" {
      return None;
    }
    ghost var whole := LexString(raw[1..]);
    var b := "";
    var i := 1;
    SameStart(whole);
    while i < |raw|
      invariant 1 <= i <= |raw|
      invariant Same(whole, b, LexString(raw[i..]))
    {
      var ch := raw[i];
      if ch == '\'' {
        if i + 1 < |raw| && raw[i + 1] == '\'' {
          assert raw[i..][2..] == raw[i + 2..];
          SameShift(whole, b, '\'', LexString(raw[i + 2..]));
          b := b + ['\''];
          i := i + 2;
        } else {
          assert b + "" == b;
          return Some(b);
        }
      } else if ch == '\\' {
        if i + 1 < |raw| {
          assert raw[i..][2..] == raw[i + 2..];
          SameShift(whole, b, raw[i + 1], LexString(raw[i + 2..]));
          i := i + 1;
          b := b + [raw[i]];
          i := i + 1;
        } else {
          assert raw[i + 1..] == "";
          b := b + [ch];
          i := i + 1;
        }
      } else {
        assert raw[i..][1..] == raw[i + 1..];
        SameShift(whole, b, ch, LexString(raw[i + 1..]));
        b := b + [ch];
        i := i + 1;
      }
    }
    return None;
  }

  /** One step of a literal's body: a character as it is, a backslash and a character, or a doubled quote. */
  datatype Piece = Plain(c: char) | Escaped(c: char) | Doubled

  /** How the pieces are written. */
  function Spelt(ps: seq<Piece>): string {
    if ps == [] then ""
    else (match ps[0]
          case Plain(c) => [c]
          case Escaped(c) => ['\\', c]
          case Doubled => "''") + Spelt(ps[1..])
  }

  /** What they stand for. */
  function Meant(ps: seq<Piece>): string {
    if ps == [] then ""
    else (match ps[0]
          case Plain(c) => [c]
          case Escaped(c) => [c]
          case Doubled => "'") + Meant(ps[1..])
  }

  /** A plain character is neither a quote nor a backslash. */
  predicate PiecesOk(ps: seq<Piece>) {
    forall i :: 0 <= i < |ps| ==> ps[i].Plain? ==> ps[i].c != '\'' && ps[i].c != '\\'
  }

  /** The text is a quote, these pieces, a closing quote that is not doubled, and a tail. */
  predicate IsLiteral(text: string, ps: seq<Piece>, value: string, tail: string) {
    && PiecesOk(ps) && value == Meant(ps) && text == "'" + Spelt(ps) + "'" + tail
    && (tail == "" || tail[0] != '\'')
  }

  /** The text starts with a literal of this value. */
  ghost predicate StartsLiteral(text: string, value: string) {
    exists ps, tail :: IsLiteral(text, ps, value, tail)
  }

  lemma PieceFirst(p: Piece, ps: seq<Piece>, rest: string)
    ensures Spelt([p] + ps) + rest
         == (match p
             case Plain(c) => [c]
             case Escaped(c) => ['\\', c]
             case Doubled => "''") + (Spelt(ps) + rest)
    ensures Meant([p] + ps)
         == (match p
             case Plain(c) => [c]
             case Escaped(c) => [c]
             case Doubled => "'") + Meant(ps)
  {
    assert ([p] + ps)[1..] == ps;
  }

  /** The first piece of a body that does not begin with its closing quote. */
  lemma FirstPiece(t: string) returns (p: Piece, n: nat)
    requires LexString(t).Some? && !(t[0] == '\'' && (|t| == 1 || t[1] != '\''))
    ensures 1 <= n <= |t| && n == if p.Plain? then 1 else 2
    ensures p.Plain? ==> p.c != '\'' && p.c != '\\'
    ensures t[..n] == match p case Plain(c) => [c] case Escaped(c) => ['\\', c] case Doubled => "''"
    ensures LexString(t)
         == Prepend(match p case Plain(c) => c case Escaped(c) => c case Doubled => '\'', LexString(t[n..]))
  {
    p := if t[0] == '\'' then Doubled else if t[0] == '\\' then Escaped(t[1]) else Plain(t[0]);
    n := if p.Plain? then 1 else 2;
  }

  /** Whatever the lexer reads is a literal. */
  lemma {:induction false} LexedIsLiteral(t: string) returns (ps: seq<Piece>)
    requires LexString(t).Some?
    ensures var (value, tail) := LexString(t).value;
            && PiecesOk(ps) && value == Meant(ps) && t == Spelt(ps) + ("'" + tail)
            && (tail == "" || tail[0] != '\'')
    decreases |t|
  {
    var (value, tail) := LexString(t).value;
    if t[0] == '\'' && (|t| == 1 || t[1] != '\'') {
      ps := [];
      assert t == "" + ("'" + tail);
    } else {
      var p, n := FirstPiece(t);
      var more := LexedIsLiteral(t[n..]);
      PieceFirst(p, more, "'" + tail);
      ps := [p] + more;
      assert t == t[..n] + t[n..];
    }
  }

  /** Every literal is read, to its value and its tail. */
  lemma {:induction false} LiteralIsLexed(ps: seq<Piece>, tail: string)
    requires PiecesOk(ps) && (tail == "" || tail[0] != '\'')
    ensures LexString(Spelt(ps) + ("'" + tail)) == Some((Meant(ps), tail))
  {
    if ps == [] {
      assert "" + ("'" + tail) == "'" + tail && ("'" + tail)[1..] == tail;
    } else {
      var more := Spelt(ps[1..]) + ("'" + tail);
      LiteralIsLexed(ps[1..], tail);
      assert ps == [ps[0]] + ps[1..];
      PieceFirst(ps[0], ps[1..], "'" + tail);
      var t := Spelt(ps) + ("'" + tail);
      if ps[0].Plain? {
        assert t[0] == ps[0].c && t[1..] == more;
      } else {
        assert t[2..] == more;
      }
    }
  }

  /** Behind the opening quote, exactly the literals are read. */
  lemma LexExactly(text: string, value: string, tail: string)
    requires text != "" && text[0] == '\''
    ensures LexString(text[1..]) == Some((value, tail)) <==> exists ps :: IsLiteral(text, ps, value, tail)
  {
    if LexString(text[1..]) == Some((value, tail)) {
      var ps := LexedIsLiteral(text[1..]);
      assert text == "'" + (Spelt(ps) + ("'" + tail)) == "'" + Spelt(ps) + "'" + tail;
      assert IsLiteral(text, ps, value, tail);
    }
    forall ps | IsLiteral(text, ps, value, tail) ensures LexString(text[1..]) == Some((value, tail)) {
      LiteralIsLexed(ps, tail);
      assert text[1..] == Spelt(ps) + ("'" + tail);
    }
  }

  /**
   What QuoteString writes is read back verbatim, in any context, exactly when the text behind
   it does not start with another quote.
   */
  lemma QuoteStringReads(value: string, tail: string)
    ensures LexString(QuoteString(value)[1..] + tail) == Some((value, tail)) <==> tail == "" || tail[0] != '\''
  {
    TwoPasses(value);
    assert QuoteString(value)[1..] + tail == Escape(value) + ("'" + tail);
    EscapeReads(value, tail);
  }

  lemma {:induction false} EscapeReads(value: string, tail: string)
    ensures tail == "" || tail[0] != '\'' ==> LexString(Escape(value) + ("'" + tail)) == Some((value, tail))
    ensures tail != "" && tail[0] == '\'' ==>
              LexString(Escape(value) + ("'" + tail)).Some? ==>
                |LexString(Escape(value) + ("'" + tail)).value.0| > |value|
  {
    var t := Escape(value) + ("'" + tail);
    if value == "" {
      assert t == "'" + tail;
      assert t[1..] == tail;
    } else {
      var rest := Escape(value[1..]) + ("'" + tail);
      EscapeReads(value[1..], tail);
      if value[0] == '\\' || value[0] == '\'' {
        assert t[2..] == rest && t[1] == value[0] == t[0];
      } else {
        assert t[1..] == rest && t[0] == value[0];
      }
      assert [value[0]] + value[1..] == value;
    }
  }

  // ---- reading identifiers -----------------------------------------------------------------

  /** A quoted identifier behind its opening backtick, where a doubled backtick is a backtick. */
  function LexIdent(t: string): Option<(string, string)> {
    if t == "" then None
    else if t[0] == '`' then
      if |t| > 1 && t[1] == '`' then Prepend('`', LexIdent(t[2..])) else Some(("", t[1..]))
    else Prepend(t[0], LexIdent(t[1..]))
  }

  /** `database`.`table` and what follows. */
  function LexQualified(t: string): Option<(string, string, string)> {
    if t == "" || t[0] != '`' then None
    else match LexIdent(t[1..])
      case None => None
      case Some((database, rest)) =>
        if |rest| < 2 || rest[..2] != ".`" then None
        else match LexIdent(rest[2..])
          case None => None
          case Some((table, tail)) => Some((database, table, tail))
  }

  lemma {:induction false} IdentReads(ident: string, tail: string)
    ensures tail == "" || tail[0] != '`' ==>
              LexIdent(ReplaceAll(ident, '`', "``") + ("`" + tail)) == Some((ident, tail))
    ensures tail != "" && tail[0] == '`' ==>
              LexIdent(ReplaceAll(ident, '`', "``") + ("`" + tail)).Some? ==>
                |LexIdent(ReplaceAll(ident, '`', "``") + ("`" + tail)).value.0| > |ident|
  {
    var t := ReplaceAll(ident, '`', "``") + ("`" + tail);
    if ident == "" {
      assert t == "`" + tail;
      assert t[1..] == tail;
    } else {
      var rest := ReplaceAll(ident[1..], '`', "``") + ("`" + tail);
      IdentReads(ident[1..], tail);
      if ident[0] == '`' {
        assert t[2..] == rest && t[0] == t[1] == '`';
      } else {
        assert t[1..] == rest && t[0] == ident[0];
      }
      assert [ident[0]] + ident[1..] == ident;
    }
  }

  /**
   Database and table are recovered from the qualified name, dots and backticks included,
   exactly when what follows does not start with another backtick.
   */
  lemma QualifiedReads(database: string, table: string, tail: string)
    ensures LexQualified(QuoteQualified(database, table) + tail) == Some((database, table, tail))
       <==> tail == "" || tail[0] != '`'
  {
    var quoted := ReplaceAll(table, '`', "``") + ("`" + tail);
    var rest := ".`" + quoted;
    var t := QuoteQualified(database, table) + tail;
    var body := ReplaceAll(database, '`', "``") + ("`" + rest);
    assert t == "`" + body && t[1..] == body;
    IdentReads(database, rest);
    assert rest[..2] == ".`" && rest[2..] == quoted;
    IdentReads(table, tail);
  }

  lemma QualifiedInjective(database: string, table: string, database': string, table': string)
    requires QuoteQualified(database, table) == QuoteQualified(database', table')
    ensures database == database' && table == table'
  {
    QualifiedReads(database, table, "");
    QualifiedReads(database', table', "");
  }

  // ---- disk placement ------------------------------------------------------------------------

  datatype DiskPart = DiskPart(disk: string, parts: nat)

  predicate HasDisk(disks: seq<DiskPart>, target: string) {
    exists i :: 0 <= i < |disks| && disks[i].disk == target && disks[i].parts > 0
  }

  function PartsOn(disks: seq<DiskPart>, target: string): nat {
    if disks == [] then 0
    else (if disks[0].disk == target then disks[0].parts else 0) + PartsOn(disks[1..], target)
  }

  function PartsTotal(disks: seq<DiskPart>): nat {
    if disks == [] then 0 else disks[0].parts + PartsTotal(disks[1..])
  }

  /** hasDisk: a scan that stops at the first hit. */
  method ScanHasDisk(disks: seq<DiskPart>, target: string) returns (r: bool)
    ensures r <==> HasDisk(disks, target)
  {
    for i := 0 to |disks|
      invariant forall k :: 0 <= k < i ==> disks[k].disk != target || disks[k].parts == 0
    {
      if disks[i].disk == target && disks[i].parts > 0 {
        return true;
      }
    }
    return false;
  }

  lemma {:induction false} PartsBounds(disks: seq<DiskPart>, target: string)
    ensures PartsOn(disks, target) <= PartsTotal(disks)
    ensures PartsOn(disks, target) > 0 <==> HasDisk(disks, target)
    ensures PartsOn(disks, target) == PartsTotal(disks)
       <==> forall i :: 0 <= i < |disks| ==> disks[i].disk == target || disks[i].parts == 0
  {
    if disks != [] {
      var tail := disks[1..];
      PartsBounds(tail, target);
      assert forall i :: 0 <= i < |tail| ==> tail[i] == disks[i + 1];
      if HasDisk(disks, target) && !(disks[0].disk == target && disks[0].parts > 0) {
        var i :| 0 <= i < |disks| && disks[i].disk == target && disks[i].parts > 0;
        assert tail[i - 1] == disks[i];
      }
    }
  }

  /** allOnDisk holds exactly when there are parts and all of them are on the target. */
  method AllOnDisk(disks: seq<DiskPart>, target: string) returns (r: bool)
    ensures r <==> PartsTotal(disks) > 0 && PartsOn(disks, target) == PartsTotal(disks)
  {
    PartsBounds(disks, target);
    if |disks| == 0 {
      return false;
    }
    for i := 0 to |disks|
      invariant forall k :: 0 <= k < i ==> disks[k].parts == 0 || disks[k].disk == target
    {
      if disks[i].parts > 0 && disks[i].disk != target {
        return false;
      }
    }
    r := ScanHasDisk(disks, target);
  }

  datatype Status = Hot | Tiered | Split

  /** observedStatus: where a partition's parts are, relative to the target disk. */
  method ObservedStatus(targetDisk: string, disks: seq<DiskPart>) returns (status: Status)
    ensures status == Tiered <==> PartsTotal(disks) > 0 && PartsOn(disks, targetDisk) == PartsTotal(disks)
    ensures status == Split <==> 0 < PartsOn(disks, targetDisk) < PartsTotal(disks)
    ensures status == Hot <==> PartsOn(disks, targetDisk) == 0
  {
    PartsBounds(disks, targetDisk);
    var all := AllOnDisk(disks, targetDisk);
    if all {
      return Tiered;
    }
    var some := ScanHasDisk(disks, targetDisk);
    if some {
      return Split;
    }
    return Hot;
  }

  /** A partition is wholly on at most one disk. */
  lemma {:induction false} OnOneDisk(disks: seq<DiskPart>, a: string, b: string)
    requires a != b
    ensures PartsOn(disks, a) + PartsOn(disks, b) <= PartsTotal(disks)
    ensures !(PartsTotal(disks) > 0 && PartsOn(disks, a) == PartsTotal(disks) && PartsOn(disks, b) == PartsTotal(disks))
  {
    if disks != [] {
      OnOneDisk(disks[1..], a, b);
    }
  }
}
