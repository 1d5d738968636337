/**
 Records as they stand on the wire, line by line: a key, what the record holds under it, the
 tokens that are written, and what is read back. A line says this without a field table, so a
 table can be held against it.
 */
module RecordWire {
  import opened Wrappers
  import opened JsonTokens
  import opened PresenceBits
  import opened RecordCodec
  import opened RecordTree
  import opened RecordRoundTrip

  /** A value inside a line: as it is held, as it is read back, and its tokens. */
  datatype Piece = Piece(held: Value, back: Value, text: seq<Token>)

  datatype Named = Named(key: string, item: Piece)

  datatype Line =
    | Txt(key: string, text: string)
    | Parsed(key: string, parse: Parser, text: string)
    | TxtOrNull(key: string, some: Option<string>)
    | ParsedOrNull(key: string, parse: Parser, some: Option<string>)
    | Whole(key: string, lo: int, hi: int, n: int)
    | Flag(key: string, b: bool)
    | Constant(key: string, text: string, held: string)
    | List(key: string, elem: Shape, items: seq<Piece>)
    | NilList(key: string, elem: Shape)
    | Table(key: string, elem: Shape, entries: seq<Named>)
    | Nested(key: string, sh: Shape, item: Piece)

  const MIN_INT64 := -0x8000_0000_0000_0000
  const MAX_INT64 := 0x7FFF_FFFF_FFFF_FFFF
  const MIN_INT32 := -0x8000_0000
  const MAX_INT32 := 0x7FFF_FFFF

  function Int64(key: string, n: int): Line {
    Whole(key, MIN_INT64, MAX_INT64, n)
  }

  function Int32(key: string, n: int): Line {
    Whole(key, MIN_INT32, MAX_INT32, n)
  }

  // ---- what a line says ---------------------------------------------------------------------

  function HeldItems(items: seq<Piece>): (r: seq<Value>)
    ensures |r| == |items| && forall i :: 0 <= i < |items| ==> r[i] == items[i].held
  {
    seq(|items|, i requires 0 <= i < |items| => items[i].held)
  }

  function BackItems(items: seq<Piece>): (r: seq<Value>)
    ensures |r| == |items| && forall i :: 0 <= i < |items| ==> r[i] == items[i].back
  {
    seq(|items|, i requires 0 <= i < |items| => items[i].back)
  }

  function HeldEntries(entries: seq<Named>): (r: seq<Entry>)
    ensures |r| == |entries| && forall i :: 0 <= i < |r| ==> r[i] == Entry(entries[i].key, entries[i].item.held)
  {
    seq(|entries|, i requires 0 <= i < |entries| => Entry(entries[i].key, entries[i].item.held))
  }

  function BackEntries(entries: seq<Named>): (r: seq<Entry>)
    ensures |r| == |entries| && forall i :: 0 <= i < |r| ==> r[i] == Entry(entries[i].key, entries[i].item.back)
  {
    seq(|entries|, i requires 0 <= i < |entries| => Entry(entries[i].key, entries[i].item.back))
  }

  function Spelled(some: Option<string>): Value {
    if some.Some? then StrV(some.value) else NullV
  }

  /** The value a record holds under the key. */
  function Held(l: Line): Value {
    match l
    case Txt(_, text) => StrV(text)
    case Parsed(_, _, text) => StrV(text)
    case TxtOrNull(_, some) => Spelled(some)
    case ParsedOrNull(_, _, some) => Spelled(some)
    case Whole(_, _, _, n) => IntV(n)
    case Flag(_, b) => BoolV(b)
    case Constant(_, _, held) => StrV(held)
    case List(_, _, items) => ListV(HeldItems(items))
    case NilList(_, _) => Unset
    case Table(_, _, entries) => DictV(HeldEntries(entries))
    case Nested(_, _, item) => item.held
  }

  /** The value a fresh record holds under it afterwards. */
  function Back(l: Line): Value {
    match l
    case Constant(_, text, _) => StrV(text)
    case List(_, _, items) => ListV(BackItems(items))
    case NilList(_, _) => ListV([])
    case Table(_, _, entries) => DictV(BackEntries(entries))
    case Nested(_, _, item) => item.back
    case _ => Held(l)
  }

  function ItemTexts(items: seq<Piece>): seq<Token> {
    if items == [] then [] else items[0].text + ItemTexts(items[1..])
  }

  function EntryTexts(entries: seq<Named>): seq<Token> {
    if entries == [] then [] else [Key(entries[0].key)] + entries[0].item.text + EntryTexts(entries[1..])
  }

  function Scalar(some: Option<string>): Token {
    Lit(if some.Some? then Str(some.value) else Null)
  }

  /** The tokens behind the key. */
  function LineText(l: Line): seq<Token> {
    match l
    case Txt(_, text) => [Lit(Str(text))]
    case Parsed(_, _, text) => [Lit(Str(text))]
    case TxtOrNull(_, some) => [Scalar(some)]
    case ParsedOrNull(_, _, some) => [Scalar(some)]
    case Whole(_, _, _, n) => [Lit(Num(n))]
    case Flag(_, b) => [Lit(Bool(b))]
    case Constant(_, text, _) => [Lit(Str(text))]
    case List(_, _, items) => [ArrStart] + ItemTexts(items) + [ArrEnd]
    case NilList(_, _) => [ArrStart, ArrEnd]
    case Table(_, _, entries) => [ObjStart] + EntryTexts(entries) + [ObjEnd]
    case Nested(_, _, item) => item.text
  }

  /** What any JSON value under the key is read as; nothing when it is refused. */
  function Reading(l: Line, j: Json): Option<Value>
    requires LineWf(l)
  {
    match l
    case Txt(_, _) => if j.Leaf? && j.atom.Str? then Some(StrV(j.atom.text)) else None
    case Parsed(_, parse, _) => if j.Leaf? && j.atom.Str? then Spelling(parse(j.atom.text)) else None
    case TxtOrNull(_, _) =>
      if j.Leaf? && j.atom.Null? then Some(NullV)
      else if j.Leaf? && j.atom.Str? then Some(StrV(j.atom.text)) else None
    case ParsedOrNull(_, parse, _) =>
      if j.Leaf? && j.atom.Null? then Some(NullV)
      else if j.Leaf? && j.atom.Str? then Spelling(parse(j.atom.text)) else None
    case Whole(_, lo, hi, _) =>
      if j.Leaf? && j.atom.Num? && lo <= j.atom.n <= hi then Some(IntV(j.atom.n)) else None
    case Flag(_, _) => if j.Leaf? && j.atom.Bool? then Some(BoolV(j.atom.b)) else None
    case Constant(_, _, _) => if j.Leaf? && j.atom.Str? then Some(StrV(j.atom.text)) else None
    case List(_, elem, _) => TreeDec(Slice(elem), Unset, j)
    case NilList(_, elem) => TreeDec(Slice(elem), Unset, j)
    case Table(_, elem, _) => TreeDec(Dict(elem), DictV([]), j)
    case Nested(_, sh, _) => TreeDec(sh, Zero(sh), j)
  }

  function Spelling(s: Option<string>): Option<Value> {
    match s
    case None => None
    case Some(text) => Some(StrV(text))
  }

  ghost predicate LineWf(l: Line) {
    match l
    case Whole(_, lo, hi, _) => lo <= 0 <= hi
    case List(_, elem, _) => Wf(elem)
    case NilList(_, elem) => Wf(elem)
    case Table(_, elem, _) => Wf(elem)
    case Nested(_, sh, _) => Wf(sh)
    case _ => true
  }

  // ---- what a line supposes of its values -------------------------------------------------------

  /** The piece is a value of this shape, with its tokens and what comes back. */
  ghost predicate Written(sh: Shape, p: Piece) {
    && Conforms(sh, p.held) && Shaped(sh, p.held)
    && Enc(sh, p.held) == p.text && Norm(sh, p.held) == p.back
  }

  ghost predicate AllWritten(sh: Shape, items: seq<Piece>) {
    forall i :: 0 <= i < |items| ==> Written(sh, items[i])
  }

  ghost predicate EntriesWritten(sh: Shape, entries: seq<Named>) {
    && (forall i :: 0 <= i < |entries| ==> Written(sh, entries[i].item))
    && forall i, j :: 0 <= i < j < |entries| ==> entries[i].key != entries[j].key
  }

  /** The value spelled in the canonical way, the number in range. */
  ghost predicate Proper(l: Line) {
    match l
    case Parsed(_, parse, text) => parse(text) == Some(text)
    case ParsedOrNull(_, parse, some) => some.Some? ==> parse(some.value) == Some(some.value)
    case Whole(_, lo, hi, n) => lo <= n <= hi
    case List(_, elem, items) => AllWritten(elem, items)
    case Table(_, elem, entries) => EntriesWritten(elem, entries)
    case Nested(_, sh, item) => Written(sh, item)
    case _ => true
  }

  // ---- a field and its line -----------------------------------------------------------------------

  /** The field is one that such a line belongs to. */
  ghost predicate Fits(f: Field, l: Line) {
    && f.name == l.key && Proper(l)
    && (l.Constant? <==> f.presence.Fixed?)
    && match l
       case Txt(_, _) => f.shape == Text(Verbatim)
       case Parsed(_, parse, _) => f.shape == Text(parse)
       case TxtOrNull(_, _) => f.shape == Nullable(Verbatim)
       case ParsedOrNull(_, parse, _) => f.shape == Nullable(parse)
       case Whole(_, lo, hi, _) => f.shape == Integer(lo, hi)
       case Flag(_, _) => f.shape.Boolean?
       case Constant(_, text, _) => f.presence == Fixed(text) && f.shape == Text(Verbatim)
       case List(_, elem, _) => f.shape == Slice(elem)
       case NilList(_, elem) => f.shape == Slice(elem) && f.presence.Required?
       case Table(_, elem, _) => f.shape == Dict(elem)
       case Nested(_, sh, _) => f.shape == sh && sh.Record?
  }

  ghost predicate FitAll(fields: seq<Field>, lines: seq<Line>) {
    |fields| == |lines| && forall i :: 0 <= i < |fields| ==> Fits(fields[i], lines[i])
  }

  lemma FitSix(fields: seq<Field>, l0: Line, l1: Line, l2: Line, l3: Line, l4: Line, l5: Line)
    requires |fields| == 6 && Fits(fields[0], l0) && Fits(fields[1], l1) && Fits(fields[2], l2)
    requires Fits(fields[3], l3) && Fits(fields[4], l4) && Fits(fields[5], l5)
    ensures FitAll(fields, [l0, l1, l2, l3, l4, l5])
  {
  }

  lemma FitMore(fields: seq<Field>, lines: seq<Line>, more: seq<Field>, moreLines: seq<Line>)
    requires FitAll(fields, lines) && FitAll(more, moreLines)
    ensures FitAll(fields + more, lines + moreLines)
  {
  }

  /** The line is what the encoder writes for the field, and what comes back is what the line says. */
  ghost predicate Prints(f: Field, l: Line) {
    && ConformsField(f, Held(l)) && FieldShaped(f, Held(l))
    && EncField(f, Held(l)) == [Key(l.key)] + LineText(l)
    && TidyField(f, Held(l), false) == Back(l)
  }

  /** Any JSON value under the key is read as the line says. */
  ghost predicate Reads(f: Field, l: Line) {
    LineWf(l) && Wf(f.shape) && forall j: Json :: TreeDec(f.shape, Zero(f.shape), j) == Reading(l, j)
  }

  lemma {:induction false} ItemsWritten(elem: Shape, items: seq<Piece>)
    requires AllWritten(elem, items)
    ensures forall i :: 0 <= i < |items| ==> Shaped(elem, HeldItems(items)[i])
    ensures EncElems(elem, HeldItems(items)) == ItemTexts(items)
  {
    var vs := HeldItems(items);
    assert forall i :: 0 <= i < |items| ==> Written(elem, items[i]) && vs[i] == items[i].held;
    if items != [] {
      ItemsWritten(elem, items[1..]);
      assert vs[1..] == HeldItems(items[1..]);
    }
  }

  lemma ItemsBack(elem: Shape, items: seq<Piece>)
    requires AllWritten(elem, items) && forall i :: 0 <= i < |items| ==> Shaped(elem, HeldItems(items)[i])
    ensures TidyElems(elem, HeldItems(items), false) == BackItems(items)
  {
    assert forall i :: 0 <= i < |items| ==> Written(elem, items[i]);
  }

  lemma {:induction false} EntryTextsWritten(elem: Shape, entries: seq<Named>)
    requires forall i :: 0 <= i < |entries| ==> Written(elem, entries[i].item)
    ensures EntriesShaped(elem, HeldEntries(entries))
    ensures EncEntries(elem, HeldEntries(entries)) == EntryTexts(entries)
  {
    var es := HeldEntries(entries);
    if entries != [] {
      EntryTextsWritten(elem, entries[1..]);
      assert es[1..] == HeldEntries(entries[1..]);
      assert Written(elem, entries[0].item);
    }
  }

  lemma EntriesBack(elem: Shape, entries: seq<Named>)
    requires EntriesWritten(elem, entries) && EntriesShaped(elem, HeldEntries(entries))
    ensures TidyEntries(elem, HeldEntries(entries), false) == BackEntries(entries)
    ensures Distinct(KeysOf(HeldEntries(entries)))
  {
    assert forall i :: 0 <= i < |entries| ==> Written(elem, entries[i].item);
  }

  lemma FitPrints(f: Field, l: Line)
    requires WfField(f) && Fits(f, l)
    ensures Prints(f, l)
  {
    match l {
      case List(_, _, _) => ListPrints(f, l);
      case Table(_, _, _) => TablePrints(f, l);
      case NilList(_, _) => assert [ArrStart] + [] + [ArrEnd] == [ArrStart, ArrEnd];
      case Constant(_, text, _) => assert [Key(f.name), Lit(Str(text))] == [Key(f.name)] + [Lit(Str(text))];
      case _ =>
    }
  }

  lemma ListPrints(f: Field, l: Line)
    requires WfField(f) && Fits(f, l) && l.List?
    ensures Prints(f, l)
  {
    ItemsWritten(l.elem, l.items);
    ItemsBack(l.elem, l.items);
    assert forall i :: 0 <= i < |l.items| ==> Written(l.elem, l.items[i]);
  }

  lemma TablePrints(f: Field, l: Line)
    requires WfField(f) && Fits(f, l) && l.Table?
    ensures Prints(f, l)
  {
    EntryTextsWritten(l.elem, l.entries);
    EntriesBack(l.elem, l.entries);
    assert forall i :: 0 <= i < |l.entries| ==> Written(l.elem, l.entries[i].item);
  }

  lemma FitReads(f: Field, l: Line)
    requires WfField(f) && Fits(f, l)
    ensures Reads(f, l)
  {
    forall j: Json
      ensures TreeDec(f.shape, Zero(f.shape), j) == Reading(l, j)
    {
      ReadAs(f, l, j);
    }
  }

  lemma ReadAs(f: Field, l: Line, j: Json)
    requires WfField(f) && Fits(f, l) && LineWf(l)
    ensures TreeDec(f.shape, Zero(f.shape), j) == Reading(l, j)
  {
  }

  // ---- a record and its lines ---------------------------------------------------------------------

  function HeldLines(lines: seq<Line>): (r: seq<Value>)
    ensures |r| == |lines| && forall i :: 0 <= i < |r| ==> r[i] == Held(lines[i])
  {
    seq(|lines|, i requires 0 <= i < |lines| => Held(lines[i]))
  }

  function BackLines(lines: seq<Line>): (r: seq<Value>)
    ensures |r| == |lines| && forall i :: 0 <= i < |r| ==> r[i] == Back(lines[i])
  {
    seq(|lines|, i requires 0 <= i < |lines| => Back(lines[i]))
  }

  function LinesText(lines: seq<Line>): seq<Token> {
    if lines == [] then [] else [Key(lines[0].key)] + LineText(lines[0]) + LinesText(lines[1..])
  }

  /** One object: the lines in their order, then the extension members. */
  function ObjectText(lines: seq<Line>, ext: seq<Named>): seq<Token> {
    [ObjStart] + LinesText(lines) + EntryTexts(ext) + [ObjEnd]
  }

  /** Raw values under keys of their own. */
  ghost predicate Extends(lines: seq<Line>, ext: seq<Named>) {
    EntriesWritten(RawJson, ext) && forall i, j :: 0 <= i < |lines| && 0 <= j < |ext| ==> lines[i].key != ext[j].key
  }

  /** The encoder writes exactly the lines. */
  ghost predicate Encodes(sh: Shape, lines: seq<Line>, ext: seq<Named>) {
    var held := RecV(HeldLines(lines), HeldEntries(ext));
    Shaped(sh, held) && Enc(sh, held) == ObjectText(lines, ext)
  }

  /** In front of any tokens, a fresh record reads exactly what the lines say. */
  ghost predicate Decodes(sh: Shape, lines: seq<Line>, ext: seq<Named>, rest: seq<Token>) {
    Wf(sh) && Dec(sh, Zero(sh), ObjectText(lines, ext) + rest) == Ok(RecV(BackLines(lines), HeldEntries(ext)), rest)
  }

  /** Under each key any other JSON value is read as the line says or refused. */
  ghost predicate EachReads(sh: Shape, lines: seq<Line>) {
    sh.Record? && |lines| == |sh.fields| && forall i :: 0 <= i < |lines| ==> Reads(sh.fields[i], lines[i])
  }

  /** A key that no line has is refused by name, wherever the object has got to. */
  ghost predicate Closed(sh: Shape, lines: seq<Line>) {
    && sh.Record? && Wf(sh)
    && forall acc: Acc, key: string, ts: seq<Token> ::
         AccOk(sh, acc) && (forall i :: 0 <= i < |lines| ==> lines[i].key != key) ==>
           DecMembers(sh, acc, [Key(key)] + ts) == Fail(UnknownField(key))
  }

  /** All of this for a record without extension members. */
  ghost predicate OnTheWire(sh: Shape, lines: seq<Line>, rest: seq<Token>) {
    Encodes(sh, lines, []) && Decodes(sh, lines, [], rest) && EachReads(sh, lines) && Closed(sh, lines)
  }

  lemma AllPrint(fields: seq<Field>, lines: seq<Line>)
    requires FitAll(fields, lines) && forall i :: 0 <= i < |fields| ==> WfField(fields[i])
    ensures forall i :: 0 <= i < |fields| ==> Prints(fields[i], lines[i])
  {
    forall i | 0 <= i < |fields| ensures Prints(fields[i], lines[i]) {
      FitPrints(fields[i], lines[i]);
    }
  }

  lemma ExtensionOk(fields: seq<Field>, open: bool, lines: seq<Line>, ext: seq<Named>)
    requires FitAll(fields, lines) && Extends(lines, ext) && (open || ext == [])
    ensures ExtraOk(fields, open, HeldEntries(ext))
  {
    var extra := HeldEntries(ext);
    forall i | 0 <= i < |extra|
      ensures extra[i].key !in Names(fields) && extra[i].value.RawV? && IsOneValue(extra[i].value.tokens)
    {
      assert Written(RawJson, ext[i].item);
      forall k | 0 <= k < |fields| ensures Names(fields)[k] != extra[i].key {
        assert Fits(fields[k], lines[k]);
      }
    }
  }

  lemma {:induction false} ExtensionPrints(ext: seq<Named>)
    requires forall i :: 0 <= i < |ext| ==> Written(RawJson, ext[i].item)
    ensures forall i :: 0 <= i < |ext| ==> HeldEntries(ext)[i].value.RawV?
    ensures EncExtra(HeldEntries(ext)) == EntryTexts(ext)
  {
    assert forall i :: 0 <= i < |ext| ==> Written(RawJson, ext[i].item);
    if ext != [] {
      ExtensionPrints(ext[1..]);
      assert HeldEntries(ext)[1..] == HeldEntries(ext[1..]);
    }
  }

  lemma {:induction false} LinesPrint(sh: Shape, lines: seq<Line>, extra: seq<Entry>, i: nat)
    requires sh.Record? && |lines| == |sh.fields| && i <= |lines|
    requires forall k :: 0 <= k < |lines| ==> Prints(sh.fields[k], lines[k])
    ensures FieldsShaped(sh.fields, HeldLines(lines))
    ensures EncFields(sh, RecV(HeldLines(lines), extra), i) == LinesText(lines[i..])
    decreases |lines| - i
  {
    assert forall k :: 0 <= k < |lines| ==> Prints(sh.fields[k], lines[k]);
    if i < |lines| {
      LinesPrint(sh, lines, extra, i + 1);
      assert lines[i..][1..] == lines[i + 1..];
    }
  }

  lemma FitEncodes(sh: Shape, lines: seq<Line>, ext: seq<Named>)
    requires sh.Record? && Wf(sh) && FitAll(sh.fields, lines) && Extends(lines, ext) && (sh.open || ext == [])
    ensures Encodes(sh, lines, ext)
  {
    AllPrint(sh.fields, lines);
    LinesPrint(sh, lines, HeldEntries(ext), 0);
    ExtensionPrints(ext);
    assert lines[0..] == lines;
  }

  lemma FitComesBack(sh: Shape, lines: seq<Line>, ext: seq<Named>)
    requires sh.Record? && Wf(sh) && FitAll(sh.fields, lines) && Extends(lines, ext) && (sh.open || ext == [])
    requires Shaped(sh, RecV(HeldLines(lines), HeldEntries(ext)))
    ensures Conforms(sh, RecV(HeldLines(lines), HeldEntries(ext)))
    ensures Norm(sh, RecV(HeldLines(lines), HeldEntries(ext))) == RecV(BackLines(lines), HeldEntries(ext))
  {
    AllPrint(sh.fields, lines);
    ExtensionOk(sh.fields, sh.open, lines, ext);
    assert forall i :: 0 <= i < |lines| ==> Prints(sh.fields[i], lines[i]);
  }

  lemma FitDecodes(sh: Shape, lines: seq<Line>, ext: seq<Named>, rest: seq<Token>)
    requires sh.Record? && Wf(sh) && FitAll(sh.fields, lines) && Extends(lines, ext) && (sh.open || ext == [])
    ensures Encodes(sh, lines, ext) && Decodes(sh, lines, ext, rest)
  {
    FitEncodes(sh, lines, ext);
    FitComesBack(sh, lines, ext);
    RoundTripFresh(sh, RecV(HeldLines(lines), HeldEntries(ext)), rest);
  }

  lemma FitEachReads(sh: Shape, lines: seq<Line>)
    requires sh.Record? && Wf(sh) && FitAll(sh.fields, lines)
    ensures EachReads(sh, lines)
  {
    forall i | 0 <= i < |lines| ensures Reads(sh.fields[i], lines[i]) {
      FitReads(sh.fields[i], lines[i]);
    }
  }

  lemma FitClosed(sh: Shape, lines: seq<Line>)
    requires sh.Record? && Wf(sh) && FitAll(sh.fields, lines) && !sh.open
    ensures Closed(sh, lines)
  {
    forall acc: Acc, key: string, ts: seq<Token>
      | AccOk(sh, acc) && (forall i :: 0 <= i < |lines| ==> lines[i].key != key)
      ensures DecMembers(sh, acc, [Key(key)] + ts) == Fail(UnknownField(key))
    {
      assert forall i :: 0 <= i < |lines| ==> Fits(sh.fields[i], lines[i]);
      assert Find(sh.fields, key).None?;
    }
  }

  /** A closed table whose fields fit the lines. */
  lemma FitOnTheWire(sh: Shape, lines: seq<Line>, rest: seq<Token>)
    requires sh.Record? && Wf(sh) && FitAll(sh.fields, lines) && !sh.open
    ensures OnTheWire(sh, lines, rest)
  {
    FitDecodes(sh, lines, [], rest);
    FitEachReads(sh, lines);
    FitClosed(sh, lines);
  }

  // ---- what is reported about a value that is refused ------------------------------------------------

  /** A scalar is refused for its kind, a text also for its spelling, a number also for its size. */
  lemma ScalarErrors(sh: Shape, recv: Value, ts: seq<Token>)
    requires Wf(sh) && Shaped(sh, recv)
    ensures var r := Dec(sh, recv, ts);
            var text := ts != [] && ts[0].Lit? && ts[0].atom.Str?;
            var number := ts != [] && ts[0].Lit? && ts[0].atom.Num?;
            && (sh.Text? ==> (r == Fail(WrongKind) <==> !text))
            && (sh.Text? ==> (r == Fail(BadText) <==> text && sh.parse(ts[0].atom.text).None?))
            && (sh.Nullable? ==> (r == Fail(WrongKind) <==> !text && !(ts != [] && ts[0] == Lit(Null))))
            && (sh.Nullable? ==> (r == Fail(BadText) <==> text && sh.parse(ts[0].atom.text).None?))
            && (sh.Integer? ==> (r == Fail(WrongKind) <==> !number))
            && (sh.Integer? ==> (r == Fail(OutOfRange) <==> number && !(sh.lo <= ts[0].atom.n <= sh.hi)))
            && (sh.Boolean? ==> (r == Fail(WrongKind) <==> !(ts != [] && ts[0].Lit? && ts[0].atom.Bool?)))
            && (sh.Slice? ==> (ts == [] || !ts[0].ArrStart? ==> r == Fail(WrongKind)))
            && (sh.Dict? || sh.Record? ==> (ts == [] || !ts[0].ObjStart? ==> r == Fail(WrongKind)))
  {
  }

  /** The first value that is refused, however deep, decides what is reported for the whole. */
  lemma ErrorsPassUp(sh: Shape, recv: Value, acc: Acc, i: nat, ts: seq<Token>, e: Error)
    requires sh.Record? && Wf(sh) && Shaped(sh, recv) && AccOk(sh, acc) && i < |sh.fields|
    requires Dec(sh.fields[i].shape, FieldReceiver(sh.fields[i], acc.fill.fields[i]), ts) == Fail(e)
    ensures DecMembers(sh, acc, [Key(sh.fields[i].name)] + ts) == Fail(e)
    ensures acc == Acc(Fill(recv.fields, []), NoneSeen(sh.masks)) ==>
              Dec(sh, recv, [ObjStart, Key(sh.fields[i].name)] + ts) == Fail(e)
  {
    FindIndex(sh.fields, i);
    var k := [Key(sh.fields[i].name)];
    assert (k + ts)[1..] == ts;
    assert ([ObjStart, Key(sh.fields[i].name)] + ts)[1..] == k + ts;
  }
}
