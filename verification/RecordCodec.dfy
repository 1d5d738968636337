/**
 The generated record codec, written once over a table of fields. An encoder prints a record
 field by field; a decoder dispatches on the keys of one JSON object in whatever order they
 come, keeps presence bytes, and rejects the object when a required field never appeared.
 */
module RecordCodec {
  import opened Wrappers
  import opened JsonTokens
  import opened PresenceBits

  /** Reads a textual form and returns its canonical spelling, or nothing when it is malformed. */
  type Parser = string -> Option<string>

  /** Any text is its own canonical spelling. */
  function Verbatim(s: string): Option<string> {
    Some(s)
  }

  datatype Shape =
    | Text(parse: Parser)       // strings, enums, number strings, dates, URIs
    | Integer(lo: int, hi: int) // d.Int, d.Int32
    | Boolean
    | Nullable(parse: Parser)   // NilString and its relatives
    | Slice(elem: Shape)
    | Dict(elem: Shape)         // map types
    | RawJson                   // jx.Raw
    | Record(fields: seq<Field>, masks: seq<Byte>, open: bool)

  /** Fixed fields are printed with a constant and read back like any required string. */
  datatype Presence = Required | Optional | Fixed(text: string)

  datatype Field = Field(name: string, presence: Presence, shape: Shape)

  /** `Unset` is an optional carrier that is not set, or a nil slice. */
  datatype Value =
    | StrV(text: string)
    | IntV(n: int)
    | BoolV(b: bool)
    | NullV
    | Unset
    | ListV(elems: seq<Value>)
    | RawV(tokens: seq<Token>)
    | DictV(entries: seq<Entry>)
    | RecV(fields: seq<Value>, extra: seq<Entry>)

  /** A Go map is carried as its entries in the order in which the runtime hands them out. */
  datatype Entry = Entry(key: string, value: Value)

  datatype Error =
    | Syntax
    | WrongKind
    | BadText
    | OutOfRange
    | UnknownField(name: string)
    | RequiredMissing(fields: seq<FieldError>)

  datatype Read<+T> = Ok(value: T, rest: seq<Token>) | Fail(error: Error)

  // ---- tables -------------------------------------------------------------------------

  predicate IsRequired(f: Field) {
    !f.presence.Optional?
  }

  function Names(fields: seq<Field>): (r: seq<string>)
    ensures |r| == |fields| && forall i :: 0 <= i < |fields| ==> r[i] == fields[i].name
  {
    seq(|fields|, i requires 0 <= i < |fields| => fields[i].name)
  }

  function RequiredFlags(fields: seq<Field>): (r: seq<bool>)
    ensures |r| == |fields| && forall i :: 0 <= i < |fields| ==> r[i] == IsRequired(fields[i])
  {
    seq(|fields|, i requires 0 <= i < |fields| => IsRequired(fields[i]))
  }

  ghost predicate Distinct(names: seq<string>) {
    forall i, j :: 0 <= i < j < |names| ==> names[i] != names[j]
  }

  /** A table as the generator emits it: distinct names, and masks that are its required flags. */
  ghost predicate Wf(sh: Shape) {
    match sh
    case Integer(lo, hi) => lo <= 0 <= hi
    case Slice(elem) => Wf(elem)
    case Dict(elem) => Wf(elem)
    case Record(fields, masks, _) =>
      && Distinct(Names(fields))
      && MasksMatch(masks, RequiredFlags(fields))
      && forall i :: 0 <= i < |fields| ==> WfField(fields[i])
    case _ => true
  }

  ghost predicate WfField(f: Field) {
    && Wf(f.shape)
    && (f.presence.Fixed? ==> f.shape.Text? && f.shape.parse(f.presence.text) == Some(f.presence.text))
  }

  /** The switch on the key: which field a name belongs to. */
  function Find(fields: seq<Field>, key: string): (r: Option<nat>)
    ensures r.Some? ==> r.value < |fields| && fields[r.value].name == key
    ensures r.None? ==> forall i :: 0 <= i < |fields| ==> fields[i].name != key
  {
    if fields == [] then None
    else if fields[0].name == key then Some(0)
    else match Find(fields[1..], key)
      case None => None
      case Some(i) => Some(i + 1)
  }

  // ---- values -------------------------------------------------------------------------

  /** A value of the Go type the table describes. */
  ghost predicate Shaped(sh: Shape, v: Value) {
    match sh
    case Text(_) => v.StrV?
    case Integer(lo, hi) => v.IntV? && lo <= v.n <= hi
    case Boolean => v.BoolV?
    case Nullable(_) => v.StrV? || v.NullV?
    case Slice(elem) => v.Unset? || (v.ListV? && forall i :: 0 <= i < |v.elems| ==> Shaped(elem, v.elems[i]))
    case Dict(elem) => v.DictV? && forall i :: 0 <= i < |v.entries| ==> Shaped(elem, v.entries[i].value)
    case RawJson => v.RawV?
    case Record(fields, _, open) =>
      && v.RecV? && FieldsShaped(fields, v.fields)
      && (open || v.extra == [])
      && forall i :: 0 <= i < |v.extra| ==> v.extra[i].value.RawV?
  }

  ghost predicate FieldsShaped(fields: seq<Field>, vs: seq<Value>) {
    |vs| == |fields| && forall i :: 0 <= i < |fields| ==> FieldShaped(fields[i], vs[i])
  }

  ghost predicate FieldShaped(f: Field, v: Value) {
    (f.presence.Optional? && v.Unset?) || Shaped(f.shape, v)
  }

  /** The Go zero value. */
  function Zero(sh: Shape): (v: Value)
    ensures Wf(sh) ==> Shaped(sh, v)
  {
    match sh
    case Text(_) => StrV("")
    case Integer(_, _) => IntV(0)
    case Boolean => BoolV(false)
    case Nullable(_) => StrV("")
    case Slice(_) => Unset
    case Dict(_) => DictV([])
    case RawJson => RawV([])
    case Record(fields, _, _) =>
      RecV(seq(|fields|, i requires 0 <= i < |fields| => ZeroField(fields[i])), [])
  }

  function ZeroField(f: Field): (v: Value)
    ensures WfField(f) ==> FieldShaped(f, v)
  {
    if f.presence.Optional? then Unset else Zero(f.shape)
  }

  /** `m[key] = value` */
  function Put(entries: seq<Entry>, e: Entry): (r: seq<Entry>) {
    if entries == [] then [e]
    else if entries[0].key == e.key then [e] + entries[1..]
    else [entries[0]] + Put(entries[1..], e)
  }

  /** `m[key]` for a map carried as entries. */
  function Lookup(es: seq<Entry>, key: string): Option<Value> {
    if es == [] then None else if es[0].key == key then Some(es[0].value) else Lookup(es[1..], key)
  }

  lemma {:induction false} LookupPut(es: seq<Entry>, e: Entry, key: string)
    ensures Lookup(Put(es, e), key) == if key == e.key then Some(e.value) else Lookup(es, key)
  {
    if es != [] && es[0].key != e.key {
      LookupPut(es[1..], e, key);
      assert ([es[0]] + Put(es[1..], e))[1..] == Put(es[1..], e);
    }
  }

  // ---- encoding -----------------------------------------------------------------------

  /** The tokens `Encode` appends for a value. */
  function Enc(sh: Shape, v: Value): seq<Token>
    requires Shaped(sh, v)
    decreases sh, 1, 0
  {
    match sh
    case Text(_) => [Lit(Str(v.text))]
    case Integer(_, _) => [Lit(Num(v.n))]
    case Boolean => [Lit(Bool(v.b))]
    case Nullable(_) => if v.NullV? then [Lit(Null)] else [Lit(Str(v.text))]
    case Slice(elem) =>
      [ArrStart] + (if v.Unset? then [] else EncElems(elem, v.elems)) + [ArrEnd]
    case Dict(elem) => [ObjStart] + EncEntries(elem, v.entries) + [ObjEnd]
    case RawJson => v.tokens
    case Record(fields, _, _) =>
      [ObjStart] + EncFields(sh, v, 0) + EncExtra(v.extra) + [ObjEnd]
  }

  function EncElems(elem: Shape, vs: seq<Value>): seq<Token>
    requires forall i :: 0 <= i < |vs| ==> Shaped(elem, vs[i])
    decreases elem, 2, |vs|
  {
    if vs == [] then [] else Enc(elem, vs[0]) + EncElems(elem, vs[1..])
  }

  function EncEntries(elem: Shape, es: seq<Entry>): seq<Token>
    requires forall i :: 0 <= i < |es| ==> Shaped(elem, es[i].value)
    decreases elem, 2, |es|
  {
    if es == [] then [] else [Key(es[0].key)] + Enc(elem, es[0].value) + EncEntries(elem, es[1..])
  }

  /** The extension members of an open record; an empty raw value prints nothing after its key. */
  function EncExtra(es: seq<Entry>): seq<Token>
    requires forall i :: 0 <= i < |es| ==> es[i].value.RawV?
  {
    if es == [] then [] else [Key(es[0].key)] + es[0].value.tokens + EncExtra(es[1..])
  }

  /** encodeFields from field `i` on. */
  function EncFields(sh: Shape, v: Value, i: nat): seq<Token>
    requires sh.Record? && v.RecV? && FieldsShaped(sh.fields, v.fields) && i <= |sh.fields|
    decreases sh, 0, |sh.fields| - i
  {
    if i == |sh.fields| then []
    else EncField(sh.fields[i], v.fields[i]) + EncFields(sh, v, i + 1)
  }

  function EncField(f: Field, v: Value): seq<Token>
    requires FieldShaped(f, v)
    decreases f.shape, 3, 0
  {
    match f.presence
    case Required => [Key(f.name)] + Enc(f.shape, v)
    case Fixed(text) => [Key(f.name), Lit(Str(text))]
    case Optional => if v.Unset? then [] else [Key(f.name)] + Enc(f.shape, v)
  }

  // ---- decoding -----------------------------------------------------------------------

  /** The partly filled receiver of one Decode call, without its presence bytes. */
  datatype Fill = Fill(fields: seq<Value>, extra: seq<Entry>)

  datatype Acc = Acc(fill: Fill, present: seq<Byte>)

  ghost predicate FillOk(sh: Shape, fill: Fill)
    requires sh.Record?
  {
    && FieldsShaped(sh.fields, fill.fields)
    && (sh.open || fill.extra == [])
    && forall i :: 0 <= i < |fill.extra| ==> fill.extra[i].value.RawV?
  }

  ghost predicate AccOk(sh: Shape, acc: Acc)
    requires sh.Record?
  {
    FillOk(sh, acc.fill) && |acc.present| == |sh.masks|
  }

  function NoneSeen(masks: seq<Byte>): (r: seq<Byte>)
    ensures |r| == |masks| && forall x :: 0 <= x < 8 * |masks| ==> !At(r, x)
  {
    seq(|masks|, i requires 0 <= i < |masks| => ZERO)
  }

  /** What a field's Decode starts from: optional carriers are Reset, required ones are reused. */
  function FieldReceiver(f: Field, cur: Value): (r: Value)
    requires WfField(f) && FieldShaped(f, cur)
    ensures Shaped(f.shape, r)
  {
    if f.presence.Optional? then Zero(f.shape) else cur
  }

  function DecText(parse: Parser, ts: seq<Token>): Read<Value> {
    if ts == [] || !ts[0].Lit? || !ts[0].atom.Str? then Fail(WrongKind)
    else match parse(ts[0].atom.text)
      case None => Fail(BadText)
      case Some(t) => Ok(StrV(t), ts[1..])
  }

  /** Decode of one value into the receiver `recv`. */
  function Dec(sh: Shape, recv: Value, ts: seq<Token>): (r: Read<Value>)
    requires Wf(sh) && Shaped(sh, recv)
    ensures r.Ok? ==> |r.rest| < |ts| && Shaped(sh, r.value)
    decreases |ts|, 0
  {
    match sh
    case Text(parse) => DecText(parse, ts)
    case Integer(lo, hi) =>
      if ts == [] || !ts[0].Lit? || !ts[0].atom.Num? then Fail(WrongKind)
      else if lo <= ts[0].atom.n <= hi then Ok(IntV(ts[0].atom.n), ts[1..])
      else Fail(OutOfRange)
    case Boolean =>
      if ts == [] || !ts[0].Lit? || !ts[0].atom.Bool? then Fail(WrongKind)
      else Ok(BoolV(ts[0].atom.b), ts[1..])
    case Nullable(parse) =>
      if ts != [] && ts[0] == Lit(Null) then Ok(NullV, ts[1..]) else DecText(parse, ts)
    case Slice(elem) =>
      if ts == [] || !ts[0].ArrStart? then Fail(WrongKind) else DecElems(elem, [], ts[1..])
    case Dict(elem) =>
      if ts == [] || !ts[0].ObjStart? then Fail(WrongKind) else DecEntries(elem, recv.entries, ts[1..])
    case RawJson => DecRaw(ts)
    case Record(fields, masks, _) =>
      if ts == [] || !ts[0].ObjStart? then Fail(WrongKind)
      else match DecMembers(sh, Acc(Fill(recv.fields, []), NoneSeen(masks)), ts[1..])
        case Fail(e) => Fail(e)
        case Ok(acc, rest) =>
          var missing := Failures(Names(fields), masks, acc.present);
          if missing != [] then Fail(RequiredMissing(missing))
          else Ok(RecV(acc.fill.fields, acc.fill.extra), rest)
  }

  /** d.RawAppend: one value, kept as it was written. */
  function DecRaw(ts: seq<Token>): (r: Read<Value>)
    ensures r.Ok? ==> |r.rest| < |ts| && r.value.RawV?
  {
    match Parse(ts)
    case None => Fail(Syntax)
    case Some((_, rest)) => Ok(RawV(ts[..|ts| - |rest|]), rest)
  }

  /** d.Arr with an appending callback. */
  function DecElems(elem: Shape, acc: seq<Value>, ts: seq<Token>): (r: Read<Value>)
    requires Wf(elem) && forall i :: 0 <= i < |acc| ==> Shaped(elem, acc[i])
    ensures r.Ok? ==> |r.rest| < |ts| && r.value.ListV?
    ensures r.Ok? ==> forall i :: 0 <= i < |r.value.elems| ==> Shaped(elem, r.value.elems[i])
    decreases |ts|, 1
  {
    if ts == [] then Fail(Syntax)
    else if ts[0].ArrEnd? then Ok(ListV(acc), ts[1..])
    else match Dec(elem, Zero(elem), ts)
      case Fail(e) => Fail(e)
      case Ok(v, rest) => DecElems(elem, acc + [v], rest)
  }

  ghost predicate EntriesShaped(elem: Shape, es: seq<Entry>) {
    forall i :: 0 <= i < |es| ==> Shaped(elem, es[i].value)
  }

  lemma {:induction false} PutShaped(elem: Shape, es: seq<Entry>, e: Entry)
    requires EntriesShaped(elem, es) && Shaped(elem, e.value)
    ensures EntriesShaped(elem, Put(es, e))
  {
    if es != [] && es[0].key != e.key {
      PutShaped(elem, es[1..], e);
    }
  }

  /** d.ObjBytes filling a map. */
  function DecEntries(elem: Shape, acc: seq<Entry>, ts: seq<Token>): (r: Read<Value>)
    requires Wf(elem) && EntriesShaped(elem, acc)
    ensures r.Ok? ==> |r.rest| < |ts| && r.value.DictV? && EntriesShaped(elem, r.value.entries)
    decreases |ts|, 1
  {
    if ts == [] then Fail(Syntax)
    else match ts[0]
      case ObjEnd => Ok(DictV(acc), ts[1..])
      case Key(k) =>
        (match Dec(elem, Zero(elem), ts[1..])
         case Fail(e) => Fail(e)
         case Ok(v, rest) =>
           PutShaped(elem, acc, Entry(k, v));
           DecEntries(elem, Put(acc, Entry(k, v)), rest))
      case _ => Fail(Syntax)
  }

  /** d.ObjBytes with the field switch as callback. */
  function DecMembers(sh: Shape, acc: Acc, ts: seq<Token>): (r: Read<Acc>)
    requires sh.Record? && Wf(sh) && AccOk(sh, acc)
    ensures r.Ok? ==> |r.rest| < |ts| && AccOk(sh, r.value)
    decreases |ts|, 2
  {
    if ts == [] then Fail(Syntax)
    else match ts[0]
      case ObjEnd => Ok(acc, ts[1..])
      case Key(k) =>
        (match DecMember(sh, acc, k, ts[1..])
         case Fail(e) => Fail(e)
         case Ok(next, rest) => DecMembers(sh, next, rest))
      case _ => Fail(Syntax)
  }

  /** One round of the switch: the presence bit is set first, then the value is decoded. */
  function DecMember(sh: Shape, acc: Acc, k: string, ts: seq<Token>): (r: Read<Acc>)
    requires sh.Record? && Wf(sh) && AccOk(sh, acc)
    ensures r.Ok? ==> |r.rest| < |ts| && AccOk(sh, r.value)
    decreases |ts|, 1
  {
    match Find(sh.fields, k)
    case Some(i) =>
      var f := sh.fields[i];
      var present := if IsRequired(f) then Mark(acc.present, i) else acc.present;
      (match Dec(f.shape, FieldReceiver(f, acc.fill.fields[i]), ts)
       case Fail(e) => Fail(e)
       case Ok(v, rest) => Ok(Acc(acc.fill.(fields := acc.fill.fields[i := v]), present), rest))
    case None =>
      if !sh.open then Fail(UnknownField(k))
      else match DecRaw(ts)
        case Fail(e) => Fail(e)
        case Ok(v, rest) =>
          PutShaped(RawJson, acc.fill.extra, Entry(k, v));
          Ok(Acc(acc.fill.(extra := Put(acc.fill.extra, Entry(k, v))), acc.present), rest)
  }
}
