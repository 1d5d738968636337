/**
 The generated Encode and Decode methods as they run: an encoder appends to its buffer, a
 decoder moves along its input and assigns record fields, presence bytes, slices and maps
 step by step. Each is proved to compute what the codec functions say.
 */
module JxCodec {
  import opened Wrappers
  import opened JsonTokens
  import opened PresenceBits
  import opened RecordCodec

  /** jx.Encoder */
  class Encoder {
    var buf: seq<Token>

    constructor ()
      ensures buf == []
    {
      buf := [];
    }

    method Write(t: Token)
      modifies this
      ensures buf == old(buf) + [t]
    {
      buf := buf + [t];
    }

    method Raw(ts: seq<Token>)
      modifies this
      ensures buf == old(buf) + ts
    {
      buf := buf + ts;
    }
  }

  method EncodeValue(e: Encoder, sh: Shape, v: Value)
    requires Shaped(sh, v)
    modifies e
    ensures e.buf == old(e.buf) + Enc(sh, v)
    decreases sh, 1
  {
    match sh {
      case Text(_) => e.Write(Lit(Str(v.text)));
      case Integer(_, _) => e.Write(Lit(Num(v.n)));
      case Boolean => e.Write(Lit(Bool(v.b)));
      case Nullable(_) =>
        if v.NullV? {
          e.Write(Lit(Null));
          return;
        }
        e.Write(Lit(Str(v.text)));
      case Slice(elem) => EncodeSlice(e, elem, v);
      case Dict(elem) => EncodeMap(e, elem, v.entries);
      case RawJson => e.Raw(v.tokens);
      case Record(_, _, _) => EncodeRecord(e, sh, v);
    }
  }

  method EncodeSlice(e: Encoder, elem: Shape, v: Value)
    requires Shaped(Slice(elem), v)
    modifies e
    ensures e.buf == old(e.buf) + Enc(Slice(elem), v)
    decreases elem, 3
  {
    var elems := if v.Unset? then [] else v.elems;
    ghost var before := e.buf;
    e.Write(ArrStart);
    EncodeElems(e, elem, elems);
    e.Write(ArrEnd);
    Regroup(before, [ArrStart], EncElems(elem, elems), [ArrEnd]);
  }

  /** The loop over the elements. */
  method EncodeElems(e: Encoder, elem: Shape, elems: seq<Value>)
    requires forall i :: 0 <= i < |elems| ==> Shaped(elem, elems[i])
    modifies e
    ensures e.buf == old(e.buf) + EncElems(elem, elems)
    decreases elem, 2
  {
    for i := 0 to |elems|
      invariant old(e.buf) + EncElems(elem, elems) == e.buf + EncElems(elem, elems[i..])
    {
      ghost var before, tail := e.buf, elems[i + 1..];
      assert elems[i..][1..] == tail;
      EncodeValue(e, elem, elems[i]);
      Regroup(before, [], Enc(elem, elems[i]), EncElems(elem, tail));
    }
  }

  method EncodeMap(e: Encoder, elem: Shape, entries: seq<Entry>)
    requires EntriesShaped(elem, entries)
    modifies e
    ensures e.buf == old(e.buf) + Enc(Dict(elem), DictV(entries))
    decreases elem, 3
  {
    ghost var before := e.buf;
    e.Write(ObjStart);
    EncodeEntries(e, elem, entries);
    e.Write(ObjEnd);
    Regroup(before, [ObjStart], EncEntries(elem, entries), [ObjEnd]);
  }

  /** encodeFields of a map type: the range loop over its entries. */
  method EncodeEntries(e: Encoder, elem: Shape, entries: seq<Entry>)
    requires EntriesShaped(elem, entries)
    modifies e
    ensures e.buf == old(e.buf) + EncEntries(elem, entries)
    decreases elem, 2
  {
    for i := 0 to |entries|
      invariant old(e.buf) + EncEntries(elem, entries) == e.buf + EncEntries(elem, entries[i..])
    {
      ghost var before, tail := e.buf, entries[i + 1..];
      assert entries[i..][1..] == tail;
      e.Write(Key(entries[i].key));
      EncodeValue(e, elem, entries[i].value);
      Regroup(before, [Key(entries[i].key)], Enc(elem, entries[i].value), EncEntries(elem, tail));
    }
  }

  lemma Regroup(a: seq<Token>, b: seq<Token>, c: seq<Token>, d: seq<Token>)
    ensures a + (b + c + d) == a + b + c + d
    ensures b == [] ==> a + (c + d) == a + c + d
  {
  }

  lemma RegroupAround(a: seq<Token>, b: seq<Token>, c: seq<Token>, d: seq<Token>, f: seq<Token>)
    ensures a + b + c + d + f == a + (b + c + d + f)
  {
  }

  method EncodeRecord(e: Encoder, sh: Shape, v: Value)
    requires sh.Record? && Shaped(sh, v)
    modifies e
    ensures e.buf == old(e.buf) + Enc(sh, v)
    decreases sh, 0, 1
  {
    ghost var before := e.buf;
    e.Write(ObjStart);
    EncodeFields(e, sh, v);
    e.Write(ObjEnd);
    RegroupAround(before, [ObjStart], EncFields(sh, v, 0), EncExtra(v.extra), [ObjEnd]);
  }

  /** encodeFields of a record: the table in order, then the extension members. */
  method EncodeFields(e: Encoder, sh: Shape, v: Value)
    requires sh.Record? && Shaped(sh, v)
    modifies e
    ensures e.buf == old(e.buf) + EncFields(sh, v, 0) + EncExtra(v.extra)
    decreases sh, 0, 0
  {
    assert FieldsShaped(sh.fields, v.fields);
    for i := 0 to |sh.fields|
      invariant old(e.buf) + EncFields(sh, v, 0) == e.buf + EncFields(sh, v, i)
    {
      EncodeField(e, sh.fields[i], v.fields[i]);
    }
    assert e.buf == old(e.buf) + EncFields(sh, v, 0);
    EncodeExtensions(e, v.extra);
  }

  method EncodeField(e: Encoder, f: Field, v: Value)
    requires FieldShaped(f, v)
    modifies e
    ensures e.buf == old(e.buf) + EncField(f, v)
    decreases f
  {
    if f.presence.Optional? && v.Unset? {
      return;
    }
    e.Write(Key(f.name));
    if f.presence.Fixed? {
      e.Write(Lit(Str(f.presence.text)));
    } else {
      EncodeValue(e, f.shape, v);
    }
  }

  method EncodeExtensions(e: Encoder, extra: seq<Entry>)
    requires forall i :: 0 <= i < |extra| ==> extra[i].value.RawV?
    modifies e
    ensures e.buf == old(e.buf) + EncExtra(extra)
  {
    for i := 0 to |extra|
      invariant old(e.buf) + EncExtra(extra) == e.buf + EncExtra(extra[i..])
    {
      var elem := extra[i].value.tokens;
      e.Write(Key(extra[i].key));
      if |elem| != 0 {
        e.Raw(elem);
      }
      assert extra[i..][1..] == extra[i + 1..];
    }
  }

  /** jx.Decoder */
  class Decoder {
    const input: seq<Token>
    var pos: nat

    constructor (ts: seq<Token>)
      ensures input == ts && Valid() && Rest() == ts
    {
      input := ts;
      pos := 0;
    }

    predicate Valid()
      reads this
    {
      pos <= |input|
    }

    function Rest(): seq<Token>
      requires Valid()
      reads this
    {
      input[pos..]
    }

    /** Moves past the next token. */
    method Skip()
      requires Valid() && Rest() != []
      modifies this
      ensures Valid() && pos == old(pos) + 1 && Rest() == old(Rest())[1..]
    {
      pos := pos + 1;
    }
  }

  datatype Outcome<+T> = Got(value: T) | Err(error: Error)

  /** The outcome of a decode call and the decoder's new position are those of a codec function. */
  ghost predicate Matches<T(!new)>(r: Outcome<T>, d: Decoder, spec: Read<T>)
    reads d
  {
    match spec
    case Ok(v, rest) => r == Got(v) && d.Valid() && d.Rest() == rest
    case Fail(e) => r == Err(e)
  }

  method DecodeText(d: Decoder, parse: Parser) returns (r: Outcome<Value>)
    requires d.Valid()
    modifies d
    ensures Matches(r, d, DecText(parse, old(d.Rest()))) && d.Valid() && d.pos >= old(d.pos)
  {
    if d.pos == |d.input| || !d.input[d.pos].Lit? || !d.input[d.pos].atom.Str? {
      return Err(WrongKind);
    }
    var parsed := parse(d.input[d.pos].atom.text);
    if parsed.None? {
      return Err(BadText);
    }
    d.Skip();
    return Got(StrV(parsed.value));
  }

  method DecodeRaw(d: Decoder) returns (r: Outcome<Value>)
    requires d.Valid()
    modifies d
    ensures Matches(r, d, DecRaw(old(d.Rest()))) && d.Valid() && d.pos >= old(d.pos)
  {
    var parsed := Parse(d.Rest());
    if parsed.None? {
      return Err(Syntax);
    }
    var n := |d.Rest()| - |parsed.value.1|;
    PrintParse(d.Rest());
    r := Got(RawV(d.Rest()[..n]));
    d.pos := d.pos + n;
  }

  method DecodeValue(d: Decoder, sh: Shape, recv: Value) returns (r: Outcome<Value>)
    requires d.Valid() && Wf(sh) && Shaped(sh, recv)
    modifies d
    ensures d.Valid() && Matches(r, d, Dec(sh, recv, old(d.Rest())))
    ensures d.pos >= old(d.pos) && (r.Got? ==> d.pos > old(d.pos))
    decreases |d.input| - d.pos, 0
  {
    ghost var ts := d.Rest();
    match sh {
      case Text(parse) => r := DecodeText(d, parse);
      case Integer(lo, hi) =>
        if d.pos == |d.input| || !d.input[d.pos].Lit? || !d.input[d.pos].atom.Num? {
          return Err(WrongKind);
        }
        var n := d.input[d.pos].atom.n;
        if !(lo <= n <= hi) {
          return Err(OutOfRange);
        }
        d.Skip();
        return Got(IntV(n));
      case Boolean =>
        if d.pos == |d.input| || !d.input[d.pos].Lit? || !d.input[d.pos].atom.Bool? {
          return Err(WrongKind);
        }
        r := Got(BoolV(d.input[d.pos].atom.b));
        d.Skip();
      case Nullable(parse) =>
        if d.pos < |d.input| && d.input[d.pos] == Lit(Null) {
          d.Skip();
          return Got(NullV);
        }
        r := DecodeText(d, parse);
      case Slice(elem) =>
        if d.pos == |d.input| || !d.input[d.pos].ArrStart? {
          return Err(WrongKind);
        }
        d.Skip();
        r := DecodeSlice(d, elem);
      case Dict(elem) =>
        if d.pos == |d.input| || !d.input[d.pos].ObjStart? {
          return Err(WrongKind);
        }
        d.Skip();
        r := DecodeMap(d, elem, recv.entries);
      case RawJson => r := DecodeRaw(d);
      case Record(fields, masks, _) =>
        if d.pos == |d.input| || !d.input[d.pos].ObjStart? {
          return Err(WrongKind);
        }
        d.Skip();
        r := DecodeRecord(d, sh, recv);
    }
  }

  method DecodeSlice(d: Decoder, elem: Shape) returns (r: Outcome<Value>)
    requires d.Valid() && Wf(elem)
    modifies d
    ensures d.Valid() && Matches(r, d, DecElems(elem, [], old(d.Rest())))
    ensures d.pos >= old(d.pos) && (r.Got? ==> d.pos > old(d.pos))
    decreases |d.input| - d.pos, 1
  {
    var elems: seq<Value> := [];
    ghost var spec := DecElems(elem, [], d.Rest());
    while true
      invariant d.Valid() && d.pos >= old(d.pos)
      invariant forall i :: 0 <= i < |elems| ==> Shaped(elem, elems[i])
      invariant spec == DecElems(elem, elems, d.Rest())
      decreases |d.input| - d.pos
    {
      if d.pos == |d.input| {
        return Err(Syntax);
      }
      if d.input[d.pos].ArrEnd? {
        d.Skip();
        return Got(ListV(elems));
      }
      var item := DecodeValue(d, elem, Zero(elem));
      if item.Err? {
        return Err(item.error);
      }
      elems := elems + [item.value];
    }
  }

  method DecodeMap(d: Decoder, elem: Shape, recv: seq<Entry>) returns (r: Outcome<Value>)
    requires d.Valid() && Wf(elem) && EntriesShaped(elem, recv)
    modifies d
    ensures d.Valid() && Matches(r, d, DecEntries(elem, recv, old(d.Rest())))
    ensures d.pos >= old(d.pos) && (r.Got? ==> d.pos > old(d.pos))
    decreases |d.input| - d.pos, 1
  {
    var m := recv;
    ghost var spec := DecEntries(elem, recv, d.Rest());
    while true
      invariant d.Valid() && d.pos >= old(d.pos)
      invariant EntriesShaped(elem, m)
      invariant spec == DecEntries(elem, m, d.Rest())
      decreases |d.input| - d.pos
    {
      if d.pos == |d.input| {
        return Err(Syntax);
      }
      match d.input[d.pos] {
        case ObjEnd =>
          d.Skip();
          return Got(DictV(m));
        case Key(k) =>
          d.Skip();
          var item := DecodeValue(d, elem, Zero(elem));
          if item.Err? {
            return Err(item.error);
          }
          PutShaped(elem, m, Entry(k, item.value));
          m := Put(m, Entry(k, item.value));
        case _ => return Err(Syntax);
      }
    }
  }

  /** Everything of a generated Decode that follows the opening brace. */
  method DecodeRecord(d: Decoder, sh: Shape, recv: Value) returns (r: Outcome<Value>)
    requires d.Valid() && sh.Record? && Wf(sh) && Shaped(sh, recv)
    requires d.pos > 0 && d.input[d.pos - 1].ObjStart?
    modifies d
    ensures d.Valid() && Matches(r, d, Dec(sh, recv, d.input[old(d.pos) - 1..]))
    ensures d.pos >= old(d.pos) && (r.Got? ==> d.pos > old(d.pos))
    decreases |d.input| - d.pos, 1
  {
    assert FieldsShaped(sh.fields, recv.fields);
    ghost var ts := d.input[d.pos - 1..];
    assert ts[1..] == d.Rest();
    var acc := Acc(Fill(recv.fields, []), NoneSeen(sh.masks));
    ghost var spec := DecMembers(sh, acc, d.Rest());
    while true
      invariant d.Valid() && d.pos >= old(d.pos) && AccOk(sh, acc)
      invariant spec == DecMembers(sh, acc, d.Rest())
      decreases |d.input| - d.pos
    {
      if d.pos == |d.input| {
        return Err(Syntax);
      }
      match d.input[d.pos] {
        case ObjEnd =>
          d.Skip();
          break;
        case Key(k) =>
          d.Skip();
          var step := DecodeMember(d, sh, acc, k);
          if step.Err? {
            return Err(step.error);
          }
          acc := step.value;
        case _ => return Err(Syntax);
      }
    }
    var failures := CollectFailures(Names(sh.fields), sh.masks, acc.present);
    if |failures| > 0 {
      return Err(RequiredMissing(failures));
    }
    return Got(RecV(acc.fill.fields, acc.fill.extra));
  }

  /** The field switch: set the presence bit, then decode into the field. */
  method DecodeMember(d: Decoder, sh: Shape, acc: Acc, k: string) returns (r: Outcome<Acc>)
    requires d.Valid() && sh.Record? && Wf(sh) && AccOk(sh, acc)
    modifies d
    ensures d.Valid() && d.pos >= old(d.pos) && Matches(r, d, DecMember(sh, acc, k, old(d.Rest())))
    ensures r.Got? ==> AccOk(sh, r.value)
    decreases |d.input| - d.pos, 1
  {
    var found := Find(sh.fields, k);
    if found.Some? {
      var i := found.value;
      var f := sh.fields[i];
      var present := acc.present;
      if IsRequired(f) {
        present := Mark(present, i);
      }
      var item := DecodeValue(d, f.shape, FieldReceiver(f, acc.fill.fields[i]));
      if item.Err? {
        return Err(item.error);
      }
      return Got(Acc(acc.fill.(fields := acc.fill.fields[i := item.value]), present));
    }
    if !sh.open {
      return Err(UnknownField(k));
    }
    var raw := DecodeRaw(d);
    if raw.Err? {
      return Err(raw.error);
    }
    return Got(Acc(acc.fill.(extra := Put(acc.fill.extra, Entry(k, raw.value))), acc.present));
  }
}
