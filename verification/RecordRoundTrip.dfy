/**
 Printing and then decoding. The central result, `RoundTrip`, holds for every table, every
 value, every receiver and any tokens that follow; the rest of the file draws its consequences.
 */
module RecordRoundTrip {
  import opened Wrappers
  import opened JsonTokens
  import opened PresenceBits
  import opened RecordCodec
  import opened RecordTree

  // ---- what can be printed and read back ------------------------------------------------

  function KeysOf(es: seq<Entry>): (r: seq<string>)
    ensures |r| == |es| && forall i :: 0 <= i < |es| ==> r[i] == es[i].key
  {
    seq(|es|, i requires 0 <= i < |es| => es[i].key)
  }

  /**
   Values whose printed form means what they say: texts in canonical spelling, map keys
   distinct, raw values exactly one JSON value, extension keys different from the named ones.
   */
  ghost predicate Conforms(sh: Shape, v: Value) {
    match sh
    case Text(parse) => v.StrV? && parse(v.text) == Some(v.text)
    case Integer(lo, hi) => v.IntV? && lo <= v.n <= hi
    case Boolean => v.BoolV?
    case Nullable(parse) => v.NullV? || (v.StrV? && parse(v.text) == Some(v.text))
    case Slice(elem) => v.Unset? || (v.ListV? && forall i :: 0 <= i < |v.elems| ==> Conforms(elem, v.elems[i]))
    case Dict(elem) =>
      && v.DictV? && Distinct(KeysOf(v.entries))
      && forall i :: 0 <= i < |v.entries| ==> Conforms(elem, v.entries[i].value)
    case RawJson => v.RawV? && IsOneValue(v.tokens)
    case Record(fields, _, open) =>
      && v.RecV? && |v.fields| == |fields|
      && (forall i :: 0 <= i < |fields| ==> ConformsField(fields[i], v.fields[i]))
      && ExtraOk(fields, open, v.extra)
  }

  ghost predicate ConformsField(f: Field, v: Value) {
    match f.presence
    case Required => Conforms(f.shape, v)
    case Fixed(_) => f.shape.Text? && v.StrV?
    case Optional => v.Unset? || Conforms(f.shape, v)
  }

  ghost predicate ExtraOk(fields: seq<Field>, open: bool, extra: seq<Entry>) {
    && (open || extra == [])
    && Distinct(KeysOf(extra))
    && forall i :: 0 <= i < |extra| ==>
         extra[i].key !in Names(fields) && extra[i].value.RawV? && IsOneValue(extra[i].value.tokens)
  }

  lemma {:induction false} ConformsShaped(sh: Shape, v: Value)
    requires Conforms(sh, v)
    ensures Shaped(sh, v)
    decreases sh
  {
    match sh {
      case Slice(elem) =>
        if v.ListV? {
          forall i | 0 <= i < |v.elems| ensures Shaped(elem, v.elems[i]) {
            ConformsShaped(elem, v.elems[i]);
          }
        }
      case Dict(elem) =>
        forall i | 0 <= i < |v.entries| ensures Shaped(elem, v.entries[i].value) {
          ConformsShaped(elem, v.entries[i].value);
        }
      case Record(fields, _, _) =>
        forall i | 0 <= i < |fields| ensures FieldShaped(fields[i], v.fields[i]) {
          ConformsFieldShaped(fields[i], v.fields[i]);
        }
      case _ =>
    }
  }

  lemma {:induction false} ConformsFieldShaped(f: Field, v: Value)
    requires ConformsField(f, v)
    ensures FieldShaped(f, v)
    decreases f
  {
    if !f.presence.Fixed? && Conforms(f.shape, v) {
      ConformsShaped(f.shape, v);
    }
  }

  // ---- what comes back ------------------------------------------------------------------

  /**
   The value with nil slices replaced by empty ones inside it; unless `keep`, fixed fields
   are set to the constant that is printed for them.
   */
  function Tidy(sh: Shape, v: Value, keep: bool): (r: Value)
    requires Shaped(sh, v)
    ensures Shaped(sh, r)
    decreases sh, 1
  {
    match sh
    case Slice(elem) =>
      if v.Unset? then ListV([])
      else ListV(TidyElems(elem, v.elems, keep))
    case Dict(elem) => DictV(TidyEntries(elem, v.entries, keep))
    case Record(fields, _, _) =>
      assert FieldsShaped(fields, v.fields);
      RecV(seq(|fields|, i requires 0 <= i < |fields| => TidyField(fields[i], v.fields[i], keep)), v.extra)
    case _ => v
  }

  function TidyElems(elem: Shape, vs: seq<Value>, keep: bool): (r: seq<Value>)
    requires forall i :: 0 <= i < |vs| ==> Shaped(elem, vs[i])
    ensures |r| == |vs| && forall i :: 0 <= i < |vs| ==> r[i] == Tidy(elem, vs[i], keep) && Shaped(elem, r[i])
    decreases elem, 2
  {
    seq(|vs|, i requires 0 <= i < |vs| => Tidy(elem, vs[i], keep))
  }

  function TidyEntries(elem: Shape, es: seq<Entry>, keep: bool): (r: seq<Entry>)
    requires EntriesShaped(elem, es)
    ensures EntriesShaped(elem, r) && |r| == |es|
    ensures forall i :: 0 <= i < |es| ==> r[i] == Entry(es[i].key, Tidy(elem, es[i].value, keep))
    decreases elem, 2
  {
    seq(|es|, i requires 0 <= i < |es| => Entry(es[i].key, Tidy(elem, es[i].value, keep)))
  }

  function TidyField(f: Field, v: Value, keep: bool): (r: Value)
    requires FieldShaped(f, v)
    ensures FieldShaped(f, r)
    decreases f, 0
  {
    match f.presence
    case Required => Tidy(f.shape, v, keep)
    case Fixed(text) => if keep || !f.shape.Text? then Tidy(f.shape, v, keep) else StrV(text)
    case Optional => if v.Unset? then Unset else Tidy(f.shape, v, keep)
  }

  /** The value read back into a zero receiver. */
  function Norm(sh: Shape, v: Value): Value
    requires Shaped(sh, v)
  {
    Tidy(sh, v, false)
  }

  function PutAll(acc: seq<Entry>, es: seq<Entry>): seq<Entry>
    decreases |es|
  {
    if es == [] then acc else PutAll(Put(acc, es[0]), es[1..])
  }

  /** The value read back into an arbitrary receiver: what the object does not mention stays. */
  function Overlay(sh: Shape, recv: Value, v: Value): Value
    requires Shaped(sh, recv) && Shaped(sh, v)
    decreases sh
  {
    match sh
    case Dict(elem) => DictV(PutAll(recv.entries, TidyEntries(elem, v.entries, false)))
    case Record(fields, _, _) =>
      assert FieldsShaped(fields, v.fields) && FieldsShaped(fields, recv.fields);
      RecV(seq(|fields|, i requires 0 <= i < |fields| => OverlayField(fields[i], recv.fields[i], v.fields[i])), v.extra)
    case _ => Norm(sh, v)
  }

  function OverlayField(f: Field, cur: Value, v: Value): Value
    requires FieldShaped(f, cur) && FieldShaped(f, v)
    decreases f
  {
    match f.presence
    case Required => Overlay(f.shape, cur, v)
    case Fixed(text) => if f.shape.Text? then StrV(text) else Overlay(f.shape, cur, v)
    case Optional => if v.Unset? then cur else Norm(f.shape, v)
  }

  // ---- the tree that is printed ---------------------------------------------------------

  ghost function TreeOf(sh: Shape, v: Value): Json
    requires Conforms(sh, v)
    decreases sh, 1, 0
  {
    match sh
    case Text(_) => Leaf(Str(v.text))
    case Integer(_, _) => Leaf(Num(v.n))
    case Boolean => Leaf(Bool(v.b))
    case Nullable(_) => if v.NullV? then Leaf(Null) else Leaf(Str(v.text))
    case Slice(elem) =>
      if v.Unset? then Arr([]) else Arr(ElemTrees(elem, v.elems))
    case Dict(elem) => Obj(EntryTrees(elem, v.entries))
    case RawJson => Parse(v.tokens).value.0
    case Record(fields, _, open) => Obj(FieldTrees(sh, v, 0))
  }

  ghost function ElemTrees(elem: Shape, vs: seq<Value>): (r: seq<Json>)
    requires forall i :: 0 <= i < |vs| ==> Conforms(elem, vs[i])
    ensures |r| == |vs|
    decreases elem, 2, |vs|
  {
    if vs == [] then [] else [TreeOf(elem, vs[0])] + ElemTrees(elem, vs[1..])
  }

  ghost function EntryTrees(elem: Shape, es: seq<Entry>): (r: seq<Member>)
    requires forall i :: 0 <= i < |es| ==> Conforms(elem, es[i].value)
    ensures |r| == |es|
    decreases elem, 2, |es|
  {
    if es == [] then [] else [Member(es[0].key, TreeOf(elem, es[0].value))] + EntryTrees(elem, es[1..])
  }

  ghost function ExtraTrees(es: seq<Entry>): (r: seq<Member>)
    requires forall i :: 0 <= i < |es| ==> es[i].value.RawV? && IsOneValue(es[i].value.tokens)
    ensures |r| == |es|
  {
    if es == [] then []
    else
      assert IsOneValue(es[0].value.tokens);
      [Member(es[0].key, Parse(es[0].value.tokens).value.0)] + ExtraTrees(es[1..])
  }

  /** The members printed from field `i` on, extension members last. */
  ghost function FieldTrees(sh: Shape, v: Value, i: nat): seq<Member>
    requires sh.Record? && Conforms(sh, v) && i <= |sh.fields|
    decreases sh, 0, |sh.fields| - i
  {
    if i == |sh.fields| then ExtraTrees(v.extra)
    else FieldTree(sh.fields[i], v.fields[i]) + FieldTrees(sh, v, i + 1)
  }

  ghost function FieldTree(f: Field, v: Value): (r: seq<Member>)
    requires ConformsField(f, v)
    ensures |r| <= 1 && (r == [] <==> f.presence.Optional? && v.Unset?)
    ensures r != [] ==> r[0].key == f.name
    decreases f.shape, 3, 0
  {
    match f.presence
    case Required => [Member(f.name, TreeOf(f.shape, v))]
    case Fixed(text) => [Member(f.name, Leaf(Str(text)))]
    case Optional => if v.Unset? then [] else [Member(f.name, TreeOf(f.shape, v))]
  }

  /** The encoder prints exactly that tree. */
  lemma {:induction false} EncPrintsTree(sh: Shape, v: Value)
    requires Conforms(sh, v) && Shaped(sh, v)
    ensures Enc(sh, v) == Print(TreeOf(sh, v))
    decreases sh, 1, 0
  {
    match sh {
      case Slice(elem) =>
        if v.ListV? {
          EncPrintsElems(elem, v.elems);
        }
      case Dict(elem) => EncPrintsEntries(elem, v.entries);
      case RawJson => PrintParse(v.tokens);
      case Record(fields, _, _) => EncPrintsFields(sh, v, 0);
      case _ =>
    }
  }

  lemma {:induction false} EncPrintsElems(elem: Shape, vs: seq<Value>)
    requires forall i :: 0 <= i < |vs| ==> Conforms(elem, vs[i]) && Shaped(elem, vs[i])
    ensures EncElems(elem, vs) == PrintElems(ElemTrees(elem, vs))
    decreases elem, 2, |vs|
  {
    if vs != [] {
      EncPrintsTree(elem, vs[0]);
      EncPrintsElems(elem, vs[1..]);
      assert ElemTrees(elem, vs)[1..] == ElemTrees(elem, vs[1..]);
    }
  }

  lemma {:induction false} EncPrintsEntries(elem: Shape, es: seq<Entry>)
    requires forall i :: 0 <= i < |es| ==> Conforms(elem, es[i].value) && Shaped(elem, es[i].value)
    ensures EncEntries(elem, es) == PrintMembers(EntryTrees(elem, es))
    decreases elem, 2, |es|
  {
    if es != [] {
      EncPrintsTree(elem, es[0].value);
      EncPrintsEntries(elem, es[1..]);
      assert EntryTrees(elem, es)[1..] == EntryTrees(elem, es[1..]);
    }
  }

  lemma {:induction false} EncPrintsExtra(es: seq<Entry>)
    requires forall i :: 0 <= i < |es| ==> es[i].value.RawV? && IsOneValue(es[i].value.tokens)
    ensures EncExtra(es) == PrintMembers(ExtraTrees(es))
  {
    if es != [] {
      PrintParse(es[0].value.tokens);
      EncPrintsExtra(es[1..]);
      assert ExtraTrees(es)[1..] == ExtraTrees(es[1..]);
    }
  }

  lemma {:induction false} EncPrintsFields(sh: Shape, v: Value, i: nat)
    requires sh.Record? && Conforms(sh, v) && Shaped(sh, v) && i <= |sh.fields|
    ensures EncFields(sh, v, i) + EncExtra(v.extra) == PrintMembers(FieldTrees(sh, v, i))
    decreases sh, 0, |sh.fields| - i
  {
    if i == |sh.fields| {
      EncPrintsExtra(v.extra);
    } else {
      var f := sh.fields[i];
      EncPrintsFields(sh, v, i + 1);
      EncPrintsField(f, v.fields[i]);
      PrintAfterOne(FieldTree(f, v.fields[i]), FieldTrees(sh, v, i + 1));
      Reassociated(EncField(f, v.fields[i]), EncFields(sh, v, i + 1), EncExtra(v.extra));
    }
  }

  lemma PrintAfterOne(one: seq<Member>, tail: seq<Member>)
    requires |one| <= 1
    ensures PrintMembers(one + tail)
         == (if one == [] then [] else [Key(one[0].key)] + Print(one[0].value)) + PrintMembers(tail)
  {
    assert one == [] ==> one + tail == tail && [] + PrintMembers(tail) == PrintMembers(tail);
    assert one != [] ==> (one + tail)[1..] == tail;
  }

  lemma Reassociated(a: seq<Token>, b: seq<Token>, c: seq<Token>)
    ensures a + b + c == a + (b + c)
  {
  }

  lemma {:induction false} EncPrintsField(f: Field, v: Value)
    requires ConformsField(f, v) && FieldShaped(f, v)
    ensures FieldTree(f, v) == [] ==> EncField(f, v) == []
    ensures FieldTree(f, v) != [] ==> EncField(f, v) == [Key(f.name)] + Print(FieldTree(f, v)[0].value)
    decreases f.shape, 3, 0
  {
    if !f.presence.Fixed? && FieldTree(f, v) != [] {
      EncPrintsTree(f.shape, v);
    }
  }

  // ---- decoding the printed tree ---------------------------------------------------------

  lemma {:induction false} PutFresh(es: seq<Entry>, e: Entry)
    requires e.key !in KeysOf(es)
    ensures Put(es, e) == es + [e]
  {
    if es != [] {
      assert KeysOf(es)[0] == es[0].key;
      assert KeysOf(es[1..]) == KeysOf(es)[1..];
      PutFresh(es[1..], e);
    }
  }

  /** Adding entries with fresh, distinct keys one by one just appends them. */
  lemma {:induction false} PutAllFresh(acc: seq<Entry>, es: seq<Entry>)
    requires Distinct(KeysOf(acc + es))
    ensures PutAll(acc, es) == acc + es
    decreases |es|
  {
    if es != [] {
      var ks := KeysOf(acc + es);
      forall i | 0 <= i < |acc| ensures KeysOf(acc)[i] != es[0].key {
        assert ks[i] != ks[|acc|];
      }
      PutFresh(acc, es[0]);
      assert acc + es == (acc + [es[0]]) + es[1..];
      PutAllFresh(acc + [es[0]], es[1..]);
    }
  }

  lemma TidyKeys(elem: Shape, es: seq<Entry>, keep: bool)
    requires EntriesShaped(elem, es)
    ensures KeysOf(TidyEntries(elem, es, keep)) == KeysOf(es)
  {
  }

  /** Into a zero receiver, overlaying is normalising. */
  lemma {:induction false} OverlayZero(sh: Shape, v: Value)
    requires Wf(sh) && Conforms(sh, v) && Shaped(sh, v)
    ensures Overlay(sh, Zero(sh), v) == Norm(sh, v)
    decreases sh
  {
    match sh {
      case Dict(elem) =>
        var es := TidyEntries(elem, v.entries, false);
        TidyKeys(elem, v.entries, false);
        assert [] + es == es;
        PutAllFresh([], es);
      case Record(fields, _, _) =>
        var o, n := Overlay(sh, Zero(sh), v).fields, Norm(sh, v).fields;
        forall i | 0 <= i < |fields| ensures o[i] == n[i] {
          assert ConformsField(fields[i], v.fields[i]) && FieldShaped(fields[i], v.fields[i]);
          OverlayZeroField(fields[i], v.fields[i]);
        }
        assert o == n;
      case _ =>
    }
  }

  lemma {:induction false} OverlayZeroField(f: Field, v: Value)
    requires WfField(f) && ConformsField(f, v) && FieldShaped(f, v)
    ensures OverlayField(f, ZeroField(f), v) == TidyField(f, v, false)
    decreases f
  {
    if f.presence.Required? {
      OverlayZero(f.shape, v);
    }
  }

  lemma {:induction false} TreeBack(sh: Shape, recv: Value, v: Value)
    requires Wf(sh) && Shaped(sh, recv) && Conforms(sh, v) && Shaped(sh, v)
    ensures TreeDec(sh, recv, TreeOf(sh, v)) == Some(Overlay(sh, recv, v))
    decreases sh, 1, 0
  {
    match sh {
      case Slice(elem) =>
        if v.ListV? {
          ElemsBack(elem, v.elems);
        }
      case Dict(elem) => EntriesBack(elem, recv.entries, v.entries);
      case RawJson =>
        PrintParse(v.tokens);
        var printed := Print(TreeOf(sh, v));
        assert printed + [] == printed == v.tokens;
        assert v == RawV(printed) == Overlay(sh, recv, v);
      case Record(fields, _, _) =>
        FieldsBack(sh, recv, v, 0, Fill(recv.fields, []));
        RequiredPrinted(sh, v, 0);
      case _ =>
    }
  }

  lemma {:induction false} ElemsBack(elem: Shape, vs: seq<Value>)
    requires Wf(elem) && forall i :: 0 <= i < |vs| ==> Conforms(elem, vs[i]) && Shaped(elem, vs[i])
    ensures TreeElems(elem, ElemTrees(elem, vs)) == Some(TidyElems(elem, vs, false))
    decreases elem, 2, |vs|
  {
    if vs != [] {
      var tail := vs[1..];
      TreeBack(elem, Zero(elem), vs[0]);
      OverlayZero(elem, vs[0]);
      ElemsBack(elem, tail);
      ElemsCons(elem, TreeOf(elem, vs[0]), ElemTrees(elem, tail));
      TidyElemsCons(elem, vs);
    }
  }

  lemma TidyElemsCons(elem: Shape, vs: seq<Value>)
    requires vs != [] && forall i :: 0 <= i < |vs| ==> Shaped(elem, vs[i])
    ensures TidyElems(elem, vs, false) == [Norm(elem, vs[0])] + TidyElems(elem, vs[1..], false)
  {
  }

  lemma {:induction false} EntriesBack(elem: Shape, acc: seq<Entry>, es: seq<Entry>)
    requires Wf(elem) && EntriesShaped(elem, acc) && EntriesShaped(elem, es)
    requires forall i :: 0 <= i < |es| ==> Conforms(elem, es[i].value)
    ensures TreeEntries(elem, acc, EntryTrees(elem, es)) == Some(PutAll(acc, TidyEntries(elem, es, false)))
    decreases elem, 2, |es|
  {
    if es != [] {
      var tail := es[1..];
      TreeBack(elem, Zero(elem), es[0].value);
      OverlayZero(elem, es[0].value);
      var e := Entry(es[0].key, Norm(elem, es[0].value));
      PutShaped(elem, acc, e);
      EntriesBack(elem, Put(acc, e), tail);
      EntriesCons(elem, acc, Member(es[0].key, TreeOf(elem, es[0].value)), EntryTrees(elem, tail));
      PutAllTidy(elem, acc, es);
    }
  }

  lemma PutAllTidy(elem: Shape, acc: seq<Entry>, es: seq<Entry>)
    requires EntriesShaped(elem, es) && es != []
    ensures EntriesShaped(elem, es[1..])
    ensures PutAll(acc, TidyEntries(elem, es, false))
         == PutAll(Put(acc, Entry(es[0].key, Norm(elem, es[0].value))), TidyEntries(elem, es[1..], false))
  {
    assert TidyEntries(elem, es, false)[1..] == TidyEntries(elem, es[1..], false);
  }

  lemma {:induction false} ExtraBack(sh: Shape, fill: Fill, es: seq<Entry>)
    requires sh.Record? && Wf(sh) && FillOk(sh, fill) && (sh.open || es == [])
    requires Distinct(KeysOf(fill.extra + es))
    requires forall i :: 0 <= i < |es| ==>
               es[i].key !in Names(sh.fields) && es[i].value.RawV? && IsOneValue(es[i].value.tokens)
    ensures TreeMembers(sh, fill, ExtraTrees(es)) == Some(fill.(extra := fill.extra + es))
    decreases |es|
  {
    if es == [] {
      assert fill.extra + [] == fill.extra;
    } else {
      var e := es[0];
      PrintParse(e.value.tokens);
      assert e == Entry(e.key, RawV(Print(Parse(e.value.tokens).value.0)));
      var ks := KeysOf(fill.extra + es);
      forall i | 0 <= i < |fill.extra| ensures KeysOf(fill.extra)[i] != e.key {
        assert ks[i] != ks[|fill.extra|];
      }
      PutFresh(fill.extra, e);
      PutShaped(RawJson, fill.extra, e);
      NotNamed(sh.fields, e.key);
      var next := fill.(extra := fill.extra + [e]);
      assert next.extra + es[1..] == fill.extra + es;
      ExtraBack(sh, next, es[1..]);
      assert ExtraTrees(es)[1..] == ExtraTrees(es[1..]);
    }
  }

  lemma NotNamed(fields: seq<Field>, key: string)
    requires key !in Names(fields)
    ensures Find(fields, key) == None
  {
  }

  /** The receiver after the first `i` fields have been decoded. */
  ghost predicate Halfway(sh: Shape, recv: Value, v: Value, i: nat, fill: Fill)
    requires sh.Record? && Wf(sh) && Shaped(sh, recv) && Shaped(sh, v)
  {
    && FieldsShaped(sh.fields, v.fields) && FieldsShaped(sh.fields, recv.fields)
    && FillOk(sh, fill) && fill.extra == []
    && forall k :: 0 <= k < |sh.fields| ==>
         fill.fields[k] == if k < i then OverlayField(sh.fields[k], recv.fields[k], v.fields[k]) else recv.fields[k]
  }

  lemma {:induction false} FieldsBack(sh: Shape, recv: Value, v: Value, i: nat, fill: Fill)
    requires sh.Record? && Wf(sh) && Shaped(sh, recv) && Conforms(sh, v) && Shaped(sh, v)
    requires i <= |sh.fields| && Halfway(sh, recv, v, i, fill)
    ensures TreeMembers(sh, fill, FieldTrees(sh, v, i)) == Some(Fill(Overlay(sh, recv, v).fields, v.extra))
    decreases sh, 0, |sh.fields| - i
  {
    if i == |sh.fields| {
      assert [] + v.extra == v.extra;
      ExtraBack(sh, fill, v.extra);
      assert fill.fields == Overlay(sh, recv, v).fields;
    } else {
      var next := FieldStep(sh, recv, v, i, fill);
      FieldsBack(sh, recv, v, i + 1, next);
    }
  }

  /** Decoding the member of field `i`, if there is one, moves the receiver one field further. */
  lemma {:induction false} FieldStep(sh: Shape, recv: Value, v: Value, i: nat, fill: Fill) returns (next: Fill)
    requires sh.Record? && Wf(sh) && Shaped(sh, recv) && Conforms(sh, v) && Shaped(sh, v)
    requires i < |sh.fields| && Halfway(sh, recv, v, i, fill)
    ensures Halfway(sh, recv, v, i + 1, next)
    ensures TreeMembers(sh, fill, FieldTrees(sh, v, i)) == TreeMembers(sh, next, FieldTrees(sh, v, i + 1))
    decreases sh, 0, |sh.fields| - i, 0
  {
    var f := sh.fields[i];
    assert ConformsField(f, v.fields[i]) && WfField(f);
    var ms := FieldTree(f, v.fields[i]);
    if ms == [] {
      next := fill;
      assert FieldTrees(sh, v, i) == FieldTrees(sh, v, i + 1);
    } else {
      FieldBack(f, recv.fields[i], v.fields[i]);
      FindIndex(sh.fields, i);
      next := fill.(fields := fill.fields[i := OverlayField(f, recv.fields[i], v.fields[i])]);
      assert TreeMember(sh, fill, ms[0]) == Some(next);
      assert FieldTrees(sh, v, i)[1..] == FieldTrees(sh, v, i + 1);
    }
  }

  lemma {:induction false} FieldBack(f: Field, cur: Value, v: Value)
    requires WfField(f) && FieldShaped(f, cur) && ConformsField(f, v) && FieldShaped(f, v)
    requires FieldTree(f, v) != []
    ensures TreeDec(f.shape, FieldReceiver(f, cur), FieldTree(f, v)[0].value) == Some(OverlayField(f, cur, v))
    decreases f.shape, 3, 0
  {
    match f.presence {
      case Required => TreeBack(f.shape, cur, v);
      case Fixed(_) =>
      case Optional =>
        TreeBack(f.shape, Zero(f.shape), v);
        OverlayZero(f.shape, v);
    }
  }

  lemma {:induction false} RequiredPrinted(sh: Shape, v: Value, i: nat)
    requires sh.Record? && Conforms(sh, v) && i <= |sh.fields|
    ensures forall k :: i <= k < |sh.fields| && IsRequired(sh.fields[k]) ==>
            sh.fields[k].name in Keys(FieldTrees(sh, v, i))
    decreases |sh.fields| - i
  {
    if i < |sh.fields| {
      RequiredPrinted(sh, v, i + 1);
      var ms, tail := FieldTree(sh.fields[i], v.fields[i]), FieldTrees(sh, v, i + 1);
      assert forall m :: m in tail ==> m in ms + tail;
      assert ms != [] ==> ms[0] in ms + tail;
    }
  }

  // ---- main results ----------------------------------------------------------------------

  /**
   Decoding what was printed, whatever follows it, consumes exactly the printed tokens and
   overlays the value on the receiver.
   */
  lemma RoundTrip(sh: Shape, recv: Value, v: Value, rest: seq<Token>)
    requires Wf(sh) && Shaped(sh, recv) && Conforms(sh, v) && Shaped(sh, v)
    ensures Dec(sh, recv, Enc(sh, v) + rest) == Ok(Overlay(sh, recv, v), rest)
  {
    EncPrintsTree(sh, v);
    ParsePrint(TreeOf(sh, v), rest);
    StreamIsTree(sh, recv, Enc(sh, v) + rest);
    TreeBack(sh, recv, v);
  }

  /** Into a fresh receiver the value itself comes back, with nil slices read as empty ones. */
  lemma RoundTripFresh(sh: Shape, v: Value, rest: seq<Token>)
    requires Wf(sh) && Conforms(sh, v) && Shaped(sh, v)
    ensures Dec(sh, Zero(sh), Enc(sh, v) + rest) == Ok(Norm(sh, v), rest)
  {
    RoundTrip(sh, Zero(sh), v, rest);
    OverlayZero(sh, v);
  }

  /** No printed value is a prefix of the print of a different one. */
  lemma PrefixFree(sh: Shape, v: Value, w: Value, rest: seq<Token>, rest': seq<Token>)
    requires Wf(sh) && Conforms(sh, v) && Shaped(sh, v) && Conforms(sh, w) && Shaped(sh, w)
    requires Enc(sh, v) + rest == Enc(sh, w) + rest'
    ensures Norm(sh, v) == Norm(sh, w) && rest == rest'
  {
    RoundTripFresh(sh, v, rest);
    RoundTripFresh(sh, w, rest');
  }
}
