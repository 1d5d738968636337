/**
 Consequences of the round trip: re-encoding, fixed fields, the states of optional carriers,
 reused receivers and extension members.
 */
module RecordLaws {
  import opened Wrappers
  import opened JsonTokens
  import opened PresenceBits
  import opened RecordCodec
  import opened RecordTree
  import opened RecordRoundTrip

  // ---- printing what was read ------------------------------------------------------------

  /** Tidying a value, with or without its fixed fields, does not change its print. */
  lemma {:induction false} EncTidy(sh: Shape, v: Value, keep: bool)
    requires Shaped(sh, v)
    ensures Enc(sh, Tidy(sh, v, keep)) == Enc(sh, v)
    decreases sh, 1, 0
  {
    match sh {
      case Slice(elem) =>
        if v.ListV? {
          EncTidyElems(elem, v.elems, keep);
        }
      case Dict(elem) => EncTidyEntries(elem, v.entries, keep);
      case Record(_, _, _) => EncTidyFields(sh, v, keep, 0);
      case _ =>
    }
  }

  lemma {:induction false} EncTidyElems(elem: Shape, vs: seq<Value>, keep: bool)
    requires forall i :: 0 <= i < |vs| ==> Shaped(elem, vs[i])
    ensures EncElems(elem, TidyElems(elem, vs, keep)) == EncElems(elem, vs)
    decreases elem, 2, |vs|
  {
    if vs != [] {
      EncTidy(elem, vs[0], keep);
      EncTidyElems(elem, vs[1..], keep);
      assert TidyElems(elem, vs, keep)[1..] == TidyElems(elem, vs[1..], keep);
    }
  }

  lemma {:induction false} EncTidyEntries(elem: Shape, es: seq<Entry>, keep: bool)
    requires EntriesShaped(elem, es)
    ensures EncEntries(elem, TidyEntries(elem, es, keep)) == EncEntries(elem, es)
    decreases elem, 2, |es|
  {
    if es != [] {
      EncTidy(elem, es[0].value, keep);
      EncTidyEntries(elem, es[1..], keep);
      assert TidyEntries(elem, es, keep)[1..] == TidyEntries(elem, es[1..], keep);
    }
  }

  lemma {:induction false} EncTidyFields(sh: Shape, v: Value, keep: bool, i: nat)
    requires sh.Record? && Shaped(sh, v) && i <= |sh.fields|
    ensures Shaped(sh, Tidy(sh, v, keep))
    ensures EncFields(sh, Tidy(sh, v, keep), i) == EncFields(sh, v, i)
    decreases sh, 0, |sh.fields| - i
  {
    if i < |sh.fields| {
      var f := sh.fields[i];
      assert FieldShaped(f, v.fields[i]);
      EncTidyFields(sh, v, keep, i + 1);
      if !f.presence.Fixed? && Shaped(f.shape, v.fields[i]) {
        EncTidy(f.shape, v.fields[i], keep);
      }
      TidyUnset(f, v.fields[i], keep);
    }
  }

  /** An unset carrier stays unset; a set one, and a non-nil slice, stays set. */
  lemma TidyUnset(f: Field, v: Value, keep: bool)
    requires FieldShaped(f, v)
    ensures f.presence.Optional? ==> (TidyField(f, v, keep).Unset? <==> v.Unset?)
    ensures f.presence.Optional? && f.shape.Nullable? ==> (TidyField(f, v, keep).NullV? <==> v.NullV?)
    ensures f.presence.Optional? && f.shape.Slice? ==> (TidyField(f, v, keep) == ListV([]) <==> v == ListV([]))
  {
    if v.ListV? && f.shape.Slice? && f.presence.Optional? {
      assert |TidyElems(f.shape.elem, v.elems, keep)| == |v.elems|;
    }
  }

  /** Encoding what was decoded from an encoding reproduces the encoding. */
  lemma ReEncode(sh: Shape, v: Value, rest: seq<Token>)
    requires Wf(sh) && Conforms(sh, v) && Shaped(sh, v)
    ensures var r := Dec(sh, Zero(sh), Enc(sh, v) + rest);
            r.Ok? && r.rest == rest && Enc(sh, r.value) == Enc(sh, v)
  {
    RoundTripFresh(sh, v, rest);
    EncTidy(sh, v, false);
  }

  // ---- fixed fields -----------------------------------------------------------------------

  /** Every fixed field, at any depth, holds the constant the encoder prints for it. */
  ghost predicate FixedHold(sh: Shape, v: Value)
    requires Shaped(sh, v)
    decreases sh
  {
    match sh
    case Slice(elem) => v.ListV? ==> forall i :: 0 <= i < |v.elems| ==> FixedHold(elem, v.elems[i])
    case Dict(elem) => forall i :: 0 <= i < |v.entries| ==> FixedHold(elem, v.entries[i].value)
    case Record(fields, _, _) =>
      assert FieldsShaped(fields, v.fields);
      forall i :: 0 <= i < |fields| ==> FixedHoldField(fields[i], v.fields[i])
    case _ => true
  }

  ghost predicate FixedHoldField(f: Field, v: Value)
    requires FieldShaped(f, v)
    decreases f
  {
    match f.presence
    case Required => FixedHold(f.shape, v)
    case Fixed(text) => f.shape.Text? ==> v == StrV(text)
    case Optional => !v.Unset? ==> FixedHold(f.shape, v)
  }

  /** Reading back changes nothing but nil slices exactly when the fixed fields hold their constants. */
  lemma {:induction false} FixedExact(sh: Shape, v: Value)
    requires Wf(sh) && Shaped(sh, v)
    ensures Norm(sh, v) == Tidy(sh, v, true) <==> FixedHold(sh, v)
    decreases sh
  {
    match sh {
      case Slice(elem) =>
        if v.ListV? {
          var a, b := TidyElems(elem, v.elems, false), TidyElems(elem, v.elems, true);
          forall i | 0 <= i < |v.elems| ensures a[i] == b[i] <==> FixedHold(elem, v.elems[i]) {
            FixedExact(elem, v.elems[i]);
          }
          assert a == b <==> forall i :: 0 <= i < |v.elems| ==> a[i] == b[i];
        }
      case Dict(elem) =>
        var a, b := TidyEntries(elem, v.entries, false), TidyEntries(elem, v.entries, true);
        forall i | 0 <= i < |v.entries| ensures a[i] == b[i] <==> FixedHold(elem, v.entries[i].value) {
          FixedExact(elem, v.entries[i].value);
        }
        assert a == b <==> forall i :: 0 <= i < |v.entries| ==> a[i] == b[i];
      case Record(fields, _, _) =>
        assert FieldsShaped(fields, v.fields);
        var a, b := Norm(sh, v).fields, Tidy(sh, v, true).fields;
        forall i | 0 <= i < |fields| ensures a[i] == b[i] <==> FixedHoldField(fields[i], v.fields[i]) {
          FixedExactField(fields[i], v.fields[i]);
        }
        assert a == b <==> forall i :: 0 <= i < |fields| ==> a[i] == b[i];
      case _ =>
    }
  }

  lemma {:induction false} FixedExactField(f: Field, v: Value)
    requires WfField(f) && FieldShaped(f, v)
    ensures TidyField(f, v, false) == TidyField(f, v, true) <==> FixedHoldField(f, v)
    decreases f
  {
    if !f.presence.Fixed? && Shaped(f.shape, v) {
      FixedExact(f.shape, v);
    }
  }

  // ---- nil slices --------------------------------------------------------------------------

  /** No slice that is printed, at any depth, is nil. */
  ghost predicate NoNil(sh: Shape, v: Value)
    requires Shaped(sh, v)
    decreases sh
  {
    match sh
    case Slice(elem) => v.ListV? && forall i :: 0 <= i < |v.elems| ==> NoNil(elem, v.elems[i])
    case Dict(elem) => forall i :: 0 <= i < |v.entries| ==> NoNil(elem, v.entries[i].value)
    case Record(fields, _, _) =>
      assert FieldsShaped(fields, v.fields);
      forall i :: 0 <= i < |fields| ==> NoNilField(fields[i], v.fields[i])
    case _ => true
  }

  ghost predicate NoNilField(f: Field, v: Value)
    requires FieldShaped(f, v)
    decreases f
  {
    if f.presence.Optional? then v.Unset? || NoNil(f.shape, v) else NoNil(f.shape, v)
  }

  /** Tidying is the identity exactly on values without nil slices. */
  lemma {:induction false} NilExact(sh: Shape, v: Value)
    requires Wf(sh) && Shaped(sh, v)
    ensures Tidy(sh, v, true) == v <==> NoNil(sh, v)
    decreases sh
  {
    match sh {
      case Slice(elem) =>
        if v.ListV? {
          var a := TidyElems(elem, v.elems, true);
          forall i | 0 <= i < |v.elems| ensures a[i] == v.elems[i] <==> NoNil(elem, v.elems[i]) {
            NilExact(elem, v.elems[i]);
          }
          assert a == v.elems <==> forall i :: 0 <= i < |a| ==> a[i] == v.elems[i];
        }
      case Dict(elem) =>
        var a := TidyEntries(elem, v.entries, true);
        forall i | 0 <= i < |v.entries| ensures a[i] == v.entries[i] <==> NoNil(elem, v.entries[i].value) {
          NilExact(elem, v.entries[i].value);
        }
        assert a == v.entries <==> forall i :: 0 <= i < |a| ==> a[i] == v.entries[i];
      case Record(fields, _, _) =>
        assert FieldsShaped(fields, v.fields);
        var a := Tidy(sh, v, true).fields;
        forall i | 0 <= i < |fields| ensures a[i] == v.fields[i] <==> NoNilField(fields[i], v.fields[i]) {
          NilExactField(fields[i], v.fields[i]);
        }
        assert a == v.fields <==> forall i :: 0 <= i < |fields| ==> a[i] == v.fields[i];
      case _ =>
    }
  }

  lemma {:induction false} NilExactField(f: Field, v: Value)
    requires WfField(f) && FieldShaped(f, v)
    ensures TidyField(f, v, true) == v <==> NoNilField(f, v)
    decreases f
  {
    if Shaped(f.shape, v) {
      NilExact(f.shape, v);
    }
  }

  // ---- presence states ----------------------------------------------------------------------

  /** Absent, null and set carriers, nil and empty optional slices: none turns into another. */
  lemma StatesSurvive(sh: Shape, v: Value, rest: seq<Token>, i: nat)
    requires sh.Record? && Wf(sh) && Conforms(sh, v) && Shaped(sh, v)
    requires i < |sh.fields| && sh.fields[i].presence.Optional?
    ensures var r := Dec(sh, Zero(sh), Enc(sh, v) + rest);
            && r.Ok? && r.value.RecV? && |r.value.fields| == |v.fields| == |sh.fields|
            && (r.value.fields[i].Unset? <==> v.fields[i].Unset?)
            && (sh.fields[i].shape.Nullable? ==> (r.value.fields[i].NullV? <==> v.fields[i].NullV?))
            && (sh.fields[i].shape.Nullable? ==> (r.value.fields[i] == v.fields[i]))
            && (sh.fields[i].shape.Slice? ==> (r.value.fields[i] == ListV([]) <==> v.fields[i] == ListV([])))
  {
    RoundTripFresh(sh, v, rest);
    assert FieldShaped(sh.fields[i], v.fields[i]);
    TidyUnset(sh.fields[i], v.fields[i], false);
    assert Norm(sh, v).fields[i] == TidyField(sh.fields[i], v.fields[i], false);
  }

  // ---- reused receivers ----------------------------------------------------------------------

  /** No map sits outside an optional carrier or a slice. */
  ghost predicate NoBareDict(sh: Shape) {
    match sh
    case Dict(_) => false
    case Record(fields, _, _) => forall i :: 0 <= i < |fields| ==> NoBareDictField(fields[i])
    case _ => true
  }

  ghost predicate NoBareDictField(f: Field) {
    f.presence.Optional? || NoBareDict(f.shape)
  }

  /** The same map, whatever the order of its entries. */
  ghost predicate SameMap(a: seq<Entry>, b: seq<Entry>) {
    forall key: string :: Lookup(a, key) == Lookup(b, key)
  }

  /** Every key of `acc` is a key of `es`. */
  ghost predicate Covers(es: seq<Entry>, acc: seq<Entry>) {
    forall key: string :: key in KeysOf(acc) ==> key in KeysOf(es)
  }

  /**
   Nothing of the receiver is left over: through required records, every optional field that
   `v` leaves unset is unset in it, and every key of a map is a key of the map in `v`.
   */
  ghost predicate NothingLeft(sh: Shape, recv: Value, v: Value)
    requires Shaped(sh, recv) && Shaped(sh, v)
    decreases sh
  {
    match sh
    case Dict(_) => Covers(v.entries, recv.entries)
    case Record(fields, _, _) =>
      assert FieldsShaped(fields, recv.fields) && FieldsShaped(fields, v.fields);
      forall i :: 0 <= i < |fields| ==> NothingLeftField(fields[i], recv.fields[i], v.fields[i])
    case _ => true
  }

  ghost predicate NothingLeftField(f: Field, cur: Value, v: Value)
    requires FieldShaped(f, cur) && FieldShaped(f, v)
    decreases f
  {
    match f.presence
    case Required => NothingLeft(f.shape, cur, v)
    case Fixed(_) => true
    case Optional => v.Unset? ==> cur.Unset?
  }

  /** Equal up to the order of the entries of the maps that are decoded in place. */
  ghost predicate Same(sh: Shape, a: Value, b: Value) {
    match sh
    case Dict(_) => a.DictV? && b.DictV? && SameMap(a.entries, b.entries)
    case Record(fields, _, _) =>
      && a.RecV? && b.RecV? && |a.fields| == |b.fields| == |fields| && a.extra == b.extra
      && forall i :: 0 <= i < |fields| ==> SameField(fields[i], a.fields[i], b.fields[i])
    case _ => a == b
  }

  ghost predicate SameField(f: Field, a: Value, b: Value) {
    if f.presence.Required? then Same(f.shape, a, b) else a == b
  }

  lemma {:induction false} LookupHas(es: seq<Entry>, key: string)
    ensures Lookup(es, key).Some? <==> key in KeysOf(es)
  {
    if es != [] {
      LookupHas(es[1..], key);
      assert KeysOf(es) == [es[0].key] + KeysOf(es[1..]);
    }
  }

  lemma {:induction false} LookupPutAll(acc: seq<Entry>, es: seq<Entry>, key: string)
    requires Distinct(KeysOf(es))
    ensures Lookup(PutAll(acc, es), key) == if key in KeysOf(es) then Lookup(es, key) else Lookup(acc, key)
    decreases |es|
  {
    if es != [] {
      assert KeysOf(es) == [es[0].key] + KeysOf(es[1..]);
      LookupPutAll(Put(acc, es[0]), es[1..], key);
      LookupPut(acc, es[0], key);
    }
  }

  /** Entries laid over a used map are the bare entries, as a map, exactly when they cover its keys. */
  lemma ReusedMap(acc: seq<Entry>, es: seq<Entry>)
    requires Distinct(KeysOf(es))
    ensures SameMap(PutAll(acc, es), es) <==> Covers(es, acc)
  {
    var all := PutAll(acc, es);
    forall key: string
      ensures Lookup(all, key) == Lookup(es, key) <==> (key in KeysOf(acc) ==> key in KeysOf(es))
    {
      LookupPutAll(acc, es, key);
      LookupHas(acc, key);
      LookupHas(es, key);
    }
    if !Covers(es, acc) {
      var key :| key in KeysOf(acc) && key !in KeysOf(es);
      assert Lookup(all, key) != Lookup(es, key);
    }
  }

  /**
   A value laid over a used receiver is the bare value exactly when nothing is left over: as a
   map where a map is decoded in place, and in every respect when there is none.
   */
  lemma {:induction false} ReusedReceiver(sh: Shape, recv: Value, v: Value)
    requires Wf(sh) && Shaped(sh, recv) && Shaped(sh, v)
    ensures Conforms(sh, v) ==> (Same(sh, Overlay(sh, recv, v), Norm(sh, v)) <==> NothingLeft(sh, recv, v))
    ensures NoBareDict(sh) ==> (Overlay(sh, recv, v) == Norm(sh, v) <==> NothingLeft(sh, recv, v))
    decreases sh
  {
    match sh {
      case Dict(elem) =>
        if Conforms(sh, v) {
          TidyKeys(elem, v.entries, false);
          ReusedMap(recv.entries, TidyEntries(elem, v.entries, false));
        }
      case Record(_, _, _) =>
        ReusedRecord(sh, recv, v);
        ReusedRecordExact(sh, recv, v);
      case _ =>
    }
  }

  lemma {:induction false} ReusedRecord(sh: Shape, recv: Value, v: Value)
    requires sh.Record? && Wf(sh) && Shaped(sh, recv) && Shaped(sh, v)
    ensures Conforms(sh, v) ==> (Same(sh, Overlay(sh, recv, v), Norm(sh, v)) <==> NothingLeft(sh, recv, v))
    decreases sh, 0
  {
    if Conforms(sh, v) {
      var fields := sh.fields;
      assert FieldsShaped(fields, recv.fields) && FieldsShaped(fields, v.fields);
      var a, b := Overlay(sh, recv, v).fields, Norm(sh, v).fields;
      forall i | 0 <= i < |fields|
        ensures SameField(fields[i], a[i], b[i]) <==> NothingLeftField(fields[i], recv.fields[i], v.fields[i])
      {
        assert ConformsField(fields[i], v.fields[i]);
        ReusedField(fields[i], recv.fields[i], v.fields[i]);
      }
    }
  }

  lemma {:induction false} ReusedRecordExact(sh: Shape, recv: Value, v: Value)
    requires sh.Record? && Wf(sh) && Shaped(sh, recv) && Shaped(sh, v)
    ensures NoBareDict(sh) ==> (Overlay(sh, recv, v) == Norm(sh, v) <==> NothingLeft(sh, recv, v))
    decreases sh, 0
  {
    if NoBareDict(sh) {
      var fields := sh.fields;
      assert FieldsShaped(fields, recv.fields) && FieldsShaped(fields, v.fields);
      var a, b := Overlay(sh, recv, v).fields, Norm(sh, v).fields;
      forall i | 0 <= i < |fields| ensures a[i] == b[i] <==> NothingLeftField(fields[i], recv.fields[i], v.fields[i]) {
        assert NoBareDictField(fields[i]);
        ReusedField(fields[i], recv.fields[i], v.fields[i]);
      }
      assert a == b <==> forall i :: 0 <= i < |fields| ==> a[i] == b[i];
    }
  }

  lemma {:induction false} ReusedField(f: Field, cur: Value, v: Value)
    requires WfField(f) && FieldShaped(f, cur) && FieldShaped(f, v)
    ensures ConformsField(f, v) ==>
              (SameField(f, OverlayField(f, cur, v), TidyField(f, v, false)) <==> NothingLeftField(f, cur, v))
    ensures NoBareDictField(f) ==>
              (OverlayField(f, cur, v) == TidyField(f, v, false) <==> NothingLeftField(f, cur, v))
    decreases f
  {
    if f.presence.Required? {
      ReusedReceiver(f.shape, cur, v);
    }
  }

  /**
   Decoding an encoding into a used receiver succeeds like decoding it into a fresh one, and
   gives the same value exactly when nothing of the receiver is left over.
   */
  lemma DecodeIntoReused(sh: Shape, recv: Value, v: Value, rest: seq<Token>)
    requires Wf(sh) && Conforms(sh, v) && Shaped(sh, recv) && Shaped(sh, v)
    ensures var dirty, clean := Dec(sh, recv, Enc(sh, v) + rest), Dec(sh, Zero(sh), Enc(sh, v) + rest);
            && dirty.Ok? && clean.Ok? && dirty.rest == clean.rest
            && (Same(sh, dirty.value, clean.value) <==> NothingLeft(sh, recv, v))
            && (NoBareDict(sh) ==> (dirty == clean <==> NothingLeft(sh, recv, v)))
  {
    RoundTrip(sh, recv, v, rest);
    RoundTripFresh(sh, v, rest);
    ReusedReceiver(sh, recv, v);
  }

  // ---- extension members ----------------------------------------------------------------------

  /** Whatever an open record's decoder collects as extensions is well formed. */
  lemma {:induction false} CollectedExtraOk(sh: Shape, fill: Fill, ms: seq<Member>)
    requires sh.Record? && Wf(sh) && FillOk(sh, fill) && ExtraOk(sh.fields, sh.open, fill.extra)
    ensures TreeMembers(sh, fill, ms).Some? ==> ExtraOk(sh.fields, sh.open, TreeMembers(sh, fill, ms).value.extra)
    decreases |ms|
  {
    if ms != [] && TreeMember(sh, fill, ms[0]).Some? {
      var next := TreeMember(sh, fill, ms[0]).value;
      if Find(sh.fields, ms[0].key).None? {
        var e := Entry(ms[0].key, RawV(Print(ms[0].value)));
        ParsePrint(ms[0].value, []);
        assert Print(ms[0].value) + [] == Print(ms[0].value);
        PutExtraOk(sh.fields, fill.extra, e);
      }
      CollectedExtraOk(sh, next, ms[1..]);
    }
  }

  /** Writing a key either replaces the entry that has it or appends a new one. */
  lemma {:induction false} PutIs(es: seq<Entry>, e: Entry) returns (i: nat)
    ensures i <= |es|
    ensures i < |es| ==> es[i].key == e.key && Put(es, e) == es[i := e]
    ensures i == |es| ==> Put(es, e) == es + [e] && forall j :: 0 <= j < |es| ==> es[j].key != e.key
  {
    if es == [] || es[0].key == e.key {
      i := 0;
    } else {
      i := PutIs(es[1..], e);
      i := i + 1;
    }
  }

  lemma PutExtraOk(fields: seq<Field>, es: seq<Entry>, e: Entry)
    requires ExtraOk(fields, true, es)
    requires e.key !in Names(fields) && e.value.RawV? && IsOneValue(e.value.tokens)
    ensures ExtraOk(fields, true, Put(es, e))
  {
    var i := PutIs(es, e);
    if i < |es| {
      assert KeysOf(Put(es, e)) == KeysOf(es);
    }
  }

  /**
   For a record whose named fields can be printed and read back, the round trip gives the
   record back exactly when its extension members are well formed.
   */
  lemma ExtensionsExact(sh: Shape, v: Value, rest: seq<Token>)
    requires sh.Record? && Wf(sh) && Shaped(sh, v) && |v.fields| == |sh.fields|
    requires forall i :: 0 <= i < |sh.fields| ==> ConformsField(sh.fields[i], v.fields[i])
    ensures Dec(sh, Zero(sh), Enc(sh, v) + rest) == Ok(Norm(sh, v), rest) <==> ExtraOk(sh.fields, sh.open, v.extra)
  {
    if ExtraOk(sh.fields, sh.open, v.extra) {
      RoundTripFresh(sh, v, rest);
    }
    var ts := Enc(sh, v) + rest;
    if Dec(sh, Zero(sh), ts) == Ok(Norm(sh, v), rest) {
      StreamIsTree(sh, Zero(sh), ts);
      var j := Parse(ts).value.0;
      CollectedExtraOk(sh, Fill(Zero(sh).fields, []), j.members);
    }
  }
}
