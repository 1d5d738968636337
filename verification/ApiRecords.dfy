/**
 The codec laws at the records the API serves.
 */
module ApiRecords {
  import opened Wrappers
  import opened JsonTokens
  import opened PresenceBits
  import opened RecordCodec
  import opened RecordTree
  import opened RecordRoundTrip
  import opened RecordLaws
  import opened JxCodec
  import opened ApiTables

  // ---- MarshalJSON followed by UnmarshalJSON ------------------------------------------------

  /** Encoding into a fresh buffer and decoding that buffer into a zero value. */
  method MarshalUnmarshal(sh: Shape, v: Value) returns (r: Outcome<Value>)
    requires Wf(sh) && Conforms(sh, v) && Shaped(sh, v)
    ensures r == Got(Norm(sh, v))
  {
    var e := new Encoder();
    EncodeValue(e, sh, v);
    assert e.buf == Enc(sh, v) + [];
    RoundTripFresh(sh, v, []);
    var d := new Decoder(e.buf);
    r := DecodeValue(d, sh, Zero(sh));
  }

  // ---- problem details and its extension members ------------------------------------------------

  /** An iteration order of a Go map: each key once. */
  ghost predicate Lists(order: seq<string>, m: map<string, seq<Token>>) {
    Distinct(order) && forall k :: k in order <==> k in m
  }

  function Listing(m: map<string, seq<Token>>, order: seq<string>): (r: seq<Entry>)
    requires forall k :: k in order ==> k in m
    ensures |r| == |order| && KeysOf(r) == order
    ensures forall i :: 0 <= i < |r| ==> r[i] == Entry(order[i], RawV(m[order[i]]))
  {
    seq(|order|, i requires 0 <= i < |order| => Entry(order[i], RawV(m[order[i]])))
  }

  /** The map that an entry list with raw values stands for. */
  ghost predicate IsMapOf(es: seq<Entry>, m: map<string, seq<Token>>) {
    && (forall k :: k in KeysOf(es) <==> k in m)
    && forall i :: 0 <= i < |es| ==> es[i].key in m && es[i].value == RawV(m[es[i].key])
  }

  /** Extension members RFC 9457 (section 3.2) can carry next to the six named ones. */
  ghost predicate ExtensionsOk(uri: Parser, props: map<string, seq<Token>>) {
    forall k :: k in props ==> k !in Names(ProblemDetails(uri).fields) && IsOneValue(props[k])
  }

  /** The problem with these named fields and these extension members came back. */
  ghost predicate CameBack(uri: Parser, v: Value, props: map<string, seq<Token>>, rest: seq<Token>, r: Read<Value>)
    requires Shaped(ProblemDetails(uri), v)
  {
    r.Ok? && r.rest == rest && r.value.RecV?
    && r.value.fields == Norm(ProblemDetails(uri), v).fields && IsMapOf(r.value.extra, props)
  }

  /**
   For every iteration order of the extension map, the problem round-trips exactly when no
   extension key is a named member and every raw value is one JSON value.
   */
  lemma ProblemDetailsExact(uri: Parser, v: Value, props: map<string, seq<Token>>, order: seq<string>, rest: seq<Token>)
    requires Lists(order, props) && v.RecV? && v.extra == Listing(props, order)
    requires Shaped(ProblemDetails(uri), v) && |v.fields| == |ProblemDetails(uri).fields|
    requires forall i :: 0 <= i < |v.fields| ==> ConformsField(ProblemDetails(uri).fields[i], v.fields[i])
    ensures Wf(ProblemDetails(uri))
    ensures var sh := ProblemDetails(uri);
            CameBack(uri, v, props, rest, Dec(sh, Zero(sh), Enc(sh, v) + rest)) <==> ExtensionsOk(uri, props)
  {
    ProblemDetailsWf(uri);
    var sh := ProblemDetails(uri);
    ExtensionsExact(sh, v, rest);
    assert forall i :: 0 <= i < |order| ==> order[i] in order;
    var ts := Enc(sh, v) + rest;
    var r := Dec(sh, Zero(sh), ts);
    if ExtensionsOk(uri, props) {
      assert ExtraOk(sh.fields, sh.open, v.extra);
    } else if CameBack(uri, v, props, rest, r) {
      StreamIsTree(sh, Zero(sh), ts);
      CollectedExtraOk(sh, Fill(Zero(sh).fields, []), Parse(ts).value.0.members);
      CollectedFit(uri, r.value.extra, props);
    }
  }

  lemma CollectedFit(uri: Parser, es: seq<Entry>, props: map<string, seq<Token>>)
    requires ExtraOk(ProblemDetails(uri).fields, true, es) && IsMapOf(es, props)
    ensures ExtensionsOk(uri, props)
  {
    forall k | k in props ensures k !in Names(ProblemDetails(uri).fields) && IsOneValue(props[k]) {
      var i :| 0 <= i < |es| && KeysOf(es)[i] == k;
    }
  }

  /** The range loop of `encodeFields` over the extension map, in whatever order it runs. */
  method EncodeProps(e: Encoder, props: map<string, seq<Token>>) returns (ghost order: seq<string>)
    modifies e
    ensures Lists(order, props)
    ensures e.buf == old(e.buf) + EncExtra(Listing(props, order))
  {
    order := [];
    var todo := props.Keys;
    while todo != {}
      invariant todo <= props.Keys && Distinct(order)
      invariant forall k :: k in order <==> k in props.Keys - todo
      invariant e.buf == old(e.buf) + EncExtra(Listing(props, order))
      decreases |todo|
    {
      var k :| k in todo;
      ListingSnoc(props, order, k);
      OneMore(props, order, todo, k);
      todo := todo - {k};
      ghost var before := e.buf;
      e.Write(Key(k));
      if |props[k]| != 0 {
        e.Raw(props[k]);
      }
      assert e.buf == before + [Key(k)] + props[k];
      Associate(old(e.buf), EncExtra(Listing(props, order)), [Key(k)], props[k]);
      order := order + [k];
    }
  }

  lemma OneMore(props: map<string, seq<Token>>, order: seq<string>, todo: set<string>, k: string)
    requires todo <= props.Keys && k in todo && Distinct(order)
    requires forall x :: x in order <==> x in props.Keys - todo
    ensures Distinct(order + [k]) && forall x :: x in order + [k] <==> x in props.Keys - (todo - {k})
  {
    assert forall i :: 0 <= i < |order| ==> order[i] in order;
  }

  lemma Associate(a: seq<Token>, b: seq<Token>, c: seq<Token>, d: seq<Token>)
    ensures a + b + c + d == a + (b + c + d)
  {
  }

  lemma ListingSnoc(m: map<string, seq<Token>>, order: seq<string>, k: string)
    requires k in m && forall x :: x in order ==> x in m
    ensures forall x :: x in order + [k] ==> x in m
    ensures EncExtra(Listing(m, order + [k])) == EncExtra(Listing(m, order)) + [Key(k)] + m[k]
  {
    var es := Listing(m, order);
    assert Listing(m, order + [k]) == es + [Entry(k, RawV(m[k]))];
    ExtraSnoc(es, Entry(k, RawV(m[k])));
  }

  lemma {:induction false} ExtraSnoc(es: seq<Entry>, last: Entry)
    requires last.value.RawV? && forall i :: 0 <= i < |es| ==> es[i].value.RawV?
    ensures EncExtra(es + [last]) == EncExtra(es) + [Key(last.key)] + last.value.tokens
  {
    if es == [] {
      assert [] + [last] == [last];
    } else {
      assert (es + [last])[1..] == es[1..] + [last];
      ExtraSnoc(es[1..], last);
    }
  }

  // ---- operations with a fixed kind ---------------------------------------------------------------

  /** No field at any depth is printed with a constant. */
  ghost predicate NoFixed(sh: Shape) {
    match sh
    case Slice(elem) => NoFixed(elem)
    case Dict(elem) => NoFixed(elem)
    case Record(fields, _, _) => forall i :: 0 <= i < |fields| ==> NoFixedField(fields[i])
    case _ => true
  }

  ghost predicate NoFixedField(f: Field) {
    !f.presence.Fixed? && NoFixed(f.shape)
  }

  lemma {:induction false} NoFixedHolds(sh: Shape, v: Value)
    requires NoFixed(sh) && Shaped(sh, v)
    ensures FixedHold(sh, v)
    decreases sh
  {
    match sh {
      case Slice(elem) =>
        if v.ListV? {
          forall i | 0 <= i < |v.elems| ensures FixedHold(elem, v.elems[i]) {
            NoFixedHolds(elem, v.elems[i]);
          }
        }
      case Dict(elem) =>
        forall i | 0 <= i < |v.entries| ensures FixedHold(elem, v.entries[i].value) {
          NoFixedHolds(elem, v.entries[i].value);
        }
      case Record(fields, _, _) =>
        assert FieldsShaped(fields, v.fields);
        forall i | 0 <= i < |fields| ensures FixedHoldField(fields[i], v.fields[i]) {
          NoFixedFieldHolds(fields[i], v.fields[i]);
        }
      case _ =>
    }
  }

  lemma {:induction false} NoFixedFieldHolds(f: Field, v: Value)
    requires NoFixedField(f) && FieldShaped(f, v)
    ensures FixedHoldField(f, v)
    decreases f
  {
    if Shaped(f.shape, v) {
      NoFixedHolds(f.shape, v);
    }
  }

  /** The table has one fixed text field, `k`, and none elsewhere. */
  ghost predicate KindAt(sh: Shape, k: nat, text: string) {
    && sh.Record? && k < |sh.fields| && sh.fields[k].presence == Fixed(text) && sh.fields[k].shape.Text?
    && forall i :: 0 <= i < |sh.fields| && i != k ==> NoFixedField(sh.fields[i])
  }

  /**
   A record with a kind field: re-encoding reproduces the encoding, and the value itself comes
   back, up to nil and empty slices, exactly when its kind is the constant that is printed.
   */
  lemma KindExact(sh: Shape, k: nat, text: string, v: Value, rest: seq<Token>)
    requires Wf(sh) && KindAt(sh, k, text) && Conforms(sh, v) && Shaped(sh, v) && |v.fields| == |sh.fields|
    ensures var r := Dec(sh, Zero(sh), Enc(sh, v) + rest);
            && r.Ok? && r.rest == rest && Enc(sh, r.value) == Enc(sh, v)
            && (r.value == Tidy(sh, v, true) <==> v.fields[k] == StrV(text))
  {
    ReEncode(sh, v, rest);
    RoundTripFresh(sh, v, rest);
    FixedExact(sh, v);
    assert FieldsShaped(sh.fields, v.fields);
    forall i | 0 <= i < |sh.fields| && i != k ensures FixedHoldField(sh.fields[i], v.fields[i]) {
      NoFixedFieldHolds(sh.fields[i], v.fields[i]);
    }
  }

  lemma EmbeddedConditionNoFixed()
    ensures NoFixed(Slice(EmbeddedCondition()))
  {
    assert NoFixed(EmbeddedCondition());
  }

  lemma MutationKindAt(date: Parser)
    ensures KindAt(MutationOperation(date), 4, "mutation")
  {
    EmbeddedConditionNoFixed();
    assert NoFixed(MutationBlockNumber());
    assert NoFixed(Slice(MutationBlockNumber())) && NoFixed(Slice(PLAIN));
    var a, b, c := MutationOperationByte0(), MutationOperationByte1(date), MutationOperationByte2(date);
    assert forall i :: 0 <= i < |a| && i != 4 ==> NoFixedField(a[i]);
    assert forall i :: 0 <= i < |b| ==> NoFixedField(b[i]);
    assert forall i :: 0 <= i < |c| ==> NoFixedField(c[i]);
  }

  lemma QueueKindAt(date: Parser)
    ensures KindAt(ReplicationQueueOperation(date), 4, "replication_queue")
  {
    EmbeddedConditionNoFixed();
    assert NoFixed(Slice(PLAIN));
    var a, b := ReplicationQueueOperationByte0(), ReplicationQueueOperationByte1(date);
    var c, d := ReplicationQueueOperationByte2(date), ReplicationQueueOperationByte3();
    assert forall i :: 0 <= i < |a| && i != 4 ==> NoFixedField(a[i]);
    assert forall i :: 0 <= i < |b| ==> NoFixedField(b[i]);
    assert forall i :: 0 <= i < |c| ==> NoFixedField(c[i]);
    assert forall i :: 0 <= i < |d| ==> NoFixedField(d[i]);
  }

  lemma MutationKindExact(date: Parser, v: Value, rest: seq<Token>)
    requires Conforms(MutationOperation(date), v) && Shaped(MutationOperation(date), v)
    requires |v.fields| == |MutationOperation(date).fields|
    ensures Wf(MutationOperation(date))
    ensures var sh := MutationOperation(date);
            var r := Dec(sh, Zero(sh), Enc(sh, v) + rest);
            && r.Ok? && r.rest == rest && Enc(sh, r.value) == Enc(sh, v)
            && (r.value == Tidy(sh, v, true) <==> v.fields[4] == StrV("mutation"))
  {
    MutationOperationWf(date);
    MutationKindAt(date);
    KindExact(MutationOperation(date), 4, "mutation", v, rest);
  }

  lemma QueueKindExact(date: Parser, v: Value, rest: seq<Token>)
    requires Conforms(ReplicationQueueOperation(date), v) && Shaped(ReplicationQueueOperation(date), v)
    requires |v.fields| == |ReplicationQueueOperation(date).fields|
    ensures Wf(ReplicationQueueOperation(date))
    ensures var sh := ReplicationQueueOperation(date);
            var r := Dec(sh, Zero(sh), Enc(sh, v) + rest);
            && r.Ok? && r.rest == rest && Enc(sh, r.value) == Enc(sh, v)
            && (r.value == Tidy(sh, v, true) <==> v.fields[4] == StrV("replication_queue"))
  {
    ReplicationQueueOperationWf(date);
    QueueKindAt(date);
    KindExact(ReplicationQueueOperation(date), 4, "replication_queue", v, rest);
  }

  // ---- the tiering plan tree ------------------------------------------------------------------

  lemma TieringConditionNoFixed(date: Parser)
    ensures NoFixed(Slice(TieringCondition(date)))
  {
    var a, b := TieringConditionByte0(date), TieringConditionByte1();
    assert forall i :: 0 <= i < |a| ==> NoFixedField(a[i]);
    assert forall i :: 0 <= i < |b| ==> NoFixedField(b[i]);
    assert NoFixed(TieringCondition(date));
  }

  lemma TieringTablePlanNoFixed(date: Parser)
    ensures NoFixed(Slice(TieringTablePlan(date)))
  {
    TieringConditionNoFixed(date);
    var a, b := TieringTablePlanByte0(date), TieringTablePlanByte1(date);
    assert forall i :: 0 <= i < |a| ==> NoFixedField(a[i]);
    assert forall i :: 0 <= i < |b| ==> NoFixedField(b[i]);
    assert NoFixed(TieringTablePlan(date));
  }

  lemma TieringPolicyNoFixed()
    ensures NoFixed(TieringPolicy())
  {
    var a, b := TieringPolicyByte0(), TieringPolicyByte1();
    assert forall i :: 0 <= i < |a| ==> NoFixedField(a[i]);
    assert forall i :: 0 <= i < |b| ==> NoFixedField(b[i]);
  }

  lemma TieringHoldNoFixed(date: Parser)
    ensures NoFixed(TieringHoldDetail(date))
  {
    var a := TieringHoldDetailFields(date);
    assert forall i :: 0 <= i < |a| ==> NoFixedField(a[i]);
  }

  lemma TieringPartitionNoFixed(date: Parser)
    ensures NoFixed(Slice(TieringPartition(date)))
  {
    TieringConditionNoFixed(date);
    TieringPolicyNoFixed();
    TieringHoldNoFixed(date);
    assert NoFixed(TieringDiskPart());
    assert NoFixed(Slice(TieringDiskPart()));
    var a, b, c := TieringPartitionByte0(), TieringPartitionByte1(), TieringPartitionByte2(date);
    assert forall i :: 0 <= i < |a| ==> NoFixedField(a[i]);
    assert forall i :: 0 <= i < |b| ==> NoFixedField(b[i]);
    assert forall i :: 0 <= i < |c| ==> NoFixedField(c[i]);
    assert NoFixed(TieringPartition(date));
  }

  lemma TieringPlanNoFixed(date: Parser)
    ensures NoFixed(TieringPlanResponse(date))
  {
    TieringTablePlanNoFixed(date);
    TieringPartitionNoFixed(date);
    var a := TieringPlanResponseFields(date);
    assert forall i :: 0 <= i < |a| ==> NoFixedField(a[i]);
  }

  /**
   Any plan, with any number of tables, partitions, conditions, disks and holds, in front of
   any tokens: it comes back, exactly as it was if and only if none of its slices is nil.
   */
  lemma PlanRoundTrip(date: Parser, plan: Value, rest: seq<Token>)
    requires Conforms(TieringPlanResponse(date), plan) && Shaped(TieringPlanResponse(date), plan)
    ensures Wf(TieringPlanResponse(date))
    ensures var sh := TieringPlanResponse(date);
            && Dec(sh, Zero(sh), Enc(sh, plan) + rest) == Ok(Tidy(sh, plan, true), rest)
            && (Dec(sh, Zero(sh), Enc(sh, plan) + rest) == Ok(plan, rest) <==> NoNil(sh, plan))
  {
    var sh := TieringPlanResponse(date);
    TieringPlanResponseWf(date);
    RoundTripFresh(sh, plan, rest);
    TieringPlanNoFixed(date);
    NoFixedHolds(sh, plan);
    FixedExact(sh, plan);
    NilExact(sh, plan);
  }

  // ---- two records that do not come back as one might think -------------------------------------

  /** Every text, also in nested required records, may be empty. */
  ghost predicate EmptyOk(sh: Shape) {
    match sh
    case Text(parse) => parse("") == Some("")
    case Nullable(parse) => parse("") == Some("")
    case RawJson => false
    case Record(fields, _, _) => forall i :: 0 <= i < |fields| ==> EmptyOkField(fields[i])
    case _ => true
  }

  ghost predicate EmptyOkField(f: Field) {
    f.presence.Optional? || EmptyOk(f.shape)
  }

  lemma {:induction false} ZeroConforms(sh: Shape)
    requires Wf(sh) && EmptyOk(sh)
    ensures Conforms(sh, Zero(sh)) && Shaped(sh, Zero(sh))
    decreases sh
  {
    if sh.Record? {
      forall i | 0 <= i < |sh.fields| ensures ConformsField(sh.fields[i], Zero(sh).fields[i]) {
        ZeroConformsField(sh.fields[i]);
      }
    }
  }

  lemma {:induction false} ZeroConformsField(f: Field)
    requires WfField(f) && EmptyOkField(f)
    ensures ConformsField(f, ZeroField(f))
    decreases f
  {
    if !f.presence.Optional? {
      ZeroConforms(f.shape);
    }
  }

  lemma MutationEmptyOk()
    ensures EmptyOk(MutationOperation(Verbatim))
  {
    var a, b, c := MutationOperationByte0(), MutationOperationByte1(Verbatim), MutationOperationByte2(Verbatim);
    assert forall i :: 0 <= i < |a| ==> EmptyOkField(a[i]);
    assert forall i :: 0 <= i < |b| ==> EmptyOkField(b[i]);
    assert forall i :: 0 <= i < |c| ==> EmptyOkField(c[i]);
  }

  /** A mutation with an empty kind is read back with the kind that is printed for it. */
  lemma EmptyKindComesBackFilled(rest: seq<Token>)
    ensures Wf(MutationOperation(Verbatim)) && Shaped(MutationOperation(Verbatim), Zero(MutationOperation(Verbatim)))
    ensures var sh := MutationOperation(Verbatim);
            var r := Dec(sh, Zero(sh), Enc(sh, Zero(sh)) + rest);
            && Zero(sh).fields[4] == StrV("") && r.Ok? && r.value != Tidy(sh, Zero(sh), true)
            && r.value.RecV? && |r.value.fields| > 4 && r.value.fields[4] == StrV("mutation")
  {
    var sh := MutationOperation(Verbatim);
    MutationOperationWf(Verbatim);
    MutationEmptyOk();
    ZeroConforms(sh);
    MutationKindExact(Verbatim, Zero(sh), rest);
    RoundTripFresh(sh, Zero(sh), rest);
    KindField(sh);
  }

  lemma KindField(sh: Shape)
    requires sh == MutationOperation(Verbatim) && Wf(sh) && Shaped(sh, Zero(sh))
    ensures Zero(sh).fields[4] == StrV("")
    ensures Norm(sh, Zero(sh)).RecV? && |Norm(sh, Zero(sh)).fields| > 4
            && Norm(sh, Zero(sh)).fields[4] == StrV("mutation")
  {
    KindIsFixed();
    FixedFilled(sh, 4, "mutation");
  }

  lemma KindIsFixed()
    ensures |MutationOperation(Verbatim).fields| > 4
    ensures MutationOperation(Verbatim).fields[4] == Field("kind", Fixed("mutation"), PLAIN)
  {
    assert MutationOperation(Verbatim).fields[4] == MutationOperationByte0()[4];
  }

  /** An empty text in a fixed field comes back as the constant. */
  lemma FixedFilled(sh: Shape, i: nat, text: string)
    requires sh.Record? && Shaped(sh, Zero(sh)) && i < |sh.fields|
    requires sh.fields[i].presence == Fixed(text) && sh.fields[i].shape.Text?
    ensures Zero(sh).fields[i] == StrV("")
    ensures Norm(sh, Zero(sh)).RecV? && |Norm(sh, Zero(sh)).fields| == |sh.fields|
            && Norm(sh, Zero(sh)).fields[i] == StrV(text)
  {
    var f, v := sh.fields[i], Zero(sh);
    assert v.fields[i] == ZeroField(f);
    assert ZeroField(f) == StrV("");
    assert FieldsShaped(sh.fields, v.fields);
    assert FieldShaped(f, v.fields[i]);
    assert TidyField(f, v.fields[i], false) == StrV(text);
    assert Norm(sh, v) == Tidy(sh, v, false);
  }

  function Warned(kind: string, code: string, message: string, nodeId: Value): Value {
    RecV([StrV(kind), StrV(code), StrV(message), nodeId], [])
  }

  lemma WarnedFits(kind: string, code: string, message: string, nodeId: Value)
    requires nodeId.Unset? || nodeId.StrV?
    ensures var v := Warned(kind, code, message, nodeId);
            Shaped(CollectionWarning(), v) && Conforms(CollectionWarning(), v)
  {
    var fields, v := CollectionWarningFields(), Warned(kind, code, message, nodeId);
    assert Shaped(PLAIN, StrV(kind)) && Shaped(PLAIN, StrV(code)) && Shaped(PLAIN, StrV(message));
    forall i | 0 <= i < |fields| ensures FieldShaped(fields[i], v.fields[i]) && ConformsField(fields[i], v.fields[i]) {
      assert fields[i].shape == PLAIN && (i == 3 <==> fields[i].presence.Optional?) && (i < 3 ==> v.fields[i].StrV?);
    }
    assert FieldsShaped(fields, v.fields);
  }

  lemma WarnedOver(kind: string, code: string, message: string, held: string)
    requires var (sh, v) := (CollectionWarning(), Warned(kind, code, message, Unset));
             Shaped(sh, v) && Shaped(sh, Warned("", "", "", StrV(held)))
    ensures var (sh, v) := (CollectionWarning(), Warned(kind, code, message, Unset));
            && Overlay(sh, Warned("", "", "", StrV(held)), v) == Warned(kind, code, message, StrV(held))
            && Norm(sh, v) == v
  {
    var sh, v, recv := CollectionWarning(), Warned(kind, code, message, Unset), Warned("", "", "", StrV(held));
    assert Overlay(sh, recv, v).fields == [StrV(kind), StrV(code), StrV(message), StrV(held)];
    WarnedTidy(v);
  }

  lemma WarnedTidy(v: Value)
    requires Shaped(CollectionWarning(), v) && v.extra == []
    ensures Norm(CollectionWarning(), v) == v
  {
    var fields, n := CollectionWarningFields(), Norm(CollectionWarning(), v);
    assert FieldsShaped(fields, v.fields);
    forall i | 0 <= i < |fields| ensures n.fields[i] == v.fields[i] {
      PlainTidy(fields[i], v.fields[i]);
      assert n.fields[i] == TidyField(fields[i], v.fields[i], false);
    }
    assert n.fields == v.fields;
  }

  lemma PlainTidy(f: Field, v: Value)
    requires f.shape == PLAIN && !f.presence.Fixed? && FieldShaped(f, v)
    ensures TidyField(f, v, false) == v
  {
  }

  /** A warning without a node, read into a used receiver, keeps the node that was there. */
  lemma LeftoverSurvives(kind: string, code: string, message: string, held: string, rest: seq<Token>)
    ensures var (sh, v) := (CollectionWarning(), Warned(kind, code, message, Unset));
            var recv := Warned("", "", "", StrV(held));
            && Wf(sh) && Shaped(sh, recv) && Shaped(sh, v)
            && Dec(sh, recv, Enc(sh, v) + rest) == Ok(Warned(kind, code, message, StrV(held)), rest)
            && Dec(sh, Zero(sh), Enc(sh, v) + rest) == Ok(v, rest)
  {
    var sh, v, recv := CollectionWarning(), Warned(kind, code, message, Unset), Warned("", "", "", StrV(held));
    CollectionWarningWf();
    WarnedFits(kind, code, message, Unset);
    WarnedFits("", "", "", StrV(held));
    RoundTrip(sh, recv, v, rest);
    RoundTripFresh(sh, v, rest);
    WarnedOver(kind, code, message, held);
  }

  /** The map type LinkMap. */
  const LINKS: Shape := Dict(PLAIN)

  /** The empty map of links, read into a used map, keeps the link that was there. */
  lemma LinkSurvives(key: string, link: string, rest: seq<Token>)
    ensures var (v, recv) := (DictV([]), DictV([Entry(key, StrV(link))]));
            && Wf(LINKS) && Shaped(LINKS, v) && Shaped(LINKS, recv)
            && Dec(LINKS, recv, Enc(LINKS, v) + rest) == Ok(recv, rest)
            && Dec(LINKS, Zero(LINKS), Enc(LINKS, v) + rest) == Ok(v, rest)
  {
    var v, recv := DictV([]), DictV([Entry(key, StrV(link))]);
    assert Distinct(KeysOf(v.entries)) && Conforms(LINKS, v);
    RoundTrip(LINKS, recv, v, rest);
    RoundTripFresh(LINKS, v, rest);
    assert TidyEntries(PLAIN, v.entries, false) == [];
  }
}
