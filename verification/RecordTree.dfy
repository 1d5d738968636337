/**
 The same decoder read off a JSON tree instead of a token stream: no positions, no presence
 bytes, required fields checked against the set of keys. `StreamIsTree` shows that the
 one-pass stream decoder computes exactly this, on every input.
 */
module RecordTree {
  import opened Wrappers
  import opened JsonTokens
  import opened PresenceBits
  import opened RecordCodec

  function Keys(ms: seq<Member>): set<string> {
    set m | m in ms :: m.key
  }

  function TreeText(parse: Parser, j: Json): Option<Value> {
    if !j.Leaf? || !j.atom.Str? then None
    else match parse(j.atom.text)
      case None => None
      case Some(t) => Some(StrV(t))
  }

  function TreeDec(sh: Shape, recv: Value, j: Json): (r: Option<Value>)
    requires Wf(sh) && Shaped(sh, recv)
    ensures r.Some? ==> Shaped(sh, r.value)
    decreases j, 2
  {
    match sh
    case Text(parse) => TreeText(parse, j)
    case Integer(lo, hi) =>
      if j.Leaf? && j.atom.Num? && lo <= j.atom.n <= hi then Some(IntV(j.atom.n)) else None
    case Boolean => if j.Leaf? && j.atom.Bool? then Some(BoolV(j.atom.b)) else None
    case Nullable(parse) => if j == Leaf(Null) then Some(NullV) else TreeText(parse, j)
    case Slice(elem) =>
      if !j.Arr? then None
      else (match TreeElems(elem, j.elems)
            case None => None
            case Some(vs) => Some(ListV(vs)))
    case Dict(elem) =>
      if !j.Obj? then None
      else (match TreeEntries(elem, recv.entries, j.members)
            case None => None
            case Some(es) => Some(DictV(es)))
    case RawJson => Some(RawV(Print(j)))
    case Record(fields, _, _) =>
      if !j.Obj? then None
      else match TreeMembers(sh, Fill(recv.fields, []), j.members)
        case None => None
        case Some(fill) =>
          if HasRequired(fields, j.members) then Some(RecV(fill.fields, fill.extra)) else None
  }

  predicate HasRequired(fields: seq<Field>, ms: seq<Member>) {
    forall i :: 0 <= i < |fields| && IsRequired(fields[i]) ==> fields[i].name in Keys(ms)
  }

  function TreeElems(elem: Shape, js: seq<Json>): (r: Option<seq<Value>>)
    requires Wf(elem)
    ensures r.Some? ==> |r.value| == |js| && forall i :: 0 <= i < |js| ==> Shaped(elem, r.value[i])
    decreases js, 0
  {
    if js == [] then Some([])
    else match TreeDec(elem, Zero(elem), js[0])
      case None => None
      case Some(v) =>
        match TreeElems(elem, js[1..])
        case None => None
        case Some(vs) => Some([v] + vs)
  }

  function TreeEntries(elem: Shape, acc: seq<Entry>, ms: seq<Member>): (r: Option<seq<Entry>>)
    requires Wf(elem) && EntriesShaped(elem, acc)
    ensures r.Some? ==> EntriesShaped(elem, r.value)
    decreases ms, 0
  {
    if ms == [] then Some(acc)
    else match TreeDec(elem, Zero(elem), ms[0].value)
      case None => None
      case Some(v) =>
        PutShaped(elem, acc, Entry(ms[0].key, v));
        TreeEntries(elem, Put(acc, Entry(ms[0].key, v)), ms[1..])
  }

  function TreeMembers(sh: Shape, fill: Fill, ms: seq<Member>): (r: Option<Fill>)
    requires sh.Record? && Wf(sh) && FillOk(sh, fill)
    ensures r.Some? ==> FillOk(sh, r.value)
    decreases ms, 0
  {
    if ms == [] then Some(fill)
    else match TreeMember(sh, fill, ms[0])
      case None => None
      case Some(next) => TreeMembers(sh, next, ms[1..])
  }

  function TreeMember(sh: Shape, fill: Fill, m: Member): (r: Option<Fill>)
    requires sh.Record? && Wf(sh) && FillOk(sh, fill)
    ensures r.Some? ==> FillOk(sh, r.value)
    decreases m, 3
  {
    match Find(sh.fields, m.key)
    case Some(i) =>
      var f := sh.fields[i];
      (match TreeDec(f.shape, FieldReceiver(f, fill.fields[i]), m.value)
       case None => None
       case Some(v) =>
         assert FieldShaped(f, v);
         Some(fill.(fields := fill.fields[i := v])))
    case None =>
      if !sh.open then None
      else
        var e := Entry(m.key, RawV(Print(m.value)));
        PutShaped(RawJson, fill.extra, e);
        Some(fill.(extra := Put(fill.extra, e)))
  }

  // ---- the stream decoder is the tree decoder ------------------------------------------

  function Done<T>(r: Read<T>): Option<(T, seq<Token>)> {
    match r
    case Ok(v, rest) => Some((v, rest))
    case Fail(_) => None
  }

  /** What the tree decoder says about the front of a stream. */
  function TreeRead(sh: Shape, recv: Value, ts: seq<Token>): Option<(Value, seq<Token>)>
    requires Wf(sh) && Shaped(sh, recv)
  {
    match Parse(ts)
    case None => None
    case Some((j, rest)) =>
      match TreeDec(sh, recv, j)
      case None => None
      case Some(v) => Some((v, rest))
  }

  lemma TextIsTree(parse: Parser, ts: seq<Token>)
    ensures Done(DecText(parse, ts))
         == match Parse(ts)
            case None => None
            case Some((j, rest)) =>
              match TreeText(parse, j)
              case None => None
              case Some(v) => Some((v, rest))
  {
  }

  lemma RawIsTree(ts: seq<Token>)
    ensures Done(DecRaw(ts))
         == match Parse(ts)
            case None => None
            case Some((j, rest)) => Some((RawV(Print(j)), rest))
  {
    if Parse(ts).Some? {
      PrintParse(ts);
      var (j, rest) := Parse(ts).value;
      assert ts[..|ts| - |rest|] == Print(j);
    }
  }

  /** The one-pass decoder agrees with the tree decoder on every stream and every receiver. */
  lemma {:induction false} StreamIsTree(sh: Shape, recv: Value, ts: seq<Token>)
    requires Wf(sh) && Shaped(sh, recv)
    ensures Done(Dec(sh, recv, ts)) == TreeRead(sh, recv, ts)
    decreases |ts|, 0
  {
    match sh {
      case Text(parse) => TextIsTree(parse, ts);
      case Integer(_, _) =>
      case Boolean =>
      case Nullable(parse) => TextIsTree(parse, ts);
      case Slice(elem) =>
        if ts != [] && ts[0].ArrStart? {
          StreamIsTreeElems(elem, [], ts[1..]);
          assert forall vs: seq<Value> :: [] + vs == vs;
        }
      case Dict(elem) =>
        if ts != [] && ts[0].ObjStart? {
          StreamIsTreeEntries(elem, recv.entries, ts[1..]);
        }
      case RawJson => RawIsTree(ts);
      case Record(fields, masks, _) =>
        if ts != [] && ts[0].ObjStart? {
          RecordIsTree(sh, recv, ts);
        }
    }
  }

  lemma Reassociate(acc: seq<Value>, vs: seq<Value>)
    requires vs != []
    ensures acc + vs == (acc + [vs[0]]) + vs[1..]
  {
  }

  lemma ElemsCons(elem: Shape, j: Json, js: seq<Json>)
    requires Wf(elem)
    ensures TreeElems(elem, [j] + js)
         == match TreeDec(elem, Zero(elem), j)
            case None => None
            case Some(v) =>
              match TreeElems(elem, js)
              case None => None
              case Some(vs) => Some([v] + vs)
  {
    assert ([j] + js)[1..] == js;
  }

  lemma EntriesCons(elem: Shape, acc: seq<Entry>, m: Member, ms: seq<Member>)
    requires Wf(elem) && EntriesShaped(elem, acc)
    ensures TreeDec(elem, Zero(elem), m.value).None? ==> TreeEntries(elem, acc, [m] + ms) == None
    ensures TreeDec(elem, Zero(elem), m.value).Some? ==>
              var e := Entry(m.key, TreeDec(elem, Zero(elem), m.value).value);
              EntriesShaped(elem, Put(acc, e)) && TreeEntries(elem, acc, [m] + ms) == TreeEntries(elem, Put(acc, e), ms)
  {
    assert ([m] + ms)[1..] == ms;
    if TreeDec(elem, Zero(elem), m.value).Some? {
      PutShaped(elem, acc, Entry(m.key, TreeDec(elem, Zero(elem), m.value).value));
    }
  }

  lemma {:induction false} StreamIsTreeElems(elem: Shape, acc: seq<Value>, ts: seq<Token>)
    requires Wf(elem) && forall i :: 0 <= i < |acc| ==> Shaped(elem, acc[i])
    ensures Done(DecElems(elem, acc, ts))
         == match ParseElems(ts)
            case None => None
            case Some((js, rest)) =>
              match TreeElems(elem, js)
              case None => None
              case Some(vs) => Some((ListV(acc + vs), rest))
    decreases |ts|, 1
  {
    if ts != [] && !ts[0].ArrEnd? {
      StreamIsTree(elem, Zero(elem), ts);
      if Parse(ts).Some? {
        var (j, after) := Parse(ts).value;
        if TreeDec(elem, Zero(elem), j).Some? {
          var v := TreeDec(elem, Zero(elem), j).value;
          StreamIsTreeElems(elem, acc + [v], after);
        }
        if ParseElems(after).Some? {
          var js := ParseElems(after).value.0;
          ElemsCons(elem, j, js);
          if TreeElems(elem, [j] + js).Some? {
            Reassociate(acc, TreeElems(elem, [j] + js).value);
          }
        }
      }
    } else if ts != [] {
      assert acc + [] == acc;
    }
  }

  /** The entries of a map read off the tree, laid over `acc`. */
  function EntriesRead(elem: Shape, acc: seq<Entry>, ts: seq<Token>): Option<(Value, seq<Token>)>
    requires Wf(elem) && EntriesShaped(elem, acc)
  {
    match ParseMembers(ts)
    case None => None
    case Some((ms, rest)) =>
      match TreeEntries(elem, acc, ms)
      case None => None
      case Some(es) => Some((DictV(es), rest))
  }

  lemma EntriesReadStep(elem: Shape, acc: seq<Entry>, ts: seq<Token>, j: Json, after: seq<Token>)
    requires Wf(elem) && EntriesShaped(elem, acc)
    requires ts != [] && ts[0].Key? && Parse(ts[1..]) == Some((j, after))
    ensures TreeDec(elem, Zero(elem), j).None? ==> EntriesRead(elem, acc, ts) == None
    ensures TreeDec(elem, Zero(elem), j).Some? ==>
              var e := Entry(ts[0].name, TreeDec(elem, Zero(elem), j).value);
              EntriesShaped(elem, Put(acc, e)) && EntriesRead(elem, acc, ts) == EntriesRead(elem, Put(acc, e), after)
  {
    if TreeDec(elem, Zero(elem), j).Some? {
      PutShaped(elem, acc, Entry(ts[0].name, TreeDec(elem, Zero(elem), j).value));
    }
    if ParseMembers(after).Some? {
      EntriesCons(elem, acc, Member(ts[0].name, j), ParseMembers(after).value.0);
    }
  }

  lemma {:induction false} StreamIsTreeEntries(elem: Shape, acc: seq<Entry>, ts: seq<Token>)
    requires Wf(elem) && EntriesShaped(elem, acc)
    ensures Done(DecEntries(elem, acc, ts)) == EntriesRead(elem, acc, ts)
    decreases |ts|, 1
  {
    if ts != [] && ts[0].Key? {
      StreamIsTree(elem, Zero(elem), ts[1..]);
      if Parse(ts[1..]).Some? {
        var (j, after) := Parse(ts[1..]).value;
        EntriesReadStep(elem, acc, ts, j, after);
        if TreeDec(elem, Zero(elem), j).Some? {
          StreamIsTreeEntries(elem, Put(acc, Entry(ts[0].name, TreeDec(elem, Zero(elem), j).value)), after);
        }
      }
    }
  }

  /** Position `x` is that of a required field whose key is among the members. */
  predicate Seen(sh: Shape, ms: seq<Member>, x: nat)
    requires sh.Record?
  {
    x < |sh.fields| && IsRequired(sh.fields[x]) && sh.fields[x].name in Keys(ms)
  }

  /** After a run over `ms`, a presence bit is on iff it was on before or a required field's key was seen. */
  ghost predicate SeenBits(sh: Shape, before: seq<Byte>, ms: seq<Member>, after: seq<Byte>)
    requires sh.Record? && Wf(sh) && |before| == |sh.masks| == |after|
  {
    forall x :: 0 <= x < 8 * |sh.masks| ==>
      (At(after, x) <==> At(before, x) || Seen(sh, ms, x))
  }

  lemma {:induction false} MembersAreTree(sh: Shape, acc: Acc, ts: seq<Token>)
    requires sh.Record? && Wf(sh) && AccOk(sh, acc)
    ensures var r := DecMembers(sh, acc, ts);
            match ParseMembers(ts)
            case None => r.Fail?
            case Some((ms, rest)) =>
              match TreeMembers(sh, acc.fill, ms)
              case None => r.Fail?
              case Some(fill) =>
                r.Ok? && r.rest == rest && r.value.fill == fill && SeenBits(sh, acc.present, ms, r.value.present)
    decreases |ts|, 2
  {
    if ts != [] && ts[0].Key? {
      var k := ts[0].name;
      MemberIsTree(sh, acc, k, ts[1..]);
      if Parse(ts[1..]).Some? {
        var (j, after) := Parse(ts[1..]).value;
        if TreeMember(sh, acc.fill, Member(k, j)).Some? {
          var next := DecMember(sh, acc, k, ts[1..]).value;
          MembersAreTree(sh, next, after);
        }
        if ParseMembers(after).Some? {
          var ms := ParseMembers(after).value.0;
          KeysCons(Member(k, j), ms);
        }
      }
    }
  }

  lemma KeysCons(m: Member, ms: seq<Member>)
    ensures ([m] + ms)[0] == m && ([m] + ms)[1..] == ms
    ensures Keys([m] + ms) == {m.key} + Keys(ms)
  {
    assert forall x :: x in [m] + ms <==> x == m || x in ms;
  }

  lemma {:induction false} FindIndex(fields: seq<Field>, i: nat)
    requires i < |fields| && Distinct(Names(fields))
    ensures Find(fields, fields[i].name) == Some(i)
  {
    if i > 0 {
      assert Names(fields)[0] != Names(fields)[i];
      assert Names(fields[1..]) == Names(fields)[1..];
      FindIndex(fields[1..], i - 1);
    }
  }

  lemma {:induction false} MemberIsTree(sh: Shape, acc: Acc, k: string, ts: seq<Token>)
    requires sh.Record? && Wf(sh) && AccOk(sh, acc)
    ensures var r := DecMember(sh, acc, k, ts);
            match Parse(ts)
            case None => r.Fail?
            case Some((j, rest)) =>
              match TreeMember(sh, acc.fill, Member(k, j))
              case None => r.Fail?
              case Some(fill) =>
                r.Ok? && r.rest == rest && r.value.fill == fill
                && SeenBits(sh, acc.present, [Member(k, j)], r.value.present)
    decreases |ts|, 1
  {
    match Find(sh.fields, k)
    case Some(i) =>
      var f := sh.fields[i];
      StreamIsTree(f.shape, FieldReceiver(f, acc.fill.fields[i]), ts);
    case None =>
      RawIsTree(ts);
  }

  lemma {:induction false} RecordIsTree(sh: Shape, recv: Value, ts: seq<Token>)
    requires sh.Record? && Wf(sh) && Shaped(sh, recv) && ts != [] && ts[0].ObjStart?
    ensures Done(Dec(sh, recv, ts)) == TreeRead(sh, recv, ts)
    decreases |ts| - 1, 3
  {
    var acc := Acc(Fill(recv.fields, []), NoneSeen(sh.masks));
    MembersAreTree(sh, acc, ts[1..]);
    var r := DecMembers(sh, acc, ts[1..]);
    if r.Ok? {
      var ms := ParseMembers(ts[1..]).value.0;
      RequiredByBits(sh, ms, r.value.present);
    }
  }

  /** The presence bytes find a missing field exactly when a required key is not among the members. */
  lemma RequiredByBits(sh: Shape, ms: seq<Member>, present: seq<Byte>)
    requires sh.Record? && Wf(sh) && |present| == |sh.masks|
    requires SeenBits(sh, NoneSeen(sh.masks), ms, present)
    ensures Failures(Names(sh.fields), sh.masks, present) == [] <==> HasRequired(sh.fields, ms)
  {
    FailuresExact(Names(sh.fields), RequiredFlags(sh.fields), sh.masks, present);
  }
}
