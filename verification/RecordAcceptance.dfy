/**
 Which objects a record's decoder accepts: exactly those whose values decode, whose required
 keys are all there and, in a closed record, whose keys are all known. The result does not
 depend on the order of the members, and a rejection for missing fields lists precisely those.
 */
module RecordAcceptance {
  import opened Wrappers
  import opened JsonTokens
  import opened PresenceBits
  import opened RecordCodec
  import opened RecordTree

  function MemberKeys(ms: seq<Member>): (r: seq<string>)
    ensures |r| == |ms| && forall i :: 0 <= i < |ms| ==> r[i] == ms[i].key
  {
    seq(|ms|, i requires 0 <= i < |ms| => ms[i].key)
  }

  /** The key names a field from whose starting point the value decodes, or is an extension of an open record. */
  ghost predicate Acceptable(sh: Shape, fields: seq<Value>, m: Member)
    requires sh.Record? && Wf(sh) && FieldsShaped(sh.fields, fields)
  {
    match Find(sh.fields, m.key)
    case None => sh.open
    case Some(i) => TreeDec(sh.fields[i].shape, FieldReceiver(sh.fields[i], fields[i]), m.value).Some?
  }

  /** What the extension map holds under a key after the members: the raw value, else what was there. */
  ghost predicate Gathered(sh: Shape, extra: seq<Entry>, ms: seq<Member>, key: string, result: Option<Value>)
    requires sh.Record?
  {
    if Find(sh.fields, key).Some? || key !in Keys(ms) then result == Lookup(extra, key)
    else forall m :: m in ms && m.key == key ==> result == Some(RawV(Print(m.value)))
  }

  /** What field `i` holds after the members: its member's value if it has one, else what was there. */
  ghost predicate Filled(sh: Shape, fields: seq<Value>, ms: seq<Member>, i: nat, result: Value)
    requires sh.Record? && Wf(sh) && FieldsShaped(sh.fields, fields) && i < |sh.fields|
  {
    var f := sh.fields[i];
    && (f.name !in Keys(ms) ==> result == fields[i])
    && (forall m :: m in ms && m.key == f.name ==>
          TreeDec(f.shape, FieldReceiver(f, fields[i]), m.value) == Some(result))
  }

  /** The members decode exactly when each is acceptable, and fill what they name. */
  ghost predicate DecodesExactly(sh: Shape, fill: Fill, ms: seq<Member>)
    requires sh.Record? && Wf(sh) && FillOk(sh, fill)
  {
    var r := TreeMembers(sh, fill, ms);
    && (r.Some? <==> forall m :: m in ms ==> Acceptable(sh, fill.fields, m))
    && (r.Some? ==> forall i :: 0 <= i < |sh.fields| ==> Filled(sh, fill.fields, ms, i, r.value.fields[i]))
    && (r.Some? ==> forall key: string :: Gathered(sh, fill.extra, ms, key, Lookup(r.value.extra, key)))
  }

  lemma {:induction false} MembersExact(sh: Shape, fill: Fill, ms: seq<Member>)
    requires sh.Record? && Wf(sh) && FillOk(sh, fill) && Distinct(MemberKeys(ms))
    ensures DecodesExactly(sh, fill, ms)
    decreases |ms|
  {
    if ms != [] {
      var m, tail := ms[0], ms[1..];
      assert ms == [m] + tail;
      HeadKeyFresh(ms);
      if TreeMember(sh, fill, m).Some? {
        MembersExact(sh, TreeMember(sh, fill, m).value, tail);
        ExactCons(sh, fill, m, tail);
      } else {
        assert !Acceptable(sh, fill.fields, m);
      }
    }
  }

  lemma HeadKeyFresh(ms: seq<Member>)
    requires ms != [] && Distinct(MemberKeys(ms))
    ensures Distinct(MemberKeys(ms[1..])) && forall x :: x in ms[1..] ==> x.key != ms[0].key
  {
    var tail := ms[1..];
    assert MemberKeys(tail) == MemberKeys(ms)[1..];
    forall x | x in tail ensures x.key != ms[0].key {
      var k :| 0 <= k < |tail| && tail[k] == x;
      assert MemberKeys(ms)[0] != MemberKeys(ms)[k + 1];
    }
  }

  lemma ExactCons(sh: Shape, fill: Fill, m: Member, tail: seq<Member>)
    requires sh.Record? && Wf(sh) && FillOk(sh, fill) && TreeMember(sh, fill, m).Some?
    requires (forall x :: x in tail ==> x.key != m.key) && DecodesExactly(sh, TreeMember(sh, fill, m).value, tail)
    ensures DecodesExactly(sh, fill, [m] + tail)
  {
    var next := TreeMember(sh, fill, m).value;
    OthersUntouched(sh, fill, m, tail);
    assert ([m] + tail)[1..] == tail;
    if TreeMembers(sh, next, tail).Some? {
      var result := TreeMembers(sh, next, tail).value;
      forall i | 0 <= i < |sh.fields| ensures Filled(sh, fill.fields, [m] + tail, i, result.fields[i]) {
        FilledCons(sh, fill, m, tail, i, result.fields[i]);
      }
      forall key: string ensures Gathered(sh, fill.extra, [m] + tail, key, Lookup(result.extra, key)) {
        GatheredCons(sh, fill, m, tail, key, Lookup(result.extra, key));
      }
    }
  }

  /** Decoding one member leaves every other key's starting point alone. */
  lemma OthersUntouched(sh: Shape, fill: Fill, m: Member, tail: seq<Member>)
    requires sh.Record? && Wf(sh) && FillOk(sh, fill) && TreeMember(sh, fill, m).Some?
    requires forall x :: x in tail ==> x.key != m.key
    ensures forall x :: x in tail ==>
              (Acceptable(sh, TreeMember(sh, fill, m).value.fields, x) <==> Acceptable(sh, fill.fields, x))
  {
  }

  lemma FilledCons(sh: Shape, fill: Fill, m: Member, tail: seq<Member>, i: nat, result: Value)
    requires sh.Record? && Wf(sh) && FillOk(sh, fill) && TreeMember(sh, fill, m).Some?
    requires forall x :: x in tail ==> x.key != m.key
    requires i < |sh.fields| && Filled(sh, TreeMember(sh, fill, m).value.fields, tail, i, result)
    ensures Filled(sh, fill.fields, [m] + tail, i, result)
  {
    KeysCons(m, tail);
    FindIndex(sh.fields, i);
    if sh.fields[i].name == m.key {
      assert sh.fields[i].name !in Keys(tail);
    }
  }

  lemma GatheredCons(sh: Shape, fill: Fill, m: Member, tail: seq<Member>, key: string, result: Option<Value>)
    requires sh.Record? && Wf(sh) && FillOk(sh, fill) && TreeMember(sh, fill, m).Some?
    requires forall x :: x in tail ==> x.key != m.key
    requires Gathered(sh, TreeMember(sh, fill, m).value.extra, tail, key, result)
    ensures Gathered(sh, fill.extra, [m] + tail, key, result)
  {
    KeysCons(m, tail);
    if Find(sh.fields, m.key).None? {
      LookupPut(fill.extra, Entry(m.key, RawV(Print(m.value))), key);
      assert key == m.key ==> key !in Keys(tail);
    }
  }

  /** A record's decoder, on any object with distinct keys, in front of any tokens. */
  lemma ObjectExact(sh: Shape, recv: Value, ms: seq<Member>, rest: seq<Token>)
    requires sh.Record? && Wf(sh) && Shaped(sh, recv) && FieldsShaped(sh.fields, recv.fields)
    requires Distinct(MemberKeys(ms))
    ensures var r := Dec(sh, recv, Print(Obj(ms)) + rest);
            && (r.Ok? <==> (forall m :: m in ms ==> Acceptable(sh, recv.fields, m)) && HasRequired(sh.fields, ms))
            && (r.Ok? ==> r.rest == rest && r.value.RecV? && |r.value.fields| == |sh.fields|
                          && (forall i :: 0 <= i < |sh.fields| ==> Filled(sh, recv.fields, ms, i, r.value.fields[i]))
                          && (forall key: string :: Gathered(sh, [], ms, key, Lookup(r.value.extra, key)))
                          && (!sh.open ==> r.value.extra == []))
  {
    ParsePrint(Obj(ms), rest);
    StreamIsTree(sh, recv, Print(Obj(ms)) + rest);
    MembersExact(sh, Fill(recv.fields, []), ms);
  }

  /** The two results are the same value, where maps are compared as maps. */
  ghost predicate SameResult(r: Read<Value>, r': Read<Value>) {
    && (r.Ok? <==> r'.Ok?)
    && (r.Ok? ==> && r.rest == r'.rest && r.value.RecV? && r'.value.RecV? && r.value.fields == r'.value.fields
                  && forall key: string :: Lookup(r.value.extra, key) == Lookup(r'.value.extra, key))
  }

  /** The same members in another order: the same verdict and the same value, in open records too. */
  lemma OrderIrrelevant(sh: Shape, recv: Value, ms: seq<Member>, ms': seq<Member>, rest: seq<Token>)
    requires sh.Record? && Wf(sh) && Shaped(sh, recv)
    requires Distinct(MemberKeys(ms)) && Distinct(MemberKeys(ms')) && multiset(ms) == multiset(ms')
    ensures SameResult(Dec(sh, recv, Print(Obj(ms)) + rest), Dec(sh, recv, Print(Obj(ms')) + rest))
    ensures !sh.open ==> Done(Dec(sh, recv, Print(Obj(ms)) + rest)) == Done(Dec(sh, recv, Print(Obj(ms')) + rest))
  {
    assert FieldsShaped(sh.fields, recv.fields);
    SameMembers(ms, ms');
    ObjectExact(sh, recv, ms, rest);
    ObjectExact(sh, recv, ms', rest);
    var r, r' := Dec(sh, recv, Print(Obj(ms)) + rest), Dec(sh, recv, Print(Obj(ms')) + rest);
    if r.Ok? {
      forall i | 0 <= i < |sh.fields| ensures r.value.fields[i] == r'.value.fields[i] {
        SameFill(sh, recv.fields, ms, ms', i, r.value.fields[i], r'.value.fields[i]);
      }
      assert r.value.fields == r'.value.fields;
      forall key: string ensures Lookup(r.value.extra, key) == Lookup(r'.value.extra, key) {
        SameGathered(sh, ms, ms', key, Lookup(r.value.extra, key), Lookup(r'.value.extra, key));
      }
    }
  }

  lemma SameMembers(ms: seq<Member>, ms': seq<Member>)
    requires multiset(ms) == multiset(ms')
    ensures (forall m :: m in ms <==> m in ms') && Keys(ms) == Keys(ms')
  {
    assert forall m :: m in ms <==> m in multiset(ms);
    assert forall m :: m in ms' <==> m in multiset(ms');
  }

  lemma SameFill(sh: Shape, fields: seq<Value>, ms: seq<Member>, ms': seq<Member>, i: nat, a: Value, b: Value)
    requires sh.Record? && Wf(sh) && FieldsShaped(sh.fields, fields) && i < |sh.fields|
    requires (forall m :: m in ms <==> m in ms') && Keys(ms) == Keys(ms')
    requires Filled(sh, fields, ms, i, a) && Filled(sh, fields, ms', i, b)
    ensures a == b
  {
    var f := sh.fields[i];
    if f.name in Keys(ms) {
      var m :| m in ms && m.key == f.name;
      assert TreeDec(f.shape, FieldReceiver(f, fields[i]), m.value) == Some(a);
    }
  }

  lemma SameGathered(sh: Shape, ms: seq<Member>, ms': seq<Member>, key: string, a: Option<Value>, b: Option<Value>)
    requires sh.Record? && (forall m :: m in ms <==> m in ms') && Keys(ms) == Keys(ms')
    requires Gathered(sh, [], ms, key, a) && Gathered(sh, [], ms', key, b)
    ensures a == b
  {
    if Find(sh.fields, key).None? && key in Keys(ms) {
      var m :| m in ms && m.key == key;
      assert a == Some(RawV(Print(m.value)));
    }
  }

  /** An object whose members all decode is rejected for what the presence bytes lack. */
  lemma MissingByBits(sh: Shape, recv: Value, ms: seq<Member>, rest: seq<Token>) returns (seen: seq<Byte>)
    requires sh.Record? && Wf(sh) && Shaped(sh, recv)
    requires TreeMembers(sh, Fill(recv.fields, []), ms).Some? && !HasRequired(sh.fields, ms)
    ensures |seen| == |sh.masks| && SeenBits(sh, NoneSeen(sh.masks), ms, seen)
    ensures Dec(sh, recv, Print(Obj(ms)) + rest) == Fail(RequiredMissing(Failures(Names(sh.fields), sh.masks, seen)))
  {
    var ts := Print(Obj(ms)) + rest;
    assert ts[1..] == PrintMembers(ms) + ([ObjEnd] + rest);
    ParsePrintMembers(ms, rest);
    var acc := Acc(Fill(recv.fields, []), NoneSeen(sh.masks));
    MembersAreTree(sh, acc, ts[1..]);
    seen := DecMembers(sh, acc, ts[1..]).value.present;
    RequiredByBits(sh, ms, seen);
  }

  lemma BitsReport(sh: Shape, ms: seq<Member>, seen: seq<Byte>)
    requires sh.Record? && Wf(sh) && |seen| == |sh.masks| && SeenBits(sh, NoneSeen(sh.masks), ms, seen)
    ensures Reported(sh, ms, MissingFrom(sh.masks, seen, 0, 0), Failures(Names(sh.fields), sh.masks, seen))
  {
    FailuresExact(Names(sh.fields), RequiredFlags(sh.fields), sh.masks, seen);
  }

  /** An object that fails only for missing fields is rejected with exactly those, in table order. */
  lemma MissingReported(sh: Shape, recv: Value, ms: seq<Member>, rest: seq<Token>)
    requires sh.Record? && Wf(sh) && Shaped(sh, recv)
    requires TreeMembers(sh, Fill(recv.fields, []), ms).Some? && !HasRequired(sh.fields, ms)
    ensures var r := Dec(sh, recv, Print(Obj(ms)) + rest);
            && r.Fail? && r.error.RequiredMissing?
            && exists idxs: seq<nat> :: Reported(sh, ms, idxs, r.error.fields)
  {
    var seen := MissingByBits(sh, recv, ms, rest);
    BitsReport(sh, ms, seen);
  }

  /** `errs` names the fields at `idxs`: ascending, and exactly the required ones without a member. */
  ghost predicate Reported(sh: Shape, ms: seq<Member>, idxs: seq<nat>, errs: seq<FieldError>)
    requires sh.Record?
  {
    && (forall i, j :: 0 <= i < j < |idxs| ==> idxs[i] < idxs[j])
    && (forall x :: x in idxs <==> 0 <= x < |sh.fields| && IsRequired(sh.fields[x]) && sh.fields[x].name !in Keys(ms))
    && |errs| == |idxs|
    && forall i :: 0 <= i < |idxs| ==> idxs[i] < |sh.fields| && errs[i] == FieldError(sh.fields[idxs[i]].name)
  }
}
