/**
 How a concrete field table is shown to be well formed: eight fields and one mask byte at a
 time. A table's `slot` is the generated switch on the key; when it sends every field name to
 that field's own position, the names are distinct.
 */
module TableChecks {
  import opened PresenceBits
  import opened RecordCodec

  /** The fields owned by one presence byte, starting at position `at`. */
  ghost predicate ByteOk(slot: string -> int, fields: seq<Field>, mask: Byte, at: nat) {
    && |fields| <= 8
    && (forall k :: 0 <= k < 8 ==> (mask[k] <==> k < |fields| && IsRequired(fields[k])))
    && forall k :: 0 <= k < |fields| ==> slot(fields[k].name) == at + k && WfField(fields[k])
  }

  /** A table built from whole bytes so far, the last one possibly short. */
  ghost predicate TableOk(slot: string -> int, fields: seq<Field>, masks: seq<Byte>) {
    && MasksMatch(masks, RequiredFlags(fields))
    && forall i :: 0 <= i < |fields| ==> slot(fields[i].name) == i && WfField(fields[i])
  }

  lemma Extend(slot: string -> int, fields: seq<Field>, masks: seq<Byte>, next: seq<Field>, mask: Byte)
    requires TableOk(slot, fields, masks) && |fields| == 8 * |masks|
    requires ByteOk(slot, next, mask, |fields|)
    ensures TableOk(slot, fields + next, masks + [mask])
  {
    var all, ms := fields + next, masks + [mask];
    var flags := RequiredFlags(all);
    forall idx | 0 <= idx < 8 * |ms| ensures At(ms, idx) <==> idx < |flags| && flags[idx] {
      if idx < |fields| {
        assert At(masks, idx) <==> RequiredFlags(fields)[idx];
      } else {
        assert idx / 8 == |masks| && ms[idx / 8] == mask;
      }
    }
  }

  lemma First(slot: string -> int, next: seq<Field>, mask: Byte)
    requires ByteOk(slot, next, mask, 0)
    ensures TableOk(slot, next, [mask])
  {
    Extend(slot, [], [], next, mask);
    assert [] + next == next && [] + [mask] == [mask];
  }

  lemma TableWf(slot: string -> int, fields: seq<Field>, masks: seq<Byte>, open: bool)
    requires TableOk(slot, fields, masks)
    ensures Wf(Record(fields, masks, open))
  {
    forall i, j | 0 <= i < j < |fields| ensures Names(fields)[i] != Names(fields)[j] {
      assert slot(fields[i].name) != slot(fields[j].name);
    }
  }

  /** The generated key switch lands on a field of that name, or on no field. */
  predicate Lands(slot: string -> int, sh: Shape, key: string)
    requires sh.Record?
  {
    slot(key) == -1 || (0 <= slot(key) < |sh.fields| && sh.fields[slot(key)].name == key)
  }

  /** It sends every key of the record to its own position, whose bit it marks, and any other to the default branch. */
  ghost predicate Switches(slot: string -> int, sh: Shape) {
    && sh.Record?
    && (forall i :: 0 <= i < |sh.fields| ==> slot(sh.fields[i].name) == i)
    && forall key: string :: Lands(slot, sh, key)
  }

  /** On every key the switch is the lookup that the codec is written with. */
  lemma SwitchFinds(slot: string -> int, sh: Shape, key: string)
    requires Switches(slot, sh)
    ensures slot(key) == match Find(sh.fields, key) case None => -1 case Some(i) => i
  {
    assert Lands(slot, sh, key);
    if Find(sh.fields, key).Some? {
      assert sh.fields[Find(sh.fields, key).value].name == key;
    }
  }
}
