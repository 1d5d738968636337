/**
 The presence bytes of a generated Decode. Every required field owns one bit; a loop over
 population count and lowest set bit turns the bytes into the list of missing fields.

 A uint8 is carried as its eight flags, least significant first, and the bitwise operators
 act flag by flag; `OneFlag` and `SameFlags` tie them to machine arithmetic on 8-bit words.
 */
module PresenceBits {

  type Byte = s: seq<bool> | |s| == 8 witness [false, false, false, false, false, false, false, false]

  const ZERO: Byte := [false, false, false, false, false, false, false, false]

  /** The flags of a machine byte. */
  function Flags(b: bv8): Byte {
    [b & 1 != 0, b & 2 != 0, b & 4 != 0, b & 8 != 0, b & 16 != 0, b & 32 != 0, b & 64 != 0, b & 128 != 0]
  }

  /** `1 << k` */
  function Bit(k: nat): (r: Byte)
    requires k < 8
    ensures forall i :: 0 <= i < 8 ==> (r[i] <==> i == k)
  {
    ZERO[k := true]
  }

  function And(a: Byte, b: Byte): (r: Byte)
    ensures forall i :: 0 <= i < 8 ==> r[i] == (a[i] && b[i])
  {
    seq(8, i requires 0 <= i < 8 => a[i] && b[i])
  }

  function Or(a: Byte, b: Byte): (r: Byte)
    ensures forall i :: 0 <= i < 8 ==> r[i] == (a[i] || b[i])
  {
    seq(8, i requires 0 <= i < 8 => a[i] || b[i])
  }

  function Xor(a: Byte, b: Byte): (r: Byte)
    ensures forall i :: 0 <= i < 8 ==> r[i] == (a[i] != b[i])
  {
    seq(8, i requires 0 <= i < 8 => a[i] != b[i])
  }

  /** `a &^ b` */
  function AndNot(a: Byte, b: Byte): (r: Byte)
    ensures forall i :: 0 <= i < 8 ==> r[i] == (a[i] && !b[i])
  {
    seq(8, i requires 0 <= i < 8 => a[i] && !b[i])
  }

  /**
   On machine bytes the expressions of a generated Decode act flag by flag, as `Or`,
   `Xor(And(..))` and `AndNot` do; `m` is the one-bit byte of the flag.
   */
  lemma OneFlag(a: bv8, b: bv8, m: bv8)
    requires m in {1, 2, 4, 8, 16, 32, 64, 128}
    ensures (a | b) & m != 0 <==> a & m != 0 || b & m != 0
    ensures ((a & b) ^ b) & m != 0 <==> b & m != 0 && a & m == 0
    ensures (a & !b) & m != 0 <==> a & m != 0 && b & m == 0
  {
  }

  /** The same, with the outcomes named. */
  lemma OneFlagNamed(a: bv8, b: bv8, m: bv8) returns (p: bool, q: bool)
    requires m in {1, 2, 4, 8, 16, 32, 64, 128}
    ensures p == (a & m != 0) && q == (b & m != 0)
    ensures ((a | b) & m != 0) == (p || q)
    ensures (((a & b) ^ b) & m != 0) == (q && !p)
    ensures ((a & !b) & m != 0) == (p && !q)
  {
    p, q := a & m != 0, b & m != 0;
    OneFlag(a, b, m);
  }

  /** The one-bit byte of flag `i`. */
  function Mask(i: nat): (m: bv8)
    requires i < 8
    ensures m in {1, 2, 4, 8, 16, 32, 64, 128}
  {
    match i
    case 0 => 1
    case 1 => 2
    case 2 => 4
    case 3 => 8
    case 4 => 16
    case 5 => 32
    case 6 => 64
    case _ => 128
  }

  /** `f` holds the flags of `a`. */
  ghost predicate AreFlags(f: Byte, a: bv8) {
    forall i :: 0 <= i < 8 ==> f[i] == (a & Mask(i) != 0)
  }

  lemma FlagsAreFlags(a: bv8)
    ensures AreFlags(Flags(a), a)
  {
  }

  lemma FlagActs(a: bv8, b: bv8, f: Byte, g: Byte, i: nat)
    requires i < 8 && f[i] == (a & Mask(i) != 0) && g[i] == (b & Mask(i) != 0)
    ensures ((a | b) & Mask(i) != 0) == (f[i] || g[i])
    ensures (((a & b) ^ b) & Mask(i) != 0) == (g[i] && !f[i])
    ensures ((a & !b) & Mask(i) != 0) == (f[i] && !g[i])
  {
    var p, q := OneFlagNamed(a, b, Mask(i));
  }

  /** What a generated Decode computes on machine bytes, computed on their flags. */
  lemma FlagsAct(a: bv8, b: bv8, f: Byte, g: Byte)
    requires AreFlags(f, a) && AreFlags(g, b)
    ensures AreFlags(Or(f, g), a | b)
    ensures AreFlags(Xor(And(f, g), g), (a & b) ^ b)
    ensures AreFlags(AndNot(f, g), a & !b)
  {
    forall i | 0 <= i < 8 {
      FlagActs(a, b, f, g, i);
    }
  }

  lemma OnlyFlags(f: Byte, g: Byte, a: bv8)
    requires AreFlags(f, a) && AreFlags(g, a)
    ensures f == g
  {
  }

  /** Setting a field's bit in a machine byte is setting its flag. */
  lemma FlagsOr(a: bv8, b: bv8)
    ensures Flags(a | b) == Or(Flags(a), Flags(b))
  {
    FlagsAreFlags(a);
    FlagsAreFlags(b);
    FlagsAreFlags(a | b);
    FlagsAct(a, b, Flags(a), Flags(b));
    OnlyFlags(Flags(a | b), Or(Flags(a), Flags(b)), a | b);
  }

  /** The bits a machine byte lacks are the flags it lacks. */
  lemma FlagsMissing(a: bv8, b: bv8)
    ensures Flags((a & b) ^ b) == Xor(And(Flags(a), Flags(b)), Flags(b))
  {
    FlagsAreFlags(a);
    FlagsAreFlags(b);
    FlagsAreFlags((a & b) ^ b);
    FlagsAct(a, b, Flags(a), Flags(b));
    OnlyFlags(Flags((a & b) ^ b), Xor(And(Flags(a), Flags(b)), Flags(b)), (a & b) ^ b);
  }

  /** Clearing bits of a machine byte is clearing flags. */
  lemma FlagsCleared(a: bv8, b: bv8)
    ensures Flags(a & !b) == AndNot(Flags(a), Flags(b))
  {
    FlagsAreFlags(a);
    FlagsAreFlags(b);
    FlagsAreFlags(a & !b);
    FlagsAct(a, b, Flags(a), Flags(b));
    OnlyFlags(Flags(a & !b), AndNot(Flags(a), Flags(b)), a & !b);
  }

  /** The flags of `1 << i`, which marks a field as seen. */
  lemma FlagsOfMask(i: nat)
    requires i < 8
    ensures Flags(Mask(i)) == Bit(i)
  {
  }

  /** A byte is its flags. */
  lemma SameFlags(a: bv8, b: bv8)
    requires Flags(a) == Flags(b)
    ensures a == b
  {
    assert forall i :: 0 <= i < 8 ==> Flags(a)[i] == Flags(b)[i];
    assert Flags(a)[0] == Flags(b)[0] && Flags(a)[1] == Flags(b)[1] && Flags(a)[2] == Flags(b)[2]
           && Flags(a)[3] == Flags(b)[3];
    assert Flags(a)[4] == Flags(b)[4] && Flags(a)[5] == Flags(b)[5] && Flags(a)[6] == Flags(b)[6]
           && Flags(a)[7] == Flags(b)[7];
  }

  /** Set flags from position `k` up; from 0 it is bits.OnesCount8. */
  function OnesFrom(b: Byte, k: nat): nat
    requires k <= 8
    decreases 8 - k
  {
    if k == 8 then 0 else (if b[k] then 1 else 0) + OnesFrom(b, k + 1)
  }

  function OnesCount8(b: Byte): nat {
    OnesFrom(b, 0)
  }

  /** The lowest set flag from `k` up, 8 when there is none; from 0 it is bits.TrailingZeros8. */
  function LowestFrom(b: Byte, k: nat): (r: nat)
    requires k <= 8
    ensures k <= r <= 8 && (r < 8 ==> b[r])
    ensures forall x :: k <= x < r ==> !b[x]
    decreases 8 - k
  {
    if k == 8 then 8 else if b[k] then k else LowestFrom(b, k + 1)
  }

  function TrailingZeros8(b: Byte): nat {
    LowestFrom(b, 0)
  }

  /** `c` is `b` without flag `t`. */
  ghost predicate Without(b: Byte, t: nat, c: Byte) {
    forall x :: 0 <= x < 8 ==> c[x] == (b[x] && x != t)
  }

  /** `b &^= 1 << t` */
  lemma Clears(b: Byte, t: nat)
    requires t < 8
    ensures Without(b, t, AndNot(b, Bit(t)))
  {
  }

  lemma {:induction false} ClearOne(b: Byte, t: nat, c: Byte, k: nat)
    requires t < 8 && k <= 8 && b[t] && Without(b, t, c)
    ensures OnesFrom(c, k) == OnesFrom(b, k) - if k <= t then 1 else 0
    decreases 8 - k
  {
    if k < 8 {
      ClearOne(b, t, c, k + 1);
    }
  }

  lemma {:induction false} NoOnes(b: Byte, k: nat)
    requires k <= 8
    ensures OnesFrom(b, k) == 0 <==> forall x :: k <= x < 8 ==> !b[x]
    decreases 8 - k
  {
    if k < 8 {
      NoOnes(b, k + 1);
    }
  }

  predicate At(bytes: seq<Byte>, idx: nat)
    requires idx < 8 * |bytes|
  {
    bytes[idx / 8][idx % 8]
  }

  /** `bytes[idx/8] |= 1 << (idx%8)` */
  function Mark(bytes: seq<Byte>, idx: nat): (r: seq<Byte>)
    requires idx < 8 * |bytes|
    ensures |r| == |bytes|
    ensures forall x :: 0 <= x < 8 * |bytes| ==> (At(r, x) <==> At(bytes, x) || x == idx)
  {
    bytes[idx / 8 := Or(bytes[idx / 8], Bit(idx % 8))]
  }

  /** A field is missing when its mask bit is set and its presence bit is not. */
  predicate IsMissing(masks: seq<Byte>, present: seq<Byte>, idx: nat)
    requires |present| == |masks| && idx < 8 * |masks|
  {
    At(masks, idx) && !At(present, idx)
  }

  /** The indices of the missing fields, from flag `k` of byte `i` on. */
  function MissingFrom(masks: seq<Byte>, present: seq<Byte>, i: nat, k: nat): seq<nat>
    requires |present| == |masks| && k <= 8
    decreases |masks| - i, 8 - k
  {
    if i >= |masks| then []
    else if k == 8 then MissingFrom(masks, present, i + 1, 0)
    else if masks[i][k] && !present[i][k] then [8 * i + k] + MissingFrom(masks, present, i, k + 1)
    else MissingFrom(masks, present, i, k + 1)
  }

  /** strconv.Itoa, the spelling used when an index has no name. */
  function Itoa(n: nat): string {
    if n < 10 then [('0' as int + n) as char] else Itoa(n / 10) + [('0' as int + n % 10) as char]
  }

  /** validate.FieldError with validate.ErrFieldRequired. */
  datatype FieldError = FieldError(name: string)

  function NameOf(names: seq<string>, idx: nat): FieldError {
    FieldError(if idx < |names| then names[idx] else Itoa(idx))
  }

  function NamesOf(names: seq<string>, idxs: seq<nat>): seq<FieldError> {
    seq(|idxs|, i requires 0 <= i < |idxs| => NameOf(names, idxs[i]))
  }

  function FailuresFrom(names: seq<string>, masks: seq<Byte>, present: seq<Byte>, i: nat, k: nat): seq<FieldError>
    requires |present| == |masks| && k <= 8
  {
    NamesOf(names, MissingFrom(masks, present, i, k))
  }

  /** The missing-field list of a decode: what `failures` holds after the nested loops. */
  function Failures(names: seq<string>, masks: seq<Byte>, present: seq<Byte>): seq<FieldError>
    requires |present| == |masks|
  {
    FailuresFrom(names, masks, present, 0, 0)
  }

  lemma Joined(a: seq<FieldError>, b: seq<FieldError>, c: seq<FieldError>)
    ensures a + (b + c) == a + b + c
  {
  }

  /** The names owned by the set flags of one byte, from flag `k` up. */
  function NamesInByte(names: seq<string>, i: nat, b: Byte, k: nat): seq<FieldError>
    requires k <= 8
    decreases 8 - k
  {
    if k == 8 then []
    else if b[k] then [NameOf(names, i * 8 + k)] + NamesInByte(names, i, b, k + 1)
    else NamesInByte(names, i, b, k + 1)
  }

  lemma {:induction false} NamesAbove(names: seq<string>, i: nat, b: Byte, t: nat, c: Byte, k: nat)
    requires Without(b, t, c) && t < k <= 8
    ensures NamesInByte(names, i, c, k) == NamesInByte(names, i, b, k)
    decreases 8 - k
  {
    if k < 8 {
      NamesAbove(names, i, b, t, c, k + 1);
    }
  }

  lemma {:induction false} DropName(names: seq<string>, i: nat, b: Byte, t: nat, c: Byte, k: nat)
    requires k <= t < 8 && t == LowestFrom(b, k) && Without(b, t, c)
    ensures NamesInByte(names, i, b, k) == [NameOf(names, i * 8 + t)] + NamesInByte(names, i, c, k)
    decreases 8 - k
  {
    if t == k {
      NamesAbove(names, i, b, t, c, k + 1);
    } else {
      DropName(names, i, b, t, c, k + 1);
    }
  }

  /** Clearing the lowest set flag takes its name off the front and one off the count. */
  lemma DropLowest(names: seq<string>, i: nat, b: Byte, t: nat, c: Byte)
    requires t == TrailingZeros8(b) < 8 && Without(b, t, c)
    ensures NamesInByte(names, i, b, 0) == [NameOf(names, i * 8 + t)] + NamesInByte(names, i, c, 0)
    ensures OnesCount8(c) == OnesCount8(b) - 1
  {
    ClearOne(b, t, c, 0);
    DropName(names, i, b, t, c, 0);
  }

  lemma {:induction false} NothingNamed(names: seq<string>, i: nat, b: Byte, k: nat)
    requires k <= 8 && OnesFrom(b, k) == 0
    ensures NamesInByte(names, i, b, k) == []
    decreases 8 - k
  {
    if k < 8 {
      NothingNamed(names, i, b, k + 1);
    }
  }

  /** What is named so far and what is still to be named make up the names of the whole byte. */
  ghost predicate Naming(names: seq<string>, i: nat, byte: Byte, failures: seq<FieldError>, result: Byte) {
    NamesInByte(names, i, byte, 0) == failures + NamesInByte(names, i, result, 0)
  }

  lemma LowestInRange(result: Byte)
    requires OnesCount8(result) > 0
    ensures TrailingZeros8(result) < 8
  {
    NoOnes(result, 0);
  }

  lemma NameStep(names: seq<string>, i: nat, byte: Byte, failures: seq<FieldError>, result: Byte, t: nat,
                 more: seq<FieldError>, rest: Byte)
    requires Naming(names, i, byte, failures, result)
    requires t == TrailingZeros8(result) < 8 && Without(result, t, rest)
    requires more == failures + [NameOf(names, i * 8 + t)]
    ensures Naming(names, i, byte, more, rest) && OnesCount8(rest) == OnesCount8(result) - 1
  {
    DropLowest(names, i, result, t, rest);
    Joined(failures, [NameOf(names, i * 8 + t)], NamesInByte(names, i, rest, 0));
  }

  lemma NamingStarts(names: seq<string>, i: nat, byte: Byte)
    ensures Naming(names, i, byte, [], byte)
  {
  }

  lemma NamingDone(names: seq<string>, i: nat, byte: Byte, failures: seq<FieldError>, result: Byte)
    requires Naming(names, i, byte, failures, result) && OnesCount8(result) == 0
    ensures failures == NamesInByte(names, i, byte, 0) && result == ZERO
  {
    NothingNamed(names, i, result, 0);
    NoOnes(result, 0);
  }

  /**
   The inner loop: population-count rounds, each naming the lowest set flag and clearing it.
   It always ends on the zero byte.
   */
  method NameFlags(names: seq<string>, i: nat, byte: Byte) returns (failures: seq<FieldError>)
    ensures failures == NamesInByte(names, i, byte, 0)
  {
    failures := [];
    NamingStarts(names, i, byte);
    var result := byte;
    var missed := OnesCount8(result);
    for bitN := 0 to missed
      invariant OnesCount8(result) == missed - bitN
      invariant Naming(names, i, byte, failures, result)
    {
      LowestInRange(result);
      var bitIdx := TrailingZeros8(result);
      var fieldIdx := i * 8 + bitIdx;
      var more, rest := failures + [NameOf(names, fieldIdx)], AndNot(result, Bit(bitIdx));
      Clears(result, bitIdx);
      NameStep(names, i, byte, failures, result, bitIdx, more, rest);
      failures, result := more, rest;
    }
    NamingDone(names, i, byte, failures, result);
    assert result == ZERO;
  }

  /** The list from one flag on, by that flag. */
  lemma FailuresStep(names: seq<string>, masks: seq<Byte>, present: seq<Byte>, i: nat, k: nat)
    requires |present| == |masks| && i < |masks| && k < 8
    ensures FailuresFrom(names, masks, present, i, k)
         == (if masks[i][k] && !present[i][k] then [NameOf(names, i * 8 + k)] else [])
            + FailuresFrom(names, masks, present, i, k + 1)
  {
    var rest := MissingFrom(masks, present, i, k + 1);
    assert NamesOf(names, [8 * i + k] + rest) == [NameOf(names, i * 8 + k)] + NamesOf(names, rest);
    assert [] + NamesOf(names, rest) == NamesOf(names, rest);
  }

  /** The flags the inner loop works on are the missing fields of byte `i`. */
  lemma {:induction false} ByteStep(names: seq<string>, masks: seq<Byte>, present: seq<Byte>, i: nat, k: nat, b: Byte)
    requires |present| == |masks| && i < |masks| && k <= 8
    requires forall x :: 0 <= x < 8 ==> b[x] == (masks[i][x] && !present[i][x])
    ensures FailuresFrom(names, masks, present, i, k)
            == NamesInByte(names, i, b, k) + FailuresFrom(names, masks, present, i + 1, 0)
    decreases 8 - k
  {
    var rest := FailuresFrom(names, masks, present, i + 1, 0);
    if k < 8 {
      ByteStep(names, masks, present, i, k + 1, b);
      FailuresStep(names, masks, present, i, k);
      Joined(if b[k] then [NameOf(names, i * 8 + k)] else [], NamesInByte(names, i, b, k + 1), rest);
    } else {
      assert [] + rest == rest;
    }
  }

  lemma ZeroNames(names: seq<string>, i: nat)
    ensures NamesInByte(names, i, ZERO, 0) == []
  {
    NoOnes(ZERO, 0);
    NothingNamed(names, i, ZERO, 0);
  }

  /** What one byte contributes to the missing-field list. */
  lemma ByteDone(names: seq<string>, masks: seq<Byte>, present: seq<Byte>, i: nat, result: Byte)
    requires |present| == |masks| && i < |masks|
    requires result == Xor(And(present[i], masks[i]), masks[i])
    ensures FailuresFrom(names, masks, present, i, 0)
         == NamesInByte(names, i, result, 0) + FailuresFrom(names, masks, present, i + 1, 0)
    ensures result == ZERO ==>
            FailuresFrom(names, masks, present, i, 0) == FailuresFrom(names, masks, present, i + 1, 0)
  {
    ByteStep(names, masks, present, i, 0, result);
    if result == ZERO {
      ZeroNames(names, i);
      assert [] + FailuresFrom(names, masks, present, i + 1, 0) == FailuresFrom(names, masks, present, i + 1, 0);
    }
  }

  /** Behind the last byte nothing is missing. */
  lemma NoneBehind(names: seq<string>, masks: seq<Byte>, present: seq<Byte>, failures: seq<FieldError>)
    requires |present| == |masks|
    ensures failures + FailuresFrom(names, masks, present, |masks|, 0) == failures
  {
  }

  /** The validation loop over the presence bytes that closes every generated Decode. */
  method CollectFailures(names: seq<string>, masks: seq<Byte>, present: seq<Byte>) returns (failures: seq<FieldError>)
    requires |present| == |masks|
    ensures failures == Failures(names, masks, present)
  {
    failures := [];
    for i := 0 to |masks|
      invariant Failures(names, masks, present) == failures + FailuresFrom(names, masks, present, i, 0)
    {
      var mask := masks[i];
      var result := Xor(And(present[i], mask), mask);
      ByteDone(names, masks, present, i, result);
      if result != ZERO {
        var named := NameFlags(names, i, result);
        Joined(failures, named, FailuresFrom(names, masks, present, i + 1, 0));
        failures := failures + named;
      }
    }
    NoneBehind(names, masks, present, failures);
  }

  /** The mask bytes say exactly which of the fields are required. */
  ghost predicate MasksMatch(masks: seq<Byte>, required: seq<bool>) {
    |required| <= 8 * |masks| &&
    forall idx :: 0 <= idx < 8 * |masks| ==> (At(masks, idx) <==> idx < |required| && required[idx])
  }

  /** Ascending, without repetition, and exactly the missing ones from `start` on. */
  ghost predicate ListsMissing(r: seq<nat>, masks: seq<Byte>, present: seq<Byte>, start: nat)
    requires |present| == |masks|
  {
    && (forall p, q :: 0 <= p < q < |r| ==> r[p] < r[q])
    && (forall x :: x in r <==> start <= x < 8 * |masks| && IsMissing(masks, present, x))
  }

  lemma NothingBehind(masks: seq<Byte>, present: seq<Byte>, start: nat)
    requires |present| == |masks| && start >= 8 * |masks|
    ensures ListsMissing([], masks, present, start)
  {
  }

  lemma FlagAt(masks: seq<Byte>, present: seq<Byte>, i: nat, k: nat)
    requires |present| == |masks| && i < |masks| && k < 8
    ensures 8 * i + k < 8 * |masks|
    ensures IsMissing(masks, present, 8 * i + k) == (masks[i][k] && !present[i][k])
  {
    assert (8 * i + k) / 8 == i && (8 * i + k) % 8 == k;
  }

  /** One more index in front, if its field is missing. */
  lemma Front(masks: seq<Byte>, present: seq<Byte>, idx: nat, rest: seq<nat>)
    requires |present| == |masks| && idx < 8 * |masks|
    requires ListsMissing(rest, masks, present, idx + 1)
    ensures IsMissing(masks, present, idx) ==> ListsMissing([idx] + rest, masks, present, idx)
    ensures !IsMissing(masks, present, idx) ==> ListsMissing(rest, masks, present, idx)
  {
    var r := [idx] + rest;
    assert forall q :: 0 <= q < |rest| ==> rest[q] in rest;
    assert forall x :: x in r <==> x == idx || x in rest;
  }

  /** The step at one flag. */
  lemma FrontFlag(masks: seq<Byte>, present: seq<Byte>, i: nat, k: nat, idx: nat, r: seq<nat>, rest: seq<nat>)
    requires |present| == |masks| && i < |masks| && k < 8 && idx == 8 * i + k
    requires r == if masks[i][k] && !present[i][k] then [idx] + rest else rest
    requires ListsMissing(rest, masks, present, idx + 1)
    ensures ListsMissing(r, masks, present, idx)
  {
    FlagAt(masks, present, i, k);
    Front(masks, present, idx, rest);
  }

  lemma {:induction false} MissingExact(masks: seq<Byte>, present: seq<Byte>, i: nat, k: nat)
    requires |present| == |masks| && k <= 8
    ensures ListsMissing(MissingFrom(masks, present, i, k), masks, present, 8 * i + k)
    decreases |masks| - i, 8 - k
  {
    if i >= |masks| {
      NothingBehind(masks, present, 8 * i + k);
    } else if k == 8 {
      MissingExact(masks, present, i + 1, 0);
      assert 8 * (i + 1) + 0 == 8 * i + 8;
    } else {
      MissingExact(masks, present, i, k + 1);
      assert 8 * i + (k + 1) == 8 * i + k + 1;
      FrontFlag(masks, present, i, k, 8 * i + k,
                MissingFrom(masks, present, i, k), MissingFrom(masks, present, i, k + 1));
    }
  }

  /**
   With masks that match the table, the reported list names exactly the required fields
   whose presence bit is off, each once, in table order; the numeric fallback never occurs.
   */
  lemma FailuresExact(names: seq<string>, required: seq<bool>, masks: seq<Byte>, present: seq<Byte>)
    requires |present| == |masks| && |names| == |required| && MasksMatch(masks, required)
    ensures var r := MissingFrom(masks, present, 0, 0);
            && (forall i, j :: 0 <= i < j < |r| ==> r[i] < r[j])
            && (forall x :: x in r <==> 0 <= x < |required| && required[x] && !At(present, x))
            && |Failures(names, masks, present)| == |r|
            && forall i :: 0 <= i < |r| ==>
               r[i] < |names| && Failures(names, masks, present)[i] == FieldError(names[r[i]])
    ensures Failures(names, masks, present) == [] <==> forall x :: 0 <= x < |required| && required[x] ==> At(present, x)
  {
    MissingExact(masks, present, 0, 0);
    var r := MissingFrom(masks, present, 0, 0);
    forall x | 0 <= x < |required| && required[x] && !At(present, x) ensures x in r {
      assert At(masks, x);
    }
    forall i | 0 <= i < |r| ensures r[i] < |names| {
      assert r[i] in r;
    }
    if r == [] {
      forall x | 0 <= x < |required| && required[x] ensures At(present, x) {
        assert x !in r;
      }
    } else {
      assert r[0] in r;
    }
  }
}
