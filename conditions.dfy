/**
 * Fact identity: a property name hashed to 32 bits, and a fact (a property
 * paired with a boolean) packed into one comparable, hashable identifier.
 *
 * The 32-bit hash of a name (murmur3_32 over the UTF-8 bytes, seed 0) lives in
 * an external crate whose code is not part of this model; every member that
 * hashes a name therefore takes that hash as the parameter `murmur3`, and
 * every property below holds for whatever function it is.
 *
 * Rust's fixed-width integers are integers in range here; the one place
 * where the width matters, the 32-bit left shift, is written out with an
 * explicit `% 2^32`.
 */
module Conditions {

  /** Rust's `u32`. */
  type U32 = x: int | 0 <= x < 0x1_0000_0000

  /** Rust's `u64`. */
  type U64 = x: int | 0 <= x < 0x1_0000_0000_0000_0000

  /** 2^31: the weight of the top bit of a `u32`. */
  const TopBit: int := 0x8000_0000

  /** A property id: the 32-bit hash of a property name. */
  datatype PropertyId = PropertyId(inner: U32)

  /** PropertyId::new: hash the name. Equal names give equal ids. */
  function NewPropertyId(murmur3: string -> U32, name: string): (p: PropertyId)
    ensures p.inner == murmur3(name)
  {
    PropertyId(murmur3(name))
  }

  /**
   * A fact. Only `id` takes part in equality and hashing; `debugStr` is a
   * label for diagnostics.
   */
  datatype ConditionId = ConditionId(id: U64, debugStr: string)

  /** The text a boolean is formatted as. */
  function BoolText(b: bool): string
  {
    if b then "true" else "false"
  }

  /** Bit 0 of an encoded fact: 1 for true, 0 for false. */
  function ValueBit(value: bool): (b: int)
    ensures 0 <= b <= 1 && (b == 1) == value
  {
    if value then 1 else 0
  }

  /** `x << 1` on a `u32`: the bit shifted out at the top is lost. */
  function ShiftLeftOne(x: U32): U32
  {
    (x * 2) % 0x1_0000_0000
  }

  /**
   * The packing used by ConditionId::new: `(hash << 1) | value` computed in
   * `u32`, then widened to `u64`. The shifted word is even, so or-ing in the
   * value bit adds it.
   */
  function Encode(hash: U32, value: bool): (id: U64)
    ensures id % 2 == ValueBit(value)
    ensures id < 0x1_0000_0000
    ensures id / 2 == hash % TopBit
  {
    ShiftLeftOne(hash) + ValueBit(value)
  }

  /** ConditionId::new: hash the name, pack it with the value, label it "name=value". */
  function NewConditionId(murmur3: string -> U32, name: string, value: bool): (c: ConditionId)
    ensures c.id == Encode(NewPropertyId(murmur3, name).inner, value)
    ensures c.debugStr == name + "=" + BoolText(value)
  {
    var property := NewPropertyId(murmur3, name);
    ConditionId(Encode(property.inner, value), name + "=" + BoolText(value))
  }

  /** The value a fact asserts, read back from bit 0 of its id. */
  function ValueOf(c: ConditionId): bool
  {
    c.id % 2 == 1
  }

  /** The surviving 31 bits of the property hash, read back from the id. */
  function PropertyBitsOf(c: ConditionId): int
  {
    c.id / 2
  }

  /** An id that fits in 32 bits, as every id NewConditionId builds does. */
  predicate WellFormed(c: ConditionId)
  {
    c.id < 0x1_0000_0000
  }

  /** PartialEq::eq for ConditionId: compare ids, ignore labels. */
  predicate Eq(a: ConditionId, b: ConditionId)
  {
    a.id == b.id
  }

  /** Hash for ConditionId: the only value fed to the hasher is the id. */
  function HashInput(c: ConditionId): U64
  {
    c.id
  }

  /** Decoding an encoded fact gives back its value and the hash minus its top bit. */
  lemma DecodeEncode(murmur3: string -> U32, name: string, value: bool)
    ensures ValueOf(NewConditionId(murmur3, name, value)) == value
    ensures PropertyBitsOf(NewConditionId(murmur3, name, value)) == murmur3(name) % TopBit
    ensures WellFormed(NewConditionId(murmur3, name, value))
  {
  }

  /** A well-formed id is the encoding of the parts it decodes to. */
  lemma EncodeDecode(c: ConditionId)
    requires WellFormed(c)
    ensures PropertyBitsOf(c) < TopBit
    ensures c.id == Encode(PropertyBitsOf(c), ValueOf(c))
  {
  }

  /**
   * The packing is injective on the value and the low 31 bits of the hash,
   * and keeps nothing else.
   */
  lemma EncodeEqIff(p1: U32, v1: bool, p2: U32, v2: bool)
    ensures Encode(p1, v1) == Encode(p2, v2) <==> v1 == v2 && p1 % TopBit == p2 % TopBit
  {
  }

  /**
   * Two encoded facts are equal exactly when their values agree and their
   * property hashes agree on every bit but the top one.
   */
  lemma EqIff(murmur3: string -> U32, n1: string, v1: bool, n2: string, v2: bool)
    ensures Eq(NewConditionId(murmur3, n1, v1), NewConditionId(murmur3, n2, v2))
        <==> v1 == v2 && murmur3(n1) % TopBit == murmur3(n2) % TopBit
  {
  }

  /** The same property with opposite values never gives equal facts. */
  lemma OppositeValuesDiffer(murmur3: string -> U32, name: string)
    ensures !Eq(NewConditionId(murmur3, name, true), NewConditionId(murmur3, name, false))
  {
  }

  /**
   * The top bit of the property hash is lost: two names whose hashes differ
   * only in bit 31 give equal facts for the same value.
   */
  lemma TopBitDiscarded(murmur3: string -> U32, n1: string, n2: string, value: bool)
    requires murmur3(n1) + TopBit == murmur3(n2)
    ensures Eq(NewConditionId(murmur3, n1, value), NewConditionId(murmur3, n2, value))
  {
  }

  /** Equality looks only at ids: relabelling a fact leaves it equal to itself and to its hash. */
  lemma EqIgnoresLabel(c: ConditionId, newLabel: string)
    ensures Eq(c, c.(debugStr := newLabel))
    ensures HashInput(c) == HashInput(c.(debugStr := newLabel))
  {
  }

  /** Eq is an equivalence relation, and equal facts feed equal values to the hasher. */
  lemma EqIsEquivalenceAndHashAgrees(a: ConditionId, b: ConditionId, c: ConditionId)
    ensures Eq(a, a)
    ensures Eq(a, b) ==> Eq(b, a)
    ensures Eq(a, b) && Eq(b, c) ==> Eq(a, c)
    ensures Eq(a, b) ==> HashInput(a) == HashInput(b)
  {
  }
}
