/**
 * World and requirement states: a hash set of facts. The set's equality is
 * the facts' own (ids only), so a state holds at most one fact per id, and
 * inserting a fact equal to one already present keeps the one present.
 *
 * `State::push` takes the state by value and hands it back, so no other
 * owner can observe the in-place insert: it is modelled as a function from
 * the old state to the new one.
 */
module States {
  import opened Conditions

  datatype State = State(facts: set<ConditionId>)

  /** The ids in a state: what the hash set's membership test sees. */
  function Ids(s: State): set<U64>
  {
    set c | c in s.facts :: c.id
  }

  /** HashSet::contains: some stored fact is equal (same id) to `c`. */
  predicate Contains(s: State, c: ConditionId)
  {
    c.id in Ids(s)
  }

  /** No two stored facts share an id, as a hash set keyed by Eq guarantees. */
  ghost predicate Valid(s: State)
  {
    forall a, b :: a in s.facts && b in s.facts && a.id == b.id ==> a == b
  }

  /** State::new: the empty set. */
  function NewState(): (s: State)
    ensures Valid(s)
    ensures Ids(s) == {}
    ensures forall c :: !Contains(s, c)
  {
    State({})
  }

  /**
   * HashSet::insert: add `c` unless an equal fact is already stored, in
   * which case the set, and the label of the stored fact, stay as they were.
   */
  function Insert(s: State, c: ConditionId): (r: State)
    ensures Ids(r) == Ids(s) + {c.id}
    ensures s.facts <= r.facts <= s.facts + {c}
    ensures Contains(s, c) ==> r == s
    ensures Valid(s) ==> Valid(r)
  {
    if c.id in Ids(s) then s else State(s.facts + {c})
  }

  /** State::push: insert the fact `name=value`. */
  function Push(murmur3: string -> U32, s: State, name: string, value: bool): (r: State)
    ensures Ids(r) == Ids(s) + {Encode(murmur3(name), value)}
    ensures forall c :: Contains(r, c) <==> Contains(s, c) || Eq(c, NewConditionId(murmur3, name, value))
    ensures Valid(s) ==> Valid(r)
  {
    Insert(s, NewConditionId(murmur3, name, value))
  }

  /** Pushing the same fact twice is the same as pushing it once. */
  lemma PushIdempotent(murmur3: string -> U32, s: State, name: string, value: bool)
    ensures Push(murmur3, Push(murmur3, s, name, value), name, value) == Push(murmur3, s, name, value)
  {
  }

  /** The order of pushes does not matter to which facts a state holds. */
  lemma PushOrderIrrelevant(murmur3: string -> U32, s: State, n1: string, v1: bool, n2: string, v2: bool)
    ensures Ids(Push(murmur3, Push(murmur3, s, n1, v1), n2, v2))
         == Ids(Push(murmur3, Push(murmur3, s, n2, v2), n1, v1))
  {
  }

  /**
   * A push never removes the opposite-valued fact: a state can end up
   * asserting both `p=true` and `p=false`.
   */
  lemma PushKeepsOppositeValue(murmur3: string -> U32, p: string)
    ensures Contains(Push(murmur3, Push(murmur3, NewState(), p, true), p, false), NewConditionId(murmur3, p, true))
    ensures Contains(Push(murmur3, Push(murmur3, NewState(), p, true), p, false), NewConditionId(murmur3, p, false))
    ensures |Push(murmur3, Push(murmur3, NewState(), p, true), p, false).facts| == 2
  {
  }

  /** `State::new().push("p", true).push("p", true)` holds exactly one fact. */
  lemma PushSameFactTwiceHoldsOne(murmur3: string -> U32, p: string)
    ensures Push(murmur3, Push(murmur3, NewState(), p, true), p, true).facts == {NewConditionId(murmur3, p, true)}
  {
  }
}
