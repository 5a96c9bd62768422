# goap-rs core, modelled in Dafny

A model of the small goal-oriented action planning (GOAP) library `goap-rs` and of the
eat action in its test suite. The model covers:

- **Fact identity** (`conditions.dfy`, module `Conditions`). A property name is hashed to a
  32-bit `PropertyId`. A fact (`ConditionId`) packs that hash and a boolean into
  `(hash << 1) | value`. The shift is done in `u32` and only then widened to `u64`. Facts are
  compared and hashed by that id alone; the `"name=value"` label plays no part. The model proves
  three things. The low bit of the id is the value. The id is below 2^32. Two facts are equal
  exactly when their values agree and their hashes agree on the low 31 bits. So the top bit of
  the hash is lost.
- **States** (`states.dfy`, module `States`). A state is a hash set of facts. `push` inserts one
  fact and never removes the opposite-valued fact for the same property. Pushing the same fact
  twice is the same as pushing it once.
- **Action status and the eat action** (`lifecycle.dfy`, `eat_action.dfy`). `update` raises a
  counter by one. It reports `NotReady` while the counter is below ten and `Done` from then on,
  and never `Cancelled`.
- **Goals, actions, plans, the planner** (`planning.dfy`, module `Planning`). `Plan::push` and
  `Planner::push` append in place. `Planner::find_plan` is a stub: it always returns `Some` plan,
  which holds every registered action in registration order. It never reads the world state or
  the goal. The model captures exactly that; it has no search.
- **The `test_eat` scenario** (`test_eat.dfy`). The polling loop stops after exactly ten
  `update` calls, with the counter at ten.

The hash function (`murmur3_32` from the `mash_rs` crate) is not part of this model. Every
member that hashes a name takes it as a parameter `murmur3: string -> U32`, so every property
holds for any 32-bit hash.

Three behaviours of the code differ from what a planner of this kind is usually described as doing; the model follows the code:

- `find_plan` does no regression search. It returns all registered actions.
- `State::push` calls `HashSet::insert`. That call leaves the set as it was when an equal fact
  (same id) is already there, so the stored fact and its label are not overwritten
  (`States.Insert`).
- The id is computed in 32 bits before being widened. So it never uses the upper half of the
  `u64` field, and bit 31 of the property hash is dropped (`Conditions.TopBitDiscarded`).

## Model

| member | source | states |
|---|---|---|
| `Conditions.NewPropertyId` | src/lib.rs:17-20 | The property id is the hash of the name, so equal names give equal ids |
| `Conditions.Encode` | src/lib.rs:56-59 | The id's low bit is the value, the id is below 2^32, and the id's upper part is the hash with its top bit removed (hash mod 2^31) |
| `Conditions.NewConditionId` | src/lib.rs:54-62 | A fact's id is the packing of its name's hash with the value, and its label is `name=value` |
| `Conditions.DecodeEncode` | src/lib.rs:56-59 | Decoding an encoded fact gives back its value and the hash's low 31 bits, and the id fits in 32 bits |
| `Conditions.EncodeDecode` | src/lib.rs:56-59 | Every id below 2^32 is the packing of the parts it decodes to |
| `Conditions.EncodeEqIff` | src/lib.rs:56-59 | Two packings are equal iff the values agree and the hashes agree mod 2^31 |
| `Conditions.EqIff` | src/lib.rs:39-62 | Two facts built by `ConditionId::new` are equal iff their values agree and their names' hashes agree on the low 31 bits |
| `Conditions.OppositeValuesDiffer` | src/lib.rs:39-62 | `ConditionId::new(n, true)` and `ConditionId::new(n, false)` are never equal |
| `Conditions.TopBitDiscarded` | src/lib.rs:55-59 | Two names whose hashes differ only in bit 31 give equal facts for the same value |
| `Conditions.EqIgnoresLabel` | src/lib.rs:39-51 | Equality and the hashed value ignore the label: a relabelled fact is equal to the original and hashes the same |
| `Conditions.EqIsEquivalenceAndHashAgrees` | src/lib.rs:39-51 | Fact equality is reflexive, symmetric and transitive, and equal facts feed the same value to the hasher |
| `States.NewState` | src/lib.rs:75-77 | `State::new` holds no facts |
| `States.Insert` | src/lib.rs:80 | Inserting adds exactly the fact's id and removes nothing. If an equal fact is already there, the state is unchanged. Ids stay unique |
| `States.Push` | src/lib.rs:79-82 | After `push(n, v)` the state holds exactly its old facts plus `ConditionId::new(n, v)`, by id |
| `States.PushIdempotent` | src/lib.rs:79-82 | Pushing the same fact twice gives the same state as pushing it once |
| `States.PushOrderIrrelevant` | src/lib.rs:71-82 | The facts a state holds do not depend on the order of the pushes |
| `States.PushKeepsOppositeValue` | src/lib.rs:79-82 | `State::new().push(p, true).push(p, false)` holds both facts, two in all |
| `States.PushSameFactTwiceHoldsOne` | src/lib.rs:79-82 | `State::new().push(p, true).push(p, true)` holds exactly one fact |
| `EatActions.EatAction.Default` | tests/test.rs:7-10 | A default eat action starts with its counter at 0 |
| `EatActions.EatAction.Start` | tests/test.rs:13-15 | `start` leaves the counter unchanged |
| `EatActions.EatAction.Update` | tests/test.rs:17-25 | `update` raises the counter by exactly one. It reports `NotReady` iff the new counter is below 10, otherwise `Done`, and never `Cancelled` |
| `EatActions.CallsUntilDone` | tests/test.rs:17-25 | From any counter, the first `Done` comes after `n >= 1` more calls, and every call before it reports `NotReady` |
| `EatActions.CallsUntilDoneClosedForm` | tests/test.rs:17-25 | From a counter below 9 it takes exactly `10 - counter` calls; from 9 on, the next call is `Done` |
| `EatActions.FromDefault` | tests/test.rs:7-25 | From counter 0, calls 1 to 9 report `NotReady`, call 10 reports `Done`, and every later call reports `Done` |
| `Planning.NewGoal` | src/lib.rs:132-138 | `Goal::new` keeps the requirements and priority and starts with an empty label |
| `Planning.WithDebugString` | src/lib.rs:140-143 | `with_debug_string` sets the label and keeps the requirements and priority |
| `Planning.Action.constructor` | src/lib.rs:167-180 | `Action::new` keeps the preconditions, effects, cost and behaviour, with an empty label |
| `Planning.Action.WithDebugName` | src/lib.rs:182-185 | `with_debug_name` sets the label and returns the same action |
| `Planning.Action.Start` | src/lib.rs:187-189 | `Action::start` delegates to the behaviour, which leaves its counter unchanged |
| `Planning.Action.Update` | src/lib.rs:191-193 | `Action::update` delegates to the behaviour: the counter rises by one and the behaviour's status is returned |
| `Planning.Plan.constructor` | src/lib.rs:201-203 | `Plan::new` holds exactly the given actions |
| `Planning.Plan.Push` | src/lib.rs:205-208 | `Plan::push` appends at the end: length +1, the last action is the pushed one, the earlier ones are unchanged. It returns the same plan |
| `Planning.Planner.constructor` | src/lib.rs:216-218 | `Planner::new` holds exactly the given actions |
| `Planning.Planner.Push` | src/lib.rs:220-223 | `Planner::push` appends at the end: length +1, the last action is the pushed one, the earlier ones are unchanged. It returns the same planner |
| `Planning.Planner.FindPlan` | src/lib.rs:225-231 | `find_plan` always returns `Some` new plan whose actions are the registered actions in registration order, whatever the world state and goal |
| `EatTest.TestEat` | tests/test.rs:34-54 | The `test_eat` loop `while eat.update() == NotReady` ends after exactly ten `update` calls, with the counter at 10 |

## Left out

- `murmur3_32` (external `mash_rs` crate): its code is not part of this model. It is a parameter, so the `test_id` regression constant `0x248BFA47` cannot be checked.
- Logging (`info!` in `find_plan`) and the `println!` calls in the test: output only.
- All `Display` and `Debug` implementations: diagnostic formatting, and `HashSet` iteration order is unspecified.
- `ActionTrait` and `Box<dyn ActionTrait>` dynamic dispatch: `Action.implementation` is an `EatAction`, the only implementation there is. Other behaviours are not modelled.
- `EatActions.EatAction.Update`: the counter is an unbounded `nat`. The `usize` overflow after 2^64 - 1 calls (a panic in debug builds) is not modelled.
- `Planning.Planner.FindPlan`: `find_plan` takes the planner by value and moves its vector into the plan. The model copies the sequence, and the planner object stays usable.
- `Planning.Plan.Push`, `Planning.Planner.Push`: a `Vec` growing in place is a sequence field that is reassigned. Capacity and reallocation are not modelled.
- The cost-optimal regression search (priority queue, heuristic, visited-set pruning) is not modelled: the code has none, because `find_plan` is a stub.
- `Goal.priority` is stored and never read, so nothing is stated about it beyond construction.
- src/prelude.rs only re-exports names.
