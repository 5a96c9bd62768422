/**
 * Goals, actions, plans and the planner. The planner's search is a stub:
 * whatever the world state and the goal, it hands back every registered
 * action, in registration order, as the plan.
 */
module Planning {
  import opened Conditions
  import opened States
  import opened Lifecycle
  import opened EatActions

  datatype Option<T> = None | Some(value: T)

  /** A requirement state, a priority for external goal selection, and a label. */
  datatype Goal = Goal(requirements: State, priority: U32, debugName: string)

  /** Goal::new: keep the requirements and priority; the label starts empty. */
  function NewGoal(requirements: State, priority: U32): (g: Goal)
    ensures g.requirements == requirements && g.priority == priority
    ensures g.debugName == ""
  {
    Goal(requirements, priority, "")
  }

  /** Goal::with_debug_string: replace the label, keep everything else. */
  function WithDebugString(g: Goal, s: string): (r: Goal)
    ensures r.requirements == g.requirements && r.priority == g.priority
    ensures r.debugName == s
  {
    g.(debugName := s)
  }

  /**
   * An action: preconditions, effects, a cost, a label, and the behaviour
   * that `start` and `update` are handed to. The behaviour is an `EatAction`,
   * the only implementation of the action interface there is.
   */
  class Action {
    const preConditions: State
    const effects: State
    const cost: U32
    var debugName: string
    const implementation: EatAction

    /** Action::new: the label starts empty. */
    constructor (preConditions: State, effects: State, cost: U32, implementation: EatAction)
      ensures this.preConditions == preConditions && this.effects == effects
      ensures this.cost == cost && this.implementation == implementation
      ensures debugName == ""
    {
      this.preConditions := preConditions;
      this.effects := effects;
      this.cost := cost;
      this.debugName := "";
      this.implementation := implementation;
    }

    /** Action::with_debug_name: set the label and hand the same action back. */
    method WithDebugName(name: string) returns (r: Action)
      modifies this`debugName
      ensures r == this && debugName == name
    {
      debugName := name;
      r := this;
    }

    /** Action::start: delegate to the behaviour. */
    method Start()
      modifies implementation
      ensures implementation.debugCounter == old(implementation.debugCounter)
    {
      implementation.Start();
    }

    /** Action::update: delegate to the behaviour and report what it reports. */
    method Update() returns (status: ActionStatus)
      modifies implementation
      ensures implementation.debugCounter == old(implementation.debugCounter) + 1
      ensures status == EatStatus(implementation.debugCounter)
      ensures status != Cancelled
    {
      status := implementation.Update();
    }
  }

  /** A plan: the actions to run, in order. */
  class Plan {
    var actions: seq<Action>

    /** Plan::new. */
    constructor (actions: seq<Action>)
      ensures this.actions == actions
    {
      this.actions := actions;
    }

    /**
     * Plan::push: append at the end; the earlier actions stay where they
     * were. Hands the same plan back for chaining.
     */
    method Push(action: Action) returns (r: Plan)
      modifies this
      ensures actions == old(actions) + [action]
      ensures |actions| == |old(actions)| + 1 && actions[|actions| - 1] == action
      ensures forall i :: 0 <= i < |old(actions)| ==> actions[i] == old(actions)[i]
      ensures r == this
    {
      actions := actions + [action];
      r := this;
    }
  }

  /** The planner: the library of registered actions. */
  class Planner {
    var actions: seq<Action>

    /** Planner::new. */
    constructor (actions: seq<Action>)
      ensures this.actions == actions
    {
      this.actions := actions;
    }

    /**
     * Planner::push: register one more action after the others. Hands the
     * same planner back for chaining.
     */
    method Push(action: Action) returns (r: Planner)
      modifies this
      ensures actions == old(actions) + [action]
      ensures |actions| == |old(actions)| + 1 && actions[|actions| - 1] == action
      ensures forall i :: 0 <= i < |old(actions)| ==> actions[i] == old(actions)[i]
      ensures r == this
    {
      actions := actions + [action];
      r := this;
    }

    /**
     * Planner::find_plan: always a plan, and always the registered actions
     * in registration order; neither the world state nor the goal is read.
     */
    method FindPlan(worldState: State, goal: Goal) returns (plan: Option<Plan>)
      ensures plan.Some? && fresh(plan.value)
      ensures plan.value.actions == actions
    {
      var p := new Plan(actions);
      plan := Some(p);
    }
  }
}
