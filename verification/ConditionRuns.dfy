/** The reported conditions over whole runs. */
module ConditionRuns {
  import opened PolicyApi
  import Conditions
  import opened Reconcile

  /** The shape a reconcile's branch gives the conditions, when it writes any. */
  function ShapeOf(branch: Branch): Conditions.Shape {
    match branch
    case InvalidProbe => Conditions.Degraded("InvalidProbe")
    case TargetNotFound => Conditions.Degraded("TargetNotFound")
    case Conflict(_) => Conditions.Degraded("ConflictingPolicy")
    case BadSelector => Conditions.Degraded("TargetNotFound")
    case Gated(RolloutStalled) => Conditions.Degraded("RolloutStalled")
    case Gated(Systemic) => Conditions.Degraded("SystemicFailure")
    case Gated(CircuitOpen) => Conditions.Degraded("CircuitOpen")
    case Gated(AllHealthy) => Conditions.AllWell
    case _ => Conditions.InProgress
  }

  /** The reconcile got as far as its status update, and it went through. */
  predicate WritesStatus(env: Env, o: Outcome) {
    !PreludeOf(env).Halt? && !o.err
  }

  lemma StepShapes(st: Status, env: Env)
    requires Conditions.Unique(st.conditions)
    ensures var o := Step(st, env);
            && Conditions.Unique(o.status.conditions)
            && (if WritesStatus(env, o) then Conditions.HasShape(o.status.conditions, ShapeOf(o.branch))
                else o.status.conditions == st.conditions)
  {
    hide Conditions.HasShape;
    hide Conditions.Unique;
    hide Conditions.SetHealthy;
    hide Conditions.SetRemediating;
    hide Conditions.SetDegraded;
    hide Calls;
    hide Decision;
    var cs, g := st.conditions, env.generation;
    Conditions.SettersShape(cs, "InvalidProbe", g);
    Conditions.SettersShape(cs, "TargetNotFound", g);
    Conditions.SettersShape(cs, "ConflictingPolicy", g);
    Conditions.SettersShape(cs, "RolloutStalled", g);
    Conditions.SettersShape(cs, "SystemicFailure", g);
    Conditions.SettersShape(cs, "CircuitOpen", g);
  }

  /**
    From any status whose condition types are unique they stay unique forever, and after
    every reconcile that writes status they have exactly one shape, that of its branch.
   */
  lemma {:induction false} ConditionsConsistent(st: Status, envs: seq<Env>)
    requires Conditions.Unique(st.conditions)
    ensures Conditions.Unique(Persisted(st, envs).conditions)
    ensures envs != [] ==>
              var o := OutcomeAt(st, envs, |envs| - 1);
              WritesStatus(envs[|envs| - 1], o) ==>
                forall shape ::
                  Conditions.HasShape(Persisted(st, envs).conditions, shape) <==> shape == ShapeOf(o.branch)
  {
    hide Step;
    hide Conditions.HasShape;
    if envs != [] {
      var n := |envs| - 1;
      ConditionsConsistent(st, envs[..n]);
      StepShapes(Persisted(st, envs[..n]), envs[n]);
      var cs, shape := Persisted(st, envs).conditions, ShapeOf(OutcomeAt(st, envs, n).branch);
      forall other | Conditions.HasShape(cs, shape) && Conditions.HasShape(cs, other) ensures other == shape {
        Conditions.ShapesExclusive(cs, shape, other);
      }
    }
  }
}
