/** The status conditions list and the three shapes the controller gives it. */
module Conditions {
  import opened Options
  import opened PolicyApi

  /** meta.SetStatusCondition: overwrite the condition of that type, or append it. */
  function Set(cs: seq<Condition>, c: Condition): seq<Condition> {
    if cs == [] then [c]
    else if cs[0].kind == c.kind then [c] + cs[1..]
    else [cs[0]] + Set(cs[1..], c)
  }

  /** meta.RemoveStatusCondition: drop every condition of that type. */
  function Remove(cs: seq<Condition>, kind: string): seq<Condition> {
    if cs == [] then []
    else if cs[0].kind == kind then Remove(cs[1..], kind)
    else [cs[0]] + Remove(cs[1..], kind)
  }

  function SetHealthy(cs: seq<Condition>, generation: int): seq<Condition> {
    var cs := Set(cs, Condition(HEALTHY, true, "AllHealthy", generation));
    Remove(Remove(cs, REMEDIATING), DEGRADED)
  }

  function SetRemediating(cs: seq<Condition>, generation: int): seq<Condition> {
    var cs := Set(cs, Condition(REMEDIATING, true, "Remediating", generation));
    Remove(Set(cs, Condition(HEALTHY, false, "Remediating", generation)), DEGRADED)
  }

  function SetDegraded(cs: seq<Condition>, reason: string, generation: int): seq<Condition> {
    var cs := Set(cs, Condition(DEGRADED, true, reason, generation));
    Remove(Set(cs, Condition(HEALTHY, false, reason, generation)), REMEDIATING)
  }

  function Lookup(cs: seq<Condition>, kind: string): Option<Condition> {
    if cs == [] then None
    else if cs[0].kind == kind then Some(cs[0])
    else Lookup(cs[1..], kind)
  }

  /** No two conditions have the same type. */
  predicate Unique(cs: seq<Condition>) {
    forall i, j :: 0 <= i < j < |cs| ==> cs[i].kind != cs[j].kind
  }

  lemma {:induction false} LookupNone(cs: seq<Condition>, kind: string)
    ensures Lookup(cs, kind).None? <==> forall i :: 0 <= i < |cs| ==> cs[i].kind != kind
  {
    if cs != [] {
      LookupNone(cs[1..], kind);
      if Lookup(cs, kind).None? {
        forall i | 0 <= i < |cs| ensures cs[i].kind != kind {
          if i > 0 {
            assert cs[1..][i - 1] == cs[i];
          }
        }
      }
    }
  }

  lemma {:induction false} SetLookup(cs: seq<Condition>, c: Condition, kind: string)
    ensures Lookup(Set(cs, c), kind) == if kind == c.kind then Some(c) else Lookup(cs, kind)
  {
    if cs != [] && cs[0].kind != c.kind {
      SetLookup(cs[1..], c, kind);
    }
  }

  lemma {:induction false} RemoveLookup(cs: seq<Condition>, gone: string, kind: string)
    ensures Lookup(Remove(cs, gone), kind) == if kind == gone then None else Lookup(cs, kind)
  {
    if cs != [] {
      RemoveLookup(cs[1..], gone, kind);
    }
  }

  lemma UniqueTail(cs: seq<Condition>)
    requires cs != []
    ensures Unique(cs) <==> Unique(cs[1..]) && Lookup(cs[1..], cs[0].kind).None?
  {
    LookupNone(cs[1..], cs[0].kind);
    if Unique(cs[1..]) && Lookup(cs[1..], cs[0].kind).None? {
      forall i, j | 0 <= i < j < |cs| ensures cs[i].kind != cs[j].kind {
        assert cs[1..][j - 1] == cs[j];
        if i > 0 {
          assert cs[1..][i - 1] == cs[i];
        }
      }
    }
  }

  lemma {:induction false} SetUnique(cs: seq<Condition>, c: Condition)
    requires Unique(cs)
    ensures Unique(Set(cs, c))
  {
    if cs != [] {
      UniqueTail(cs);
      UniqueTail(Set(cs, c));
      if cs[0].kind != c.kind {
        SetUnique(cs[1..], c);
        SetLookup(cs[1..], c, cs[0].kind);
      }
    }
  }

  lemma {:induction false} RemoveUnique(cs: seq<Condition>, gone: string)
    requires Unique(cs)
    ensures Unique(Remove(cs, gone))
  {
    if cs != [] {
      UniqueTail(cs);
      RemoveUnique(cs[1..], gone);
      if cs[0].kind != gone {
        RemoveLookup(cs[1..], gone, cs[0].kind);
        assert Remove(cs, gone)[1..] == Remove(cs[1..], gone);
        UniqueTail(Remove(cs, gone));
      }
    }
  }

  /** The condition is there with this status. */
  predicate Is(cs: seq<Condition>, kind: string, status: bool) {
    Lookup(cs, kind).Some? && Lookup(cs, kind).value.status == status
  }

  datatype Shape = AllWell | InProgress | Degraded(reason: string)

  /** The list says exactly this about the policy. */
  predicate HasShape(cs: seq<Condition>, shape: Shape) {
    match shape
    case AllWell =>
      Is(cs, HEALTHY, true) && Lookup(cs, REMEDIATING).None? && Lookup(cs, DEGRADED).None?
    case InProgress =>
      Is(cs, HEALTHY, false) && Is(cs, REMEDIATING, true) && Lookup(cs, DEGRADED).None?
    case Degraded(reason) =>
      && Is(cs, HEALTHY, false) && Is(cs, DEGRADED, true) && Lookup(cs, REMEDIATING).None?
      && Lookup(cs, HEALTHY).value.reason == Lookup(cs, DEGRADED).value.reason == reason
  }

  /** The shape's conditions all give its reason and were observed at this generation. */
  predicate Dated(cs: seq<Condition>, shape: Shape, g: int) {
    match shape
    case AllWell => Lookup(cs, "Healthy") == Some(Condition("Healthy", true, "AllHealthy", g))
    case InProgress =>
      && Lookup(cs, "Healthy") == Some(Condition("Healthy", false, "Remediating", g))
      && Lookup(cs, "Remediating") == Some(Condition("Remediating", true, "Remediating", g))
    case Degraded(reason) =>
      && Lookup(cs, "Healthy") == Some(Condition("Healthy", false, reason, g))
      && Lookup(cs, "Degraded") == Some(Condition("Degraded", true, reason, g))
  }

  /** The three setters, on any list whose types are unique. */
  lemma SettersShape(cs: seq<Condition>, reason: string, g: int)
    requires Unique(cs)
    ensures Unique(SetHealthy(cs, g)) && HasShape(SetHealthy(cs, g), AllWell) && Dated(SetHealthy(cs, g), AllWell, g)
    ensures Unique(SetRemediating(cs, g)) && HasShape(SetRemediating(cs, g), InProgress)
    ensures Dated(SetRemediating(cs, g), InProgress, g)
    ensures Unique(SetDegraded(cs, reason, g)) && HasShape(SetDegraded(cs, reason, g), Degraded(reason))
    ensures Dated(SetDegraded(cs, reason, g), Degraded(reason), g)
  {
    HealthyShape(cs, g);
    FaultShape(cs, Condition(REMEDIATING, true, "Remediating", g), DEGRADED);
    FaultShape(cs, Condition(DEGRADED, true, reason, g), REMEDIATING);
  }

  lemma HealthyShape(cs: seq<Condition>, g: int)
    requires Unique(cs)
    ensures Unique(SetHealthy(cs, g)) && HasShape(SetHealthy(cs, g), AllWell) && Dated(SetHealthy(cs, g), AllWell, g)
  {
    var c := Condition(HEALTHY, true, "AllHealthy", g);
    var a := Set(cs, c);
    SetUnique(cs, c);
    RemoveUnique(a, REMEDIATING);
    RemoveUnique(Remove(a, REMEDIATING), DEGRADED);
    forall kind ensures Lookup(SetHealthy(cs, g), kind) ==
      if kind == DEGRADED || kind == REMEDIATING then None else if kind == HEALTHY then Some(c) else Lookup(cs, kind)
    {
      SetLookup(cs, c, kind);
      RemoveLookup(a, REMEDIATING, kind);
      RemoveLookup(Remove(a, REMEDIATING), DEGRADED, kind);
    }
  }

  /** Setting a fault condition and Healthy=False, and dropping the other fault. */
  lemma FaultShape(cs: seq<Condition>, fault: Condition, other: string)
    requires Unique(cs) && fault.kind != HEALTHY && other != HEALTHY && fault.kind != other
    ensures var h := Condition(HEALTHY, false, fault.reason, fault.observedGeneration);
            var r := Remove(Set(Set(cs, fault), h), other);
            && Unique(r)
            && Lookup(r, HEALTHY) == Some(h) && Lookup(r, fault.kind) == Some(fault) && Lookup(r, other).None?
  {
    var h := Condition(HEALTHY, false, fault.reason, fault.observedGeneration);
    var a := Set(cs, fault);
    SetUnique(cs, fault);
    SetUnique(a, h);
    RemoveUnique(Set(a, h), other);
    SetLookup(a, h, HEALTHY);
    RemoveLookup(Set(a, h), other, HEALTHY);
    SetLookup(cs, fault, fault.kind);
    SetLookup(a, h, fault.kind);
    RemoveLookup(Set(a, h), other, fault.kind);
    RemoveLookup(Set(a, h), other, other);
  }

  /** A condition of any other type is left as it was. */
  lemma SettersKeepOthers(cs: seq<Condition>, reason: string, g: int, kind: string)
    requires kind != HEALTHY && kind != REMEDIATING && kind != DEGRADED
    ensures Lookup(SetHealthy(cs, g), kind) == Lookup(cs, kind)
    ensures Lookup(SetRemediating(cs, g), kind) == Lookup(cs, kind)
    ensures Lookup(SetDegraded(cs, reason, g), kind) == Lookup(cs, kind)
  {
    var h := Condition(HEALTHY, true, "AllHealthy", g);
    SetLookup(cs, h, kind);
    RemoveLookup(Set(cs, h), REMEDIATING, kind);
    RemoveLookup(Remove(Set(cs, h), REMEDIATING), DEGRADED, kind);
    FaultKeepsOthers(cs, Condition(REMEDIATING, true, "Remediating", g), DEGRADED, kind);
    FaultKeepsOthers(cs, Condition(DEGRADED, true, reason, g), REMEDIATING, kind);
  }

  lemma FaultKeepsOthers(cs: seq<Condition>, fault: Condition, other: string, kind: string)
    requires kind != HEALTHY && kind != fault.kind && kind != other
    ensures var h := Condition(HEALTHY, false, fault.reason, fault.observedGeneration);
            Lookup(Remove(Set(Set(cs, fault), h), other), kind) == Lookup(cs, kind)
  {
    var h := Condition(HEALTHY, false, fault.reason, fault.observedGeneration);
    SetLookup(cs, fault, kind);
    SetLookup(Set(cs, fault), h, kind);
    RemoveLookup(Set(Set(cs, fault), h), other, kind);
  }

  /** The shapes exclude one another. */
  lemma ShapesExclusive(cs: seq<Condition>, a: Shape, b: Shape)
    requires HasShape(cs, a) && HasShape(cs, b)
    ensures a == b
  {
  }
}
