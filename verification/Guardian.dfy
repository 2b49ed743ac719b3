/** Which of several policies guards a Deployment (conflictingPolicy, lessPolicy). */
module Guardian {
  import opened PolicyApi

  /** Go's `<` on strings, lexicographic. */
  predicate LexLess(a: string, b: string) {
    b != [] && (a == [] || a[0] < b[0] || (a[0] == b[0] && LexLess(a[1..], b[1..])))
  }

  /** lessPolicy: earliest creation first, ties broken by name. */
  predicate Less(a: PolicyRef, b: PolicyRef) {
    if a.created != b.created then a.created < b.created else LexLess(a.name, b.name)
  }

  lemma {:induction false} LexTrichotomy(a: string, b: string)
    ensures LexLess(a, b) || LexLess(b, a) || a == b
    ensures !(LexLess(a, b) && LexLess(b, a))
    ensures !LexLess(a, a)
  {
    if a != [] {
      LexTrichotomy(a[1..], if b != [] then b[1..] else []);
      if b != [] && a[0] == b[0] && a[1..] == b[1..] {
        assert a == [a[0]] + a[1..] == b;
      }
    }
  }

  lemma {:induction false} LexTransitive(a: string, b: string, c: string)
    requires LexLess(a, b) && LexLess(b, c)
    ensures LexLess(a, c)
  {
    if a != [] && a[0] == b[0] == c[0] {
      LexTransitive(a[1..], b[1..], c[1..]);
    }
  }

  /** After a common prefix `a` ends first, or has the smaller character. */
  predicate DiffersAt(a: string, b: string, i: int) {
    0 <= i <= |a| && i < |b| && a[..i] == b[..i] && (i < |a| ==> a[i] < b[i])
  }

  /** The recursive comparison is the usual one at the first difference. */
  lemma {:induction false} LexLessIff(a: string, b: string)
    ensures LexLess(a, b) <==> exists i :: DiffersAt(a, b, i)
  {
    if a != [] && b != [] && a[0] == b[0] {
      LexLessIff(a[1..], b[1..]);
      if LexLess(a, b) {
        var i :| DiffersAt(a[1..], b[1..], i);
        assert a[..i + 1] == [a[0]] + a[1..][..i] && b[..i + 1] == [b[0]] + b[1..][..i];
        assert DiffersAt(a, b, i + 1);
      }
      if exists i :: DiffersAt(a, b, i) {
        var i :| DiffersAt(a, b, i);
        assert a[1..][..i - 1] == a[..i][1..] && b[1..][..i - 1] == b[..i][1..];
        assert DiffersAt(a[1..], b[1..], i - 1);
      }
    } else {
      if LexLess(a, b) {
        assert DiffersAt(a, b, 0);
      }
      forall i | DiffersAt(a, b, i) ensures LexLess(a, b) {
        if i > 0 {
          assert a[..i][0] == b[..i][0];
        }
      }
    }
  }

  /** lessPolicy is a strict total order on distinctly named policies. */
  lemma LessIsStrictTotalOrder(a: PolicyRef, b: PolicyRef, c: PolicyRef)
    ensures !Less(a, a)
    ensures a.name != b.name ==> (Less(a, b) <==> !Less(b, a))
    ensures Less(a, b) && Less(b, c) ==> Less(a, c)
  {
    LexTrichotomy(a.name, b.name);
    LexTrichotomy(a.name, a.name);
    if Less(a, b) && Less(b, c) && a.created == b.created == c.created {
      LexTransitive(a.name, b.name, c.name);
    }
  }

  /** Another policy for the same Deployment. */
  predicate Rival(p: PolicyRef, q: PolicyRef) {
    q.name != p.name && q.target == p.target
  }

  /** The loop's running winner after the listed policies. */
  function Winner(p: PolicyRef, list: seq<PolicyRef>): PolicyRef {
    if list == [] then p
    else
      var w, q := Winner(p, list[..|list| - 1]), list[|list| - 1];
      if Rival(p, q) && Less(q, w) then q else w
  }

  /** What conflictingPolicy returns: the winner's name, or "" for the policy itself. */
  function Verdict(p: PolicyRef, list: seq<PolicyRef>): string {
    if Winner(p, list).name == p.name then "" else Winner(p, list).name
  }

  /** conflictingPolicy after its List call. */
  method ConflictingPolicy(policy: PolicyRef, list: seq<PolicyRef>) returns (name: string)
    ensures name == Verdict(policy, list)
  {
    var winner := policy;
    for i := 0 to |list|
      invariant winner == Winner(policy, list[..i])
    {
      assert list[..i + 1][..i] == list[..i];
      var other := list[i];
      if other.name == policy.name {
        continue;
      }
      if other.target != policy.target {
        continue;
      }
      if Less(other, winner) {
        winner := other;
      }
    }
    assert list[..|list|] == list;
    name := if winner.name == policy.name then "" else winner.name;
  }

  /** `g` comes before every other policy for its Deployment. */
  ghost predicate IsGuardian(g: PolicyRef, list: seq<PolicyRef>) {
    g in list && forall q :: q in list && Rival(g, q) ==> Less(g, q)
  }

  /** The winner is the policy or a listed rival, and nothing eligible comes before it. */
  lemma {:induction false} WinnerIsLeast(p: PolicyRef, list: seq<PolicyRef>)
    ensures Winner(p, list) == p || (Winner(p, list) in list && Rival(p, Winner(p, list)))
    ensures Winner(p, list) == p || Less(Winner(p, list), p)
    ensures forall q :: q in list && Rival(p, q) ==> !Less(q, Winner(p, list))
  {
    if list != [] {
      var n := |list| - 1;
      var w, x := Winner(p, list[..n]), list[n];
      WinnerIsLeast(p, list[..n]);
      assert list == list[..n] + [x];
      LessIsStrictTotalOrder(x, w, p);
      forall q | q in list && Rival(p, q) ensures !Less(q, Winner(p, list)) {
        LessIsStrictTotalOrder(q, x, w);
        LessIsStrictTotalOrder(x, x, x);
      }
    }
  }

  predicate DistinctNames(list: seq<PolicyRef>) {
    forall a, b :: a in list && b in list && a.name == b.name ==> a == b
  }

  /** The guardian is the oldest policy for the Deployment, the first by name among equally old ones. */
  lemma GuardianIsOldest(g: PolicyRef, list: seq<PolicyRef>)
    ensures IsGuardian(g, list) <==>
              && g in list
              && (forall q :: q in list && Rival(g, q) ==> g.created <= q.created)
              && (forall q :: q in list && Rival(g, q) && q.created == g.created ==>
                    exists i :: DiffersAt(g.name, q.name, i))
  {
    forall q | q in list && Rival(g, q)
      ensures Less(g, q) <==>
                g.created < q.created || (g.created == q.created && exists i :: DiffersAt(g.name, q.name, i))
    {
      LexLessIff(g.name, q.name);
    }
  }

  /** Among distinctly named policies the guardian of a Deployment is unique. */
  lemma GuardianUnique(a: PolicyRef, b: PolicyRef, list: seq<PolicyRef>)
    requires DistinctNames(list) && IsGuardian(a, list) && IsGuardian(b, list) && a.target == b.target
    ensures a == b
  {
    LessIsStrictTotalOrder(a, b, a);
  }

  /**
    For distinctly named policies, listed in any order: a policy wins ("" returned) exactly
    when it is the guardian of its Deployment, and every other policy names that guardian.
   */
  lemma VerdictNamesGuardian(p: PolicyRef, list: seq<PolicyRef>)
    requires DistinctNames(list) && p in list && forall q :: q in list ==> q.name != ""
    ensures IsGuardian(Winner(p, list), list) && Winner(p, list).target == p.target
    ensures Verdict(p, list) == "" <==> IsGuardian(p, list)
    ensures Verdict(p, list) != "" ==> Verdict(p, list) == Winner(p, list).name
  {
    WinnerIsLeast(p, list);
    var w := Winner(p, list);
    forall q | q in list && Rival(w, q) ensures Less(w, q) {
      LessIsStrictTotalOrder(w, q, p);
      if q == p {
        assert w != p;
      } else {
        assert Rival(p, q);
      }
    }
    if IsGuardian(p, list) {
      GuardianUnique(p, w, list);
    }
  }

  /** A Deployment with any policy at all has exactly one guardian. */
  lemma ExactlyOneGuardian(list: seq<PolicyRef>, target: string)
    requires DistinctNames(list) && forall q :: q in list ==> q.name != ""
    requires exists p :: p in list && p.target == target
    ensures exists g :: g in list && g.target == target && Verdict(g, list) == ""
              && forall p :: p in list && p.target == target && p != g ==> Verdict(p, list) == g.name
  {
    var p :| p in list && p.target == target;
    VerdictNamesGuardian(p, list);
    var g := Winner(p, list);
    VerdictNamesGuardian(g, list);
    forall q | q in list && q.target == target && q != g ensures Verdict(q, list) == g.name {
      VerdictNamesGuardian(q, list);
      GuardianUnique(g, Winner(q, list), list);
    }
  }

  /** The outcome depends on which policies exist, not on the order they are listed in. */
  lemma VerdictOrderIndependent(p: PolicyRef, list: seq<PolicyRef>, list': seq<PolicyRef>)
    requires DistinctNames(list) && p in list && forall q :: q in list ==> q.name != ""
    requires forall q :: q in list <==> q in list'
    ensures Verdict(p, list) == Verdict(p, list')
  {
    VerdictNamesGuardian(p, list);
    VerdictNamesGuardian(p, list');
    GuardianUnique(Winner(p, list), Winner(p, list'), list);
  }

  /** A policy that comes later in the order never takes a Deployment over. */
  lemma LateComerChangesNothing(p: PolicyRef, list: seq<PolicyRef>, q: PolicyRef)
    requires DistinctNames(list + [q]) && p in list && forall x :: x in list + [q] ==> x.name != ""
    requires q.target == p.target ==> Less(Winner(p, list), q)
    ensures Verdict(p, list + [q]) == Verdict(p, list)
  {
    assert (list + [q])[..|list|] == list;
    LessIsStrictTotalOrder(Winner(p, list), q, q);
  }
}
