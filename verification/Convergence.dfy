/** Repeated calls of reconcileApplication with one target settle after at most one write. */
module Convergence {
  import opened Wrappers
  import opened Patterns
  import opened Applications
  import opened Targets
  import opened Cluster
  import opened StoreFacts
  import opened Protocol

  /** Nobody else writes; requests may still fail. */
  ghost predicate Undisturbed(o: Oracle) {
    forall n :: o(n).outside == []
  }

  function Repeat(w: World, o: Oracle, t: Target, calls: nat): World
    decreases calls
  {
    if calls == 0 then w else Repeat(ReconcileApplication(w, o, t).world, o, t, calls - 1)
  }

  function Writes(log: seq<Event>): nat {
    if log == [] then 0 else Writes(log[..|log| - 1]) + if log[|log| - 1].TargetWritten? then 1 else 0
  }

  predicate OwnedIn(w: World, t: Target) {
    Find(w.apps, t.id).Some? && OwnedBySame(t.owners, Find(w.apps, t.id).value.owners)
  }

  /** The Application exists, and is someone else's or as wanted. */
  predicate Settled(w: World, t: Target) {
    && Find(w.apps, t.id).Some?
    && (OwnedIn(w, t) ==> CompareApplication(Some(Find(w.apps, t.id).value.spec), Some(t.spec)))
  }

  /** A target that compares equal to what the API server makes of it. */
  predicate Stable(t: Target) {
    CompareApplication(Some(Stored(t.spec)), Some(t.spec))
  }

  lemma TargetsAreStable(p: Pattern, f: Facts, argoNamespace: string)
    ensures Stable(NewTarget(p, f, argoNamespace))
  {
    hide CommonApplicationSpec, CompareApplication;
    TargetSettles(p, f, argoNamespace);
  }

  /** One call: it writes nothing, or it writes the target once and the Application is settled. */
  lemma OneCallSettles(w: World, o: Oracle, t: Target)
    requires Undisturbed(o) && Stable(t)
    ensures var v := ReconcileApplication(w, o, t).world;
            || (v.apps == w.apps && v.log == w.log)
            || (!Settled(w, t) && Settled(v, t) && v.log == w.log + [TargetWritten(t.id)])
    ensures ReconcileApplication(w, o, t).out.Converged? ==> Settled(w, t)
  {
    hide CompareApplication, OwnedBySame, Stored;
    var g := GetApp(w, o, t.id);
    var w1 := g.world;
    if g.out.None? {
      if CreateApp(w1, o, t).world.log != w1.log {
        FindAfterAppend(w1.apps, App(t.id, None, t.owners, Stored(t.spec), None, false, w1.nextRv), t.id);
      }
    } else {
      FindIsMember(w.apps, t.id);
      var a := g.out.value.(spec := t.spec);
      FindInReplaced(w1.apps, a.(spec := Stored(a.spec), rv := w1.nextRv), t.id);
    }
  }

  lemma WritesOfAppend(log: seq<Event>, e: Event)
    ensures Writes(log + [e]) == Writes(log) + if e.TargetWritten? then 1 else 0
  {
    assert (log + [e])[..|log|] == log;
  }

  /** Once settled, nothing is ever written again; an Application of another owner is left alone. */
  lemma {:induction false} SettledStays(w: World, o: Oracle, t: Target, calls: nat)
    requires Undisturbed(o) && Stable(t) && Settled(w, t)
    ensures Repeat(w, o, t, calls).apps == w.apps && Repeat(w, o, t, calls).log == w.log
    decreases calls
  {
    hide ReconcileApplication, Stable;
    if calls > 0 {
      OneCallSettles(w, o, t);
      SettledStays(ReconcileApplication(w, o, t).world, o, t, calls - 1);
    }
  }

  lemma {:induction false} StableIsWrittenOnce(w: World, o: Oracle, t: Target, calls: nat)
    requires Undisturbed(o) && Stable(t)
    ensures Writes(Repeat(w, o, t, calls).log) <= Writes(w.log) + 1
    ensures Repeat(w, o, t, calls).apps == w.apps || Settled(Repeat(w, o, t, calls), t)
    decreases calls
  {
    hide ReconcileApplication, Stable;
    if calls > 0 {
      var v := ReconcileApplication(w, o, t).world;
      OneCallSettles(w, o, t);
      if Settled(v, t) {
        SettledStays(v, o, t, calls - 1);
        WritesOfAppend(w.log, TargetWritten(t.id));
      } else {
        StableIsWrittenOnce(v, o, t, calls - 1);
      }
    }
  }

  /**
   Any number of calls with one built target, any failures and lost answers: at most one write takes
   effect in all, from any store, and one that does leaves the Application settled.
   */
  lemma AtMostOneWrite(w: World, o: Oracle, p: Pattern, f: Facts, calls: nat)
    requires Undisturbed(o)
    ensures var t := NewTarget(p, f, w.argoNamespace);
            var v := Repeat(w, o, t, calls);
            && Writes(v.log) <= Writes(w.log) + 1
            && (v.apps == w.apps || Settled(v, t))
            && (Settled(w, t) ==> v.apps == w.apps && v.log == w.log)
  {
    hide NewTarget, ReconcileApplication, Settled, Stable;
    var t := NewTarget(p, f, w.argoNamespace);
    TargetsAreStable(p, f, w.argoNamespace);
    StableIsWrittenOnce(w, o, t, calls);
    if Settled(w, t) {
      SettledStays(w, o, t, calls);
    }
  }

  lemma StableConverges(w: World, o: Oracle, t: Target)
    requires Undisturbed(o) && Stable(t) && (forall n :: o(n).reply == Fine)
    requires OwnedIn(w, t)
    ensures ReconcileApplication(ReconcileApplication(w, o, t).world, o, t).out.Converged?
  {
    hide CompareApplication, OwnedBySame, Stored;
    FindIsMember(w.apps, t.id);
    var a := Find(w.apps, t.id).value.(spec := t.spec);
    FindInReplaced(w.apps, a.(spec := Stored(a.spec), rv := w.nextRv), t.id);
  }

  /** Without failures two calls are enough: the first writes if it must, the second reports no change. */
  lemma SecondCallConverges(w: World, o: Oracle, p: Pattern, f: Facts)
    requires Undisturbed(o) && (forall n :: o(n).reply == Fine)
    requires OwnedIn(w, NewTarget(p, f, w.argoNamespace))
    ensures var t := NewTarget(p, f, w.argoNamespace);
            ReconcileApplication(ReconcileApplication(w, o, t).world, o, t).out.Converged?
  {
    hide NewTarget, ReconcileApplication, Stable;
    TargetsAreStable(p, f, w.argoNamespace);
    StableConverges(w, o, NewTarget(p, f, w.argoNamespace));
  }
}
