/** What a call leaves in the Pattern's status and finalizers, and what its outcome says about it. */
module Reports {
  import opened Wrappers
  import opened Patterns
  import opened Applications
  import opened Targets
  import opened Cluster
  import opened StoreFacts
  import opened Protocol
  import opened Safety
  import opened Runs
  import Guarantees

  /** The write of a copy goes over the version that was read. */
  predicate Taken(w: World, o: Oracle, c: Copy) {
    Served(Answer(w, o)) && Accepts(Before(w, o), c)
  }

  /** Answered, and not only stored. */
  predicate Acknowledged(w: World, o: Oracle, c: Copy) {
    Answer(w, o) == Fine && Accepts(Before(w, o), c)
  }

  // ---- The finalizer ----

  /**
   Letting the finalizer go takes that one off and no other; the object leaves the store with it
   exactly if it was the last. Not taken, the write changes nothing.
   */
  lemma ReleaseTakesItsOwn(w: World, o: Oracle, c: Copy)
    requires Inv(w) && Verbatim(w, c) && c.obj.deleting
    ensures var s, w1 := RemoveFinalizer(w, o, c), Before(w, o);
            && (s.out == if Acknowledged(w, o, c) then Done else Backoff)
            && (!Taken(w, o, c) ==> s.world == w1)
            && (Taken(w, o, c) ==>
                  && Current(s.world) == c.obj.(finalizers := c.obj.finalizers - {"foregroundDeletePattern"})
                  && (s.world.gone <==> c.obj.finalizers <= {"foregroundDeletePattern"}))
  {
    hide Inv, HappenAll, Snapshot;
    BeforeKeeps(w, o);
    VerbatimStays(w, Before(w, o), c);
    ObjectWriteExactly(w, o, c.(obj := c.obj.(finalizers := c.obj.finalizers - {PATTERN_FINALIZER})));
  }

  /** The call that lets the finalizer go takes no other finalizer with it. */
  lemma CallReleasesItsOwn(w: World, o: Oracle, c: Copy)
    requires Inv(w) && ReadPattern(w, o).out == Got(c) && c.obj.deleting
    requires var s := Routine(ReadPattern(w, o).world, o); s.out == Fine && Finalize(s.world, o, c).out.None?
    ensures var f, v := Finalize(Routine(ReadPattern(w, o).world, o).world, o, c).world, Reconcile(w, o);
            && (v.out == if Acknowledged(f, o, c) then Done else Backoff)
            && (!Taken(f, o, c) ==> v.world == Before(f, o))
            && (Taken(f, o, c) ==>
                  && Current(v.world) == c.obj.(finalizers := c.obj.finalizers - {"foregroundDeletePattern"})
                  && (v.world.gone <==> c.obj.finalizers <= {"foregroundDeletePattern"}))
  {
    hide Inv, Snapshot, ReadPattern, Routine, Finalize, RemoveFinalizer, Taken, Acknowledged, Verbatim, Pinned;
    var r := ReadPattern(w, o);
    ReadKeeps(w, o);
    ReadIsVerbatim(w, o);
    DefaultsKeeps(r.world, o);
    VerbatimStays(r.world, Routine(r.world, o).world, c);
    CopiesStay(r.world, Routine(r.world, o).world, c);
    FinalizeMoves(Routine(r.world, o).world, o, c);
    VerbatimStays(Routine(r.world, o).world, Finalize(Routine(r.world, o).world, o, c).world, c);
    ReleaseTakesItsOwn(Finalize(Routine(r.world, o).world, o, c).world, o, c);
  }

  /** Adding the finalizer adds that one, on a Pattern that stays live. */
  lemma AdditionAddsItsOwn(w: World, o: Oracle, c: Copy)
    requires Inv(w) && Verbatim(w, c) && !c.obj.deleting
    ensures var d := c.(obj := c.obj.(finalizers := c.obj.finalizers + {PATTERN_FINALIZER}));
            var u := WriteObject(w, o, d);
            && (u.out.Some? <==> Acknowledged(w, o, c))
            && (Taken(w, o, c) ==>
                  Current(u.world) == c.obj.(finalizers := c.obj.finalizers + {"foregroundDeletePattern"}))
            && (u.out.Some? ==> u.out.value.obj == Current(u.world) && !u.out.value.obj.deleting)
  {
    hide Inv, HappenAll, Snapshot;
    BeforeKeeps(w, o);
    VerbatimStays(w, Before(w, o), c);
    ObjectWriteExactly(w, o, c.(obj := c.obj.(finalizers := c.obj.finalizers + {PATTERN_FINALIZER})));
  }

  /** Of the versions written in between, those that others did not write changed the status or the own finalizer. */
  ghost predicate OwnWrites(w: World, v: World) {
    forall i :: |w.versions| <= i < |v.versions| && i !in v.edited ==>
      var was, now := v.versions[i - 1], v.versions[i];
      && now == was.(status := now.status, finalizers := now.finalizers)
      && (now.finalizers != was.finalizers ==>
            now.finalizers == if was.deleting then was.finalizers - {"foregroundDeletePattern"}
                              else was.finalizers + {"foregroundDeletePattern"})
  }

  lemma AdvancingSigns(w: World, v: World)
    requires Advances(w, v)
    ensures OwnWrites(w, v)
  {
    hide StoreOk, Normal, EdgeHistory, SealsHold, PathSealed, CensusSafe, Admitted, AheadOfPhase, Snapshot;
  }

  /** The call that goes on from this copy lets the finalizer go. */
  predicate LetsGo(w: World, o: Oracle, c: Copy) {
    c.obj.deleting && Finalize(Routine(w, o).world, o, c).out.None?
  }

  // ---- The status ----

  /** The step and its error are what the status of the version read shows afterwards, and nothing else is new. */
  predicate Shows(w: World, c: Copy, step: string, err: Option<Error>) {
    Current(w).status == c.obj.status.(lastStep := step, lastError := err)
  }

  /** A record is stored as given, or refused as a whole; the outcome says which, and when to come back. */
  lemma RecordIsShown(w: World, o: Oracle, c: Copy, step: string, err: Option<Error>)
    ensures var s := Record(w, o, c, step, err);
            && (Taken(w, o, c) ==> Shows(s.world, c, step, err))
            && (!Taken(w, o, c) ==> s.world == Before(w, o))
            && (s.out == Backoff <==> !Acknowledged(w, o, c))
            && (s.out != Backoff ==>
                  s.out == if err.Some? then Requeue(60) else if c.obj.deleting then Requeue(120) else Done)
  {
    hide HappenAll;
    StatusWriteExactly(w, o, c.(obj := c.obj.(status := c.obj.status.(lastStep := step, lastError := err))));
  }

  /** A clean-up that ends with an error is shown with it, or the call fails. */
  lemma FinalizeErrorIsShown(w: World, o: Oracle, c: Copy)
    requires ReadPattern(w, o).out == Got(c) && c.obj.deleting
    requires var s := Routine(ReadPattern(w, o).world, o); s.out == Fine && Finalize(s.world, o, c).out.Some?
    ensures var f, v := Finalize(Routine(ReadPattern(w, o).world, o).world, o, c), Reconcile(w, o);
            && (v.out == Requeue(60) || v.out == Backoff)
            && (v.out == Requeue(60) ==> Shows(v.world, c, "finalize", f.out))
  {
    hide ReadPattern, Routine, Finalize, Record, Taken, Acknowledged;
    var f := Finalize(Routine(ReadPattern(w, o).world, o).world, o, c);
    RecordIsShown(f.world, o, c, "finalize", f.out);
    AcknowledgedIsTaken(f.world, o, c);
  }

  lemma AcknowledgedIsTaken(w: World, o: Oracle, c: Copy)
    ensures Acknowledged(w, o, c) ==> Taken(w, o, c)
  {
  }

  /** An outcome and the stored status that goes with it. */
  predicate Tells(s: Step<Outcome>, released: bool) {
    match s.out
    case Requeue(seconds) => seconds == 180 || (seconds == 60 && Current(s.world).status.lastError.Some?)
    case Done => released || Current(s.world).status.lastError.None?
    case Backoff => true
  }

  lemma RecordTells(w: World, o: Oracle, c: Copy, step: string, err: Option<Error>)
    requires err.None? ==> !c.obj.deleting
    ensures Tells(Record(w, o, c, step, err), false) && Record(w, o, c, step, err).out != Requeue(180)
  {
    hide Record, Taken, Acknowledged;
    RecordIsShown(w, o, c, step, err);
    AcknowledgedIsTaken(w, o, c);
  }

  lemma DeployTells(w: World, o: Oracle, c: Copy)
    requires !c.obj.deleting
    ensures Tells(Deploy(w, o, c), false)
  {
    hide Record, Defaults, Routine, ReconcileApplication, NewTarget, Tells;
    var d := Defaults(w, o);
    if d.out.None? {
      RecordTells(d.world, o, c, "applying defaults", Some(StepFailed("applying defaults")));
    } else {
      var q := Qualified(c, d.out.value);
      var r := Routine(d.world, o);
      var a := ReconcileApplication(r.world, o, NewTarget(q.obj, d.out.value, w.argoNamespace));
      if r.out != Fine {
        RecordTells(r.world, o, q, "prerequisites",
                    if r.out == Performed then None else Some(StepFailed("prerequisites")));
      } else if a.out.Acted? {
        RecordTells(a.world, o, Bumped(q, a.out.versionBump), a.out.step, a.out.err);
      } else {
        CompleteTells(a.world, o, q);
      }
    }
  }

  lemma CompleteTells(w: World, o: Oracle, c: Copy)
    ensures Complete(w, o, c).out == Requeue(180) && Tells(Complete(w, o, c), false)
  {
    hide Record, Routine, WriteStatus;
  }

  lemma HandleTells(w: World, o: Oracle, c: Copy)
    requires Inv(w) && Verbatim(w, c)
    ensures Tells(Handle(w, o, c), LetsGo(w, o, c))
    ensures c.obj.deleting ==> Handle(w, o, c).out != Requeue(180)
  {
    hide Inv, Snapshot, Routine, Finalize, Record, Deploy, WriteObject, Verbatim, Taken, Acknowledged;
    var r := Routine(w, o);
    DefaultsKeeps(w, o);
    VerbatimStays(w, r.world, c);
    if r.out != Fine {
      RecordTells(r.world, o, c, "operator configuration", Some(StepFailed("operator configuration")));
    } else if c.obj.deleting {
      var f := Finalize(r.world, o, c);
      if f.out.Some? {
        RecordTells(f.world, o, c, "finalize", f.out);
      }
    } else if PATTERN_FINALIZER !in c.obj.finalizers {
      AdditionAddsItsOwn(r.world, o, c);
      var u := WriteObject(r.world, o, c.(obj := c.obj.(finalizers := c.obj.finalizers + {PATTERN_FINALIZER})));
      RecordTells(u.world, o, u.out.GetOr(c), "updated finalizer",
                  if u.out.None? then Some(StepFailed("updated finalizer")) else None);
    } else {
      DeployTells(r.world, o, c);
    }
  }

  /**
   What a call's outcome says, whatever interferes: it comes back in a minute exactly with an error
   that is in the stored status, and in three only after a live Pattern was gone through; it is done
   with the Pattern gone, its finalizer let go, or no error in the status. The two minutes foreseen
   for a Pattern being deleted without an error never come.
   */
  lemma OutcomeTellsTheStatus(w: World, o: Oracle)
    requires Inv(w)
    ensures var r, v := ReadPattern(w, o), Reconcile(w, o);
            && (v.out.Requeue? ==> r.out.Got? && v.out.seconds in {60, 180})
            && (v.out == Requeue(60) ==> Current(v.world).status.lastError.Some?)
            && (v.out == Requeue(180) ==> !r.out.copy.obj.deleting)
            && (v.out == Done ==>
                  || r.out.NotFound?
                  || (r.out.Got? && LetsGo(r.world, o, r.out.copy))
                  || Current(v.world).status.lastError.None?)
  {
    hide Inv, Snapshot, ReadPattern, Handle, Finalize, Routine, Verbatim, Pinned;
    var r := ReadPattern(w, o);
    ReadKeeps(w, o);
    ReadIsVerbatim(w, o);
    if r.out.Got? {
      HandleTells(r.world, o, r.out.copy);
    }
  }

  /** The two outcomes of a step that failed: it comes back in a minute with that error shown, or the call fails. */
  predicate FailureShown(s: Step<Outcome>, step: string) {
    || s.out == Backoff
    || (&& s.out == Requeue(60)
        && Current(s.world).status.lastStep == step && Current(s.world).status.lastError == Some(StepFailed(step)))
  }

  lemma FailureIsShown(w: World, o: Oracle, c: Copy, step: string)
    ensures FailureShown(Record(w, o, c, step, Some(StepFailed(step))), step)
  {
    hide Record, Taken, Acknowledged;
    RecordIsShown(w, o, c, step, Some(StepFailed(step)));
    AcknowledgedIsTaken(w, o, c);
  }

  /** No failed step before the Application is passed over. */
  lemma FailedStepsAreShown(w: World, o: Oracle, c: Copy)
    ensures Routine(w, o).out != Fine ==> FailureShown(Handle(w, o, c), "operator configuration")
    ensures var d := Defaults(w, o);
            && (d.out.None? ==> FailureShown(Deploy(w, o, c), "applying defaults"))
            && (d.out.Some? && Routine(d.world, o).out !in {Fine, Performed} ==>
                  FailureShown(Deploy(w, o, c), "prerequisites"))
  {
    hide Record, Routine, Defaults, ApplyDefaults, FailureShown;
    FailureIsShown(Routine(w, o).world, o, c, "operator configuration");
    var d := Defaults(w, o);
    FailureIsShown(d.world, o, c, "applying defaults");
    if d.out.Some? {
      FailureIsShown(Routine(d.world, o).world, o, Qualified(c, d.out.value), "prerequisites");
    }
  }

  /** The addition of the finalizer is shown as done, with the finalizer there, or as failed. */
  lemma AdditionIsShown(w: World, o: Oracle, c: Copy)
    requires Inv(w) && Verbatim(w, c) && !c.obj.deleting
    ensures var v := AddFinalizer(w, o, c);
            if Acknowledged(w, o, c) then
              && (v.out == Backoff || v.out == Done)
              && (v.out == Done ==> Current(v.world).status.lastError.None?)
            else FailureShown(v, "updated finalizer")
  {
    hide Inv, WriteObject, Record, Taken, Acknowledged, Verbatim, FailureShown;
    AdditionAddsItsOwn(w, o, c);
    var u := WriteObject(w, o, c.(obj := c.obj.(finalizers := c.obj.finalizers + {PATTERN_FINALIZER})));
    if u.out.None? {
      FailureIsShown(u.world, o, c, "updated finalizer");
    } else {
      RecordIsShown(u.world, o, u.out.value, "updated finalizer", None);
      AcknowledgedIsTaken(u.world, o, u.out.value);
    }
  }

  // ---- The Application ----

  /**
   What reconcileApplication reports. No change: the Application is the pattern's and agrees with the
   target. Success: the target is stored, by one write. Another's: said so, and nothing written. A
   failed update, and only that, asks for the version to be raised.
   */
  lemma ApplyTellsTheTruth(w: World, o: Oracle, t: Target)
    ensures var a, g := ReconcileApplication(w, o, t), GetApp(w, o, t.id);
            var ours := g.out.Some? && OwnedBySame(t.owners, g.out.value.owners);
            && (a.out.Converged? ==>
                  ours && a.world == g.world && ViewOf(Some(g.out.value.spec)) == ViewOf(Some(t.spec)))
            && (a.out.Acted? && a.out.err.None? ==>
                  && a.world.log == w.log + [TargetWritten(t.id)]
                  && Find(a.world.apps, t.id).Some? && Find(a.world.apps, t.id).value.spec == Stored(t.spec)
                  && (g.out.None? ==> Find(a.world.apps, t.id).value.owners == t.owners))
            && (a.out.Acted? && a.out.err == Some(NotOwned) <==> g.out.Some? && !ours)
            && (g.out.Some? && !ours ==> a.world == g.world && a.world.log == w.log)
            && (a.out.Acted? && a.out.versionBump <==> a.out.Acted? && a.out.err == Some(TargetUpdateFailed))
            && (a.out.Acted? && a.out.versionBump ==> ours)
  {
    hide HappenAll, CompareApplication, OwnedBySame, Stored;
    var g := GetApp(w, o, t.id);
    Guarantees.OthersLogNothing(w, o(w.clock).outside);
    Guarantees.OthersLogNothing(g.world, o(g.world.clock).outside);
    var w1 := Before(g.world, o);
    if g.out.None? {
      FindAfterAppend(w1.apps, App(t.id, None, t.owners, Stored(t.spec), None, false, w1.nextRv), t.id);
    } else {
      FindIsMember(g.world.apps, t.id);
      CompareIsView(Some(g.out.value.spec), Some(t.spec));
      FindInReplaced(w1.apps, g.out.value.(spec := Stored(t.spec), rv := w1.nextRv), t.id);
    }
  }

  /** Where a call on a live Pattern has come when it turns to the Application. */
  function AtApplication(w: World, o: Oracle): Step<Reply> {
    Routine(Defaults(w, o).world, o)
  }

  /**
   A call that deploys and comes to the Application of another owner writes no Application, and shows
   that it is not the pattern's, or fails.
   */
  lemma ForeignApplicationIsShown(w: World, o: Oracle, c: Copy, f: Facts)
    requires !c.obj.deleting && Defaults(w, o).out == Some(f) && AtApplication(w, o).out == Fine
    requires var t := NewTarget(ApplyDefaults(c.obj, f), f, w.argoNamespace);
             var g := GetApp(AtApplication(w, o).world, o, t.id);
             g.out.Some? && !OwnedBySame(t.owners, g.out.value.owners)
    ensures var v := Deploy(w, o, c);
            && v.world.log == w.log
            && (v.out == Requeue(60) || v.out == Backoff)
            && (v.out == Requeue(60) ==> Current(v.world).status.lastError == Some(NotOwned))
  {
    hide HappenAll, Record, NewTarget, ApplyDefaults, OwnedBySame, Taken, Acknowledged;
    var r := AtApplication(w, o);
    var t := NewTarget(ApplyDefaults(c.obj, f), f, w.argoNamespace);
    var g := GetApp(r.world, o, t.id);
    Guarantees.OthersLogNothing(w, o(w.clock).outside);
    var d := Defaults(w, o);
    Guarantees.OthersLogNothing(d.world, o(d.world.clock).outside);
    Guarantees.OthersLogNothing(r.world, o(r.world.clock).outside);
    RecordIsShown(g.world, o, Qualified(c, f), "create application", Some(NotOwned));
    AcknowledgedIsTaken(g.world, o, Qualified(c, f));
    RecordLogsNothing(g.world, o, Qualified(c, f), "create application", Some(NotOwned));
  }

  lemma RecordLogsNothing(w: World, o: Oracle, c: Copy, step: string, err: Option<Error>)
    ensures Record(w, o, c, step, err).world.log == w.log
  {
    hide HappenAll;
    Guarantees.OthersLogNothing(w, o(w.clock).outside);
  }

  /** A step on the Application is shown with its error, and a failed update raises the version by one. */
  lemma ApplicationStepIsShown(w: World, o: Oracle, c: Copy, f: Facts)
    requires !c.obj.deleting && Defaults(w, o).out == Some(f) && AtApplication(w, o).out == Fine
    requires var t := NewTarget(ApplyDefaults(c.obj, f), f, w.argoNamespace);
             ReconcileApplication(AtApplication(w, o).world, o, t).out.Acted?
    ensures var t := NewTarget(ApplyDefaults(c.obj, f), f, w.argoNamespace);
            var a, v := ReconcileApplication(AtApplication(w, o).world, o, t), Deploy(w, o, c);
            && (v.out == Backoff || v.out == if a.out.err.Some? then Requeue(60) else Done)
            && (v.out != Backoff ==>
                  var status := Current(v.world).status;
                  && status.lastStep == a.out.step && status.lastError == a.out.err
                  && status.version == c.obj.status.version + if a.out.err == Some(TargetUpdateFailed) then 1 else 0)
  {
    hide HappenAll, Record, NewTarget, ReconcileApplication, Taken, Acknowledged, Defaults, Routine;
    var t := NewTarget(ApplyDefaults(c.obj, f), f, w.argoNamespace);
    var r := AtApplication(w, o);
    var a := ReconcileApplication(r.world, o, t);
    ApplyTellsTheTruth(r.world, o, t);
    RecordIsShown(a.world, o, Bumped(Qualified(c, f), a.out.versionBump), a.out.step, a.out.err);
    AcknowledgedIsTaken(a.world, o, Bumped(Qualified(c, f), a.out.versionBump));
  }

  /**
   A call that goes through without anybody in between leaves "reconcile complete" and no error in the
   status, whether the Applications' states had to be reported or not, and comes back in three minutes.
   */
  lemma CompletionIsShown(w: World, o: Oracle, c: Copy)
    requires !w.gone && c.rv == Top(w)
    requires c.obj.status.lastStep == Current(w).status.lastStep
    requires c.obj.status.lastError == Current(w).status.lastError
    requires forall n :: o(n).outside == [] && (o(n).reply == Fine || (n == w.clock && o(n).reply == Performed))
    ensures var v := Complete(w, o, c);
            && v.out == Requeue(180) && v.world.log == w.log
            && Current(v.world).status.lastStep == "reconcile complete" && Current(v.world).status.lastError.None?
  {
    hide Record, Taken, Acknowledged;
    var r := Routine(w, o);
    var step := if r.out == Performed then "update pattern application status" else c.obj.status.lastStep;
    var c1 := c.(obj := c.obj.(status := c.obj.status.(lastStep := step)));
    var u := if r.out == Performed then WriteStatus(r.world, o, c1) else Step(r.world, None);
    var c2 := u.out.GetOr(c1);
    RecordIsShown(u.world, o, c2, "reconcile complete", None);
    RecordLogsNothing(u.world, o, c2, "reconcile complete", None);
    CurrentIsAcknowledged(u.world, o, c2);
  }

  lemma CurrentIsAcknowledged(w: World, o: Oracle, c: Copy)
    requires o(w.clock).outside == [] && o(w.clock).reply == Fine && !w.gone && c.rv == Top(w)
    ensures Acknowledged(w, o, c) && Taken(w, o, c)
  {
  }
}
