/** The safety theorems over whole runs. */
module Theorems {
  import opened AddonTypes
  import opened WorkflowNames
  import opened Reconciler
  import opened Updater
  import opened Protocol
  import opened Evidence
  import opened Safety
  import opened Traces
  import opened Failures

  // ---------------------------------------------------------------------------
  // Which writes land.

  /** Every change of the status in the record of a run is one landed write, changes nothing else,
      and passed the guard against exactly the version it replaced: no pending or invalid phase stands
      right after a completed one of the same checksum. */
  lemma LandedWritesPassedTheGuard(cx: Context, spec: Spec, ls: seq<Label>, w: World, n: nat)
    requires Run(cx, spec, ls, w) && 0 < n < |w.hist|
    ensures w.hist[n - 1].status != w.hist[n].status ==>
              && w.hist[n] == w.hist[n - 1].(status := w.hist[n].status)
              && !GuardFires(w.hist[n - 1].status, w.hist[n].status)
              && exists c, snap :: Wrote(c, n, snap) in w.events
    ensures forall c, snap | Wrote(c, n, snap) in w.events :: !GuardFires(w.hist[n - 1].status, w.hist[n].status)
    ensures !(&& w.hist[n - 1].status.installed in {Succeeded, Failed, DeleteSucceeded, DeleteFailed}
              && w.hist[n].status.installed in {Pending, ValidationFailed}
              && w.hist[n].status.checksum == w.hist[n - 1].status.checksum)
  {
    RunSafe(cx, spec, ls, w);
    assert Lawful(cx, w.hist, w.events, n);
    forall c, snap | Wrote(c, n, snap) in w.events ensures !GuardFires(w.hist[n - 1].status, w.hist[n].status) {
      assert EventSafe(cx, w.hist, Wrote(c, n, snap));
    }
  }

  /** No call of the updater lands two writes. */
  lemma OneWritePerCallInRuns(cx: Context, spec: Spec, ls: seq<Label>, w: World, i: nat, j: nat)
    requires Run(cx, spec, ls, w) && i < j < |w.events| && w.events[i].Wrote? && w.events[j].Wrote?
    ensures w.events[i].call != w.events[j].call
  {
    RunWritesOnce(cx, spec, ls, w);
  }

  /** A guard error means that the version read back has another status than the one the call set out
      from. */
  lemma GuardMeansMoved(cx: Context, spec: Spec, ls: seq<Label>, w: World, c: nat, v: nat)
    requires Run(cx, spec, ls, w) && c in w.calls && w.calls[c].Updating? && v < |w.hist|
    requires GuardFires(w.hist[v].status, w.calls[c].st)
    ensures w.hist[v].status != w.hist[w.calls[c].snap].status
  {
    PassesOwnSnapshot(cx, spec, ls, w, c);
  }

  /** A call is not blocked, and lands its write if it is not disturbed, as long as the status on
      record is the one it set out from; so also after its own update of the finalizers. */
  lemma UndisturbedCallLands(cx: Context, spec: Spec, ls: seq<Label>, w: World, c: nat) returns (w': World)
    requires Run(cx, spec, ls, w) && InStage(w, c, Queued) && Free(w, w.mutex) && !w.gone
    requires w.calls[c].snap < |w.hist| && Latest(w).status == w.hist[w.calls[c].snap].status
    ensures Leads(cx, w, [LooksUp(c), Locks(c), Gets(c, |w.hist| - 1), Puts(c)], w')
    ensures w'.hist == w.hist + [Latest(w).(status := w.calls[c].st)]
  {
    PassesOwnSnapshot(cx, spec, ls, w, c);
    LeadsNowhere(cx, w);
    ThenStores(cx, w, [], w, c);
    w' := WithWrite(w, c, w.mutex);
    assert [] + [LooksUp(c)] + [Locks(c)] + [Gets(c, |w.hist| - 1)] + [Puts(c)] ==
           [LooksUp(c), Locks(c), Gets(c, |w.hist| - 1), Puts(c)];
  }

  lemma PassesOwnSnapshot(cx: Context, spec: Spec, ls: seq<Label>, w: World, c: nat)
    requires Run(cx, spec, ls, w) && c in w.calls && w.calls[c].Updating?
    ensures w.calls[c].snap < |w.hist| && Follows(w.hist[w.calls[c].snap].status, w.calls[c].st)
  {
    RunSafe(cx, spec, ls, w);
    assert CallSafe(cx, w.hist, w.events, w.calls[c]);
  }

  // ---------------------------------------------------------------------------
  // How a completed phase is left.

  /** A status without install phase has no checksum. */
  predicate Phased(st: Status) { st.installed == NoPhase ==> st.checksum == "" }

  predicate PhasedCall(hist: seq<Record>, p: Call) {
    && p.snap < |hist|
    && match p
       case Updating(_, st, _) => Phased(st)
       case Reconciling(snap, at, st, _) =>
         if at == Begin then st == hist[snap].status
         else if at == ListOld then st.installed == hist[snap].status.installed
         else DeletePoint(at) || Phased(st)
  }

  ghost predicate PhasedInv(w: World) {
    && WellFormed(w)
    && (forall n | 0 <= n < |w.hist| :: Phased(w.hist[n].status))
    && (forall c | c in w.calls :: PhasedCall(w.hist, w.calls[c]))
  }

  /** No listing fails for a version that has no install phase yet. */
  ghost predicate ListsForNew(w: World, l: Label)
    requires WellFormed(w)
  {
    l.AddonSteps? && l.call in w.calls && w.calls[l.call].Reconciling? && w.calls[l.call].at == ListOld && !l.rp.listed ==>
      w.hist[w.calls[l.call].snap].status.installed != NoPhase
  }

  ghost predicate ListsForNewRun(cx: Context, spec: Spec, ls: seq<Label>)
    decreases |ls|
  {
    ls != [] ==>
      var n := |ls| - 1;
      var before := Play(cx, Start(spec), ls[..n]);
      ListsForNewRun(cx, spec, ls[..n]) && (before.Some? ==> ListsForNew(before.value, ls[n]))
  }

  lemma AdvancePhased(cx: Context, hist: seq<Record>, p: Call, rp: Replies)
    requires p.Reconciling? && PhasedCall(hist, p) && Phased(hist[p.snap].status)
    requires p.at == ListOld && !rp.listed ==> hist[p.snap].status.installed != NoPhase
    ensures NextCall(cx, hist[p.snap], p, rp).Some? ==> PhasedCall(hist, NextCall(cx, hist[p.snap], p, rp).value)
  {
  }

  lemma WorkflowPhased(cx: Context, r: Record, wf: string, phase: WfPhase, message: string)
    requires Phased(r.status) && FromWorkflow(cx, r, wf, phase, message).Some?
    ensures Phased(FromWorkflow(cx, r, wf, phase, message).value)
  {
    var step := Extract(wf).value.1;
    StepOutcome(r.status, step, phase, if ConvertPhase(step, phase).IsFailed() then message else "");
  }

  lemma MovedPhased(cx: Context, w: World, l: Label)
    requires PhasedInv(w) && Enabled(cx, w, l) && ListsForNew(w, l)
    ensures var ch := ChangeOf(cx, w, l); ch.call.Some? ==> PhasedCall(w.hist, ch.call.value)
  {
    match l
    case AddonSteps(c, rp, _) => AdvancePhased(cx, w.hist, w.calls[c], rp);
    case WorkflowReads(snap, wf, phase, message) =>
      if FromWorkflow(cx, w.hist[snap], wf, phase, message).Some? {
        WorkflowPhased(cx, w.hist[snap], wf, phase, message);
      }
    case _ =>
  }

  lemma PhasedGrows(hist: seq<Record>, calls: map<nat, Call>, ch: Change)
    requires forall c | c in calls :: PhasedCall(hist, calls[c])
    requires ch.call.Some? ==> PhasedCall(hist, ch.call.value)
    ensures var calls' := CallsAfter(calls, ch); forall c | c in calls' :: PhasedCall(Append(hist, ch.stored), calls'[c])
  {
    var calls' := CallsAfter(calls, ch);
    forall c | c in calls' ensures PhasedCall(Append(hist, ch.stored), calls'[c]) {
      assert PhasedCall(hist, calls'[c]);
      assert Append(hist, ch.stored)[calls'[c].snap] == hist[calls'[c].snap];
    }
  }

  lemma PhasedStep(cx: Context, w: World, l: Label)
    requires PhasedInv(w) && Enabled(cx, w, l) && ListsForNew(w, l)
    ensures PhasedInv(Step(cx, w, l))
  {
    StepWellFormed(cx, w, l);
    MovedPhased(cx, w, l);
    PhasedGrows(w.hist, w.calls, ChangeOf(cx, w, l));
    if ChangeOf(cx, w, l).stored.Some? {
      StoredStatus(cx, w, l);
      assert l.Puts? ==> PhasedCall(w.hist, w.calls[l.call]);
    }
  }

  lemma {:induction false} RunPhased(cx: Context, spec: Spec, ls: seq<Label>, w: World)
    requires Run(cx, spec, ls, w) && ListsForNewRun(cx, spec, ls)
    ensures PhasedInv(w)
    decreases |ls|
  {
    if ls != [] {
      var n := |ls| - 1;
      var before := Play(cx, Start(spec), ls[..n]).value;
      RunPhased(cx, spec, ls[..n], before);
      PhasedStep(cx, before, ls[n]);
    }
  }

  /** As long as no listing fails for a version without install phase, a completed install phase under
      a checksum is left for a phase that is not completed only by a write of `Deleting` or by a write
      that carries another checksum. */
  lemma CompletedIsLeftOnly(cx: Context, spec: Spec, ls: seq<Label>, w: World, n: nat)
    requires Run(cx, spec, ls, w) && ListsForNewRun(cx, spec, ls) && 0 < n < |w.hist|
    requires w.hist[n - 1].status.installed.IsCompleted() && w.hist[n - 1].status.checksum != ""
    requires !w.hist[n].status.installed.IsCompleted()
    ensures w.hist[n].status.installed == Deleting || w.hist[n].status.checksum != w.hist[n - 1].status.checksum
  {
    LandedWritesPassedTheGuard(cx, spec, ls, w, n);
    RunPhased(cx, spec, ls, w);
    assert Phased(w.hist[n].status);
  }

  /** Over any stretch of versions that keeps the checksum and is not being deleted, a completed
      install phase stays completed. */
  lemma {:induction false} CompletedStays(cx: Context, spec: Spec, ls: seq<Label>, w: World, m: nat, n: nat)
    requires Run(cx, spec, ls, w) && ListsForNewRun(cx, spec, ls) && m <= n < |w.hist|
    requires w.hist[m].status.installed.IsCompleted() && w.hist[m].status.checksum != ""
    requires forall k | m <= k <= n ::
               w.hist[k].status.checksum == w.hist[m].status.checksum && w.hist[k].status.installed != Deleting
    ensures w.hist[n].status.installed.IsCompleted()
    decreases n - m
  {
    if m < n {
      CompletedStays(cx, spec, ls, w, m, n - 1);
      assert w.hist[n].status.checksum == w.hist[m].status.checksum;
      if !w.hist[n].status.installed.IsCompleted() {
        CompletedIsLeftOnly(cx, spec, ls, w, n);
      }
    }
  }

  /** One completed phase replaces another only in a write whose call had read a third state: the
      install phase it had read is not the one it replaced. A call that had read a completed phase
      writes that very phase or an unfinished one, so it replaces a completed phase by another exactly
      when the phase it had read is not the one on record. */
  lemma CompletedIsReplacedOnly(cx: Context, spec: Spec, ls: seq<Label>, w: World, c: nat, n: nat, snap: nat)
    requires Run(cx, spec, ls, w) && Wrote(c, n, snap) in w.events
    ensures snap < n < |w.hist|
    ensures var read, was, now := w.hist[snap].status.installed, w.hist[n - 1].status.installed, w.hist[n].status.installed;
            was.IsCompleted() && now.IsCompleted() ==>
              && (was != now ==> read != was && snap < n - 1)
              && (read.IsCompleted() ==> (was != now <==> read != was))
  {
    RunSafe(cx, spec, ls, w);
    assert EventSafe(cx, w.hist, Wrote(c, n, snap));
  }

  // ---------------------------------------------------------------------------
  // What a recorded success goes back to.

  /** In every run, whatever fails and however specs repeat: a success at any version goes back to a
      spec that the addon had at that version or before, and that was done. */
  lemma SuccessGoesBack(cx: Context, spec: Spec, ls: seq<Label>, w: World, n: nat)
    requires Run(cx, spec, ls, w) && n < |w.hist|
    ensures w.hist[n].status.prereqs.IsSucceeded() ==>
              exists i | 0 <= i <= n :: Done(cx, w.events, w.hist[i].spec, Prereqs)
    ensures w.hist[n].status.installed == Succeeded ==>
              exists i | 0 <= i <= n :: Done(cx, w.events, w.hist[i].spec, Install)
    ensures w.hist[n].status.installed == DeleteSucceeded ==>
              exists i | 0 <= i <= n :: Reached(FormattedName(cx, w.hist[i].spec, Delete), WfSucceeded) in w.events
  {
    RunSafe(cx, spec, ls, w);
    assert Backed(cx, w.hist, w.events, n, w.hist[n].status);
  }

  // ---------------------------------------------------------------------------
  // Deletion.

  /** The finalizer goes only from a version that is being deleted and says so, and only when its
      spec has no delete template or a delete workflow of the addon has succeeded. */
  lemma FinalizerIsLetGoOnly(cx: Context, spec: Spec, ls: seq<Label>, w: World, n: nat)
    requires Run(cx, spec, ls, w) && 0 < n < |w.hist|
    requires FINALIZER in w.hist[n - 1].finalizers && FINALIZER !in w.hist[n].finalizers
    ensures w.hist[n - 1].deleting && w.hist[n - 1].status.installed.IsDeleting()
    ensures || w.hist[n - 1].spec.delete.template == ""
            || exists i | 0 <= i < n :: Reached(FormattedName(cx, w.hist[i].spec, Delete), WfSucceeded) in w.events
  {
    RunSafe(cx, spec, ls, w);
    assert Lawful(cx, w.hist, w.events, n);
    if Ran(cx, w.hist, w.events, n - 1, Delete) {
      var i :| 0 <= i <= n - 1 && i < |w.hist|
               && Reached(FormattedName(cx, w.hist[i].spec, Delete), WfSucceeded) in w.events;
    }
  }

  /** A delete workflow is created only for a version read as being deleted, with a deleting phase. */
  lemma DeleteWorkflowsOnlyWhenDeleting(cx: Context, spec: Spec, ls: seq<Label>, w: World, e: Event)
    requires Run(cx, spec, ls, w) && e in w.events && e.Created? && e.step == Delete
    ensures e.snap < |w.hist| && w.hist[e.snap].deleting && w.hist[e.snap].status.installed.IsDeleting()
  {
    RunSafe(cx, spec, ls, w);
  }

  // ---------------------------------------------------------------------------
  // When the addon is gone, and where workflows come from.

  /** The object is gone only without finalizers, and one that is being deleted is gone without them. */
  predicate GoneRight(w: World)
    requires w.hist != []
  {
    && (w.gone ==> Latest(w).finalizers == {})
    && (Latest(w).deleting && Latest(w).finalizers == {} ==> w.gone)
  }

  lemma GoneStep(cx: Context, w: World, l: Label)
    requires WellFormed(w) && Enabled(cx, w, l) && GoneRight(w)
    ensures Step(cx, w, l).hist != [] && GoneRight(Step(cx, w, l))
  {
  }

  /** In every run the addon is gone only when its last finalizer is, and an addon that is being deleted
      is gone as soon as that is so. */
  lemma {:induction false} GoneWithFinalizers(cx: Context, spec: Spec, ls: seq<Label>, w: World)
    requires Run(cx, spec, ls, w)
    ensures w.hist != [] && (w.gone ==> Latest(w).finalizers == {})
    ensures Latest(w).deleting && Latest(w).finalizers == {} ==> w.gone
    decreases |ls|
  {
    if ls != [] {
      var before := LastStep(cx, Start(spec), ls, w);
      GoneWithFinalizers(cx, spec, ls[..|ls| - 1], before);
      GoneStep(cx, before, ls[|ls| - 1]);
    }
  }

  lemma DeletionKept(cx: Context, w: World, l: Label)
    requires WellFormed(w) && Enabled(cx, w, l) && (w.gone || Latest(w).deleting || l == UserDeletes)
    ensures Step(cx, w, l).hist != [] && (Step(cx, w, l).gone || Latest(Step(cx, w, l)).deleting)
  {
    if ChangeOf(cx, w, l).stored.Some? { StoredDeleting(cx, w, l); }
  }

  /** In every run, once the user has deleted the addon it is gone or being deleted, for good. */
  lemma {:induction false} DeletionTakesEffect(cx: Context, spec: Spec, ls: seq<Label>, w: World)
    requires Run(cx, spec, ls, w) && UserDeletes in ls
    ensures w.hist != [] && (w.gone || Latest(w).deleting)
    decreases |ls|
  {
    var n := |ls| - 1;
    var before := LastStep(cx, Start(spec), ls, w);
    assert ls == ls[..n] + [ls[n]];
    if UserDeletes in ls[..n] {
      DeletionTakesEffect(cx, spec, ls[..n], before);
    }
    DeletionKept(cx, before, ls[n]);
  }

  /** Some event accounts for the workflow: it was seen in a phase, or the controller created it. */
  ghost predicate Accounted(cx: Context, hist: seq<Record>, events: seq<Event>, wf: string) {
    || (exists phase :: Reached(wf, phase) in events)
    || (exists e | e in events :: e.Created? && e.snap < |hist| && FormattedName(cx, hist[e.snap].spec, e.step) == wf)
  }

  lemma AccountedStays(cx: Context, hist: seq<Record>, r: Option<Record>, events: seq<Event>, e: Option<Event>, wf: string)
    requires Accounted(cx, hist, events, wf)
    ensures Accounted(cx, Append(hist, r), Append(events, e), wf)
  {
    if phase :| Reached(wf, phase) in events {
      assert Reached(wf, phase) in Append(events, e);
    } else {
      var x :| x in events && x.Created? && x.snap < |hist| && FormattedName(cx, hist[x.snap].spec, x.step) == wf;
      assert x in Append(events, e) && Append(hist, r)[x.snap] == hist[x.snap];
    }
  }

  /** A workflow that a step brings to life is on record with it. */
  lemma NewlyAccounted(cx: Context, w: World, l: Label, wf: string)
    requires WellFormed(w) && Enabled(cx, w, l) && wf in WfsAfter(cx, w, l) && wf !in w.wfs
    ensures var ch := ChangeOf(cx, w, l); Accounted(cx, Append(w.hist, ch.stored), Append(w.events, ch.noted), wf)
  {
    var ch := ChangeOf(cx, w, l);
    assert Append(w.events, ch.noted)[|w.events|] == ch.noted.value;
    if l.AddonSteps? {
      assert Append(w.hist, ch.stored)[w.calls[l.call].snap] == w.hist[w.calls[l.call].snap];
    }
  }

  /** In every run each live workflow is accounted for. */
  lemma {:induction false} WorkflowsAreAccountedFor(cx: Context, spec: Spec, ls: seq<Label>, w: World)
    requires Run(cx, spec, ls, w)
    ensures forall wf | wf in w.wfs :: Accounted(cx, w.hist, w.events, wf)
    decreases |ls|
  {
    if ls != [] {
      var n := |ls| - 1;
      var before := LastStep(cx, Start(spec), ls, w);
      var ch := ChangeOf(cx, before, ls[n]);
      WorkflowsAreAccountedFor(cx, spec, ls[..n], before);
      forall wf | wf in w.wfs ensures Accounted(cx, w.hist, w.events, wf) {
        if wf in before.wfs {
          AccountedStays(cx, before.hist, ch.stored, before.events, ch.noted, wf);
        } else {
          NewlyAccounted(cx, before, ls[n], wf);
        }
      }
    }
  }
}
