/** What failed prerequisites leave behind, over every run: the install has failed with them, and the
    addon controller, which records that a second time, changes nothing by it. */
module Failures {
  import opened AddonTypes
  import opened Reconciler
  import opened Updater
  import opened Protocol
  import opened Evidence

  /** Where the prerequisites have failed, the install is over. */
  predicate Settled(st: Status) { st.prereqs.IsFailed() ==> st.installed.IsCompleted() }

  predicate PointSettled(r: Record, at: Point, st: Status) {
    match at
    case Begin => st == r.status
    case ListOld => st.prereqs == r.status.prereqs && st.installed == r.status.installed
    case Validating | AddFinalizer => !st.prereqs.IsFailed() && !r.status.prereqs.IsFailed()
    case Observe | Write => Settled(st)
    case AfterWf(Prereqs) => st.prereqs.IsFailed() ==> st.installed == Failed && st.reason == ""
    case RunWf(Delete) | SubmitWf(Delete) | FetchWf(Delete) | AfterWf(Delete) | RemoveFinalizer | Stop => true
    case _ => !st.prereqs.IsFailed()
  }

  predicate CallSettled(hist: seq<Record>, p: Call) {
    && p.snap < |hist|
    && match p
       case Updating(snap, st, _) => hist[snap].deleting || Settled(st)
       case Reconciling(snap, at, st, _) =>
         if hist[snap].deleting then at == Begin || DeletePoint(at) else PointSettled(hist[snap], at, st)
  }

  /** Deletion is for good. */
  ghost predicate StaysDeleting(hist: seq<Record>) {
    forall i, j | 0 <= i <= j < |hist| && hist[i].deleting :: hist[j].deleting
  }

  ghost predicate SettledInv(w: World) {
    && WellFormed(w) && StaysDeleting(w.hist)
    && (forall n | 0 <= n < |w.hist| :: w.hist[n].deleting || Settled(w.hist[n].status))
    && (forall c | c in w.calls :: CallSettled(w.hist, w.calls[c]))
  }

  lemma PointAfter(cx: Context, r: Record, at: Point, st: Status, rp: Replies)
    requires !r.deleting && PointSettled(r, at, st) && Settled(r.status)
    ensures var (at', st') := Advance(cx, r, at, st, rp); PointSettled(r, at', st')
  {
  }

  lemma DeletingAfter(cx: Context, r: Record, at: Point, st: Status, rp: Replies)
    requires r.deleting && (at == Begin || DeletePoint(at))
    ensures var at' := Advance(cx, r, at, st, rp).0; at' == Write || DeletePoint(at')
  {
  }

  lemma NextSettled(cx: Context, hist: seq<Record>, p: Call, rp: Replies)
    requires p.Reconciling? && CallSettled(hist, p) && (hist[p.snap].deleting || Settled(hist[p.snap].status))
    ensures NextCall(cx, hist[p.snap], p, rp).Some? ==> CallSettled(hist, NextCall(cx, hist[p.snap], p, rp).value)
  {
    if hist[p.snap].deleting {
      DeletingAfter(cx, hist[p.snap], p.at, p.st, rp);
    } else {
      PointAfter(cx, hist[p.snap], p.at, p.st, rp);
    }
  }

  lemma WorkflowSettled(cx: Context, r: Record, wf: string, phase: WfPhase, message: string)
    requires Settled(r.status) && FromWorkflow(cx, r, wf, phase, message).Some?
    ensures Settled(FromWorkflow(cx, r, wf, phase, message).value)
  {
  }

  lemma MovedSettled(cx: Context, w: World, l: Label)
    requires SettledInv(w) && Enabled(cx, w, l)
    ensures var ch := ChangeOf(cx, w, l); ch.call.Some? ==> CallSettled(w.hist, ch.call.value)
  {
    match l
    case AddonSteps(c, rp, _) => NextSettled(cx, w.hist, w.calls[c], rp);
    case WorkflowReads(snap, wf, phase, message) =>
      if !w.hist[snap].deleting && FromWorkflow(cx, w.hist[snap], wf, phase, message).Some? {
        WorkflowSettled(cx, w.hist[snap], wf, phase, message);
      }
    case _ =>
  }

  /** Nothing that is stored takes a deletion back. */
  lemma StoredDeleting(cx: Context, w: World, l: Label)
    requires WellFormed(w) && Enabled(cx, w, l) && ChangeOf(cx, w, l).stored.Some?
    ensures Latest(w).deleting ==> ChangeOf(cx, w, l).stored.value.deleting
  {
  }

  lemma StoredSettled(cx: Context, w: World, l: Label)
    requires SettledInv(w) && Enabled(cx, w, l) && ChangeOf(cx, w, l).stored.Some?
    ensures var r := ChangeOf(cx, w, l).stored.value; r.deleting || Settled(r.status)
  {
    StoredStatus(cx, w, l);
    StoredDeleting(cx, w, l);
    if l.Puts? {
      assert CallSettled(w.hist, w.calls[l.call]);
    }
  }

  lemma SettledGrows(hist: seq<Record>, calls: map<nat, Call>, ch: Change)
    requires StaysDeleting(hist) && hist != []
    requires ch.stored.Some? && hist[|hist| - 1].deleting ==> ch.stored.value.deleting
    requires forall c | c in calls :: CallSettled(hist, calls[c])
    requires ch.call.Some? ==> CallSettled(hist, ch.call.value)
    ensures var hist', calls' := Append(hist, ch.stored), CallsAfter(calls, ch);
            StaysDeleting(hist') && forall c | c in calls' :: CallSettled(hist', calls'[c])
  {
    var hist', calls' := Append(hist, ch.stored), CallsAfter(calls, ch);
    forall c | c in calls' ensures CallSettled(hist', calls'[c]) {
      assert CallSettled(hist, calls'[c]);
      assert hist'[calls'[c].snap] == hist[calls'[c].snap];
    }
  }

  lemma SettledStep(cx: Context, w: World, l: Label)
    requires SettledInv(w) && Enabled(cx, w, l)
    ensures SettledInv(Step(cx, w, l))
  {
    StepWellFormed(cx, w, l);
    MovedSettled(cx, w, l);
    if ChangeOf(cx, w, l).stored.Some? {
      StoredSettled(cx, w, l);
      StoredDeleting(cx, w, l);
    }
    SettledGrows(w.hist, w.calls, ChangeOf(cx, w, l));
  }

  lemma {:induction false} RunSettled(cx: Context, spec: Spec, ls: seq<Label>, w: World)
    requires Run(cx, spec, ls, w)
    ensures SettledInv(w)
    decreases |ls|
  {
    if ls != [] {
      var before := LastStep(cx, Start(spec), ls, w);
      RunSettled(cx, spec, ls[..|ls| - 1], before);
      SettledStep(cx, before, ls[|ls| - 1]);
    }
  }

  /** In every run, failed prerequisites stand beside an unfinished install only on versions that are
      being deleted; and when a reconcile comes to record the failure of the install a second time,
      it is recorded already, and there is no reason that could be lost. */
  lemma FailureIsRecordedOnce(cx: Context, spec: Spec, ls: seq<Label>, w: World)
    requires Run(cx, spec, ls, w)
    ensures forall n | 0 <= n < |w.hist| && w.hist[n].status.prereqs.IsFailed() && !w.hist[n].status.installed.IsCompleted() ::
              w.hist[n].deleting
    ensures forall c | c in w.calls && w.calls[c].Reconciling? && w.calls[c].at == AfterWf(Prereqs)
              && w.calls[c].st.prereqs.IsFailed() :: WithInstalled(w.calls[c].st, Failed, "") == w.calls[c].st
  {
    RunSettled(cx, spec, ls, w);
    forall c | c in w.calls && w.calls[c].Reconciling? && w.calls[c].at == AfterWf(Prereqs) && w.calls[c].st.prereqs.IsFailed()
      ensures WithInstalled(w.calls[c].st, Failed, "") == w.calls[c].st
    {
      assert CallSettled(w.hist, w.calls[c]);
    }
  }
}
