/** An addon whose delete workflow has succeeded is let go: the reconcile that does it, as a run of the
    protocol. */
module Deletion {
  import opened AddonTypes
  import opened WorkflowNames
  import opened Reconciler
  import opened Protocol
  import opened Evidence
  import opened Traces
  import opened Undisturbed
  import opened Outcomes

  /** From this point the reconcile asks for the finalizer to go. */
  ghost predicate WillLetGo(cx: Context, r: Record, at: Point, st: Status, rp: Replies) {
    RemoveFinalizer in Drive(cx, r, at, st, rp).calls
  }

  /** The call `c` reconciles the current version `r`, which is being deleted, undisturbed. */
  ghost predicate OnDeletion(cx: Context, w: World, c: nat, r: Record, rp: Replies) {
    && WellFormed(w) && !w.gone && Latest(w) == r && Mirrors(cx, w.wfs, r.spec, rp)
    && c in w.calls && w.calls[c].Reconciling? && w.calls[c].snap + 1 == |w.hist|
    && var p := w.calls[c];
       && (p.at == Begin || (DeletePoint(p.at) && p.at != Stop))
       && (p.at.FetchWf? ==> FormattedName(cx, r.spec, Delete) in w.wfs)
       && (p.at == RemoveFinalizer && r.spec.delete.template != "" ==> SpecKey(r.spec) !in w.cache)
  }

  /** The next point on the way. */
  ghost predicate NextOnWay(cx: Context, r: Record, rp: Replies, at: Point, at': Point) {
    && DeletePoint(at') && at' != Stop && Rank(at') < Rank(at)
    && (at'.FetchWf? ==> at == SubmitWf(Delete) && Delete in rp.submitted)
    && (at' == RemoveFinalizer && r.spec.delete.template != "" ==> at == AfterWf(Delete))
  }

  lemma {:induction false} DeletionAdvances(cx: Context, r: Record, at: Point, st: Status, rp: Replies)
    requires r.deleting && (at == Begin || (DeletePoint(at) && at != Stop)) && at != RemoveFinalizer
    ensures var at' := Advance(cx, r, at, st, rp).0; Ended(at') || NextOnWay(cx, r, rp, at, at')
  {
  }

  /** Where the reconcile goes next on its way. */
  lemma {:induction false} DeletionGoesOn(cx: Context, r: Record, at: Point, st: Status, rp: Replies)
    requires r.deleting && (at == Begin || (DeletePoint(at) && at != Stop)) && at != RemoveFinalizer
    requires WillLetGo(cx, r, at, st, rp)
    ensures var (at', st') := Advance(cx, r, at, st, rp); NextOnWay(cx, r, rp, at, at') && WillLetGo(cx, r, at', st', rp)
  {
    var (at', st') := Advance(cx, r, at, st, rp);
    DriveOnce(cx, r, at, st, rp, at', st');
    DeletionAdvances(cx, r, at, st, rp);
  }

  lemma {:induction false} DeletionStep(cx: Context, w: World, c: nat, r: Record, rp: Replies)
    requires OnDeletion(cx, w, c, r, rp) && r.deleting && w.calls[c].at != RemoveFinalizer
    requires NextOnWay(cx, r, rp, w.calls[c].at, Advance(cx, r, w.calls[c].at, w.calls[c].st, rp).0)
    ensures Enabled(cx, w, Next(c, rp))
    ensures var w' := Step(cx, w, Next(c, rp)); var p := w.calls[c]; var (at', st') := Advance(cx, r, p.at, p.st, rp);
            && w'.hist == w.hist && w'.gone == w.gone
            && w'.calls == w.calls[c := Reconciling(p.snap, at', st', p.secrets)]
            && (p.at == AfterWf(Delete) ==> SpecKey(r.spec) !in w'.cache)
            && w'.wfs == if Creates(cx, w, p, rp) then w.wfs[FormattedName(cx, r.spec, p.at.step) := WfUnknown] else w.wfs
  {
  }

  /** What the step leaves is what the next point needs. */
  lemma {:induction false} StillOnDeletion(cx: Context, w: World, w': World, c: nat, r: Record, rp: Replies, at': Point, st': Status)
    requires OnDeletion(cx, w, c, r, rp) && WellFormed(w') && NextOnWay(cx, r, rp, w.calls[c].at, at')
    requires w'.hist == w.hist && w'.gone == w.gone && c in w'.calls && w'.calls[c].Reconciling?
    requires w'.calls[c].snap == w.calls[c].snap && w'.calls[c].at == at' && w'.calls[c].st == st'
    requires w.calls[c].at == AfterWf(Delete) ==> SpecKey(r.spec) !in w'.cache
    requires w'.wfs == if Creates(cx, w, w.calls[c], rp)
                       then w.wfs[FormattedName(cx, r.spec, w.calls[c].at.step) := WfUnknown] else w.wfs
    ensures OnDeletion(cx, w', c, r, rp)
  {
    if Creates(cx, w, w.calls[c], rp) { MirrorsMore(cx, w.wfs, r.spec, rp, w.calls[c].at.step); }
  }

  lemma {:induction false} StaysOnDeletion(cx: Context, w: World, c: nat, r: Record, rp: Replies)
    requires OnDeletion(cx, w, c, r, rp) && r.deleting && w.calls[c].at != RemoveFinalizer
    requires WillLetGo(cx, r, w.calls[c].at, w.calls[c].st, rp)
    ensures Enabled(cx, w, Next(c, rp))
    ensures var w' := Step(cx, w, Next(c, rp));
            && OnDeletion(cx, w', c, r, rp) && w'.hist == w.hist && Rank(w'.calls[c].at) < Rank(w.calls[c].at)
            && WillLetGo(cx, r, w'.calls[c].at, w'.calls[c].st, rp)
  {
    var p := w.calls[c];
    var (at', st') := Advance(cx, r, p.at, p.st, rp);
    DeletionGoesOn(cx, r, p.at, p.st, rp);
    DeletionStep(cx, w, c, r, rp);
    StepWellFormed(cx, w, Next(c, rp));
    StillOnDeletion(cx, w, Step(cx, w, Next(c, rp)), c, r, rp, at', st');
  }

  /** The last step: the finalizer goes, and the addon with it unless it has another. */
  lemma {:induction false} LastDeletionStep(cx: Context, w: World, c: nat, r: Record, rp: Replies)
    requires OnDeletion(cx, w, c, r, rp) && r.deleting && w.calls[c].at == RemoveFinalizer && rp.updated
    ensures Enabled(cx, w, Next(c, rp))
    ensures var w' := Step(cx, w, Next(c, rp));
            && w'.hist == w.hist + [r.(finalizers := r.finalizers - {FINALIZER})]
            && w'.gone == (r.finalizers <= {FINALIZER}) && SpecKey(r.spec) !in w'.cache
  {
  }

  lemma {:induction false} DeletionRuns(cx: Context, w0: World, ls: seq<Label>, w: World, c: nat, r: Record, rp: Replies)
    returns (ls': seq<Label>, w': World)
    requires Leads(cx, w0, ls, w) && OnDeletion(cx, w, c, r, rp) && r.deleting && rp.updated && AllOwn(ls)
    requires WillLetGo(cx, r, w.calls[c].at, w.calls[c].st, rp)
    ensures Leads(cx, w0, ls', w') && AllOwn(ls')
    ensures w'.hist == w.hist + [r.(finalizers := r.finalizers - {FINALIZER})] && w'.gone == (r.finalizers <= {FINALIZER})
    ensures SpecKey(r.spec) !in w'.cache
    decreases Rank(w.calls[c].at)
  {
    ls' := ls + [Next(c, rp)];
    if w.calls[c].at == RemoveFinalizer {
      LastDeletionStep(cx, w, c, r, rp);
      w' := Step(cx, w, Next(c, rp));
      LeadsMore(cx, w0, ls, w, Next(c, rp), w');
    } else {
      StaysOnDeletion(cx, w, c, r, rp);
      var w1 := Step(cx, w, Next(c, rp));
      LeadsMore(cx, w0, ls, w, Next(c, rp), w1);
      ls', w' := DeletionRuns(cx, w0, ls', w1, c, r, rp);
    }
  }

  /** The delete workflow of the current spec is not needed, or is over and a success. */
  predicate DeleteDone(cx: Context, w: World)
    requires w.hist != []
  {
    var r := Latest(w);
    || r.spec.delete.template == "" || r.status.installed == DeleteSucceeded
    || (r.status.installed == Deleting && PhaseNow(cx, w.wfs, r.spec, Delete) == WfSucceeded)
  }

  /** The answers of a cluster in which every call works. */
  function DeletionReplies(cx: Context, w: World): Replies
    requires w.hist != []
  {
    Replies(true, Valid, true, 0, {Prereqs, Install, Delete, Validate},
            map[Delete := PhaseNow(cx, w.wfs, Latest(w).spec, Delete)], None, None)
  }

  lemma {:induction false} AsksExactly(cx: Context, w: World)
    requires w.hist != [] && Latest(w).deleting && Latest(w).status.installed in {Deleting, DeleteFailed, DeleteSucceeded}
    ensures RemoveFinalizer in Reconcile(cx, Latest(w), DeletionReplies(cx, w)).calls <==> DeleteDone(cx, w)
  {
    DeletionOutcome(cx, Latest(w), DeletionReplies(cx, w));
  }

  lemma {:induction false} StartsOnDeletion(cx: Context, w: World, rp: Replies)
    requires WellFormed(w) && !w.gone && Mirrors(cx, w.wfs, Latest(w).spec, rp)
    ensures OnDeletion(cx, WithCall(w, Reconciling(|w.hist| - 1, Begin, Latest(w).status, None)), w.next, Latest(w), rp)
  {
  }

  lemma {:induction false} RepliesMirror(cx: Context, w: World)
    requires w.hist != []
    ensures Mirrors(cx, w.wfs, Latest(w).spec, DeletionReplies(cx, w)) && DeletionReplies(cx, w).updated
  {
  }

  lemma {:induction false} LetsGoUndisturbed(cx: Context, w: World, rp: Replies) returns (ls: seq<Label>, w': World)
    requires WellFormed(w) && !w.gone && Latest(w).deleting && Mirrors(cx, w.wfs, Latest(w).spec, rp) && rp.updated
    requires RemoveFinalizer in Reconcile(cx, Latest(w), rp).calls
    ensures Leads(cx, w, ls, w') && AllOwn(ls)
    ensures w'.hist == w.hist + [Latest(w).(finalizers := Latest(w).finalizers - {FINALIZER})]
    ensures w'.gone == (Latest(w).finalizers <= {FINALIZER}) && SpecKey(Latest(w).spec) !in w'.cache
  {
    StartsOnDeletion(cx, w, rp);
    LeadsNowhere(cx, w);
    ThenReads(cx, w, [], w, |w.hist| - 1);
    ls, w' := DeletionRuns(cx, w, [] + [AddonReads(|w.hist| - 1)],
                           WithCall(w, Reconciling(|w.hist| - 1, Begin, Latest(w).status, None)), w.next, Latest(w), rp);
  }

  /** From any world in which the current version is being deleted and says so, one reconcile in a
      cluster in which every call works asks for the finalizer to go exactly when the delete workflow
      is not needed or has succeeded; and then, undisturbed, it takes the addon out of the cache and the
      finalizer off the record, and the addon goes unless somebody else holds on to it. */
  lemma {:induction false} AddonIsLetGo(cx: Context, w: World) returns (ls: seq<Label>, w': World)
    requires WellFormed(w) && !w.gone && Latest(w).deleting
    requires Latest(w).status.installed in {Deleting, DeleteFailed, DeleteSucceeded}
    ensures RemoveFinalizer in Reconcile(cx, Latest(w), DeletionReplies(cx, w)).calls <==> DeleteDone(cx, w)
    ensures DeleteDone(cx, w) ==>
              && Leads(cx, w, ls, w') && AllOwn(ls)
              && w'.hist == w.hist + [Latest(w).(finalizers := Latest(w).finalizers - {"delete.addonmgr.keikoproj.io"})]
              && (w'.gone <==> Latest(w).finalizers <= {"delete.addonmgr.keikoproj.io"})
              && (Latest(w).spec.pkg.name, Latest(w).spec.pkg.version) !in w'.cache
  {
    AsksExactly(cx, w);
    RepliesMirror(cx, w);
    ls, w' := [], w;
    if DeleteDone(cx, w) {
      ls, w' := LetsGoUndisturbed(cx, w, DeletionReplies(cx, w));
    }
  }
}
