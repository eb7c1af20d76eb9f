/** Stale reads after a failed delete: a run that undoes it, and exactly which reads can. */
module StaleReads {
  import opened AddonTypes
  import opened WorkflowNames
  import opened Reconciler
  import opened Updater
  import opened Protocol
  import opened Traces
  import opened Undisturbed
  import opened Finality
  import opened Counterexamples

  // ---------------------------------------------------------------------------
  // A stale read undoes a failed delete.

  lemma NewCycle(cx: Context, r: Record, rp: Replies)
    requires !r.deleting && r.status.checksum != Checksum(cx, r.spec) && rp.listed
    ensures var res := Reconcile(cx, r, rp);
            && res.end == Write && res.status.checksum == Checksum(cx, r.spec) && res.status.installed == Pending
            && res.status.startTime == rp.now
  {
    var st := Outdated(cx, r);
    Unwind(cx, r, rp, Begin, r.status, ListOld, st);
    Unwind(cx, r, rp, ListOld, st, Write, Listed(st, rp));
  }

  lemma Expires(cx: Context, r: Record, rp: Replies)
    requires Validated(cx, r, rp) && FINALIZER !in r.finalizers && rp.now - r.status.startTime >= TTL
    ensures Reconcile(cx, r, rp).end == Write && Reconcile(cx, r, rp).status.installed == Failed
  {
    var st := r.status.(resources := []);
    Unwind(cx, r, rp, Begin, r.status, Validating, st);
    Unwind(cx, r, rp, Validating, st, AddFinalizer, st);
    Unwind(cx, r, rp, AddFinalizer, st, Deadline, r.status);
    Unwind(cx, r, rp, Deadline, r.status, Write, WithInstalled(r.status, Failed, "ttl expired"));
  }

  lemma StartsDeletion(cx: Context, r: Record, rp: Replies)
    requires r.deleting && !r.status.installed.IsDeleting()
    ensures Reconcile(cx, r, rp).end == Write && Reconcile(cx, r, rp).status.installed == Deleting
  {
    Unwind(cx, r, rp, Begin, r.status, Write, WithInstalled(r.status, Deleting, ""));
  }

  lemma Deletes(cx: Context, w0: World, ls: seq<Label>, w: World) returns (ls': seq<Label>)
    requires Leads(cx, w0, ls, w) && WellFormed(w) && !w.gone && Latest(w).finalizers != {}
    ensures Leads(cx, w0, ls', w.(hist := w.hist + [Latest(w).(deleting := true)]))
    ensures WellFormed(w.(hist := w.hist + [Latest(w).(deleting := true)]))
  {
    ls' := Extend(cx, w0, ls, w, UserDeletes, w.(hist := w.hist + [Latest(w).(deleting := true)]));
  }

  /** An addon is installed, with its finalizer, and then deleted, so that its phase is `Deleting`. */
  lemma ComesToDeleting(cx: Context, a: Spec) returns (ls: seq<Label>, w: World)
    ensures Leads(cx, Start(a), ls, w) && WellFormed(w) && !w.gone && Free(w, w.mutex) && w.calls == map[]
    ensures Latest(w).spec == a && Latest(w).deleting && Latest(w).status.installed == Deleting
    ensures FINALIZER in Latest(w).finalizers
  {
    var w0, rp := Start(a), SomeReplies(true);
    LeadsNowhere(cx, w0);
    ChecksumIsHex(cx, a);
    NewCycle(cx, Latest(w0), rp);
    ls, w := ReconcileLands(cx, w0, [], w0, rp);
    if FINALIZER !in Latest(w).finalizers {
      rp := rp.(updated := true, now := TTL);
      Expires(cx, Latest(w), rp);
      ls, w := ReconcileLands(cx, w0, ls, w, rp);
    }
    ls := Deletes(cx, w0, ls, w);
    w := w.(hist := w.hist + [Latest(w).(deleting := true)]);
    StartsDeletion(cx, Latest(w), rp);
    ls, w := ReconcileLands(cx, w0, ls, w, rp);
  }

  /** The workflow controller reads the phase of a delete workflow from the version `m`, and writes. */
  lemma DeleteReported(cx: Context, w0: World, ls: seq<Label>, w: World, m: nat, phase: WfPhase)
    returns (ls': seq<Label>, w': World)
    requires Leads(cx, w0, ls, w) && WellFormed(w) && !w.gone && Free(w, w.mutex) && m < |w.hist| && Terminal(phase)
    requires !w.hist[m].status.installed.IsCompleted()
    requires Reached(FormattedName(cx, w.hist[m].spec, Delete), phase) in w.events
    ensures Leads(cx, w0, ls', w') && WellFormed(w') && !w'.gone && Free(w', w'.mutex) && w'.calls == w.calls
    ensures w'.hist == w.hist + [Latest(w).(status := StepPhase(w.hist[m].status, Delete, phase))] && w.events <= w'.events
  {
    ls' := ReadsWorkflow(cx, w0, ls, w, m, Delete, phase);
    ls', w' := CallWrites(cx, w0, ls', w, m, StepPhase(w.hist[m].status, Delete, phase));
  }

  /** The delete workflow fails and later succeeds, and the failure has been written, from the version `m`. */
  lemma ComesToFailedDelete(cx: Context, a: Spec) returns (ls: seq<Label>, w: World, m: nat)
    ensures Leads(cx, Start(a), ls, w) && WellFormed(w) && !w.gone && Free(w, w.mutex) && w.calls == map[]
    ensures Latest(w).spec == a && Latest(w).deleting && Latest(w).status.installed == DeleteFailed
    ensures FINALIZER in Latest(w).finalizers
    ensures m < |w.hist| && w.hist[m].spec == a && w.hist[m].status.installed == Deleting
    ensures Reached(FormattedName(cx, a, Delete), WfSucceeded) in w.events
  {
    var w0, wf := Start(a), FormattedName(cx, a, Delete);
    ls, w := ComesToDeleting(cx, a);
    m := |w.hist| - 1;
    ls, w := ReachesTwice(cx, w0, ls, w, wf, WfFailed, WfSucceeded);
    ls, w := DeleteReported(cx, w0, ls, w, m, WfFailed);
  }

  /** A run after which a failed delete is on record and nothing is in flight, and which goes on, by
      one stale read of the workflow controller, to a delete that has succeeded. */
  lemma StaleReadUndoesFailedDelete(cx: Context, a: Spec) returns (ls: seq<Label>, w: World, ls': seq<Label>, w': World)
    requires a.delete.template != ""
    ensures Run(cx, a, ls, w) && WellFormed(w) && w.calls == map[]
    ensures Latest(w).spec == a && Latest(w).deleting && Latest(w).status.installed == DeleteFailed
    ensures FINALIZER in Latest(w).finalizers
    ensures Leads(cx, w, ls', w') && WellFormed(w') && Latest(w').status.installed == DeleteSucceeded
  {
    var m;
    ls, w, m := ComesToFailedDelete(cx, a);
    LeadsPlays(cx, Start(a), ls, w);
    LeadsNowhere(cx, w);
    ls', w' := DeleteReported(cx, w, [], w, m, WfSucceeded);
  }

  // ---------------------------------------------------------------------------
  // Exactly which reads can undo a failed delete.

  predicate IsRead(l: Label) { l.AddonReads? || l.WorkflowReads? || l.UserEdits? }

  /** The steps start with the read `l`, and no other read and no edit follows. */
  predicate OneRead(ls: seq<Label>, l: Label) {
    ls != [] && ls[0] == l && forall i | 0 < i < |ls| :: !IsRead(ls[i])
  }

  /** A call that is about to write puts its status on record. */
  lemma LandsAfterRead(cx: Context, ls: seq<Label>, w: World, snap: nat, st: Status, l: Label)
    returns (ls': seq<Label>, w': World)
    requires DeleteFailedOnRecord(w) && !w.gone && snap < |w.hist| && !GuardFires(Latest(w).status, st)
    requires Leads(cx, w, ls, WithCall(w, Updating(snap, st, Queued))) && OneRead(ls, l)
    ensures Leads(cx, w, ls', w') && OneRead(ls', l) && WellFormed(w') && Latest(w').status == st
  {
    var w1, c := WithCall(w, Updating(snap, st, Queued)), w.next;
    ThenWrites(cx, w, ls, w1, c);
    ls' := ls + [LooksUp(c)] + [Locks(c)] + [Gets(c, |w.hist| - 1)] + [Puts(c)] + [Caches(c)];
    w' := Written(w1, c);
  }

  /** Answers by which a read that is not quiet comes to a write that has an effect. */
  function LoudReplies(cx: Context, current: Status, r: Record): Replies {
    var rp := SomeReplies(Checksum(cx, r.spec) != current.checksum);
    if r.status.checksum != current.checksum then rp.(verdict := Invalid(""))
    else rp.(now := r.status.startTime + TTL)
  }

  lemma LoudReconcile(cx: Context, current: Status, r: Record)
    requires current.installed == DeleteFailed && !QuietForAddon(cx, current, r)
    ensures var rp := LoudReplies(cx, current, r);
            PlainPath(cx, r, Begin, r.status, rp) && !NoEffect(current, Reconcile(cx, r, rp).status)
  {
    var rp := LoudReplies(cx, current, r);
    var (at, st) := Advance(cx, r, Begin, r.status, rp);
    Unwind(cx, r, rp, Begin, r.status, at, st);
    if at == ListOld {
      Unwind(cx, r, rp, at, st, Write, Listed(st, rp));
    } else if at == Validating {
      LoudValidation(cx, current, r, st);
    }
  }

  lemma LoudValidation(cx: Context, current: Status, r: Record, st: Status)
    requires current.installed == DeleteFailed && st == r.status.(resources := []) && !st.installed.IsCompleted()
    requires st.checksum == current.checksum ==> FINALIZER in r.finalizers || !st.installed.IsRunning()
    ensures var rp := LoudReplies(cx, current, r);
            PlainPath(cx, r, Validating, st, rp) && !NoEffect(current, Drive(cx, r, Validating, st, rp).status)
  {
    var rp := LoudReplies(cx, current, r);
    var (at, st') := Advance(cx, r, Validating, st, rp);
    Unwind(cx, r, rp, Validating, st, at, st');
    if at != Write {
      var (at2, st2) := Advance(cx, r, at, st', rp);
      Unwind(cx, r, rp, at, st', at2, st2);
    }
  }

  lemma LoudAddonRead(cx: Context, w: World, snap: nat) returns (ls: seq<Label>, w': World)
    requires DeleteFailedOnRecord(w) && !w.gone && snap < |w.hist| && !QuietForAddon(cx, Latest(w).status, w.hist[snap])
    ensures Leads(cx, w, ls, w') && OneRead(ls, AddonReads(snap)) && WellFormed(w') && Latest(w').status != Latest(w).status
  {
    var rp := LoudReplies(cx, Latest(w).status, w.hist[snap]);
    LoudReconcile(cx, Latest(w).status, w.hist[snap]);
    LeadsNowhere(cx, w);
    ls := ReadsPlain(cx, w, [], w, snap, rp);
    ls, w' := LandsAfterRead(cx, ls, w, snap, Reconcile(cx, w.hist[snap], rp).status, AddonReads(snap));
  }

  lemma QuietAfterRead(cx: Context, w: World, ls: seq<Label>, w': World, l: Label)
    requires DeleteFailedOnRecord(w) && Leads(cx, w, ls, w') && OneRead(ls, l) && QuietStep(cx, l, w.hist, |w.hist| - 1)
    ensures WellFormed(w') && Latest(w').status == Latest(w).status
  {
    LeadsPlays(cx, w, ls, w');
    DeleteFailedIsFinal(cx, w, ls, w');
    assert Alike(Latest(w'), Latest(w));
  }

  /** With a failed delete on record and nothing in flight, one read of a version by the addon
      controller can lead to another status exactly when the version is not quiet for it. */
  lemma AddonReadUndoesExactly(cx: Context, w: World, snap: nat)
    requires DeleteFailedOnRecord(w) && !w.gone && snap < |w.hist|
    ensures (exists ls, w' :: && Leads(cx, w, ls, w') && OneRead(ls, AddonReads(snap))
                              && WellFormed(w') && Latest(w').status != Latest(w).status)
            <==> !QuietForAddon(cx, Latest(w).status, w.hist[snap])
  {
    if !QuietForAddon(cx, Latest(w).status, w.hist[snap]) {
      var ls, w' := LoudAddonRead(cx, w, snap);
    } else {
      forall ls, w' | Leads(cx, w, ls, w') && OneRead(ls, AddonReads(snap))
        ensures WellFormed(w') && Latest(w').status == Latest(w).status
      {
        QuietAfterRead(cx, w, ls, w', AddonReads(snap));
      }
    }
  }

  lemma LoudWorkflowRead(cx: Context, w: World, snap: nat, wf: string, phase: WfPhase, message: string)
    returns (ls: seq<Label>, w': World)
    requires DeleteFailedOnRecord(w) && !w.gone && snap < |w.hist| && Reached(wf, phase) in w.events
    requires !QuietForWorkflow(cx, Latest(w).status, w.hist[snap], wf, phase, message)
    ensures Leads(cx, w, ls, w') && OneRead(ls, WorkflowReads(snap, wf, phase, message))
    ensures WellFormed(w') && Latest(w').status != Latest(w).status
  {
    var l, st := WorkflowReads(snap, wf, phase, message), FromWorkflow(cx, w.hist[snap], wf, phase, message).value;
    LeadsNowhere(cx, w);
    ThenHears(cx, w, [], w, snap, wf, phase, message, st);
    ls, w' := LandsAfterRead(cx, [] + [l], w, snap, st, l);
  }

  /** And one read by the workflow controller can do so exactly when the version is not quiet for the
      workflow and the phase it reads. */
  lemma WorkflowReadUndoesExactly(cx: Context, w: World, snap: nat, wf: string, phase: WfPhase, message: string)
    requires DeleteFailedOnRecord(w) && !w.gone && snap < |w.hist| && Reached(wf, phase) in w.events
    ensures (exists ls, w' :: && Leads(cx, w, ls, w') && OneRead(ls, WorkflowReads(snap, wf, phase, message))
                              && WellFormed(w') && Latest(w').status != Latest(w).status)
            <==> !QuietForWorkflow(cx, Latest(w).status, w.hist[snap], wf, phase, message)
  {
    if !QuietForWorkflow(cx, Latest(w).status, w.hist[snap], wf, phase, message) {
      var ls, w' := LoudWorkflowRead(cx, w, snap, wf, phase, message);
    } else {
      forall ls, w' | Leads(cx, w, ls, w') && OneRead(ls, WorkflowReads(snap, wf, phase, message))
        ensures WellFormed(w') && Latest(w').status == Latest(w).status
      {
        QuietAfterRead(cx, w, ls, w', WorkflowReads(snap, wf, phase, message));
      }
    }
  }
}
