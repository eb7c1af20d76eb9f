/** What holds in every run without any hypothesis: which writes land, what a recorded success goes
    back to, and when the finalizer is let go. */
module Safety {
  import opened AddonTypes
  import opened WorkflowNames
  import opened Reconciler
  import opened Updater
  import opened Protocol
  import opened Evidence

  // ---------------------------------------------------------------------------
  // The invariant.

  /** Some version up to `snap` had a spec whose workflow for `step` succeeded. */
  ghost predicate Ran(cx: Context, hist: seq<Record>, events: seq<Event>, snap: nat, step: LifecycleStep) {
    exists i | 0 <= i <= snap && i < |hist| :: Reached(FormattedName(cx, hist[i].spec, step), WfSucceeded) in events
  }

  /** Some version up to `snap` had a spec for which `step` is done. */
  ghost predicate WasDone(cx: Context, hist: seq<Record>, events: seq<Event>, snap: nat, step: LifecycleStep) {
    exists i | 0 <= i <= snap && i < |hist| :: Done(cx, events, hist[i].spec, step)
  }

  /** Every success in a status goes back to a spec the addon had. */
  ghost predicate Backed(cx: Context, hist: seq<Record>, events: seq<Event>, snap: nat, st: Status) {
    && (st.prereqs.IsSucceeded() ==> WasDone(cx, hist, events, snap, Prereqs))
    && (st.installed == Succeeded ==> WasDone(cx, hist, events, snap, Install))
    && (st.installed == DeleteSucceeded ==> Ran(cx, hist, events, snap, Delete))
  }

  ghost predicate DeleteOk(cx: Context, hist: seq<Record>, events: seq<Event>, snap: nat, at: Point, st: Status)
    requires snap < |hist|
  {
    var r := hist[snap];
    DeletePoint(at) && at != Stop ==>
      && r.deleting && r.status.installed.IsDeleting() && st.installed.IsDeleting()
      && (at != RemoveFinalizer ==> r.spec.delete.template != "")
      && (at == RemoveFinalizer ==> r.spec.delete.template == "" || Ran(cx, hist, events, snap, Delete))
  }

  ghost predicate CallSafe(cx: Context, hist: seq<Record>, events: seq<Event>, p: Call) {
    && p.snap < |hist| && Backed(cx, hist, events, p.snap, p.st)
    && match p
       case Updating(snap, st, stage) =>
         && Follows(hist[snap].status, st)
         && (stage.Got? ==> stage.version < |hist| && !GuardFires(hist[stage.version].status, st))
       case Reconciling(snap, at, st, _) =>
         && Unguarded(cx, hist[snap], at, st) && DeleteOk(cx, hist, events, snap, at, st)
  }

  /** What may happen from one version to the next. */
  ghost predicate Lawful(cx: Context, hist: seq<Record>, events: seq<Event>, n: nat)
    requires 0 < n < |hist|
  {
    var a, b := hist[n - 1], hist[n];
    && (a.status != b.status ==>
          && b == a.(status := b.status) && !GuardFires(a.status, b.status) && exists c, snap :: Wrote(c, n, snap) in events)
    && (a.deleting ==> b.deleting)
    && (FINALIZER in a.finalizers && FINALIZER !in b.finalizers ==>
          && a.deleting && a.status.installed.IsDeleting() && b == a.(finalizers := a.finalizers - {FINALIZER})
          && (a.spec.delete.template == "" || Ran(cx, hist, events, n - 1, Delete)))
  }

  ghost predicate EventSafe(cx: Context, hist: seq<Record>, e: Event) {
    match e
    case Created(step, snap, _) =>
      step == Delete ==> snap < |hist| && hist[snap].deleting && hist[snap].status.installed.IsDeleting()
    case Wrote(_, n, snap) =>
      snap < n < |hist| && !GuardFires(hist[n - 1].status, hist[n].status) && Follows(hist[snap].status, hist[n].status)
    case Reached(_, _) => true
  }

  /** Who has written: each call once at most, and a call that may still write has not. */
  ghost predicate WritesOnce(events: seq<Event>, calls: map<nat, Call>, next: nat) {
    && (forall i, j | 0 <= i < j < |events| && events[i].Wrote? && events[j].Wrote? :: events[i].call != events[j].call)
    && (forall i | 0 <= i < |events| && events[i].Wrote? ::
          events[i].call < next && (events[i].call in calls ==> InPut(calls[events[i].call])))
  }

  predicate InPut(p: Call) { p.Updating? && p.stage.Put? }

  ghost predicate SafeInv(cx: Context, w: World) {
    && WellFormed(w) && Logged(w)
    && (forall n: nat | n < |w.hist| :: Backed(cx, w.hist, w.events, n, w.hist[n].status))
    && (forall n: nat | 0 < n < |w.hist| :: Lawful(cx, w.hist, w.events, n))
    && (forall c | c in w.calls :: CallSafe(cx, w.hist, w.events, w.calls[c]))
    && (forall e | e in w.events :: EventSafe(cx, w.hist, e))
  }

  // ---------------------------------------------------------------------------
  // What is on record stays so.

  lemma RanStays(cx: Context, hist: seq<Record>, r: Option<Record>, events: seq<Event>, e: Option<Event>,
                 snap: nat, later: nat, step: LifecycleStep)
    requires Ran(cx, hist, events, snap, step) && snap <= later
    ensures Ran(cx, Append(hist, r), Append(events, e), later, step)
  {
    var i :| 0 <= i <= snap && i < |hist| && Reached(FormattedName(cx, hist[i].spec, step), WfSucceeded) in events;
    assert Append(hist, r)[i] == hist[i];
  }

  lemma WasDoneStays(cx: Context, hist: seq<Record>, r: Option<Record>, events: seq<Event>, e: Option<Event>,
                     snap: nat, later: nat, step: LifecycleStep)
    requires WasDone(cx, hist, events, snap, step) && snap <= later
    ensures WasDone(cx, Append(hist, r), Append(events, e), later, step)
  {
    var i :| 0 <= i <= snap && i < |hist| && Done(cx, events, hist[i].spec, step);
    assert Append(hist, r)[i] == hist[i];
    DoneStays(cx, events, e, hist[i].spec, step);
  }

  lemma BackedStays(cx: Context, hist: seq<Record>, r: Option<Record>, events: seq<Event>, e: Option<Event>,
                    snap: nat, later: nat, st: Status)
    requires Backed(cx, hist, events, snap, st) && snap <= later
    ensures Backed(cx, Append(hist, r), Append(events, e), later, st)
  {
    if st.prereqs.IsSucceeded() { WasDoneStays(cx, hist, r, events, e, snap, later, Prereqs); }
    if st.installed == Succeeded { WasDoneStays(cx, hist, r, events, e, snap, later, Install); }
    if st.installed == DeleteSucceeded { RanStays(cx, hist, r, events, e, snap, later, Delete); }
  }

  lemma CallSafeStays(cx: Context, hist: seq<Record>, r: Option<Record>, events: seq<Event>, e: Option<Event>, p: Call)
    requires CallSafe(cx, hist, events, p)
    ensures CallSafe(cx, Append(hist, r), Append(events, e), p)
  {
    BackedStays(cx, hist, r, events, e, p.snap, p.snap, p.st);
    if Ran(cx, hist, events, p.snap, Delete) {
      RanStays(cx, hist, r, events, e, p.snap, p.snap, Delete);
    }
  }

  lemma LawfulStays(cx: Context, hist: seq<Record>, r: Option<Record>, events: seq<Event>, e: Option<Event>, n: nat)
    requires 0 < n < |hist| && Lawful(cx, hist, events, n)
    ensures Lawful(cx, Append(hist, r), Append(events, e), n)
  {
    if Ran(cx, hist, events, n - 1, Delete) {
      RanStays(cx, hist, r, events, e, n - 1, n - 1, Delete);
    }
  }

  // ---------------------------------------------------------------------------
  // Every step of a reconcile is safe.

  lemma StepBacked(cx: Context, hist: seq<Record>, events: seq<Event>, snap: nat, st: Status,
                   step: LifecycleStep, phase: WfPhase, reason: string)
    requires snap < |hist| && Backed(cx, hist, events, snap, st) && phase != WfUnknown
    requires phase == WfSucceeded ==> Reached(FormattedName(cx, hist[snap].spec, step), WfSucceeded) in events
    ensures Backed(cx, hist, events, snap, WithStep(st, step, ConvertPhase(step, phase), reason))
    ensures phase == WfSucceeded ==> Ran(cx, hist, events, snap, step)
  {
    StepOutcome(st, step, phase, reason);
    if phase == WfSucceeded {
      assert Done(cx, events, hist[snap].spec, step);
    }
  }

  lemma EmptyBacked(cx: Context, hist: seq<Record>, events: seq<Event>, snap: nat, st: Status, step: LifecycleStep)
    requires snap < |hist| && Backed(cx, hist, events, snap, st) && step != Delete
    requires hist[snap].spec.Workflow(step).template == ""
    ensures Backed(cx, hist, events, snap, WithStep(st, step, Succeeded, ""))
  {
    assert Done(cx, events, hist[snap].spec, step);
  }

  lemma AdvanceBacked(cx: Context, hist: seq<Record>, events: seq<Event>, p: Call, rp: Replies)
    requires p.Reconciling? && CallSafe(cx, hist, events, p) && Backed(cx, hist, events, p.snap, hist[p.snap].status)
    requires p.at.FetchWf? && p.at.step in rp.phases && rp.phases[p.at.step] == WfSucceeded ==>
               Reached(FormattedName(cx, hist[p.snap].spec, p.at.step), WfSucceeded) in events
    ensures Backed(cx, hist, events, p.snap, Advance(cx, hist[p.snap], p.at, p.st, rp).1)
  {
    var r := hist[p.snap];
    match p.at {
      case FetchWf(step) =>
        if step in rp.phases && rp.phases[step] != WfUnknown {
          StepBacked(cx, hist, events, p.snap, p.st, step, rp.phases[step], "");
        }
      case RunWf(step) =>
        if r.spec.Workflow(step).template == "" && step != Delete {
          EmptyBacked(cx, hist, events, p.snap, p.st, step);
        }
      case _ =>
    }
  }

  /** Only a new reconcile turns to a deletion. */
  lemma StaysOutOfDeletion(cx: Context, r: Record, at: Point, st: Status, rp: Replies)
    requires !DeletePoint(at) && at != Begin
    ensures Advance(cx, r, at, st, rp).0 == Stop || !DeletePoint(Advance(cx, r, at, st, rp).0)
  {
  }

  lemma AdvanceDelete(cx: Context, hist: seq<Record>, events: seq<Event>, p: Call, rp: Replies)
    requires p.Reconciling? && CallSafe(cx, hist, events, p)
    requires Backed(cx, hist, events, p.snap, Advance(cx, hist[p.snap], p.at, p.st, rp).1)
    ensures var (at, st) := Advance(cx, hist[p.snap], p.at, p.st, rp); DeleteOk(cx, hist, events, p.snap, at, st)
  {
    if p.at != Begin && !DeletePoint(p.at) {
      StaysOutOfDeletion(cx, hist[p.snap], p.at, p.st, rp);
    }
  }

  lemma AdvanceSafe(cx: Context, hist: seq<Record>, events: seq<Event>, p: Call, rp: Replies)
    requires p.Reconciling? && CallSafe(cx, hist, events, p) && Backed(cx, hist, events, p.snap, hist[p.snap].status)
    requires p.at.FetchWf? && p.at.step in rp.phases && rp.phases[p.at.step] == WfSucceeded ==>
               Reached(FormattedName(cx, hist[p.snap].spec, p.at.step), WfSucceeded) in events
    ensures NextCall(cx, hist[p.snap], p, rp).Some? ==> CallSafe(cx, hist, events, NextCall(cx, hist[p.snap], p, rp).value)
  {
    AdvanceBacked(cx, hist, events, p, rp);
    AdvanceUnguarded(cx, hist[p.snap], p.at, p.st, rp);
    AdvanceDelete(cx, hist, events, p, rp);
  }

  lemma WorkflowSafe(cx: Context, hist: seq<Record>, events: seq<Event>, snap: nat, wf: string, phase: WfPhase,
                     message: string)
    requires snap < |hist| && Backed(cx, hist, events, snap, hist[snap].status)
    requires Reached(wf, phase) in events && FromWorkflow(cx, hist[snap], wf, phase, message).Some?
    ensures var st := FromWorkflow(cx, hist[snap], wf, phase, message).value;
            Backed(cx, hist, events, snap, st) && Follows(hist[snap].status, st)
  {
    var step := Extract(wf).value.1;
    StepBacked(cx, hist, events, snap, hist[snap].status, step, phase,
               if ConvertPhase(step, phase).IsFailed() then message else "");
  }

  // ---------------------------------------------------------------------------
  // Every step of the protocol keeps the invariant.

  lemma MovedSafe(cx: Context, w: World, l: Label)
    requires SafeInv(cx, w) && Enabled(cx, w, l)
    ensures var ch := ChangeOf(cx, w, l); ch.call.Some? ==> CallSafe(cx, w.hist, w.events, ch.call.value)
  {
    match l
    case AddonSteps(c, rp, _) => AdvanceSafe(cx, w.hist, w.events, w.calls[c], rp);
    case WorkflowReads(snap, wf, phase, message) =>
      if FromWorkflow(cx, w.hist[snap], wf, phase, message).Some? {
        WorkflowSafe(cx, w.hist, w.events, snap, wf, phase, message);
      }
    case _ =>
  }

  lemma StoredBacked(cx: Context, w: World, l: Label)
    requires SafeInv(cx, w) && Enabled(cx, w, l) && ChangeOf(cx, w, l).stored.Some?
    ensures var ch := ChangeOf(cx, w, l);
            Backed(cx, Append(w.hist, ch.stored), Append(w.events, ch.noted), |w.hist|, ch.stored.value.status)
  {
    var ch := ChangeOf(cx, w, l);
    var snap := |w.hist| - 1;
    StoredStatus(cx, w, l);
    if l.Puts? {
      assert CallSafe(cx, w.hist, w.events, w.calls[l.call]);
      snap := w.calls[l.call].snap;
    }
    BackedStays(cx, w.hist, ch.stored, w.events, ch.noted, snap, |w.hist|, ch.stored.value.status);
  }

  lemma LawfulPut(cx: Context, hist: seq<Record>, events: seq<Event>, st: Status, c: nat, snap: nat)
    requires hist != [] && !GuardFires(hist[|hist| - 1].status, st)
    ensures Lawful(cx, hist + [hist[|hist| - 1].(status := st)], events + [Wrote(c, |hist|, snap)], |hist|)
  {
    assert Wrote(c, |hist|, snap) in events + [Wrote(c, |hist|, snap)];
  }

  lemma LawfulKeep(cx: Context, hist: seq<Record>, events: seq<Event>, r: Record)
    requires hist != [] && r.status == hist[|hist| - 1].status && (hist[|hist| - 1].deleting ==> r.deleting)
    requires FINALIZER in hist[|hist| - 1].finalizers ==> FINALIZER in r.finalizers
    ensures Lawful(cx, hist + [r], events, |hist|)
  {
  }

  lemma LawfulDrop(cx: Context, hist: seq<Record>, events: seq<Event>)
    requires hist != []
    requires var a := hist[|hist| - 1];
             && a.deleting && a.status.installed.IsDeleting()
             && (a.spec.delete.template == "" || Ran(cx, hist, events, |hist| - 1, Delete))
    ensures var a := hist[|hist| - 1];
            Lawful(cx, hist + [a.(finalizers := a.finalizers - {FINALIZER})], events, |hist|)
  {
    var a := hist[|hist| - 1];
    if Ran(cx, hist, events, |hist| - 1, Delete) {
      RanStays(cx, hist, Some(a.(finalizers := a.finalizers - {FINALIZER})), events, None, |hist| - 1, |hist| - 1, Delete);
    }
  }

  lemma StoredByAddon(cx: Context, w: World, c: nat, rp: Replies)
    requires SafeInv(cx, w) && c in w.calls && w.calls[c].Reconciling? && CanReply(cx, w, w.calls[c], rp)
    requires AddonChange(cx, w, c, rp).stored.Some?
    ensures var ch := AddonChange(cx, w, c, rp);
            Lawful(cx, Append(w.hist, ch.stored), Append(w.events, ch.noted), |w.hist|)
  {
    assert CallSafe(cx, w.hist, w.events, w.calls[c]);
    if w.calls[c].at == RemoveFinalizer {
      LawfulDrop(cx, w.hist, w.events);
    } else {
      LawfulKeep(cx, w.hist, w.events, AddonChange(cx, w, c, rp).stored.value);
    }
  }

  lemma StoredLawful(cx: Context, w: World, l: Label)
    requires SafeInv(cx, w) && Enabled(cx, w, l) && ChangeOf(cx, w, l).stored.Some?
    ensures var ch := ChangeOf(cx, w, l); Lawful(cx, Append(w.hist, ch.stored), Append(w.events, ch.noted), |w.hist|)
  {
    match l
    case Puts(c) =>
      assert CallSafe(cx, w.hist, w.events, w.calls[c]);
      LawfulPut(cx, w.hist, w.events, w.calls[c].st, c, w.calls[c].snap);
    case AddonSteps(c, rp, _) => StoredByAddon(cx, w, c, rp);
    case UserEdits(_) => LawfulKeep(cx, w.hist, w.events, ChangeOf(cx, w, l).stored.value);
    case UserDeletes => LawfulKeep(cx, w.hist, w.events, ChangeOf(cx, w, l).stored.value);
  }

  lemma NotedSafe(cx: Context, w: World, l: Label)
    requires SafeInv(cx, w) && Enabled(cx, w, l) && ChangeOf(cx, w, l).noted.Some?
    ensures var ch := ChangeOf(cx, w, l); EventSafe(cx, Append(w.hist, ch.stored), ch.noted.value)
  {
    if l.AddonSteps? || l.Puts? {
      assert CallSafe(cx, w.hist, w.events, w.calls[l.call]);
    }
  }

  lemma RecordGrows(cx: Context, hist: seq<Record>, events: seq<Event>, ch: Change)
    requires forall n: nat | n < |hist| :: Backed(cx, hist, events, n, hist[n].status)
    requires forall n: nat | 0 < n < |hist| :: Lawful(cx, hist, events, n)
    requires ch.stored.Some? && hist != [] ==>
               && Backed(cx, Append(hist, ch.stored), Append(events, ch.noted), |hist|, ch.stored.value.status)
               && Lawful(cx, Append(hist, ch.stored), Append(events, ch.noted), |hist|)
    requires hist != []
    ensures var hist', events' := Append(hist, ch.stored), Append(events, ch.noted);
            && (forall n: nat | n < |hist'| :: Backed(cx, hist', events', n, hist'[n].status))
            && (forall n: nat | 0 < n < |hist'| :: Lawful(cx, hist', events', n))
  {
    var hist', events' := Append(hist, ch.stored), Append(events, ch.noted);
    forall n: nat | n < |hist'| ensures Backed(cx, hist', events', n, hist'[n].status) {
      if n < |hist| { BackedStays(cx, hist, ch.stored, events, ch.noted, n, n, hist[n].status); }
    }
    forall n: nat | 0 < n < |hist'| ensures Lawful(cx, hist', events', n) {
      if n < |hist| { LawfulStays(cx, hist, ch.stored, events, ch.noted, n); }
    }
  }

  lemma CallsSafeGrow(cx: Context, hist: seq<Record>, events: seq<Event>, calls: map<nat, Call>, ch: Change)
    requires forall c | c in calls :: CallSafe(cx, hist, events, calls[c])
    requires ch.call.Some? ==> CallSafe(cx, hist, events, ch.call.value)
    ensures var calls' := CallsAfter(calls, ch);
            forall c | c in calls' :: CallSafe(cx, Append(hist, ch.stored), Append(events, ch.noted), calls'[c])
  {
    var calls' := CallsAfter(calls, ch);
    forall c | c in calls' ensures CallSafe(cx, Append(hist, ch.stored), Append(events, ch.noted), calls'[c]) {
      CallSafeStays(cx, hist, ch.stored, events, ch.noted, calls'[c]);
    }
  }

  lemma EventsSafeGrow(cx: Context, hist: seq<Record>, events: seq<Event>, ch: Change)
    requires forall e | e in events :: EventSafe(cx, hist, e)
    requires ch.noted.Some? ==> EventSafe(cx, Append(hist, ch.stored), ch.noted.value)
    ensures forall e | e in Append(events, ch.noted) :: EventSafe(cx, Append(hist, ch.stored), e)
  {
    forall e | e in events ensures EventSafe(cx, Append(hist, ch.stored), e) {
      assert EventSafe(cx, hist, e);
    }
  }

  lemma SafeStep(cx: Context, w: World, l: Label)
    requires SafeInv(cx, w) && Enabled(cx, w, l)
    ensures SafeInv(cx, Step(cx, w, l))
  {
    var ch := ChangeOf(cx, w, l);
    StepWellFormed(cx, w, l);
    LoggedStays(cx, w, l);
    if ch.stored.Some? {
      StoredBacked(cx, w, l);
      StoredLawful(cx, w, l);
    }
    if ch.noted.Some? { NotedSafe(cx, w, l); }
    MovedSafe(cx, w, l);
    RecordGrows(cx, w.hist, w.events, ch);
    CallsSafeGrow(cx, w.hist, w.events, w.calls, ch);
    EventsSafeGrow(cx, w.hist, w.events, ch);
  }

  lemma {:induction false} RunSafe(cx: Context, spec: Spec, ls: seq<Label>, w: World)
    requires Run(cx, spec, ls, w)
    ensures SafeInv(cx, w)
    decreases |ls|
  {
    if ls != [] {
      var n := |ls| - 1;
      var before := Play(cx, Start(spec), ls[..n]).value;
      RunSafe(cx, spec, ls[..n], before);
      SafeStep(cx, before, ls[n]);
    }
  }

  lemma WritesOnceStep(cx: Context, w: World, l: Label)
    requires WellFormed(w) && Enabled(cx, w, l) && WritesOnce(w.events, w.calls, w.next)
    ensures var w' := Step(cx, w, l); WritesOnce(w'.events, w'.calls, w'.next)
  {
    var w' := Step(cx, w, l);
    forall i | 0 <= i < |w'.events| && w'.events[i].Wrote?
      ensures w'.events[i].call < w'.next
      ensures w'.events[i].call in w'.calls ==> InPut(w'.calls[w'.events[i].call])
    {
      if i < |w.events| { assert w'.events[i] == w.events[i]; }
    }
  }

  lemma {:induction false} RunWritesOnce(cx: Context, spec: Spec, ls: seq<Label>, w: World)
    requires Run(cx, spec, ls, w)
    ensures WritesOnce(w.events, w.calls, w.next)
    decreases |ls|
  {
    if ls != [] {
      var n := |ls| - 1;
      var before := Play(cx, Start(spec), ls[..n]).value;
      RunWritesOnce(cx, spec, ls[..n], before);
      WritesOnceStep(cx, before, ls[n]);
    }
  }
}
