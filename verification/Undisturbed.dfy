/** A reconcile that nothing disturbs, from its read to its landed write, as a run of the protocol. */
module Undisturbed {
  import opened AddonTypes
  import opened WorkflowNames
  import opened Reconciler
  import opened Protocol
  import opened Evidence
  import opened Traces

  /** The phases in `rp` are those of the live workflows of the spec; a new workflow has none. */
  ghost predicate Mirrors(cx: Context, wfs: map<string, WfPhase>, spec: Spec, rp: Replies) {
    forall step | step in rp.phases ::
      rp.phases[step] == var wf := FormattedName(cx, spec, step); if wf in wfs then wfs[wf] else WfUnknown
  }

  /** The reconcile gets to see to the finalizer and finds it in place or puts it there. */
  predicate Validated(cx: Context, r: Record, rp: Replies) {
    && !r.deleting && r.status.checksum == Checksum(cx, r.spec) && !r.status.installed.IsCompleted()
    && rp.verdict == Valid && (FINALIZER in r.finalizers || rp.updated)
  }

  predicate Early(at: Point) { at.Begin? || at.Validating? || at.AddFinalizer? }

  /** What stands on record while the version `r` is reconciled: the same but for the finalizer. */
  ghost predicate Kept(r: Record, now: Record) {
    now == r || now == r.(finalizers := r.finalizers + {FINALIZER})
  }

  /** The call `c` reconciles `r` undisturbed. */
  ghost predicate On(cx: Context, w: World, c: nat, r: Record, rp: Replies) {
    && WellFormed(w) && !w.gone && Free(w, w.mutex) && Kept(r, Latest(w)) && Mirrors(cx, w.wfs, r.spec, rp)
    && c in w.calls && w.calls[c].Reconciling? && w.calls[c].snap < |w.hist| && w.hist[w.calls[c].snap] == r
    && var p := w.calls[c];
       && !Ended(p.at)
       && (Early(p.at) ==> p.snap + 1 == |w.hist|)
       && (Validated(cx, r, rp) && !Early(p.at) ==> FINALIZER in Latest(w).finalizers)
       && (p.at == Begin ==> p.st == r.status) && (p.at == ListOld ==> !Validated(cx, r, rp))
       && (p.at.FetchWf? ==> FormattedName(cx, r.spec, p.at.step) in w.wfs)
  }

  /** From this point the reconcile ends as `goal`, with a status to write. */
  ghost predicate Bound(cx: Context, r: Record, rp: Replies, at: Point, st: Status, goal: Status) {
    Drive(cx, r, at, st, rp).end == Write && Drive(cx, r, at, st, rp).status == goal
  }

  /** From a point of a deletion a reconcile never comes to a write. */
  lemma {:induction false} DeletionStops(cx: Context, r: Record, at: Point, st: Status, rp: Replies)
    requires DeletePoint(at)
    ensures Drive(cx, r, at, st, rp).end == Stop
    decreases Rank(at)
  {
    if !Ended(at) {
      var (at', st') := Advance(cx, r, at, st, rp);
      DeletionStops(cx, r, at', st', rp);
    }
  }

  lemma MirrorsMore(cx: Context, wfs: map<string, WfPhase>, spec: Spec, rp: Replies, step: LifecycleStep)
    requires Mirrors(cx, wfs, spec, rp) && FormattedName(cx, spec, step) !in wfs
    ensures Mirrors(cx, wfs[FormattedName(cx, spec, step) := WfUnknown], spec, rp)
  {
  }

  /** The step a reconcile takes next. */
  function Next(c: nat, rp: Replies): Label { AddonSteps(c, rp, {}) }

  lemma CanGoOn(cx: Context, w: World, c: nat, r: Record, rp: Replies)
    requires On(cx, w, c, r, rp) && !DeletePoint(w.calls[c].at)
    ensures Enabled(cx, w, Next(c, rp))
  {
  }

  /** What the step does to the world around the call. */
  lemma WorldAfter(cx: Context, w: World, c: nat, r: Record, rp: Replies)
    requires On(cx, w, c, r, rp) && Enabled(cx, w, Next(c, rp)) && !DeletePoint(w.calls[c].at)
    requires Advance(cx, r, w.calls[c].at, w.calls[c].st, rp).0 != Stop
    ensures var w' := Step(cx, w, Next(c, rp)); var p := w.calls[c];
            && w'.gone == w.gone && w'.mutex == w.mutex && w.events <= w'.events
            && w'.hist == w.hist + (if p.at == AddFinalizer && rp.updated then [r.(finalizers := r.finalizers + {FINALIZER})] else [])
            && w'.wfs == (if Creates(cx, w, p, rp) then w.wfs[FormattedName(cx, r.spec, p.at.step) := WfUnknown] else w.wfs)
            && NextCall(cx, r, p, rp).Some? && w'.calls == w.calls[c := NextCall(cx, r, p, rp).value]
  {
    assert w.wfs - {} == w.wfs;
  }

  /** The call has come to its write. */
  ghost predicate AtWrite(w: World, c: nat, r: Record, st: Status) {
    && WellFormed(w) && !w.gone && Free(w, w.mutex) && Kept(r, Latest(w))
    && InStage(w, c, Queued) && w.calls[c].st == st && w.hist[w.calls[c].snap] == r
  }

  /** What the next point has to do with the one before. */
  ghost predicate Succeeds(cx: Context, r: Record, rp: Replies, at: Point, at': Point) {
    && at' != Begin && Rank(at') < Rank(at)
    && (at' == ListOld ==> !Validated(cx, r, rp)) && (Early(at') ==> Early(at) && at != AddFinalizer)
    && (Validated(cx, r, rp) && !Early(at') && Early(at) ==> FINALIZER in r.finalizers || (at == AddFinalizer && rp.updated))
    && (at'.FetchWf? ==> at == SubmitWf(at'.step) && at'.step in rp.submitted)
  }

  lemma EarlyAfter(cx: Context, r: Record, rp: Replies, at: Point, st: Status)
    requires Early(at) && (at == Begin ==> st == r.status)
    ensures Succeeds(cx, r, rp, at, Advance(cx, r, at, st, rp).0)
  {
  }

  lemma LateAfter(cx: Context, r: Record, rp: Replies, at: Point, st: Status)
    requires !Early(at) && !Ended(at)
    ensures Succeeds(cx, r, rp, at, Advance(cx, r, at, st, rp).0)
  {
  }

  /** A reconcile that is bound for a write is at no point of a deletion, nor goes to a stop. */
  lemma BoundGoesOn(cx: Context, r: Record, rp: Replies, at: Point, st: Status, goal: Status)
    requires Bound(cx, r, rp, at, st, goal) && !Ended(at)
    ensures !DeletePoint(at)
    ensures var (at', st') := Advance(cx, r, at, st, rp);
            at' != Stop && Bound(cx, r, rp, at', st', goal) && (at' == Write ==> st' == goal)
  {
    var (at', st') := Advance(cx, r, at, st, rp);
    Unwind(cx, r, rp, at, st, at', st');
    if DeletePoint(at) {
      DeletionStops(cx, r, at, st, rp);
    }
  }

  /** The world around the call keeps what the next point needs. */
  lemma AroundAfter(cx: Context, w: World, w': World, c: nat, r: Record, rp: Replies, at': Point)
    requires On(cx, w, c, r, rp) && Succeeds(cx, r, rp, w.calls[c].at, at') && w.hist != []
    requires w'.hist == w.hist + if w.calls[c].at == AddFinalizer && rp.updated then [r.(finalizers := r.finalizers + {FINALIZER})] else []
    ensures Kept(r, Latest(w')) && w'.hist[w.calls[c].snap] == r
    ensures Early(at') ==> w.calls[c].snap + 1 == |w'.hist|
    ensures Validated(cx, r, rp) && !Early(at') ==> FINALIZER in Latest(w').finalizers
  {
  }

  lemma GoesOn(cx: Context, w: World, c: nat, r: Record, rp: Replies)
    requires On(cx, w, c, r, rp) && Enabled(cx, w, Next(c, rp)) && !DeletePoint(w.calls[c].at)
    requires Advance(cx, r, w.calls[c].at, w.calls[c].st, rp).0 != Stop
    ensures var w' := Step(cx, w, Next(c, rp)); var (at', st') := Advance(cx, r, w.calls[c].at, w.calls[c].st, rp);
            && Rank(at') < Rank(w.calls[c].at)
            && (at' == Write ==> AtWrite(w', c, r, st') && (Validated(cx, r, rp) ==> FINALIZER in Latest(w').finalizers))
            && (at' != Write ==> On(cx, w', c, r, rp) && w'.calls[c].at == at' && w'.calls[c].st == st')
  {
    var p := w.calls[c];
    var w' := Step(cx, w, Next(c, rp));
    WorldAfter(cx, w, c, r, rp);
    StepWellFormed(cx, w, Next(c, rp));
    if Creates(cx, w, p, rp) { MirrorsMore(cx, w.wfs, r.spec, rp, p.at.step); }
    if Early(p.at) { EarlyAfter(cx, r, rp, p.at, p.st); } else { LateAfter(cx, r, rp, p.at, p.st); }
    AroundAfter(cx, w, w', c, r, rp, Advance(cx, r, p.at, p.st, rp).0);
  }

  /** A step of the addon controller or of its call of the updater. */
  predicate Own(l: Label) { l.AddonReads? || l.AddonSteps? || l.LooksUp? || l.Locks? || l.Gets? || l.Puts? || l.Caches? }

  predicate AllOwn(ls: seq<Label>) { forall l | l in ls :: Own(l) }

  /** One step of a reconcile that is bound for a write. */
  lemma StepsOn(cx: Context, w0: World, ls: seq<Label>, w: World, c: nat, r: Record, rp: Replies, goal: Status)
    returns (w': World)
    requires Leads(cx, w0, ls, w) && On(cx, w, c, r, rp) && Bound(cx, r, rp, w.calls[c].at, w.calls[c].st, goal)
    ensures Leads(cx, w0, ls + [Next(c, rp)], w')
    ensures w'.calls - {c} == w.calls - {c} && w.events <= w'.events && w.hist <= w'.hist
    ensures || (AtWrite(w', c, r, goal) && (Validated(cx, r, rp) ==> FINALIZER in Latest(w').finalizers))
            || (&& On(cx, w', c, r, rp) && Bound(cx, r, rp, w'.calls[c].at, w'.calls[c].st, goal)
                && Rank(w'.calls[c].at) < Rank(w.calls[c].at))
  {
    BoundGoesOn(cx, r, rp, w.calls[c].at, w.calls[c].st, goal);
    CanGoOn(cx, w, c, r, rp);
    WorldAfter(cx, w, c, r, rp);
    GoesOn(cx, w, c, r, rp);
    w' := Step(cx, w, Next(c, rp));
    LeadsMore(cx, w0, ls, w, Next(c, rp), w');
    LeavesNoTrace(w.calls, c, NextCall(cx, r, w.calls[c], rp).value);
  }

  /** A reconcile goes on to its write. */
  lemma {:induction false} DrivesOn(cx: Context, w0: World, ls: seq<Label>, w: World, c: nat, r: Record, rp: Replies,
                                    goal: Status)
    returns (ls': seq<Label>, w': World)
    requires Leads(cx, w0, ls, w) && On(cx, w, c, r, rp) && Bound(cx, r, rp, w.calls[c].at, w.calls[c].st, goal)
    ensures Leads(cx, w0, ls', w') && AtWrite(w', c, r, goal) && (AllOwn(ls) ==> AllOwn(ls'))
    ensures w'.calls - {c} == w.calls - {c} && w.events <= w'.events && w.hist <= w'.hist
    ensures Validated(cx, r, rp) ==> FINALIZER in Latest(w').finalizers
    decreases Rank(w.calls[c].at)
  {
    w' := StepsOn(cx, w0, ls, w, c, r, rp, goal);
    ls' := ls + [Next(c, rp)];
    if !AtWrite(w', c, r, goal) {
      ls', w' := DrivesOn(cx, w0, ls', w', c, r, rp, goal);
    }
  }

  /** A call that has come to its write lands it. */
  lemma LandsWrite(cx: Context, w0: World, ls: seq<Label>, w: World, c: nat, r: Record, goal: Status)
    returns (ls': seq<Label>, w': World)
    requires Leads(cx, w0, ls, w) && AtWrite(w, c, r, goal) && !GuardFires(r.status, goal)
    ensures Leads(cx, w0, ls', w') && WellFormed(w') && !w'.gone && Free(w', w'.mutex) && (AllOwn(ls) ==> AllOwn(ls'))
    ensures Latest(w') == Latest(w).(status := goal)
    ensures w'.calls == w.calls - {c} && w.events <= w'.events && w.hist <= w'.hist
  {
    ThenWrites(cx, w0, ls, w, c);
    ls' := ls + [LooksUp(c)] + [Locks(c)] + [Gets(c, |w.hist| - 1)] + [Puts(c)] + [Caches(c)];
    w' := Written(w, c);
  }

  lemma StartsOn(cx: Context, w: World, rp: Replies)
    requires WellFormed(w) && !w.gone && Free(w, w.mutex) && Mirrors(cx, w.wfs, Latest(w).spec, rp)
    ensures var w1 := WithCall(w, Reconciling(|w.hist| - 1, Begin, Latest(w).status, None));
            On(cx, w1, w.next, Latest(w), rp) && w1.calls - {w.next} == w.calls
  {
    assert w.next !in w.calls;
  }

  /** A reconcile of the current version that ends in a write, and that nothing disturbs, puts the
      status of the machine on record. */
  lemma ReconcileLands(cx: Context, w0: World, ls: seq<Label>, w: World, rp: Replies) returns (ls': seq<Label>, w': World)
    requires Leads(cx, w0, ls, w) && WellFormed(w) && !w.gone && Free(w, w.mutex)
    requires Mirrors(cx, w.wfs, Latest(w).spec, rp) && Reconcile(cx, Latest(w), rp).end == Write
    ensures Leads(cx, w0, ls', w') && WellFormed(w') && !w'.gone && Free(w', w'.mutex) && (AllOwn(ls) ==> AllOwn(ls'))
    ensures Kept(Latest(w).(status := Reconcile(cx, Latest(w), rp).status), Latest(w'))
    ensures w'.calls == w.calls && w.events <= w'.events && w.hist <= w'.hist
    ensures Validated(cx, Latest(w), rp) ==> FINALIZER in Latest(w').finalizers
  {
    var r, c, goal := Latest(w), w.next, Reconcile(cx, Latest(w), rp).status;
    ThenReads(cx, w0, ls, w, |w.hist| - 1);
    var w1 := WithCall(w, Reconciling(|w.hist| - 1, Begin, r.status, None));
    StartsOn(cx, w, rp);
    var w2;
    ls', w2 := DrivesOn(cx, w0, ls + [AddonReads(|w.hist| - 1)], w1, c, r, rp, goal);
    NoGuardOnOwnSnapshot(cx, r, rp);
    ls', w' := LandsWrite(cx, w0, ls', w2, c, r, goal);
  }

  // ---------------------------------------------------------------------------
  // Convergence on record.

  function PhaseNow(cx: Context, wfs: map<string, WfPhase>, spec: Spec, step: LifecycleStep): WfPhase {
    var wf := FormattedName(cx, spec, step);
    if wf in wfs then wfs[wf] else WfUnknown
  }

  /** The answers of a cluster in which every call works. */
  function GoodReplies(cx: Context, w: World, now: int, secrets: Option<seq<string>>, observed: seq<string>): Replies
    requires w.hist != []
  {
    var spec := Latest(w).spec;
    Replies(true, Valid, true, now, {Prereqs, Install, Delete, Validate},
            map[Prereqs := PhaseNow(cx, w.wfs, spec, Prereqs), Install := PhaseNow(cx, w.wfs, spec, Install)],
            secrets, Some(observed))
  }

  /** Every workflow the current spec has a template for is live and over. */
  predicate WorkflowsOver(cx: Context, w: World)
    requires w.hist != []
  {
    var spec := Latest(w).spec;
    && (spec.prereqs.template == "" || Terminal(PhaseNow(cx, w.wfs, spec, Prereqs)))
    && (spec.install.template == "" || Terminal(PhaseNow(cx, w.wfs, spec, Install)))
  }

  /** From any world in which the current version is in an unfinished cycle and the mutex is free, the
      addon controller alone, with a cluster in which every call works, puts a status of the same
      cycle on record, which is completed exactly when `Settles` holds; so it is whenever the
      workflows are over, or the hour is. */
  lemma CycleEndsOnRecord(cx: Context, w: World, now: int, secrets: Option<seq<string>>, observed: seq<string>)
    returns (ls: seq<Label>, w': World)
    requires WellFormed(w) && !w.gone && Free(w, w.mutex) && !Latest(w).deleting
    requires Latest(w).status.checksum == Checksum(cx, Latest(w).spec) && !Latest(w).status.installed.IsCompleted()
    ensures Leads(cx, w, ls, w') && AllOwn(ls) && WellFormed(w') && w.hist <= w'.hist
    ensures Latest(w').spec == Latest(w).spec && Latest(w').status.checksum == Latest(w).status.checksum
    ensures FINALIZER in Latest(w').finalizers
    ensures Latest(w').status.installed.IsCompleted() <==> Settles(Latest(w), GoodReplies(cx, w, now, secrets, observed))
    ensures WorkflowsOver(cx, w) || now - Latest(w).status.startTime >= TTL ==> Latest(w').status.installed.IsCompleted()
  {
    var rp := GoodReplies(cx, w, now, secrets, observed);
    LeadsNowhere(cx, w);
    ConvergesExactly(cx, Latest(w), rp);
    ls, w' := ReconcileLands(cx, w, [], w, rp);
    if WorkflowsOver(cx, w) || now - Latest(w).status.startTime >= TTL {
      ConvergesWhenWorkflowsAreOver(cx, Latest(w), rp);
    }
  }

  // ---------------------------------------------------------------------------
  // Reconciles of any version, however old, that come to a write without touching the cluster.

  /** The points that change nothing but the call itself. */
  predicate Plain(at: Point) { at in {Begin, ListOld, Validating, AddFinalizer, Deadline} }

  /** The reconcile comes to a write through such points only. */
  predicate PlainPath(cx: Context, r: Record, at: Point, st: Status, rp: Replies)
    decreases Rank(at)
  {
    if Ended(at) then at == Write
    else Plain(at) && var (at', st') := Advance(cx, r, at, st, rp); PlainPath(cx, r, at', st', rp)
  }

  lemma PlainUnfolds(cx: Context, r: Record, at: Point, st: Status, rp: Replies)
    requires PlainPath(cx, r, at, st, rp) && !Ended(at)
    ensures Plain(at)
    ensures var (at', st') := Advance(cx, r, at, st, rp); at' != Stop && PlainPath(cx, r, at', st', rp)
  {
  }

  lemma PlainDescends(cx: Context, r: Record, at: Point, st: Status, rp: Replies)
    requires Plain(at)
    ensures Rank(Advance(cx, r, at, st, rp).0) < Rank(at)
  {
  }

  lemma NextIs(cx: Context, r: Record, snap: nat, at: Point, st: Status, rp: Replies, at': Point, st': Status)
    requires Plain(at) && Advance(cx, r, at, st, rp) == (at', st') && at' != Stop
    ensures NextCall(cx, r, Reconciling(snap, at, st, None), rp)
            == Some(if at' == Write then Updating(snap, st', Queued) else Reconciling(snap, at', st', None))
  {
  }

  lemma PlainStep(cx: Context, w0: World, ls: seq<Label>, w: World, c: nat, rp: Replies, p: Call)
    requires Leads(cx, w0, ls, w) && WellFormed(w) && c in w.calls && w.calls[c].Reconciling? && Plain(w.calls[c].at)
    requires !rp.updated && NextCall(cx, w.hist[w.calls[c].snap], w.calls[c], rp) == Some(p)
    ensures Leads(cx, w0, ls + [Next(c, rp)], w.(calls := w.calls[c := p]))
  {
    assert w.wfs - {} == w.wfs;
    LeadsMore(cx, w0, ls, w, Next(c, rp), w.(calls := w.calls[c := p]));
  }

  /** Only steps of the call `c` have been added. */
  predicate Goes(ls: seq<Label>, ls': seq<Label>, c: nat, rp: Replies) {
    ls <= ls' && forall i | |ls| <= i < |ls'| :: ls'[i] == Next(c, rp)
  }

  lemma {:induction false} PlainRun(cx: Context, w0: World, ls: seq<Label>, w: World, c: nat, snap: nat, at: Point, st: Status,
                                    rp: Replies)
    returns (ls': seq<Label>)
    requires Leads(cx, w0, ls, w) && WellFormed(w) && c in w.calls && w.calls[c] == Reconciling(snap, at, st, None)
    requires !rp.updated && !Ended(at) && PlainPath(cx, w.hist[snap], at, st, rp)
    ensures var goal := Drive(cx, w.hist[snap], at, st, rp).status;
            Leads(cx, w0, ls', w.(calls := w.calls[c := Updating(snap, goal, Queued)])) && Goes(ls, ls', c, rp)
    decreases Rank(at)
  {
    var r := w.hist[snap];
    var (at', st') := Advance(cx, r, at, st, rp);
    PlainUnfolds(cx, r, at, st, rp);
    PlainDescends(cx, r, at, st, rp);
    NextIs(cx, r, snap, at, st, rp, at', st');
    Unwind(cx, r, rp, at, st, at', st');
    ls' := ls + [Next(c, rp)];
    if at' == Write {
      PlainStep(cx, w0, ls, w, c, rp, Updating(snap, st', Queued));
    } else {
      PlainStep(cx, w0, ls, w, c, rp, Reconciling(snap, at', st', None));
      var w1 := w.(calls := w.calls[c := Reconciling(snap, at', st', None)]);
      ls' := PlainRun(cx, w0, ls', w1, c, snap, at', st', rp);
      var p := Updating(snap, Drive(cx, r, at', st', rp).status, Queued);
      assert w1.calls[c := p] == w.calls[c := p];
    }
  }

  /** The addon controller reads a version and comes to its write. */
  lemma ReadsPlain(cx: Context, w0: World, ls: seq<Label>, w: World, snap: nat, rp: Replies) returns (ls': seq<Label>)
    requires Leads(cx, w0, ls, w) && WellFormed(w) && snap < |w.hist| && !rp.updated
    requires PlainPath(cx, w.hist[snap], Begin, w.hist[snap].status, rp)
    ensures Leads(cx, w0, ls', WithCall(w, Updating(snap, Reconcile(cx, w.hist[snap], rp).status, Queued)))
    ensures WellFormed(WithCall(w, Updating(snap, Reconcile(cx, w.hist[snap], rp).status, Queued)))
    ensures Goes(ls + [AddonReads(snap)], ls', w.next, rp)
  {
    var r, c := w.hist[snap], w.next;
    ThenReads(cx, w0, ls, w, snap);
    var w1 := WithCall(w, Reconciling(snap, Begin, r.status, None));
    ls' := PlainRun(cx, w0, ls + [AddonReads(snap)], w1, c, snap, Begin, r.status, rp);
    var p := Updating(snap, Reconcile(cx, r, rp).status, Queued);
    assert w1.(calls := w1.calls[c := p]) == WithCall(w, p);
  }
}
