/** What the status of an addon is evidence of, over every interleaving: a success recorded for the
    current spec is backed by a workflow of that spec, and installs come after prerequisites. */
module Evidence {
  import opened AddonTypes
  import opened WorkflowNames
  import opened Reconciler
  import opened Updater
  import opened Protocol

  /** The step needs no workflow, or the workflow the spec names for it has succeeded. */
  ghost predicate Done(cx: Context, events: seq<Event>, spec: Spec, step: LifecycleStep) {
    spec.Workflow(step).template == "" || Reached(FormattedName(cx, spec, step), WfSucceeded) in events
  }

  ghost predicate Evident(cx: Context, events: seq<Event>, spec: Spec, st: Status) {
    && (st.prereqs.IsSucceeded() ==> Done(cx, events, spec, Prereqs))
    && (st.installed == Succeeded ==> Done(cx, events, spec, Install))
  }

  // ---------------------------------------------------------------------------
  // The hypotheses.

  /** No two specs of the run hash alike. */
  ghost predicate Injective(cx: Context, hist: seq<Record>) {
    forall i, j | 0 <= i < |hist| && 0 <= j < |hist| && Checksum(cx, hist[i].spec) == Checksum(cx, hist[j].spec) ::
      hist[i].spec == hist[j].spec
  }

  /** A status that records no success for a step the spec has a template for. */
  predicate ClaimsNothing(st: Status, spec: Spec) {
    && (st.prereqs.IsSucceeded() ==> spec.prereqs.template == "")
    && (st.installed == Succeeded ==> spec.install.template == "")
  }

  /** A phase of some workflow for `step`, put on top of a status, claims nothing new for the spec `b`. */
  predicate AddsNoClaim(st: Status, b: Spec, step: LifecycleStep, phase: WfPhase) {
    || phase != WfSucceeded || (step != Prereqs && step != Install) || b.Workflow(step).template == ""
    || (step == Prereqs && st.prereqs.IsSucceeded())
  }

  /** The workflow controller reads the version `r` while it still has the checksum of another spec;
      that is harmless where no version in `later` has that other spec, or nothing is claimed for it. */
  ghost predicate HarmlessRead(cx: Context, r: Record, wf: string, phase: WfPhase, later: seq<Record>) {
    forall step, j | 0 <= j < |later| && FormattedName(cx, r.spec, step) == wf && Checksum(cx, r.spec) != r.status.checksum
      && Checksum(cx, later[j].spec) == r.status.checksum :: AddsNoClaim(r.status, later[j].spec, step, phase)
  }

  /** A step does no harm: a failed listing finds no success that the new spec has to live up to, and
      a workflow is not written down under the checksum of another spec that is still to come. */
  ghost predicate Harmless(cx: Context, w: World, l: Label, hist: seq<Record>)
    requires WellFormed(w)
  {
    match l
    case AddonSteps(c, rp, _) =>
      c in w.calls && w.calls[c].Reconciling? && w.calls[c].at == ListOld && !rp.listed ==>
        ClaimsNothing(w.hist[w.calls[c].snap].status, w.hist[w.calls[c].snap].spec)
    case WorkflowReads(snap, wf, phase, _) =>
      snap < |w.hist| && snap <= |hist| ==> HarmlessRead(cx, w.hist[snap], wf, phase, hist[snap..])
    case _ => true
  }

  /** No step of a run, all of whose versions are in `hist`, does harm. */
  ghost predicate HarmlessRun(cx: Context, spec: Spec, ls: seq<Label>, hist: seq<Record>)
    decreases |ls|
  {
    ls != [] ==>
      var n := |ls| - 1;
      var before := Play(cx, Start(spec), ls[..n]);
      HarmlessRun(cx, spec, ls[..n], hist) && (before.Some? ==> Harmless(cx, before.value, ls[n], hist))
  }

  // ---------------------------------------------------------------------------
  // The invariant. `all` holds every version the run will ever store.

  /** A status computed from the version `snap` is evident for every later spec with its checksum. */
  ghost predicate Fits(cx: Context, all: seq<Record>, events: seq<Event>, snap: nat, st: Status) {
    forall j | snap <= j < |all| && Checksum(cx, all[j].spec) == st.checksum :: Evident(cx, events, all[j].spec, st)
  }

  predicate DeletePoint(at: Point) {
    at.RemoveFinalizer? || at.Stop? || ((at.RunWf? || at.SubmitWf? || at.FetchWf? || at.AfterWf?) && at.step == Delete)
  }

  /** The points a reconcile reaches only after the prerequisites have succeeded. */
  predicate AfterPrereqs(at: Point) {
    at.ListSecrets? || AfterSecrets(at)
  }

  predicate AfterSecrets(at: Point) {
    (at.RunWf? || at.SubmitWf? || at.FetchWf?) && at.step == Install
  }

  ghost predicate PointOk(cx: Context, r: Record, events: seq<Event>, at: Point, st: Status,
                          secrets: Option<seq<string>>)
  {
    if at == Begin then st == r.status
    else if at == ListOld then st == r.status.(checksum := Checksum(cx, r.spec), resources := [])
    else if DeletePoint(at) then true
    else if at == Write then Writable(cx, r, events, st)
    else
      && st.checksum == Checksum(cx, r.spec) && Evident(cx, events, r.spec, st)
      && (at == Validating || at == AddFinalizer ==> r.status.checksum == Checksum(cx, r.spec))
      && (AfterPrereqs(at) ==> Done(cx, events, r.spec, Prereqs))
      && (AfterSecrets(at) ==> secrets.Some? && HasSecrets(r.spec.secrets, secrets.value))
  }

  /** A status a reconcile of the version `r` may hand to the updater: one that is evident for the
      spec of `r`, or one that claims no more than `r` does under the same checksum. */
  ghost predicate Writable(cx: Context, r: Record, events: seq<Event>, st: Status) {
    || (st.checksum == Checksum(cx, r.spec) && Evident(cx, events, r.spec, st))
    || (&& st.checksum == r.status.checksum && (st.prereqs.IsSucceeded() ==> r.status.prereqs.IsSucceeded())
        && (st.installed == Succeeded ==> r.status.installed == Succeeded))
  }

  ghost predicate RecordOk(cx: Context, r: Record, events: seq<Event>) {
    r.status.checksum == Checksum(cx, r.spec) ==> Evident(cx, events, r.spec, r.status)
  }

  ghost predicate CallOk(cx: Context, all: seq<Record>, hist: seq<Record>, events: seq<Event>, p: Call) {
    && p.snap < |hist|
    && match p
       case Updating(snap, st, _) => Fits(cx, all, events, snap, st)
       case Reconciling(snap, at, st, secrets) => PointOk(cx, hist[snap], events, at, st, secrets)
  }

  /** An install workflow was created only after the prerequisites were done, and with every secret
      in the list the same reconcile had made. */
  ghost predicate InOrder(cx: Context, hist: seq<Record>, events: seq<Event>, k: nat)
    requires k < |events|
  {
    events[k].Created? && events[k].step == Install ==>
      && events[k].snap < |hist|
      && Done(cx, events[..k], hist[events[k].snap].spec, Prereqs)
      && events[k].secrets.Some? && HasSecrets(hist[events[k].snap].spec.secrets, events[k].secrets.value)
  }

  ghost predicate Logged(w: World) {
    forall wf | wf in w.wfs :: w.wfs[wf] == WfUnknown || Reached(wf, w.wfs[wf]) in w.events
  }

  ghost predicate Inv(cx: Context, all: seq<Record>, w: World) {
    && WellFormed(w) && Logged(w) && w.hist <= all
    && (forall n: nat | n < |w.hist| :: Fits(cx, all, w.events, n, w.hist[n].status))
    && (forall c | c in w.calls :: CallOk(cx, all, w.hist, w.events, w.calls[c]))
    && (forall k: nat | k < |w.events| :: InOrder(cx, w.hist, w.events, k))
  }

  // ---------------------------------------------------------------------------
  // What is on record stays so.

  lemma DoneStays(cx: Context, events: seq<Event>, e: Option<Event>, spec: Spec, step: LifecycleStep)
    requires Done(cx, events, spec, step)
    ensures Done(cx, Append(events, e), spec, step)
  {
  }

  lemma EvidentStays(cx: Context, events: seq<Event>, e: Option<Event>, spec: Spec, st: Status)
    requires Evident(cx, events, spec, st)
    ensures Evident(cx, Append(events, e), spec, st)
  {
  }

  lemma FitsStays(cx: Context, all: seq<Record>, events: seq<Event>, e: Option<Event>, snap: nat, later: nat, st: Status)
    requires Fits(cx, all, events, snap, st) && snap <= later
    ensures Fits(cx, all, Append(events, e), later, st)
  {
    forall j | later <= j < |all| && Checksum(cx, all[j].spec) == st.checksum
      ensures Evident(cx, Append(events, e), all[j].spec, st)
    {
      EvidentStays(cx, events, e, all[j].spec, st);
    }
  }

  lemma CallStays(cx: Context, all: seq<Record>, hist: seq<Record>, r: Option<Record>, events: seq<Event>,
                  e: Option<Event>, p: Call)
    requires CallOk(cx, all, hist, events, p)
    ensures CallOk(cx, all, Append(hist, r), Append(events, e), p)
  {
    match p
    case Updating(snap, st, _) => FitsStays(cx, all, events, e, snap, snap, st);
    case Reconciling(snap, at, st, _) =>
      if Evident(cx, events, hist[snap].spec, st) { EvidentStays(cx, events, e, hist[snap].spec, st); }
      if Done(cx, events, hist[snap].spec, Prereqs) { DoneStays(cx, events, e, hist[snap].spec, Prereqs); }
  }

  lemma OrderStays(cx: Context, hist: seq<Record>, r: Option<Record>, events: seq<Event>, e: Option<Event>, k: nat)
    requires k < |events| && InOrder(cx, hist, events, k)
    ensures InOrder(cx, Append(hist, r), Append(events, e), k)
  {
    assert Append(events, e)[..k] == events[..k];
  }

  // ---------------------------------------------------------------------------
  // Every step of a reconcile keeps the evidence.

  lemma StepEvident(cx: Context, events: seq<Event>, spec: Spec, st: Status, step: LifecycleStep, phase: WfPhase,
                    reason: string)
    requires Evident(cx, events, spec, st) && phase != WfUnknown
    requires phase == WfSucceeded ==> Reached(FormattedName(cx, spec, step), WfSucceeded) in events
    ensures Evident(cx, events, spec, WithStep(st, step, ConvertPhase(step, phase), reason))
  {
    StepOutcome(st, step, phase, reason);
  }

  lemma EarlyOk(cx: Context, r: Record, events: seq<Event>, at: Point, st: Status, secrets: Option<seq<string>>,
               rp: Replies)
    requires at.Begin? || at.ListOld? || at.Validating? || at.AddFinalizer? || at.Deadline?
    requires PointOk(cx, r, events, at, st, secrets) && RecordOk(cx, r, events)
    requires at == ListOld && !rp.listed ==> ClaimsNothing(r.status, r.spec)
    ensures var (at', st') := Advance(cx, r, at, st, rp);
            PointOk(cx, r, events, at', st', if at == ListSecrets then rp.secrets else secrets)
  {
  }

  lemma LateOk(cx: Context, r: Record, events: seq<Event>, at: Point, st: Status, secrets: Option<seq<string>>,
               rp: Replies)
    requires at.ListSecrets? || at.Observe? || at.RemoveFinalizer? || at.Write? || at.Stop?
    requires PointOk(cx, r, events, at, st, secrets) && RecordOk(cx, r, events)
    ensures var (at', st') := Advance(cx, r, at, st, rp);
            PointOk(cx, r, events, at', st', if at == ListSecrets then rp.secrets else secrets)
  {
  }

  lemma RunOk(cx: Context, r: Record, events: seq<Event>, at: Point, st: Status, secrets: Option<seq<string>>,
               rp: Replies)
    requires at.RunWf? || at.SubmitWf?
    requires PointOk(cx, r, events, at, st, secrets) && RecordOk(cx, r, events)
    ensures var (at', st') := Advance(cx, r, at, st, rp);
            PointOk(cx, r, events, at', st', if at == ListSecrets then rp.secrets else secrets)
  {
  }

  lemma AfterOk(cx: Context, r: Record, events: seq<Event>, at: Point, st: Status, secrets: Option<seq<string>>,
               rp: Replies)
    requires at.AfterWf?
    requires PointOk(cx, r, events, at, st, secrets) && RecordOk(cx, r, events)
    ensures var (at', st') := Advance(cx, r, at, st, rp);
            PointOk(cx, r, events, at', st', if at == ListSecrets then rp.secrets else secrets)
  {
  }

  lemma FetchOk(cx: Context, r: Record, events: seq<Event>, at: Point, st: Status, secrets: Option<seq<string>>,
               rp: Replies)
    requires at.FetchWf?
    requires PointOk(cx, r, events, at, st, secrets) && RecordOk(cx, r, events)
    requires at.step in rp.phases && rp.phases[at.step] == WfSucceeded ==>
               Reached(FormattedName(cx, r.spec, at.step), WfSucceeded) in events
    ensures var (at', st') := Advance(cx, r, at, st, rp);
            PointOk(cx, r, events, at', st', if at == ListSecrets then rp.secrets else secrets)
  {
    if at.step in rp.phases && rp.phases[at.step] != WfUnknown && at.step != Delete {
      StepEvident(cx, events, r.spec, st, at.step, rp.phases[at.step], "");
      StepOutcome(st, at.step, rp.phases[at.step], "");
    }
  }

  lemma AdvanceOk(cx: Context, r: Record, events: seq<Event>, at: Point, st: Status, secrets: Option<seq<string>>,
                  rp: Replies)
    requires PointOk(cx, r, events, at, st, secrets) && RecordOk(cx, r, events)
    requires at == ListOld && !rp.listed ==> ClaimsNothing(r.status, r.spec)
    requires at.FetchWf? && at.step in rp.phases && rp.phases[at.step] == WfSucceeded ==>
               Reached(FormattedName(cx, r.spec, at.step), WfSucceeded) in events
    ensures var (at', st') := Advance(cx, r, at, st, rp);
            PointOk(cx, r, events, at', st', if at == ListSecrets then rp.secrets else secrets)
  {
    match at {
      case RunWf(_) | SubmitWf(_) => RunOk(cx, r, events, at, st, secrets, rp);
      case FetchWf(_) => FetchOk(cx, r, events, at, st, secrets, rp);
      case AfterWf(_) => AfterOk(cx, r, events, at, st, secrets, rp);
      case Begin | ListOld | Validating | AddFinalizer | Deadline => EarlyOk(cx, r, events, at, st, secrets, rp);
      case ListSecrets | Observe | RemoveFinalizer | Write | Stop => LateOk(cx, r, events, at, st, secrets, rp);
    }
  }

  lemma WritableFits(cx: Context, all: seq<Record>, events: seq<Event>, snap: nat, st: Status)
    requires snap < |all| && Injective(cx, all) && Fits(cx, all, events, snap, all[snap].status)
    requires Writable(cx, all[snap], events, st)
    ensures Fits(cx, all, events, snap, st)
  {
    forall j | snap <= j < |all| && Checksum(cx, all[j].spec) == st.checksum ensures Evident(cx, events, all[j].spec, st) {
      if st.checksum == Checksum(cx, all[snap].spec) && Evident(cx, events, all[snap].spec, st) {
        assert all[j].spec == all[snap].spec;
      }
    }
  }

  /** Where a reconcile goes next, the invariant holds again. */
  lemma NextOk(cx: Context, all: seq<Record>, hist: seq<Record>, events: seq<Event>, p: Call, rp: Replies)
    requires p.Reconciling? && CallOk(cx, all, hist, events, p) && hist <= all && Injective(cx, all)
    requires Fits(cx, all, events, p.snap, hist[p.snap].status)
    requires p.at == ListOld && !rp.listed ==> ClaimsNothing(hist[p.snap].status, hist[p.snap].spec)
    requires p.at.FetchWf? && p.at.step in rp.phases && rp.phases[p.at.step] == WfSucceeded ==>
               Reached(FormattedName(cx, hist[p.snap].spec, p.at.step), WfSucceeded) in events
    ensures NextCall(cx, hist[p.snap], p, rp).Some? ==>
              CallOk(cx, all, hist, events, NextCall(cx, hist[p.snap], p, rp).value)
  {
    var r := hist[p.snap];
    assert all[p.snap] == r;
    assert RecordOk(cx, r, events);
    AdvanceOk(cx, r, events, p.at, p.st, p.secrets, rp);
    var (at, st) := Advance(cx, r, p.at, p.st, rp);
    if at == Write { WritableFits(cx, all, events, p.snap, st); }
  }

  /** A phase that adds no claim for `b` keeps a status evident for `b`, whichever workflow it is of. */
  lemma NoClaimEvident(cx: Context, events: seq<Event>, b: Spec, st: Status, step: LifecycleStep, phase: WfPhase,
                       reason: string)
    requires Evident(cx, events, b, st) && phase != WfUnknown && AddsNoClaim(st, b, step, phase)
    ensures Evident(cx, events, b, WithStep(st, step, ConvertPhase(step, phase), reason))
  {
    StepOutcome(st, step, phase, reason);
  }

  lemma WorkflowOk(cx: Context, all: seq<Record>, events: seq<Event>, snap: nat, wf: string, phase: WfPhase,
                   message: string)
    requires snap < |all| && Injective(cx, all) && Fits(cx, all, events, snap, all[snap].status)
    requires HarmlessRead(cx, all[snap], wf, phase, all[snap..])
    requires Reached(wf, phase) in events && FromWorkflow(cx, all[snap], wf, phase, message).Some?
    ensures Fits(cx, all, events, snap, FromWorkflow(cx, all[snap], wf, phase, message).value)
  {
    var r := all[snap];
    var step := Extract(wf).value.1;
    var reason := if ConvertPhase(step, phase).IsFailed() then message else "";
    StepOutcome(r.status, step, phase, reason);
    var st := FromWorkflow(cx, r, wf, phase, message).value;
    forall j | snap <= j < |all| && Checksum(cx, all[j].spec) == st.checksum ensures Evident(cx, events, all[j].spec, st) {
      if r.status.checksum == Checksum(cx, r.spec) {
        assert all[j].spec == r.spec;
        StepEvident(cx, events, r.spec, r.status, step, phase, reason);
      } else {
        assert all[snap..][j - snap] == all[j];
        NoClaimEvident(cx, events, all[j].spec, r.status, step, phase, reason);
      }
    }
  }

  // ---------------------------------------------------------------------------
  // Every step of the protocol keeps the invariant.

  lemma LoggedStays(cx: Context, w: World, l: Label)
    requires WellFormed(w) && Enabled(cx, w, l) && Logged(w)
    ensures Logged(Step(cx, w, l))
  {
  }

  lemma MovedOk(cx: Context, all: seq<Record>, w: World, l: Label)
    requires Inv(cx, all, w) && Enabled(cx, w, l) && Injective(cx, all) && Harmless(cx, w, l, all)
    ensures var ch := ChangeOf(cx, w, l); ch.call.Some? ==> CallOk(cx, all, w.hist, w.events, ch.call.value)
  {
    match l
    case AddonSteps(c, rp, _) => NextOk(cx, all, w.hist, w.events, w.calls[c], rp);
    case WorkflowReads(snap, wf, phase, message) =>
      assert all[snap] == w.hist[snap];
      if FromWorkflow(cx, w.hist[snap], wf, phase, message).Some? {
        WorkflowOk(cx, all, w.events, snap, wf, phase, message);
      }
    case _ =>
  }

  lemma NotedOk(cx: Context, all: seq<Record>, w: World, l: Label)
    requires Inv(cx, all, w) && Enabled(cx, w, l) && ChangeOf(cx, w, l).noted.Some?
    ensures InOrder(cx, w.hist, w.events + [ChangeOf(cx, w, l).noted.value], |w.events|)
  {
    var e := ChangeOf(cx, w, l).noted.value;
    if e.Created? {
      CreatedOk(cx, all, w.hist, w.events, w.calls[l.call], e);
    }
  }

  lemma CreatedOk(cx: Context, all: seq<Record>, hist: seq<Record>, events: seq<Event>, p: Call, e: Event)
    requires CallOk(cx, all, hist, events, p) && p.Reconciling? && p.at.SubmitWf?
    requires e == Created(p.at.step, p.snap, p.secrets)
    ensures InOrder(cx, hist, events + [e], |events|)
  {
    assert (events + [e])[..|events|] == events;
  }

  /** A status computed from some version may be stored on top of any later one. */
  lemma StoredOk(cx: Context, all: seq<Record>, w: World, l: Label)
    requires Inv(cx, all, w) && Enabled(cx, w, l) && ChangeOf(cx, w, l).stored.Some?
    ensures Fits(cx, all, w.events, |w.hist|, ChangeOf(cx, w, l).stored.value.status)
  {
    var snap := |w.hist| - 1;
    StoredStatus(cx, w, l);
    if l.Puts? {
      assert CallOk(cx, all, w.hist, w.events, w.calls[l.call]);
      snap := w.calls[l.call].snap;
    }
    FitsStays(cx, all, w.events, None, snap, |w.hist|, ChangeOf(cx, w, l).stored.value.status);
  }

  lemma VersionsGrow(cx: Context, all: seq<Record>, hist: seq<Record>, events: seq<Event>, ch: Change)
    requires forall n: nat | n < |hist| :: Fits(cx, all, events, n, hist[n].status)
    requires ch.stored.Some? ==> Fits(cx, all, events, |hist|, ch.stored.value.status)
    ensures var hist' := Append(hist, ch.stored);
            forall n: nat | n < |hist'| :: Fits(cx, all, Append(events, ch.noted), n, hist'[n].status)
  {
    var hist' := Append(hist, ch.stored);
    forall n: nat | n < |hist'| ensures Fits(cx, all, Append(events, ch.noted), n, hist'[n].status) {
      FitsStays(cx, all, events, ch.noted, n, n, hist'[n].status);
    }
  }

  lemma CallsGrow(cx: Context, all: seq<Record>, hist: seq<Record>, events: seq<Event>, calls: map<nat, Call>, ch: Change)
    requires forall c | c in calls :: CallOk(cx, all, hist, events, calls[c])
    requires ch.call.Some? ==> CallOk(cx, all, hist, events, ch.call.value)
    ensures var calls' := CallsAfter(calls, ch);
            forall c | c in calls' :: CallOk(cx, all, Append(hist, ch.stored), Append(events, ch.noted), calls'[c])
  {
    var calls' := CallsAfter(calls, ch);
    forall c | c in calls' ensures CallOk(cx, all, Append(hist, ch.stored), Append(events, ch.noted), calls'[c]) {
      CallStays(cx, all, hist, ch.stored, events, ch.noted, calls'[c]);
    }
  }

  lemma EventsGrow(cx: Context, hist: seq<Record>, events: seq<Event>, ch: Change)
    requires forall k: nat | k < |events| :: InOrder(cx, hist, events, k)
    requires ch.noted.Some? ==> InOrder(cx, hist, events + [ch.noted.value], |events|)
    ensures var events' := Append(events, ch.noted);
            forall k: nat | k < |events'| :: InOrder(cx, Append(hist, ch.stored), events', k)
  {
    var events' := Append(events, ch.noted);
    forall k: nat | k < |events'| ensures InOrder(cx, Append(hist, ch.stored), events', k) {
      if k < |events| {
        OrderStays(cx, hist, ch.stored, events, ch.noted, k);
      } else {
        OrderStays(cx, hist, ch.stored, events', None, k);
      }
    }
  }

  lemma InvStep(cx: Context, all: seq<Record>, w: World, l: Label)
    requires Inv(cx, all, w) && Enabled(cx, w, l) && Injective(cx, all) && Harmless(cx, w, l, all)
    requires Step(cx, w, l).hist <= all
    ensures Inv(cx, all, Step(cx, w, l))
  {
    var ch := ChangeOf(cx, w, l);
    StepWellFormed(cx, w, l);
    LoggedStays(cx, w, l);
    if ch.stored.Some? { StoredOk(cx, all, w, l); }
    if ch.noted.Some? { NotedOk(cx, all, w, l); }
    MovedOk(cx, all, w, l);
    VersionsGrow(cx, all, w.hist, w.events, ch);
    CallsGrow(cx, all, w.hist, w.events, w.calls, ch);
    EventsGrow(cx, w.hist, w.events, ch);
  }

  lemma {:induction false} RunInv(cx: Context, spec: Spec, ls: seq<Label>, w: World, all: seq<Record>)
    requires Run(cx, spec, ls, w) && w.hist <= all && Injective(cx, all) && HarmlessRun(cx, spec, ls, all)
    ensures Inv(cx, all, w)
    decreases |ls|
  {
    if ls != [] {
      var n := |ls| - 1;
      var before := Play(cx, Start(spec), ls[..n]).value;
      assert before.hist <= w.hist;
      RunInv(cx, spec, ls[..n], before, all);
      InvStep(cx, all, before, ls[n]);
    }
  }

  // ---------------------------------------------------------------------------
  // The theorems.

  /** In every run that does no harm, at every version ever stored: a success recorded under the
      checksum of the spec beside it is backed by that spec, its step being empty or its workflow
      having succeeded. Specs may come back, and listings may fail. */
  lemma EvidenceHolds(cx: Context, spec: Spec, ls: seq<Label>, w: World, n: nat)
    requires Run(cx, spec, ls, w) && Injective(cx, w.hist) && HarmlessRun(cx, spec, ls, w.hist) && n < |w.hist|
    ensures var r := w.hist[n];
            r.status.checksum == Checksum(cx, r.spec) ==> Evident(cx, w.events, r.spec, r.status)
  {
    RunInv(cx, spec, ls, w, w.hist);
    assert Fits(cx, w.hist, w.events, n, w.hist[n].status);
  }

  /** In every such run, an install workflow is created only when the prerequisites of the spec it
      belongs to are empty or had succeeded before, with every secret of that spec listed in that
      reconcile. */
  lemma InstallAfterPrereqs(cx: Context, spec: Spec, ls: seq<Label>, w: World, k: nat)
    requires Run(cx, spec, ls, w) && Injective(cx, w.hist) && HarmlessRun(cx, spec, ls, w.hist)
    requires k < |w.events| && w.events[k].Created? && w.events[k].step == Install
    ensures var e := w.events[k];
            && e.snap < |w.hist|
            && (|| w.hist[e.snap].spec.prereqs.template == ""
                || exists i | 0 <= i < k ::
                     w.events[i] == Reached(FormattedName(cx, w.hist[e.snap].spec, Prereqs), WfSucceeded))
            && e.secrets.Some? && forall s | s in w.hist[e.snap].spec.secrets :: s in e.secrets.value
  {
    RunInv(cx, spec, ls, w, w.hist);
    assert InOrder(cx, w.hist, w.events, k);
    if w.hist[w.events[k].snap].spec.prereqs.template != "" {
      var e := Reached(FormattedName(cx, w.hist[w.events[k].snap].spec, Prereqs), WfSucceeded);
      assert e in w.events[..k];
      var i :| 0 <= i < k && w.events[..k][i] == e;
      assert w.events[i] == e;
    }
  }

  // ---------------------------------------------------------------------------
  // Runs that do no harm.

  /** A checksum stands for one spec, in one unbroken stretch of versions: no two specs of the run
      hash alike, and no spec comes back after another. */
  ghost predicate NoReuse(cx: Context, hist: seq<Record>) {
    forall i, j, k | 0 <= i <= j <= k < |hist| && Checksum(cx, hist[i].spec) == Checksum(cx, hist[k].spec) ::
      hist[j].spec == hist[i].spec
  }

  /** Listing the old workflows never fails. */
  predicate ListingWorks(ls: seq<Label>) {
    forall i | 0 <= i < |ls| && ls[i].AddonSteps? :: ls[i].rp.listed
  }

  /** A checksum on record was computed from a version no newer than `snap`. */
  ghost predicate Sourced(cx: Context, hist: seq<Record>, snap: nat, checksum: string) {
    checksum == "" || exists i | 0 <= i <= snap && i < |hist| :: Checksum(cx, hist[i].spec) == checksum
  }

  ghost predicate SourcedInv(cx: Context, w: World) {
    && WellFormed(w)
    && (forall n: nat | n < |w.hist| :: Sourced(cx, w.hist, n, w.hist[n].status.checksum))
    && (forall c | c in w.calls :: Sourced(cx, w.hist, w.calls[c].snap, w.calls[c].st.checksum))
  }

  lemma SourcedStays(cx: Context, hist: seq<Record>, r: Option<Record>, snap: nat, later: nat, checksum: string)
    requires Sourced(cx, hist, snap, checksum) && snap <= later
    ensures Sourced(cx, Append(hist, r), later, checksum)
  {
    if checksum != "" {
      var i :| 0 <= i <= snap && i < |hist| && Checksum(cx, hist[i].spec) == checksum;
      assert Append(hist, r)[i] == hist[i];
    }
  }

  /** A reconcile keeps the checksum it has or takes one of the version it read. */
  lemma AdvanceChecksum(cx: Context, r: Record, at: Point, st: Status, rp: Replies)
    ensures Advance(cx, r, at, st, rp).1.checksum in {st.checksum, r.status.checksum, Checksum(cx, r.spec)}
  {
  }

  lemma MovedSourced(cx: Context, w: World, l: Label)
    requires SourcedInv(cx, w) && Enabled(cx, w, l)
    ensures var ch := ChangeOf(cx, w, l); ch.call.Some? ==> Sourced(cx, w.hist, ch.call.value.snap, ch.call.value.st.checksum)
  {
    match l
    case AddonSteps(c, rp, _) =>
      var p := w.calls[c];
      AdvanceChecksum(cx, w.hist[p.snap], p.at, p.st, rp);
      assert Sourced(cx, w.hist, p.snap, Checksum(cx, w.hist[p.snap].spec));
    case WorkflowReads(snap, wf, phase, message) =>
      FromWorkflowMeans(cx, w.hist[snap], wf, phase, message);
    case _ =>
  }

  lemma StoredSourced(cx: Context, w: World, l: Label)
    requires SourcedInv(cx, w) && Enabled(cx, w, l) && ChangeOf(cx, w, l).stored.Some?
    ensures Sourced(cx, w.hist, |w.hist|, ChangeOf(cx, w, l).stored.value.status.checksum)
  {
    StoredStatus(cx, w, l);
    var snap := if l.Puts? then w.calls[l.call].snap else |w.hist| - 1;
    SourcedStays(cx, w.hist, None, snap, |w.hist|, ChangeOf(cx, w, l).stored.value.status.checksum);
  }

  lemma SourcedGrow(cx: Context, hist: seq<Record>, calls: map<nat, Call>, ch: Change)
    requires forall n: nat | n < |hist| :: Sourced(cx, hist, n, hist[n].status.checksum)
    requires forall c | c in calls :: Sourced(cx, hist, calls[c].snap, calls[c].st.checksum)
    requires ch.stored.Some? ==> Sourced(cx, hist, |hist|, ch.stored.value.status.checksum)
    requires ch.call.Some? ==> Sourced(cx, hist, ch.call.value.snap, ch.call.value.st.checksum)
    ensures var hist', calls' := Append(hist, ch.stored), CallsAfter(calls, ch);
            && (forall n: nat | n < |hist'| :: Sourced(cx, hist', n, hist'[n].status.checksum))
            && (forall c | c in calls' :: Sourced(cx, hist', calls'[c].snap, calls'[c].st.checksum))
  {
    var hist', calls' := Append(hist, ch.stored), CallsAfter(calls, ch);
    forall n: nat | n < |hist'| ensures Sourced(cx, hist', n, hist'[n].status.checksum) {
      SourcedStays(cx, hist, ch.stored, n, n, hist'[n].status.checksum);
    }
    forall c | c in calls' ensures Sourced(cx, hist', calls'[c].snap, calls'[c].st.checksum) {
      SourcedStays(cx, hist, ch.stored, calls'[c].snap, calls'[c].snap, calls'[c].st.checksum);
    }
  }

  lemma SourcedStep(cx: Context, w: World, l: Label)
    requires SourcedInv(cx, w) && Enabled(cx, w, l)
    ensures SourcedInv(cx, Step(cx, w, l))
  {
    StepWellFormed(cx, w, l);
    MovedSourced(cx, w, l);
    if ChangeOf(cx, w, l).stored.Some? { StoredSourced(cx, w, l); }
    SourcedGrow(cx, w.hist, w.calls, ChangeOf(cx, w, l));
  }

  lemma {:induction false} RunSourced(cx: Context, spec: Spec, ls: seq<Label>, w: World)
    requires Run(cx, spec, ls, w)
    ensures SourcedInv(cx, w)
    decreases |ls|
  {
    if ls != [] {
      var n := |ls| - 1;
      var before := Play(cx, Start(spec), ls[..n]).value;
      RunSourced(cx, spec, ls[..n], before);
      SourcedStep(cx, before, ls[n]);
    }
  }

  /** Where no checksum is reused, a version with the checksum of another spec is followed by no
      version with that spec. */
  lemma NoReuseHarmless(cx: Context, hist: seq<Record>, all: seq<Record>, snap: nat, wf: string, phase: WfPhase)
    requires snap < |hist| && hist <= all && NoReuse(cx, all) && Sourced(cx, hist, snap, hist[snap].status.checksum)
    ensures HarmlessRead(cx, hist[snap], wf, phase, all[snap..])
  {
    var r := hist[snap];
    forall j | 0 <= j < |all[snap..]| && Checksum(cx, all[snap..][j].spec) == r.status.checksum
      ensures Checksum(cx, r.spec) == r.status.checksum
    {
      ChecksumIsHex(cx, all[snap + j].spec);
      var i :| 0 <= i <= snap && i < |hist| && Checksum(cx, hist[i].spec) == r.status.checksum;
      assert all[i] == hist[i] && all[snap] == r && all[snap..][j] == all[snap + j];
      assert all[snap].spec == all[i].spec;
    }
  }

  /** A run whose listings work and that reuses no checksum does no harm. */
  lemma {:induction false} NoReuseIsHarmless(cx: Context, spec: Spec, ls: seq<Label>, w: World, all: seq<Record>)
    requires Run(cx, spec, ls, w) && ListingWorks(ls) && w.hist <= all && NoReuse(cx, all)
    ensures Injective(cx, all) && HarmlessRun(cx, spec, ls, all)
    decreases |ls|
  {
    if ls != [] {
      var n := |ls| - 1;
      var before := Play(cx, Start(spec), ls[..n]).value;
      assert before.hist <= w.hist;
      NoReuseIsHarmless(cx, spec, ls[..n], before, all);
      RunSourced(cx, spec, ls[..n], before);
      if ls[n].WorkflowReads? {
        NoReuseHarmless(cx, before.hist, all, ls[n].snap, ls[n].wf, ls[n].phase);
      }
    }
  }
}
