/** Runs that show where the guarantees end: each hypothesis of the evidence theorem is needed, a
    completed phase may be replaced by another, and dropping the mutex lets the cache go stale. */
module Counterexamples {
  import opened AddonTypes
  import opened Text
  import opened WorkflowNames
  import opened VersionCache
  import opened Reconciler
  import opened Updater
  import opened Protocol
  import opened Evidence
  import opened Traces
  import opened Undisturbed
  import opened Safety
  import opened CacheAgreement

  // ---------------------------------------------------------------------------
  // Single steps. Each adds one label to a run, which keeps listing working if the label does.

  lemma Extend(cx: Context, w0: World, ls: seq<Label>, w: World, l: Label, w': World) returns (ls': seq<Label>)
    requires Leads(cx, w0, ls, w) && Takes(cx, w, l, w')
    ensures Leads(cx, w0, ls', w')
    ensures ListingWorks(ls) && (l.AddonSteps? ==> l.rp.listed) ==> ListingWorks(ls')
  {
    ls' := ls + [l];
    LeadsMore(cx, w0, ls, w, l, w');
  }

  function WithWorkflow(w: World, wf: string, phase: WfPhase): World {
    w.(wfs := w.wfs[wf := phase], events := w.events + [Reached(wf, phase)])
  }

  lemma WorkflowReaches(cx: Context, w0: World, ls: seq<Label>, w: World, wf: string, phase: WfPhase)
    returns (ls': seq<Label>)
    requires Leads(cx, w0, ls, w) && WellFormed(w)
    ensures Leads(cx, w0, ls', WithWorkflow(w, wf, phase)) && (ListingWorks(ls) ==> ListingWorks(ls'))
  {
    ls' := Extend(cx, w0, ls, w, if wf in w.wfs then ArgoSets(wf, phase) else WfAppears(wf, phase),
                  WithWorkflow(w, wf, phase));
  }

  lemma Edits(cx: Context, w0: World, ls: seq<Label>, w: World, spec: Spec) returns (ls': seq<Label>, w': World)
    requires Leads(cx, w0, ls, w) && WellFormed(w) && !w.gone
    ensures Leads(cx, w0, ls', w') && WellFormed(w') && (ListingWorks(ls) ==> ListingWorks(ls'))
    ensures w'.hist == w.hist + [Latest(w).(spec := spec)]
    ensures w'.events == w.events && w'.calls == w.calls && w'.mutex == w.mutex && !w'.gone
  {
    w' := w.(hist := w.hist + [Latest(w).(spec := spec)]);
    ls' := Extend(cx, w0, ls, w, UserEdits(spec), w');
  }

  function StepPhase(st: Status, step: LifecycleStep, phase: WfPhase): Status {
    WithStep(st, step, ConvertPhase(step, phase), "")
  }

  lemma ReadsWorkflow(cx: Context, w0: World, ls: seq<Label>, w: World, snap: nat, step: LifecycleStep, phase: WfPhase)
    returns (ls': seq<Label>)
    requires Leads(cx, w0, ls, w) && WellFormed(w) && snap < |w.hist|
    requires !w.hist[snap].status.installed.IsCompleted() && phase != WfUnknown
    requires Reached(FormattedName(cx, w.hist[snap].spec, step), phase) in w.events
    ensures Leads(cx, w0, ls', WithCall(w, Updating(snap, StepPhase(w.hist[snap].status, step, phase), Queued)))
    ensures ListingWorks(ls) ==> ListingWorks(ls')
  {
    var wf, st := FormattedName(cx, w.hist[snap].spec, step), StepPhase(w.hist[snap].status, step, phase);
    RoundTrip(cx, w.hist[snap].spec, step);
    assert FromWorkflow(cx, w.hist[snap], wf, phase, "") == Some(st);
    ThenHears(cx, w0, ls, w, snap, wf, phase, "", st);
    ls' := ls + [WorkflowReads(snap, wf, phase, "")];
  }

  function Outdated(cx: Context, r: Record): Status { r.status.(checksum := Checksum(cx, r.spec), resources := []) }

  function Listed(st: Status, rp: Replies): Status {
    if rp.listed then WithPrereqs(Cleared(st.(startTime := rp.now)), Pending, "") else st
  }

  lemma Writes(cx: Context, w0: World, ls: seq<Label>, w: World, c: nat) returns (ls': seq<Label>)
    requires Leads(cx, w0, ls, w) && WellFormed(w) && InStage(w, c, Queued) && Free(w, w.mutex) && !w.gone
    requires !GuardFires(Latest(w).status, w.calls[c].st)
    ensures Leads(cx, w0, ls', Written(w, c)) && WellFormed(Written(w, c)) && (ListingWorks(ls) ==> ListingWorks(ls'))
    ensures ls <= ls'
  {
    ThenWrites(cx, w0, ls, w, c);
    ls' := ls + [LooksUp(c)] + [Locks(c)] + [Gets(c, |w.hist| - 1)] + [Puts(c)] + [Caches(c)];
  }

  // ---------------------------------------------------------------------------
  // Composite moves.

  function SomeReplies(listed: bool): Replies { Replies(listed, Valid, false, 0, {}, map[], None, None) }

  /** The status the addon controller writes for a version whose checksum is outdated. */
  function CycleStatus(cx: Context, r: Record, listed: bool): Status { Listed(Outdated(cx, r), SomeReplies(listed)) }

  /** A call that has been made writes, and is over. */
  lemma CallWrites(cx: Context, w0: World, ls: seq<Label>, w: World, snap: nat, st: Status)
    returns (ls': seq<Label>, w': World)
    requires WellFormed(w) && Leads(cx, w0, ls, WithCall(w, Updating(snap, st, Queued)))
    requires snap < |w.hist| && Free(w, w.mutex) && !w.gone && !GuardFires(Latest(w).status, st)
    ensures Leads(cx, w0, ls', w') && WellFormed(w') && (ListingWorks(ls) ==> ListingWorks(ls'))
    ensures w'.hist == w.hist + [Latest(w).(status := st)] && w'.events == w.events + [Wrote(w.next, |w.hist|, snap)]
    ensures w'.calls == w.calls && Free(w', w'.mutex) && !w'.gone
  {
    var w1 := WithCall(w, Updating(snap, st, Queued));
    ls' := Writes(cx, w0, ls, w1, w.next);
    w' := Written(w1, w.next);
    assert w.next !in w.calls;
  }

  /** The addon controller reads the current version, whose checksum is outdated, and is about to write. */
  lemma BeginsCycle(cx: Context, w0: World, ls: seq<Label>, w: World, listed: bool) returns (ls': seq<Label>)
    requires Leads(cx, w0, ls, w) && WellFormed(w) && !Latest(w).deleting
    requires Latest(w).status.checksum != Checksum(cx, Latest(w).spec)
    ensures Leads(cx, w0, ls', WithCall(w, Updating(|w.hist| - 1, CycleStatus(cx, Latest(w), listed), Queued)))
    ensures WellFormed(WithCall(w, Updating(|w.hist| - 1, CycleStatus(cx, Latest(w), listed), Queued)))
    ensures ListingWorks(ls) && listed ==> ListingWorks(ls')
  {
    OutdatedReconcile(cx, Latest(w), SomeReplies(listed));
    ls' := ReadsPlain(cx, w0, ls, w, |w.hist| - 1, SomeReplies(listed));
  }

  lemma OutdatedReconcile(cx: Context, r: Record, rp: Replies)
    requires !r.deleting && r.status.checksum != Checksum(cx, r.spec)
    ensures PlainPath(cx, r, Begin, r.status, rp) && Reconcile(cx, r, rp).status == Listed(Outdated(cx, r), rp)
  {
    var st := Outdated(cx, r);
    Unwind(cx, r, rp, Begin, r.status, ListOld, st);
    Unwind(cx, r, rp, ListOld, st, Write, Listed(st, rp));
  }

  lemma StartsCycle(cx: Context, w0: World, ls: seq<Label>, w: World, listed: bool) returns (ls': seq<Label>, w': World)
    requires Leads(cx, w0, ls, w) && WellFormed(w) && Free(w, w.mutex) && !w.gone && !Latest(w).deleting
    requires Latest(w).status.checksum != Checksum(cx, Latest(w).spec)
    ensures Leads(cx, w0, ls', w') && WellFormed(w') && (ListingWorks(ls) && listed ==> ListingWorks(ls'))
    ensures w'.hist == w.hist + [Latest(w).(status := CycleStatus(cx, Latest(w), listed))]
    ensures w'.events == w.events + [Wrote(w.next, |w.hist|, |w.hist| - 1)]
    ensures w'.calls == w.calls && Free(w', w'.mutex) && !w'.gone
  {
    ls' := BeginsCycle(cx, w0, ls, w, listed);
    ls', w' := CallWrites(cx, w0, ls', w, |w.hist| - 1, CycleStatus(cx, Latest(w), listed));
  }

  /** The install workflow of the current spec succeeds, and the workflow controller writes. */
  lemma InstallSucceeds(cx: Context, w0: World, ls: seq<Label>, w: World) returns (ls': seq<Label>, w': World)
    requires Leads(cx, w0, ls, w) && WellFormed(w) && Free(w, w.mutex) && !w.gone
    requires !Latest(w).status.installed.IsCompleted()
    ensures Leads(cx, w0, ls', w') && WellFormed(w') && (ListingWorks(ls) ==> ListingWorks(ls'))
    ensures w'.hist == w.hist + [Latest(w).(status := WithInstalled(Latest(w).status, Succeeded, ""))]
    ensures w'.events == w.events + [Reached(FormattedName(cx, Latest(w).spec, Install), WfSucceeded)]
                         + [Wrote(w.next, |w.hist|, |w.hist| - 1)]
    ensures w'.calls == w.calls && Free(w', w'.mutex) && !w'.gone
  {
    var wf, st := FormattedName(cx, Latest(w).spec, Install), StepPhase(Latest(w).status, Install, WfSucceeded);
    ls' := WorkflowReaches(cx, w0, ls, w, wf, WfSucceeded);
    var w1 := WithWorkflow(w, wf, WfSucceeded);
    assert w1.events[|w.events|] == Reached(wf, WfSucceeded);
    ls' := ReadsWorkflow(cx, w0, ls', w1, |w.hist| - 1, Install, WfSucceeded);
    ls', w' := CallWrites(cx, w0, ls', w1, |w.hist| - 1, st);
  }

  // ---------------------------------------------------------------------------
  // The counterexamples.

  lemma OtherName(cx: Context, a: Spec, b: Spec)
    requires cx.adler(a) != cx.adler(b)
    ensures FormattedName(cx, a, Install) != FormattedName(cx, b, Install) && Checksum(cx, a) != Checksum(cx, b)
  {
    NamesDoNotCollide(cx, a, Install, b, Install);
    if Checksum(cx, a) == Checksum(cx, b) { HexInjective(cx.adler(a), cx.adler(b)); }
  }

  lemma TwoStretches(cx: Context, hist: seq<Record>, a: Spec, b: Spec, m: nat)
    requires forall n | 0 <= n < |hist| :: hist[n].spec == if n < m then a else b
    requires Checksum(cx, a) != Checksum(cx, b)
    ensures NoReuse(cx, hist)
  {
    forall i, j, k | 0 <= i <= j <= k < |hist| && Checksum(cx, hist[i].spec) == Checksum(cx, hist[k].spec)
      ensures hist[j].spec == hist[i].spec
    {
      assert i < m <==> k < m;
    }
  }

  lemma TwoSpecs(cx: Context, hist: seq<Record>, a: Spec, b: Spec)
    requires forall n | 0 <= n < |hist| :: hist[n].spec == a || hist[n].spec == b
    requires Checksum(cx, a) != Checksum(cx, b)
    ensures Injective(cx, hist)
  {
    forall i, j | 0 <= i < |hist| && 0 <= j < |hist| && Checksum(cx, hist[i].spec) == Checksum(cx, hist[j].spec)
      ensures hist[i].spec == hist[j].spec
    {
    }
  }

  /** Where the install workflow of `b` is not among the events, no success of `b` is evident. */
  lemma NotEvident(cx: Context, events: seq<Event>, b: Spec, st: Status)
    requires st.installed == Succeeded && b.install.template != ""
    requires forall e | e in events :: e.Wrote? || (e.Reached? && e.wf != FormattedName(cx, b, Install))
    ensures !Evident(cx, events, b, st)
  {
  }

  /** Where listing can fail, the success of one spec ends up under the checksum of the next: for any
      two specs that hash differently, the second with an install template. */
  lemma FailedListingBreaksEvidence(cx: Context, a: Spec, b: Spec) returns (ls: seq<Label>, w: World)
    requires cx.adler(a) != cx.adler(b) && b.install.template != ""
    ensures Run(cx, a, ls, w) && NoReuse(cx, w.hist) && w.hist != []
    ensures var r := Latest(w);
            && r.spec == b && r.status.checksum == Checksum(cx, b) && r.status.installed == Succeeded
            && !Evident(cx, w.events, b, r.status)
  {
    ls, w := InstalledThenEdited(cx, a, b);
    OtherName(cx, a, b);
    ls, w := StartsCycle(cx, Start(a), ls, w, false);
    TwoStretches(cx, w.hist, a, b, 2);
    NotEvident(cx, w.events, b, Latest(w).status);
    LeadsPlays(cx, Start(a), ls, w);
  }

  /** The addon is installed with the spec `a`, and then edited to `b`. */
  lemma InstalledThenEdited(cx: Context, a: Spec, b: Spec) returns (ls: seq<Label>, w: World)
    ensures Leads(cx, Start(a), ls, w) && WellFormed(w) && Free(w, w.mutex) && !w.gone
    ensures |w.hist| == 3 && w.hist[0].spec == w.hist[1].spec == a && w.hist[2].spec == b
    ensures Latest(w) == Record(b, WithInstalled(EMPTY_STATUS, Succeeded, ""), false, {})
    ensures forall e | e in w.events :: e.Wrote? || e == Reached(FormattedName(cx, a, Install), WfSucceeded)
  {
    LeadsNowhere(cx, Start(a));
    ls, w := InstallSucceeds(cx, Start(a), [], Start(a));
    ls, w := Edits(cx, Start(a), ls, w, b);
  }

  /** Where a spec can come back, a success of the spec in between ends up under its checksum, with
      every listing working. */
  lemma ReturningSpecBreaksEvidence(cx: Context, a: Spec, b: Spec) returns (ls: seq<Label>, w: World)
    requires cx.adler(a) != cx.adler(b) && b.install.template != ""
    ensures Run(cx, b, ls, w) && ListingWorks(ls) && Injective(cx, w.hist) && w.hist != []
    ensures var r := Latest(w);
            && r.spec == b && r.status.checksum == Checksum(cx, b) && r.status.installed == Succeeded
            && !Evident(cx, w.events, b, r.status)
  {
    ls, w := StartedThenEdited(cx, b, a);
    OtherName(cx, a, b);
    ls, w := InstallSucceeds(cx, Start(b), ls, w);
    ls, w := Edits(cx, Start(b), ls, w, b);
    TwoSpecs(cx, w.hist, a, b);
    NotEvident(cx, w.events, b, Latest(w).status);
    LeadsPlays(cx, Start(b), ls, w);
  }

  /** A cycle is started for the spec `b`, and then the spec is edited to `a`. */
  lemma StartedThenEdited(cx: Context, b: Spec, a: Spec) returns (ls: seq<Label>, w: World)
    ensures Leads(cx, Start(b), ls, w) && WellFormed(w) && Free(w, w.mutex) && !w.gone && ListingWorks(ls)
    ensures |w.hist| == 3 && w.hist[0].spec == w.hist[1].spec == b && w.hist[2].spec == a
    ensures Latest(w).status.checksum == Checksum(cx, b) && Latest(w).status.installed == Pending
    ensures forall e | e in w.events :: e.Wrote?
  {
    LeadsNowhere(cx, Start(b));
    assert ListingWorks([]);
    ChecksumIsHex(cx, b);
    ls, w := StartsCycle(cx, Start(b), [], Start(b), true);
    ls, w := Edits(cx, Start(b), ls, w, a);
  }

  /** What the workflow controller does to a version that still has the checksum of another spec `b`: it
      writes the phase of a workflow of the version's own spec under the checksum of `b`. Such a write
      keeps what was evident for `b`, whatever else has happened, exactly when the phase is not a
      success, or not one of prerequisites or install, or `b` has no template for the step, or the
      success was on record already. */
  lemma StaleChecksumExactly(cx: Context, r: Record, b: Spec, step: LifecycleStep, phase: WfPhase, message: string)
    requires !r.status.installed.IsCompleted() && phase != WfUnknown
    requires Checksum(cx, r.spec) != r.status.checksum == Checksum(cx, b)
    ensures var got := FromWorkflow(cx, r, FormattedName(cx, r.spec, step), phase, message);
            got.Some? && got.value.checksum == Checksum(cx, b)
    ensures (forall events |
               Reached(FormattedName(cx, r.spec, step), phase) in events && Evident(cx, events, b, r.status) ::
               Evident(cx, events, b, FromWorkflow(cx, r, FormattedName(cx, r.spec, step), phase, message).value))
            <==> AddsNoClaim(r.status, b, step, phase)
  {
    var wf := FormattedName(cx, r.spec, step);
    FromWorkflowMeans(cx, r, wf, phase, message);
    var reason := if ConvertPhase(step, phase).IsFailed() then message else "";
    var st := FromWorkflow(cx, r, wf, phase, message).value;
    assert st == WithStep(r.status, step, ConvertPhase(step, phase), reason);
    forall events | Reached(wf, phase) in events && Evident(cx, events, b, r.status) && AddsNoClaim(r.status, b, step, phase)
      ensures Evident(cx, events, b, st)
    {
      NoClaimEvident(cx, events, b, r.status, step, phase, reason);
    }
    if !AddsNoClaim(r.status, b, step, phase) {
      FalseClaim(cx, r, b, step, reason);
    }
  }

  /** Events in which the workflow of `r` has succeeded, and of `b` only what is on record already. */
  lemma FalseClaim(cx: Context, r: Record, b: Spec, step: LifecycleStep, reason: string)
    requires !r.status.installed.IsCompleted() && Checksum(cx, r.spec) != Checksum(cx, b)
    requires !AddsNoClaim(r.status, b, step, WfSucceeded)
    ensures var events := [Reached(FormattedName(cx, r.spec, step), WfSucceeded),
                           Reached(FormattedName(cx, b, if step == Prereqs then Install else Prereqs), WfSucceeded)];
            && Reached(FormattedName(cx, r.spec, step), WfSucceeded) in events && Evident(cx, events, b, r.status)
            && !Evident(cx, events, b, WithStep(r.status, step, ConvertPhase(step, WfSucceeded), reason))
  {
    NamesDoNotCollide(cx, r.spec, step, b, step);
    NamesDoNotCollide(cx, b, Prereqs, b, Install);
    var events := [Reached(FormattedName(cx, r.spec, step), WfSucceeded),
                   Reached(FormattedName(cx, b, if step == Prereqs then Install else Prereqs), WfSucceeded)];
    assert events[0] == Reached(FormattedName(cx, r.spec, step), WfSucceeded);
    assert events[1] == Reached(FormattedName(cx, b, if step == Prereqs then Install else Prereqs), WfSucceeded);
  }

  lemma ReachesTwice(cx: Context, w0: World, ls: seq<Label>, w: World, wf: string, first: WfPhase, second: WfPhase)
    returns (ls': seq<Label>, w': World)
    requires Leads(cx, w0, ls, w) && WellFormed(w)
    ensures Leads(cx, w0, ls', w') && WellFormed(w') && (ListingWorks(ls) ==> ListingWorks(ls'))
    ensures w'.hist == w.hist && w'.calls == w.calls && w'.next == w.next && w'.cache == w.cache
    ensures w'.mutex == w.mutex && w'.gone == w.gone
    ensures Reached(wf, first) in w'.events && Reached(wf, second) in w'.events
  {
    ls' := WorkflowReaches(cx, w0, ls, w, wf, first);
    w' := WithWorkflow(w, wf, first);
    ls' := WorkflowReaches(cx, w0, ls', w', wf, second);
    w' := WithWorkflow(w', wf, second);
    assert w'.events[|w.events|] == Reached(wf, first) && w'.events[|w.events| + 1] == Reached(wf, second);
  }

  /** Two calls, and no others, are about to write the given statuses for a new addon. */
  predicate TwoCalls(w: World, a: Spec, st0: Status, st1: Status) {
    && WellFormed(w) && w.hist == Start(a).hist && !w.gone && w.cache == map[] && w.calls.Keys == {0, 1}
    && w.calls[0] == Updating(0, st0, Queued) && w.calls[1] == Updating(0, st1, Queued)
  }

  /** Two phases of one install workflow are read before either is written. */
  lemma ReadsTwice(cx: Context, a: Spec, first: WfPhase, second: WfPhase) returns (ls: seq<Label>, w: World)
    requires first != WfUnknown && second != WfUnknown
    ensures Leads(cx, Start(a), ls, w) && ListingWorks(ls)
    ensures TwoCalls(w, a, StepPhase(EMPTY_STATUS, Install, first), StepPhase(EMPTY_STATUS, Install, second))
  {
    var w0, wf := Start(a), FormattedName(cx, a, Install);
    LeadsNowhere(cx, w0);
    ls, w := ReachesTwice(cx, w0, [], w0, wf, first, second);
    ls := ReadsWorkflow(cx, w0, ls, w, 0, Install, first);
    w := WithCall(w, Updating(0, StepPhase(EMPTY_STATUS, Install, first), Queued));
    ls := ReadsWorkflow(cx, w0, ls, w, 0, Install, second);
    w := WithCall(w, Updating(0, StepPhase(EMPTY_STATUS, Install, second), Queued));
  }

  /** Any completed install phase may replace any other within a cycle, if both were read from a
      version that was not completed. */
  lemma CompletedReplacesCompleted(cx: Context, a: Spec, first: WfPhase, second: WfPhase)
    returns (ls: seq<Label>, w: World)
    requires Terminal(first) && Terminal(second)
    ensures Run(cx, a, ls, w) && ListingWorks(ls) && |w.hist| == 3
    ensures w.hist[1].status.installed == ConvertPhase(Install, first)
    ensures w.hist[2].status.installed == ConvertPhase(Install, second)
    ensures w.hist[1].status.checksum == w.hist[2].status.checksum
  {
    ls, w := ReadsTwice(cx, a, first, second);
    assert Free(w, w.mutex);
    ls, w := WritesBoth(cx, Start(a), ls, w, 0, 1);
    LeadsPlays(cx, Start(a), ls, w);
  }

  lemma WritesBoth(cx: Context, w0: World, ls: seq<Label>, w: World, c: nat, d: nat) returns (ls': seq<Label>, w': World)
    requires Leads(cx, w0, ls, w) && WellFormed(w) && Free(w, w.mutex) && !w.gone && c != d
    requires InStage(w, c, Queued) && InStage(w, d, Queued)
    requires !GuardFires(Latest(w).status, w.calls[c].st) && !GuardFires(w.calls[c].st, w.calls[d].st)
    ensures Leads(cx, w0, ls', w') && (ListingWorks(ls) ==> ListingWorks(ls'))
    ensures w'.hist == w.hist + [Latest(w).(status := w.calls[c].st)] + [Latest(w).(status := w.calls[d].st)]
  {
    ls' := Writes(cx, w0, ls, w, c);
    var w1 := Written(w, c);
    ls' := Writes(cx, w0, ls', w1, d);
    w' := Written(w1, d);
  }

  // ---------------------------------------------------------------------------
  // A dropped mutex.

  /** A call whose read is not current any more finds that out and is back where it was. */
  lemma GotAgain(cx: Context, w0: World, ls: seq<Label>, w: World, c: nat, m: nat, v: nat)
    requires Leads(cx, w0, ls, w) && WellFormed(w) && InStage(w, c, Got(m, v)) && !IsCurrent(w, v)
    ensures Leads(cx, w0, ls + [Puts(c)], AtStage(w, c, Locked(m)))
  {
    LeadsMore(cx, w0, ls, w, Puts(c), AtStage(w, c, Locked(m)));
  }

  lemma GotStores(cx: Context, w0: World, ls: seq<Label>, w: World, c: nat, m: nat, v: nat) returns (ls': seq<Label>)
    requires Leads(cx, w0, ls, w) && WellFormed(w) && !w.gone && InStage(w, c, Got(m, v))
    requires !GuardFires(Latest(w).status, w.calls[c].st)
    ensures Leads(cx, w0, ls', WithWrite(w, c, m)) && WellFormed(WithWrite(w, c, m)) && ls <= ls'
  {
    if IsCurrent(w, v) {
      ThenPuts(cx, w0, ls, w, c, m, v);
      ls' := ls + [Puts(c)];
    } else {
      GotAgain(cx, w0, ls, w, c, m, v);
      var w1 := AtStage(w, c, Locked(m));
      LockedStores(cx, w0, ls + [Puts(c)], w1, c, m);
      ls' := ls + [Puts(c)] + [Gets(c, |w.hist| - 1)] + [Puts(c)];
      assert WithWrite(w1, c, m) == WithWrite(w, c, m);
    }
  }

  /** From whatever stage, a call that has its mutex comes to land its write. */
  lemma ComesToPut(cx: Context, w0: World, ls: seq<Label>, w: World, c: nat, m: nat) returns (ls': seq<Label>)
    requires Leads(cx, w0, ls, w) && WellFormed(w) && !w.gone && c in w.calls && HasMutex(w.calls[c])
    requires !InPut(w.calls[c]) && w.calls[c].stage.mutex == m && (w.calls[c].stage.Waiting? ==> Free(w, m))
    requires !GuardFires(Latest(w).status, w.calls[c].st)
    ensures Leads(cx, w0, ls', WithWrite(w, c, m)) && WellFormed(WithWrite(w, c, m)) && ls <= ls'
  {
    match w.calls[c].stage
    case Waiting(_) =>
      WaitingStores(cx, w0, ls, w, c, m);
      ls' := ls + [Locks(c)] + [Gets(c, |w.hist| - 1)] + [Puts(c)];
    case Locked(_) =>
      LockedStores(cx, w0, ls, w, c, m);
      ls' := ls + [Gets(c, |w.hist| - 1)] + [Puts(c)];
    case Got(_, v) => ls' := GotStores(cx, w0, ls, w, c, m, v);
  }

  /** Between the write of the call `c` and its cache update, `d` runs through under another mutex. */
  lemma Overtakes(cx: Context, w0: World, ls: seq<Label>, w: World, c: nat, d: nat) returns (ls': seq<Label>, w': World)
    requires Leads(cx, w0, ls, w) && WellFormed(w) && !w.gone && c in w.calls && InPut(w.calls[c])
    requires InStage(w, d, Queued) && Free(w, w.mutex) && Latest(w).status == w.calls[c].st
    requires !GuardFires(w.calls[c].st, w.calls[d].st)
    ensures Leads(cx, w0, ls', w') && w'.calls == w.calls - {c, d} && w'.hist != [] && ls <= ls'
    ensures Latest(w').status == w.calls[d].st
    ensures var k := SpecKey(w.hist[w.calls[c].snap].spec); k in w'.cache && w'.cache[k] == w.calls[c].st.installed
  {
    ls' := Writes(cx, w0, ls, w, d);
    var w1 := Written(w, d);
    ThenCaches(cx, w0, ls', w1, c);
    ls', w' := ls' + [Caches(c)], Cached(w1, c);
    assert w.calls - {d} - {c} == w.calls - {c, d};
  }

  /** The mutex is dropped while the call `c` has it, and `c` lands its write if it has not yet. */
  lemma DropsThenPuts(cx: Context, w: World, c: nat) returns (ls: seq<Label>, w': World)
    requires WellFormed(w) && !w.gone && c in w.calls && HasMutex(w.calls[c])
    requires w.calls[c].stage.Waiting? ==> Free(w, w.calls[c].stage.mutex)
    requires if InPut(w.calls[c]) then Latest(w).status == w.calls[c].st else !GuardFires(Latest(w).status, w.calls[c].st)
    ensures Leads(cx, w, ls, w') && ls != [] && ls[0] == Forgets
    ensures WellFormed(w') && !w'.gone && Latest(w').status == w.calls[c].st && w'.mutex == w.mutex + 1
    ensures w'.calls == w.calls[c := w.calls[c].(stage := Put(w.calls[c].stage.mutex))] && w.hist <= w'.hist
  {
    LeadsNowhere(cx, w);
    w' := w.(mutex := w.mutex + 1);
    LeadsMore(cx, w, [], w, Forgets, w');
    ls := [] + [Forgets];
    if !InPut(w.calls[c]) {
      var m := w.calls[c].stage.mutex;
      ls := ComesToPut(cx, w, ls, w', c, m);
      w' := WithWrite(w', c, m);
    }
  }

  /** For every world of a run in which the cache agrees with the record: if the mutex is dropped while
      some call has it, whatever its stage and even if nobody holds it, and another call with another
      phase is under way, the run can go on so that at its end nobody holds a mutex and the cache
      differs from the record. */
  lemma DropBreaksAgreement(cx: Context, w: World, k: Key, c: nat, d: nat) returns (ls: seq<Label>, w': World)
    requires WellFormed(w) && !w.gone && Exclusive(w) && Agrees(w, k)
    requires c in w.calls && HasMutex(w.calls[c]) && (w.calls[c].stage.Waiting? ==> Free(w, w.mutex))
    requires SpecKey(w.hist[w.calls[c].snap].spec) == k && InStage(w, d, Queued)
    requires InPut(w.calls[c]) || !GuardFires(Latest(w).status, w.calls[c].st)
    requires !GuardFires(w.calls[c].st, w.calls[d].st) && w.calls[d].st.installed != w.calls[c].st.installed
    ensures Leads(cx, w, ls, w') && ls != [] && ls[0] == Forgets && w'.hist != []
    ensures k in w'.cache && w'.cache[k] != Latest(w').status.installed
    ensures forall x | x in w'.calls :: !InSection(w'.calls[x])
  {
    var w1;
    ls, w1 := DropsThenPuts(cx, w, c);
    ls, w' := Overtakes(cx, w, ls, w1, c, d);
  }

  /** One call for a new addon waits for its mutex, while another has yet to look its mutex up. */
  lemma OneWaits(cx: Context, a: Spec) returns (ls: seq<Label>, w: World)
    ensures Leads(cx, Start(a), ls, w) && WellFormed(w) && !w.gone && Exclusive(w) && Agrees(w, SpecKey(a))
    ensures forall c | c in w.calls :: !InSection(w.calls[c])
    ensures InStage(w, 0, Waiting(w.mutex)) && InStage(w, 1, Queued) && w.calls[0].snap == 0 && Latest(w) == w.hist[0]
    ensures w.hist[0].spec == a && w.hist[0].status == EMPTY_STATUS
    ensures w.calls[0].st.installed == Pending && w.calls[1].st.installed == Failed
  {
    ls, w := ReadsTwice(cx, a, WfPending, WfFailed);
    ThenLooksUp(cx, Start(a), ls, w, 0);
    ls, w := ls + [LooksUp(0)], AtStage(w, 0, Waiting(w.mutex));
  }

  /** In particular a drop while a call only waits: a run at one point of which nobody holds the mutex,
      it is dropped there, and later the cache differs from the record. */
  lemma DroppedMutexBreaksAgreement(cx: Context, a: Spec) returns (ls: seq<Label>, w: World, ls': seq<Label>, w': World)
    ensures Run(cx, a, ls, w) && forall c | c in w.calls :: !InSection(w.calls[c])
    ensures Leads(cx, w, ls', w') && ls' != [] && ls'[0] == Forgets && w'.hist != []
    ensures SpecKey(a) in w'.cache && w'.cache[SpecKey(a)] != Latest(w').status.installed
    ensures forall c | c in w'.calls :: !InSection(w'.calls[c])
  {
    ls, w := OneWaits(cx, a);
    LeadsPlays(cx, Start(a), ls, w);
    ls', w' := DropBreaksAgreement(cx, w, SpecKey(a), 0, 1);
  }

  // ---------------------------------------------------------------------------
  // A failed listing for a version without install phase.

  /** The cycle of a new addon is started and its install succeeds, while the call 0 waits. */
  lemma InstallsMeanwhile(cx: Context, a: Spec) returns (ls: seq<Label>, w: World)
    ensures Leads(cx, Start(a), ls, w) && WellFormed(w) && Free(w, w.mutex) && !w.gone
    ensures InStage(w, 0, Queued) && w.calls[0].st == Outdated(cx, Start(a).hist[0]) && |w.hist| == 3
    ensures Latest(w).status.installed == Succeeded && Latest(w).status.checksum == Checksum(cx, a)
  {
    var w0 := Start(a);
    LeadsNowhere(cx, w0);
    ChecksumIsHex(cx, a);
    ls := BeginsCycle(cx, w0, [], w0, false);
    w := WithCall(w0, Updating(0, Outdated(cx, Latest(w0)), Queued));
    ls, w := StartsCycle(cx, w0, ls, w, true);
    ls, w := InstallSucceeds(cx, w0, ls, w);
  }

  /** A run in which a listing fails for a new addon, and later the status written then replaces a
      success of the same checksum by no phase at all. */
  lemma FailedListingUndoesSuccess(cx: Context, a: Spec) returns (ls: seq<Label>, w: World)
    ensures Run(cx, a, ls, w) && |w.hist| == 4
    ensures w.hist[2].status.installed == Succeeded && w.hist[3].status.installed == NoPhase
    ensures w.hist[2].status.checksum == w.hist[3].status.checksum == Checksum(cx, a)
  {
    ls, w := InstallsMeanwhile(cx, a);
    ls := Writes(cx, Start(a), ls, w, 0);
    w := Written(w, 0);
    LeadsPlays(cx, Start(a), ls, w);
  }

  // ---------------------------------------------------------------------------
  // Exactly what a failed listing does.

  /** A reconcile whose listing fails writes a status that is evident for its spec, whatever has
      happened, exactly when the outdated status records no success for a step the spec has. */
  lemma FailedListingEvidentExactly(cx: Context, r: Record, rp: Replies)
    requires !r.deleting && r.status.checksum != Checksum(cx, r.spec) && !rp.listed
    ensures var res := Reconcile(cx, r, rp);
            && res.end == Write && res.status.checksum == Checksum(cx, r.spec)
            && res.status.prereqs == r.status.prereqs && res.status.installed == r.status.installed
    ensures (forall events :: Evident(cx, events, r.spec, Reconcile(cx, r, rp).status)) <==>
            && (r.status.prereqs.IsSucceeded() ==> r.spec.prereqs.template == "")
            && (r.status.installed == Succeeded ==> r.spec.install.template == "")
  {
    var st := Outdated(cx, r);
    Unwind(cx, r, rp, Begin, r.status, ListOld, st);
    Unwind(cx, r, rp, ListOld, st, Write, st);
    assert Evident(cx, [], r.spec, st) <==>
           && (r.status.prereqs.IsSucceeded() ==> r.spec.prereqs.template == "")
           && (r.status.installed == Succeeded ==> r.spec.install.template == "");
  }

  /** After that write the next reconcile passes the new spec over, without a single call, exactly
      when the outdated status was completed. */
  lemma FailedListingSkipsExactly(cx: Context, r: Record, rp: Replies)
    requires !r.deleting && r.status.checksum != Checksum(cx, r.spec) && !rp.listed
    ensures var r' := r.(status := Reconcile(cx, r, rp).status);
            (forall rp' :: Reconcile(cx, r', rp').calls == []) <==> r.status.installed.IsCompleted()
  {
    FailedListingEvidentExactly(cx, r, rp);
    var r' := r.(status := Reconcile(cx, r, rp).status);
    var st := r'.status.(resources := []);
    forall rp' ensures r.status.installed.IsCompleted() ==> Reconcile(cx, r', rp').calls == [] {
      if r.status.installed.IsCompleted() {
        assert Advance(cx, r', Begin, r'.status, rp') == (Write, st);
      }
    }
    if !r.status.installed.IsCompleted() {
      var rp' := Replies(true, Valid, false, r'.status.startTime, {}, map[], None, None);
      assert Advance(cx, r', Begin, r'.status, rp') == (Validating, st);
      CallsSomething(cx, r', st, rp');
      assert Reconcile(cx, r', rp').calls != [];
    }
  }

  lemma CallsSomething(cx: Context, r: Record, st: Status, rp: Replies)
    requires rp.verdict == Valid && rp.now == st.startTime && !st.installed.IsCompleted()
    ensures Drive(cx, r, Validating, st, rp).calls != []
  {
    if FINALIZER in r.finalizers {
      assert Advance(cx, r, Validating, st, rp) == (Deadline, st);
      assert Advance(cx, r, Deadline, st, rp) == (RunWf(Prereqs), st);
      var (at, st') := Advance(cx, r, RunWf(Prereqs), st, rp);
      if at == AfterWf(Prereqs) {
        CallsAfterPrereqs(cx, r, st', rp);
      }
    } else {
      assert Advance(cx, r, Validating, st, rp) == (AddFinalizer, st);
    }
  }

  lemma CallsAfterPrereqs(cx: Context, r: Record, st: Status, rp: Replies)
    ensures Drive(cx, r, AfterWf(Prereqs), st, rp).calls != []
  {
    var (at, st') := Advance(cx, r, AfterWf(Prereqs), st, rp);
    assert Drive(cx, r, at, st', rp).calls != [];
  }
}
