/** The version cache and the API server agree about the phase of an addon, thanks to the mutex that
    each call of the updater holds from its first read to its cache update. */
module CacheAgreement {
  import opened AddonTypes
  import opened VersionCache
  import opened Reconciler
  import opened Protocol
  import opened Safety

  /** The call has looked its mutex up. */
  predicate HasMutex(p: Call) { p.Updating? && !p.stage.Queued? }

  /** The call is in the section that its mutex protects. */
  predicate InSection(p: Call) { HasMutex(p) && Holds(p, p.stage.mutex) }

  /** All calls that have a mutex have the one that is looked up now, and one of them at most is in
      the section. */
  ghost predicate Exclusive(w: World) {
    && (forall c | c in w.calls && HasMutex(w.calls[c]) :: w.calls[c].stage.mutex == w.mutex)
    && (forall c, d | c in w.calls && d in w.calls && InSection(w.calls[c]) && InSection(w.calls[d]) :: c == d)
  }

  /** The cache is behind the record: some call has written and has yet to update it. */
  ghost predicate Behind(w: World) { exists c :: c in w.calls && InPut(w.calls[c]) }

  /** At any time when the cache is not behind, it agrees with the record. */
  ghost predicate Agrees(w: World, k: Key)
    requires w.hist != []
  {
    && (forall c | c in w.calls && InPut(w.calls[c]) :: Latest(w).status == w.calls[c].st)
    && (!Behind(w) && k in w.cache ==> w.cache[k] == Latest(w).status.installed)
  }

  ghost predicate AnyWrite(events: seq<Event>) { exists e | e in events :: e.Wrote? }

  ghost predicate Present(w: World, k: Key) {
    AnyWrite(w.events) ==> Behind(w) || k in w.cache
  }

  ghost predicate OneKey(hist: seq<Record>, k: Key) {
    forall n | 0 <= n < |hist| :: SpecKey(hist[n].spec) == k
  }

  /** No entry is taken out of the cache because the addon was not found. */
  predicate NothingUncached(ls: seq<Label>) {
    forall i | 0 <= i < |ls| :: !ls[i].Uncaches?
  }

  ghost predicate NoneHasMutex(w: World) { forall c | c in w.calls :: !HasMutex(w.calls[c]) }

  /** The mutex is never dropped between the time when a call looks it up and the end of that call; a
      read that does not find the addon may drop it at any other time. */
  ghost predicate MutexKept(cx: Context, spec: Spec, ls: seq<Label>)
    decreases |ls|
  {
    ls != [] ==>
      var n := |ls| - 1;
      var before := Play(cx, Start(spec), ls[..n]);
      MutexKept(cx, spec, ls[..n]) && (before.Some? && ls[n].Forgets? ==> NoneHasMutex(before.value))
  }

  /** How a call comes to have a mutex, and how it enters the section. */
  lemma MutexOf(cx: Context, w: World, l: Label, c: nat)
    requires WellFormed(w) && Enabled(cx, w, l)
    requires var calls := CallsAfter(w.calls, ChangeOf(cx, w, l)); c in calls && HasMutex(calls[c])
    ensures var p := CallsAfter(w.calls, ChangeOf(cx, w, l))[c];
            && ((c in w.calls && HasMutex(w.calls[c]) && w.calls[c].stage.mutex == p.stage.mutex)
                || (l == LooksUp(c) && p.stage == Waiting(w.mutex)))
            && (InSection(p) ==>
                  c in w.calls && (InSection(w.calls[c]) || (l == Locks(c) && Free(w, p.stage.mutex))))
  {
  }

  lemma ExclusiveStep(cx: Context, w: World, l: Label)
    requires WellFormed(w) && Enabled(cx, w, l) && Exclusive(w) && (l.Forgets? ==> NoneHasMutex(w))
    ensures Exclusive(Step(cx, w, l))
  {
    var calls, m := CallsAfter(w.calls, ChangeOf(cx, w, l)), if l.Forgets? then w.mutex + 1 else w.mutex;
    forall c | c in calls && HasMutex(calls[c]) ensures calls[c].stage.mutex == m {
      MutexOf(cx, w, l, c);
    }
    forall c, d | c in calls && d in calls && InSection(calls[c]) && InSection(calls[d]) ensures c == d {
      MutexOf(cx, w, l, c);
      MutexOf(cx, w, l, d);
    }
  }

  /** A call between its write and its cache update stays there until it updates the cache. */
  lemma PutsKept(cx: Context, w: World, l: Label, c: nat)
    requires WellFormed(w) && Enabled(cx, w, l)
    ensures var calls := CallsAfter(w.calls, ChangeOf(cx, w, l));
            && (c in w.calls && InPut(w.calls[c]) && l != Caches(c) ==> c in calls && calls[c] == w.calls[c])
            && (c in calls && InPut(calls[c]) && l != Puts(c) ==> c in w.calls && w.calls[c] == calls[c])
  {
  }

  lemma BehindKept(cx: Context, w: World, l: Label)
    requires WellFormed(w) && Enabled(cx, w, l) && !l.Puts? && !l.Caches?
    ensures Behind(Step(cx, w, l)) == Behind(w)
    ensures forall c | c in Step(cx, w, l).calls && InPut(Step(cx, w, l).calls[c]) ::
              c in w.calls && w.calls[c] == Step(cx, w, l).calls[c]
  {
    var w' := Step(cx, w, l);
    forall c ensures (c in w.calls && InPut(w.calls[c])) <==> (c in w'.calls && InPut(w'.calls[c]))
      ensures c in w'.calls && InPut(w'.calls[c]) ==> c in w.calls && w.calls[c] == w'.calls[c]
    {
      PutsKept(cx, w, l, c);
    }
  }

  lemma AgreesOther(cx: Context, w: World, l: Label, k: Key)
    requires WellFormed(w) && Enabled(cx, w, l) && !l.Puts? && !l.Caches?
    requires Agrees(w, k)
    ensures Step(cx, w, l).hist != [] && Agrees(Step(cx, w, l), k)
  {
    if ChangeOf(cx, w, l).stored.Some? { StoredStatus(cx, w, l); }
    BehindKept(cx, w, l);
  }

  lemma AgreesPut(cx: Context, w: World, c: nat, k: Key)
    requires WellFormed(w) && Enabled(cx, w, Puts(c)) && Exclusive(w) && Agrees(w, k)
    ensures Step(cx, w, Puts(c)).hist != [] && Agrees(Step(cx, w, Puts(c)), k)
  {
    assert InSection(w.calls[c]);
    var w' := Step(cx, w, Puts(c));
    forall d | d in w'.calls && InPut(w'.calls[d]) ensures d == c {
      PutsKept(cx, w, Puts(c), d);
    }
    if IsCurrent(w, w.calls[c].stage.version) { assert InPut(w'.calls[c]); }
  }

  lemma AgreesCache(cx: Context, w: World, c: nat, k: Key)
    requires WellFormed(w) && Enabled(cx, w, Caches(c)) && Exclusive(w) && Agrees(w, k) && OneKey(w.hist, k)
    ensures Step(cx, w, Caches(c)).hist != [] && Agrees(Step(cx, w, Caches(c)), k)
  {
    assert InSection(w.calls[c]);
    assert SpecKey(w.hist[w.calls[c].snap].spec) == k;
    var w' := Step(cx, w, Caches(c));
    forall d | d in w'.calls ensures !InPut(w'.calls[d]) {
      PutsKept(cx, w, Caches(c), d);
    }
  }

  lemma AgreesStep(cx: Context, w: World, l: Label, k: Key)
    requires WellFormed(w) && Enabled(cx, w, l) && Exclusive(w)
    requires Agrees(w, k) && OneKey(w.hist, k)
    ensures Step(cx, w, l).hist != [] && Agrees(Step(cx, w, l), k)
  {
    match l
    case Puts(c) => AgreesPut(cx, w, c, k);
    case Caches(c) => AgreesCache(cx, w, c, k);
    case _ => AgreesOther(cx, w, l, k);
  }

  lemma PresentStep(cx: Context, w: World, l: Label, k: Key)
    requires WellFormed(w) && Enabled(cx, w, l) && !l.Uncaches?
    requires Present(w, k) && OneKey(w.hist, k)
    requires forall c | c in w.calls && w.calls[c].Reconciling? :: w.calls[c].at != AfterWf(Delete) && w.calls[c].at != RemoveFinalizer
    ensures Present(Step(cx, w, l), k)
  {
    match l
    case Puts(c) => PresentPut(cx, w, c, k);
    case Caches(c) => assert SpecKey(w.hist[w.calls[c].snap].spec) == k;
    case _ => BehindKept(cx, w, l);
  }

  lemma PresentPut(cx: Context, w: World, c: nat, k: Key)
    requires WellFormed(w) && Enabled(cx, w, Puts(c)) && Present(w, k)
    ensures Present(Step(cx, w, Puts(c)), k)
  {
    var w' := Step(cx, w, Puts(c));
    if IsCurrent(w, w.calls[c].stage.version) {
      assert InPut(w'.calls[c]);
    } else if d :| d in w.calls && InPut(w.calls[d]) {
      PutsKept(cx, w, Puts(c), d);
      assert InPut(w'.calls[d]);
    }
  }

  lemma OneKeyPrefix(hist: seq<Record>, r: Option<Record>, k: Key)
    requires OneKey(Append(hist, r), k)
    ensures OneKey(hist, k)
  {
    forall n | 0 <= n < |hist| ensures SpecKey(hist[n].spec) == k {
      assert Append(hist, r)[n] == hist[n];
    }
  }

  lemma {:induction false} RunAgrees(cx: Context, spec: Spec, ls: seq<Label>, w: World, k: Key)
    requires Run(cx, spec, ls, w) && MutexKept(cx, spec, ls) && OneKey(w.hist, k)
    ensures Exclusive(w) && Agrees(w, k)
    decreases |ls|
  {
    if ls != [] {
      var n := |ls| - 1;
      var before := Play(cx, Start(spec), ls[..n]).value;
      OneKeyPrefix(before.hist, ChangeOf(cx, before, ls[n]).stored, k);
      RunAgrees(cx, spec, ls[..n], before, k);
      ExclusiveStep(cx, before, ls[n]);
      AgreesStep(cx, before, ls[n], k);
    }
  }

  ghost predicate NotDeleting(hist: seq<Record>) {
    forall n | 0 <= n < |hist| :: !hist[n].deleting
  }

  lemma NotDeletingPrefix(hist: seq<Record>, r: Option<Record>)
    requires NotDeleting(Append(hist, r))
    ensures NotDeleting(hist)
  {
    forall n | 0 <= n < |hist| ensures !hist[n].deleting {
      assert Append(hist, r)[n] == hist[n];
    }
  }

  lemma NoDeletePoints(cx: Context, spec: Spec, ls: seq<Label>, w: World)
    requires Run(cx, spec, ls, w) && NotDeleting(w.hist)
    ensures forall c | c in w.calls && w.calls[c].Reconciling? ::
              w.calls[c].at != AfterWf(Delete) && w.calls[c].at != RemoveFinalizer
  {
    RunSafe(cx, spec, ls, w);
    forall c | c in w.calls && w.calls[c].Reconciling?
      ensures w.calls[c].at != AfterWf(Delete) && w.calls[c].at != RemoveFinalizer
    {
      assert CallSafe(cx, w.hist, w.events, w.calls[c]);
    }
  }

  lemma {:induction false} RunPresent(cx: Context, spec: Spec, ls: seq<Label>, w: World, k: Key)
    requires Run(cx, spec, ls, w) && NothingUncached(ls) && OneKey(w.hist, k) && NotDeleting(w.hist)
    ensures Present(w, k)
    decreases |ls|
  {
    if ls != [] {
      var n := |ls| - 1;
      var before := Play(cx, Start(spec), ls[..n]).value;
      var stored := ChangeOf(cx, before, ls[n]).stored;
      OneKeyPrefix(before.hist, stored, k);
      NotDeletingPrefix(before.hist, stored);
      RunPresent(cx, spec, ls[..n], before, k);
      NoDeletePoints(cx, spec, ls[..n], before);
      PresentStep(cx, before, ls[n], k);
    }
  }

  /** Whenever no call holds a mutex the cached phase, if there is one, is the install phase on record,
      as long as the mutex is not dropped while a call has it; and, whatever is dropped, while the addon
      is neither found missing nor being deleted there is one as soon as a write has landed. */
  lemma CacheAgreesWithApi(cx: Context, spec: Spec, ls: seq<Label>, w: World, k: Key)
    requires Run(cx, spec, ls, w) && OneKey(w.hist, k) && forall c | c in w.calls :: !InSection(w.calls[c])
    ensures w.hist != [] && (MutexKept(cx, spec, ls) && k in w.cache ==> w.cache[k] == Latest(w).status.installed)
    ensures NothingUncached(ls) && NotDeleting(w.hist) && AnyWrite(w.events) ==> k in w.cache
  {
    if MutexKept(cx, spec, ls) {
      RunAgrees(cx, spec, ls, w, k);
    }
    if NothingUncached(ls) && NotDeleting(w.hist) {
      RunPresent(cx, spec, ls, w, k);
    }
  }

  // ---------------------------------------------------------------------------
  // Where cached phases come from, in every run.

  /** Some call landed a write of the phase, having set out from a version with the package key. */
  ghost predicate WasWritten(hist: seq<Record>, events: seq<Event>, k: Key, phase: Phase) {
    exists e | e in events ::
      && e.Wrote? && e.version < |hist| && e.snap < |hist|
      && SpecKey(hist[e.snap].spec) == k && hist[e.version].status.installed == phase
  }

  ghost predicate Stems(w: World) {
    && WellFormed(w)
    && (forall k | k in w.cache :: WasWritten(w.hist, w.events, k, w.cache[k]))
    && (forall c | c in w.calls && InPut(w.calls[c]) ::
          WasWritten(w.hist, w.events, SpecKey(w.hist[w.calls[c].snap].spec), w.calls[c].st.installed))
  }

  lemma WasWrittenStays(hist: seq<Record>, r: Option<Record>, events: seq<Event>, e: Option<Event>, k: Key, phase: Phase)
    requires WasWritten(hist, events, k, phase)
    ensures WasWritten(Append(hist, r), Append(events, e), k, phase)
  {
    var x :| x in events && x.Wrote? && x.version < |hist| && x.snap < |hist|
             && SpecKey(hist[x.snap].spec) == k && hist[x.version].status.installed == phase;
    assert x in Append(events, e) && Append(hist, r)[x.version] == hist[x.version] && Append(hist, r)[x.snap] == hist[x.snap];
  }

  lemma PutWasWritten(w: World, c: nat)
    requires WellFormed(w) && c in w.calls && w.calls[c].Updating? && w.calls[c].stage.Got?
    requires IsCurrent(w, w.calls[c].stage.version)
    ensures var ch, p := PutChange(w, c), w.calls[c];
            WasWritten(Append(w.hist, ch.stored), Append(w.events, ch.noted), SpecKey(w.hist[p.snap].spec), p.st.installed)
  {
    var ch, p := PutChange(w, c), w.calls[c];
    var e := Wrote(c, |w.hist|, p.snap);
    assert Append(w.events, ch.noted)[|w.events|] == e && Append(w.hist, ch.stored)[|w.hist|].status == p.st;
    assert Append(w.hist, ch.stored)[p.snap] == w.hist[p.snap];
  }

  /** A cached phase was cached before, or comes from a call that had landed its write. */
  lemma CachedBy(w: World, l: Label, k: Key)
    requires WellFormed(w) && k in CacheAfter(w, l)
    ensures || (k in w.cache && CacheAfter(w, l)[k] == w.cache[k])
            || (&& l.Caches? && l.call in w.calls && k == SpecKey(w.hist[w.calls[l.call].snap].spec)
                && CacheAfter(w, l)[k] == w.calls[l.call].st.installed)
  {
  }

  lemma PutStems(cx: Context, w: World, l: Label, c: nat)
    requires Stems(w) && Enabled(cx, w, l)
    requires var calls := CallsAfter(w.calls, ChangeOf(cx, w, l)); c in calls && InPut(calls[c])
    ensures var ch := ChangeOf(cx, w, l); var p := CallsAfter(w.calls, ch)[c];
            && p.snap < |w.hist|
            && WasWritten(Append(w.hist, ch.stored), Append(w.events, ch.noted), SpecKey(w.hist[p.snap].spec), p.st.installed)
  {
    PutsKept(cx, w, l, c);
    var ch := ChangeOf(cx, w, l);
    if l == Puts(c) {
      PutWasWritten(w, c);
    } else {
      var p := w.calls[c];
      WasWrittenStays(w.hist, ch.stored, w.events, ch.noted, SpecKey(w.hist[p.snap].spec), p.st.installed);
    }
  }

  lemma StemsStep(cx: Context, w: World, l: Label)
    requires Stems(w) && Enabled(cx, w, l)
    ensures Stems(Step(cx, w, l))
  {
    StepWellFormed(cx, w, l);
    var ch := ChangeOf(cx, w, l);
    var cache, calls := CacheAfter(w, l), CallsAfter(w.calls, ch);
    forall k | k in cache ensures WasWritten(Append(w.hist, ch.stored), Append(w.events, ch.noted), k, cache[k]) {
      CachedBy(w, l, k);
      WasWrittenStays(w.hist, ch.stored, w.events, ch.noted, k, cache[k]);
    }
    forall c | c in calls && InPut(calls[c])
      ensures calls[c].snap < |w.hist|
      ensures WasWritten(Append(w.hist, ch.stored), Append(w.events, ch.noted), SpecKey(w.hist[calls[c].snap].spec), calls[c].st.installed)
    {
      PutStems(cx, w, l, c);
    }
  }

  /** In every run, whatever is dropped, deleted or forgotten: each cached phase is that of a write
      that landed, by a call that had read a version with the package key of the entry. So neither a
      call that the guard ends nor one that fails leaves a trace in the cache. */
  lemma {:induction false} CachedPhaseWasWritten(cx: Context, spec: Spec, ls: seq<Label>, w: World)
    requires Run(cx, spec, ls, w)
    ensures forall k | k in w.cache :: WasWritten(w.hist, w.events, k, w.cache[k])
    ensures Stems(w)
    decreases |ls|
  {
    if ls != [] {
      var before := LastStep(cx, Start(spec), ls, w);
      CachedPhaseWasWritten(cx, spec, ls[..|ls| - 1], before);
      StemsStep(cx, before, ls[|ls| - 1]);
    }
  }
}
