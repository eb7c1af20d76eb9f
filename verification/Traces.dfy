/** Short runs of the protocol, spelled out world by world. */
module Traces {
  import opened AddonTypes
  import opened Reconciler
  import opened Updater
  import opened Protocol

  /** The step `l` is possible in `w` and leads to `w'`. */
  ghost predicate Takes(cx: Context, w: World, l: Label, w': World) {
    WellFormed(w) && Enabled(cx, w, l) && Step(cx, w, l) == w'
  }

  ghost predicate TakesAt(cx: Context, ws: seq<World>, ls: seq<Label>, i: nat)
    requires |ws| == |ls| + 1 && i < |ls|
  {
    Takes(cx, ws[i], ls[i], ws[i + 1])
  }

  ghost predicate Path(cx: Context, ws: seq<World>, ls: seq<Label>, w0: World, w: World) {
    && |ws| == |ls| + 1 && ws[0] == w0 && ws[|ls|] == w
    && forall i: nat {:trigger TakesAt(cx, ws, ls, i)} | i < |ls| :: TakesAt(cx, ws, ls, i)
  }

  /** The steps `ls` lead from `w0` to `w`. */
  ghost predicate Leads(cx: Context, w0: World, ls: seq<Label>, w: World) {
    exists ws :: Path(cx, ws, ls, w0, w)
  }

  lemma LeadsNowhere(cx: Context, w: World)
    ensures Leads(cx, w, [], w)
  {
    assert Path(cx, [w], [], w, w);
  }

  lemma LeadsMore(cx: Context, w0: World, ls: seq<Label>, w: World, l: Label, w': World)
    requires Leads(cx, w0, ls, w) && Takes(cx, w, l, w')
    ensures Leads(cx, w0, ls + [l], w')
  {
    var ws :| Path(cx, ws, ls, w0, w);
    var ws', ls' := ws + [w'], ls + [l];
    forall i: nat | i < |ls'| ensures TakesAt(cx, ws', ls', i) {
      if i < |ls| { assert TakesAt(cx, ws, ls, i); }
    }
    assert Path(cx, ws', ls', w0, w');
  }

  lemma {:induction false} PathPlays(cx: Context, ws: seq<World>, ls: seq<Label>, w0: World, w: World)
    requires WellFormed(w0) && Path(cx, ws, ls, w0, w)
    ensures Play(cx, w0, ls) == Some(w)
    decreases |ls|
  {
    if ls != [] {
      var n := |ls| - 1;
      var ws', ls' := ws[..|ws| - 1], ls[..n];
      forall i: nat | i < |ls'| ensures TakesAt(cx, ws', ls', i) {
        assert TakesAt(cx, ws, ls, i);
      }
      PathPlays(cx, ws', ls', w0, ws[n]);
      assert TakesAt(cx, ws, ls, n);
    }
  }

  lemma LeadsPlays(cx: Context, w0: World, ls: seq<Label>, w: World)
    requires WellFormed(w0) && Leads(cx, w0, ls, w)
    ensures Play(cx, w0, ls) == Some(w)
  {
    var ws :| Path(cx, ws, ls, w0, w);
    PathPlays(cx, ws, ls, w0, w);
  }

  // ---------------------------------------------------------------------------
  // One call of the updater.

  function WithCall(w: World, p: Call): World { w.(calls := w.calls[w.next := p], next := w.next + 1) }

  /** The addon controller reads the version `snap`. */
  lemma ThenReads(cx: Context, w0: World, ls: seq<Label>, w: World, snap: nat)
    requires Leads(cx, w0, ls, w) && WellFormed(w) && snap < |w.hist|
    ensures Leads(cx, w0, ls + [AddonReads(snap)], WithCall(w, Reconciling(snap, Begin, w.hist[snap].status, None)))
    ensures WellFormed(WithCall(w, Reconciling(snap, Begin, w.hist[snap].status, None)))
  {
    LeadsMore(cx, w0, ls, w, AddonReads(snap), WithCall(w, Reconciling(snap, Begin, w.hist[snap].status, None)));
  }

  /** The workflow controller hears of a workflow that speaks for the version `snap`. */
  lemma ThenHears(cx: Context, w0: World, ls: seq<Label>, w: World, snap: nat, wf: string, phase: WfPhase, message: string,
                  st: Status)
    requires Leads(cx, w0, ls, w) && WellFormed(w) && snap < |w.hist| && Reached(wf, phase) in w.events
    requires FromWorkflow(cx, w.hist[snap], wf, phase, message) == Some(st)
    ensures Leads(cx, w0, ls + [WorkflowReads(snap, wf, phase, message)], WithCall(w, Updating(snap, st, Queued)))
    ensures WellFormed(WithCall(w, Updating(snap, st, Queued)))
  {
    LeadsMore(cx, w0, ls, w, WorkflowReads(snap, wf, phase, message), WithCall(w, Updating(snap, st, Queued)));
  }

  function AtStage(w: World, c: nat, stage: Stage): World
    requires c in w.calls && w.calls[c].Updating?
  {
    w.(calls := w.calls[c := w.calls[c].(stage := stage)])
  }

  lemma ThenLooksUp(cx: Context, w0: World, ls: seq<Label>, w: World, c: nat)
    requires Leads(cx, w0, ls, w) && WellFormed(w) && InStage(w, c, Queued)
    ensures Leads(cx, w0, ls + [LooksUp(c)], AtStage(w, c, Waiting(w.mutex)))
  {
    LeadsMore(cx, w0, ls, w, LooksUp(c), AtStage(w, c, Waiting(w.mutex)));
  }

  lemma ThenLocks(cx: Context, w0: World, ls: seq<Label>, w: World, c: nat, m: nat)
    requires Leads(cx, w0, ls, w) && WellFormed(w) && InStage(w, c, Waiting(m)) && Free(w, m)
    ensures Leads(cx, w0, ls + [Locks(c)], AtStage(w, c, Locked(m)))
  {
    LeadsMore(cx, w0, ls, w, Locks(c), AtStage(w, c, Locked(m)));
  }

  lemma ThenGets(cx: Context, w0: World, ls: seq<Label>, w: World, c: nat, m: nat, v: nat)
    requires Leads(cx, w0, ls, w) && WellFormed(w) && InStage(w, c, Locked(m)) && v < |w.hist|
    requires !GuardFires(w.hist[v].status, w.calls[c].st)
    ensures Leads(cx, w0, ls + [Gets(c, v)], AtStage(w, c, Got(m, v)))
  {
    LeadsMore(cx, w0, ls, w, Gets(c, v), AtStage(w, c, Got(m, v)));
  }

  function WithWrite(w: World, c: nat, m: nat): World
    requires WellFormed(w) && c in w.calls && w.calls[c].Updating?
  {
    AtStage(w, c, Put(m)).(hist := w.hist + [Latest(w).(status := w.calls[c].st)],
                           events := w.events + [Wrote(c, |w.hist|, w.calls[c].snap)])
  }

  lemma ThenPuts(cx: Context, w0: World, ls: seq<Label>, w: World, c: nat, m: nat, v: nat)
    requires Leads(cx, w0, ls, w) && WellFormed(w) && InStage(w, c, Got(m, v)) && IsCurrent(w, v)
    ensures Leads(cx, w0, ls + [Puts(c)], WithWrite(w, c, m)) && WellFormed(WithWrite(w, c, m))
  {
    LeadsMore(cx, w0, ls, w, Puts(c), WithWrite(w, c, m));
  }

  function Cached(w: World, c: nat): World
    requires WellFormed(w) && c in w.calls
  {
    w.(calls := w.calls - {c}, cache := w.cache[SpecKey(w.hist[w.calls[c].snap].spec) := w.calls[c].st.installed])
  }

  lemma ThenCaches(cx: Context, w0: World, ls: seq<Label>, w: World, c: nat)
    requires Leads(cx, w0, ls, w) && WellFormed(w) && c in w.calls && w.calls[c].Updating? && w.calls[c].stage.Put?
    ensures Leads(cx, w0, ls + [Caches(c)], Cached(w, c)) && WellFormed(Cached(w, c))
  {
    LeadsMore(cx, w0, ls, w, Caches(c), Cached(w, c));
  }

  /** A call that holds its mutex and passes the guard, if nothing disturbs it, writes onto the
      current version. */
  lemma LockedStores(cx: Context, w0: World, ls: seq<Label>, w: World, c: nat, m: nat)
    requires Leads(cx, w0, ls, w) && WellFormed(w) && InStage(w, c, Locked(m)) && !w.gone
    requires !GuardFires(Latest(w).status, w.calls[c].st)
    ensures Leads(cx, w0, ls + [Gets(c, |w.hist| - 1)] + [Puts(c)], WithWrite(w, c, m))
    ensures WellFormed(WithWrite(w, c, m))
  {
    var v := |w.hist| - 1;
    ThenGets(cx, w0, ls, w, c, m, v);
    var w1 := AtStage(w, c, Got(m, v));
    ThenPuts(cx, w0, ls + [Gets(c, v)], w1, c, m, v);
    assert WithWrite(w1, c, m) == WithWrite(w, c, m);
  }

  lemma WaitingStores(cx: Context, w0: World, ls: seq<Label>, w: World, c: nat, m: nat)
    requires Leads(cx, w0, ls, w) && WellFormed(w) && InStage(w, c, Waiting(m)) && Free(w, m) && !w.gone
    requires !GuardFires(Latest(w).status, w.calls[c].st)
    ensures Leads(cx, w0, ls + [Locks(c)] + [Gets(c, |w.hist| - 1)] + [Puts(c)], WithWrite(w, c, m))
    ensures WellFormed(WithWrite(w, c, m))
  {
    ThenLocks(cx, w0, ls, w, c, m);
    var w1 := AtStage(w, c, Locked(m));
    LockedStores(cx, w0, ls + [Locks(c)], w1, c, m);
    assert WithWrite(w1, c, m) == WithWrite(w, c, m);
  }

  lemma ThenStores(cx: Context, w0: World, ls: seq<Label>, w: World, c: nat)
    requires Leads(cx, w0, ls, w) && WellFormed(w) && InStage(w, c, Queued) && Free(w, w.mutex) && !w.gone
    requires !GuardFires(Latest(w).status, w.calls[c].st)
    ensures Leads(cx, w0, ls + [LooksUp(c)] + [Locks(c)] + [Gets(c, |w.hist| - 1)] + [Puts(c)], WithWrite(w, c, w.mutex))
    ensures WellFormed(WithWrite(w, c, w.mutex))
  {
    ThenLooksUp(cx, w0, ls, w, c);
    var w1 := AtStage(w, c, Waiting(w.mutex));
    WaitingStores(cx, w0, ls + [LooksUp(c)], w1, c, w.mutex);
    assert WithWrite(w1, c, w.mutex) == WithWrite(w, c, w.mutex);
  }

  /** The world after an undisturbed call has written and released its mutex. */
  function Written(w: World, c: nat): World
    requires WellFormed(w) && c in w.calls
  {
    w.(hist := w.hist + [Latest(w).(status := w.calls[c].st)], events := w.events + [Wrote(c, |w.hist|, w.calls[c].snap)],
       calls := w.calls - {c},
       cache := w.cache[SpecKey(w.hist[w.calls[c].snap].spec) := w.calls[c].st.installed])
  }

  lemma ThenWrites(cx: Context, w0: World, ls: seq<Label>, w: World, c: nat)
    requires Leads(cx, w0, ls, w) && WellFormed(w) && InStage(w, c, Queued) && Free(w, w.mutex) && !w.gone
    requires !GuardFires(Latest(w).status, w.calls[c].st)
    ensures Leads(cx, w0, ls + [LooksUp(c)] + [Locks(c)] + [Gets(c, |w.hist| - 1)] + [Puts(c)] + [Caches(c)], Written(w, c))
    ensures WellFormed(Written(w, c)) && Free(Written(w, c), w.mutex)
  {
    ThenStores(cx, w0, ls, w, c);
    var w3 := WithWrite(w, c, w.mutex);
    ThenCaches(cx, w0, ls + [LooksUp(c)] + [Locks(c)] + [Gets(c, |w.hist| - 1)] + [Puts(c)], w3, c);
    LeavesNoTrace(w.calls, c, w.calls[c].(stage := Put(w.mutex)));
    assert Cached(w3, c) == Written(w, c);
  }

  lemma LeavesNoTrace(calls: map<nat, Call>, c: nat, p: Call)
    ensures calls[c := p] - {c} == calls - {c}
  {
  }
}
