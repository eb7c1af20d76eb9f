/** The protocol between the two controllers, the API server, Argo and the user, for one addon: every
    interleaving of their calls is a run of this machine. */
module Protocol {
  import opened AddonTypes
  import opened WorkflowNames
  import opened VersionCache
  import opened Reconciler
  import opened Updater

  /** What is on record of a run, in order: phases workflows had, workflows the controller created
      (with the version it acted on and the secrets it had listed), and status writes that landed (with
      the version they made and the one the call had set out from). */
  datatype Event =
    | Reached(wf: string, phase: WfPhase)
    | Created(step: LifecycleStep, snap: nat, secrets: Option<seq<string>>)
    | Wrote(call: nat, version: nat, snap: nat)

  /** A call of the updater has yet to look its mutex up, waits for it, holds it, has read a version,
      or has written. */
  datatype Stage =
    | Queued
    | Waiting(mutex: nat)
    | Locked(mutex: nat)
    | Got(mutex: nat, version: nat)
    | Put(mutex: nat)

  /** A call in flight, with the number of the version it read. */
  datatype Call =
    | Reconciling(snap: nat, at: Point, st: Status, secrets: Option<seq<string>>)
    | Updating(snap: nat, st: Status, stage: Stage)

  /** `hist` holds every version the API server stored, the current one last; the place of a version
      is its resource version. Controllers may read any of them, because their reads are cached.
      `mutex` is the number of the mutex that is looked up for the addon now; once it is dropped, the
      next one is looked up, while calls that have the old one go on with it. */
  datatype World = World(
    hist: seq<Record>, gone: bool,
    wfs: map<string, WfPhase>, events: seq<Event>,
    calls: map<nat, Call>, next: nat,
    mutex: nat, cache: map<Key, Phase>)

  datatype Label =
    | UserEdits(spec: Spec)
    | UserDeletes
    | WfAppears(wf: string, phase: WfPhase)
    | WfVanishes(wf: string)
    | ArgoSets(wf: string, phase: WfPhase)
    | AddonReads(snap: nat)
    | AddonSteps(call: nat, rp: Replies, deleted: set<string>)
    | WorkflowReads(snap: nat, wf: string, phase: WfPhase, message: string)
    | LooksUp(call: nat)
    | Locks(call: nat)
    | Gets(call: nat, version: nat)
    | Puts(call: nat)
    | Caches(call: nat)
    | GivesUp(call: nat)
    | Uncaches(key: Key)
    | Forgets

  function Latest(w: World): Record
    requires w.hist != []
  {
    w.hist[|w.hist| - 1]
  }

  /** A write based on the version `v` lands: nothing has been stored since. */
  predicate IsCurrent(w: World, v: nat) { v + 1 == |w.hist| && !w.gone }

  function SpecKey(spec: Spec): Key { (spec.pkg.name, spec.pkg.version) }

  predicate WellFormed(w: World) {
    && w.hist != []
    && (forall c | c in w.calls :: w.calls[c].snap < |w.hist| && c < w.next)
    && (forall c | c in w.calls && w.calls[c].Updating? && w.calls[c].stage.Got? :: w.calls[c].stage.version < |w.hist|)
  }

  function Start(spec: Spec): World {
    World([Record(spec, EMPTY_STATUS, false, {})], false, map[], [], map[], 0, 0, map[])
  }

  // ---------------------------------------------------------------------------
  // Which steps are possible.

  predicate CanReply(cx: Context, w: World, p: Call, rp: Replies)
    requires p.Reconciling? && p.snap < |w.hist|
  {
    match p.at
    case AddFinalizer => rp.updated ==> IsCurrent(w, p.snap)
    case RemoveFinalizer => rp.updated ==> IsCurrent(w, p.snap)
    case FetchWf(step) =>
      var wf := FormattedName(cx, w.hist[p.snap].spec, step);
      step in rp.phases ==> wf in w.wfs && w.wfs[wf] == rp.phases[step]
    case _ => true
  }

  predicate InStage(w: World, c: nat, stage: Stage) {
    c in w.calls && w.calls[c].Updating? && w.calls[c].stage == stage
  }

  /** The call has locked the mutex `m`. */
  predicate Holds(p: Call, m: nat) {
    p.Updating? && (p.stage.Locked? || p.stage.Got? || p.stage.Put?) && p.stage.mutex == m
  }

  predicate Free(w: World, m: nat) { forall c | c in w.calls :: !Holds(w.calls[c], m) }

  predicate Enabled(cx: Context, w: World, l: Label)
    requires WellFormed(w)
  {
    match l
    case UserEdits(_) => !w.gone
    case UserDeletes => !w.gone
    case WfAppears(wf, _) => wf !in w.wfs
    case WfVanishes(_) => true
    case ArgoSets(wf, _) => wf in w.wfs
    case AddonReads(snap) => snap < |w.hist|
    case AddonSteps(c, rp, _) => c in w.calls && w.calls[c].Reconciling? && CanReply(cx, w, w.calls[c], rp)
    case WorkflowReads(snap, wf, phase, _) => snap < |w.hist| && Reached(wf, phase) in w.events
    case LooksUp(c) => InStage(w, c, Queued)
    case Locks(c) => c in w.calls && w.calls[c].Updating? && w.calls[c].stage.Waiting? && Free(w, w.calls[c].stage.mutex)
    case Gets(c, v) => c in w.calls && w.calls[c].Updating? && w.calls[c].stage.Locked? && v < |w.hist|
    case Puts(c) => c in w.calls && w.calls[c].Updating? && w.calls[c].stage.Got?
    case Caches(c) => c in w.calls && w.calls[c].Updating? && w.calls[c].stage.Put?
    case GivesUp(c) => c in w.calls && w.calls[c].Updating? && !w.calls[c].stage.Put?
    case Uncaches(_) => true
    case Forgets => true
  }

  // ---------------------------------------------------------------------------
  // What they do.

  /** What a step adds to the record and which call it moves: `call` is the call `who` afterwards,
      `None` when it has ended. */
  datatype Change = Change(stored: Option<Record>, noted: Option<Event>, who: Option<nat>, call: Option<Call>)

  const NO_CHANGE := Change(None, None, None, None)

  function Stores(r: Record): Change { NO_CHANGE.(stored := Some(r)) }

  function Notes(e: Event): Change { NO_CHANGE.(noted := Some(e)) }

  function Moves(c: nat, p: Option<Call>): Change { NO_CHANGE.(who := Some(c), call := p) }

  /** A workflow that the submission at a `SubmitWf` point makes. */
  predicate Creates(cx: Context, w: World, p: Call, rp: Replies)
    requires p.Reconciling? && p.snap < |w.hist|
  {
    p.at.SubmitWf? && p.at.step in rp.submitted && FormattedName(cx, w.hist[p.snap].spec, p.at.step) !in w.wfs
  }

  /** Where a reconcile goes on: to its next point, to the updater, or nowhere. */
  function NextCall(cx: Context, r: Record, p: Call, rp: Replies): Option<Call>
    requires p.Reconciling?
  {
    var (at, st) := Advance(cx, r, p.at, p.st, rp);
    match at
    case Write => Some(Updating(p.snap, st, Queued))
    case Stop => None
    case _ => Some(Reconciling(p.snap, at, st, if p.at == ListSecrets then rp.secrets else p.secrets))
  }

  function AddonChange(cx: Context, w: World, c: nat, rp: Replies): Change
    requires WellFormed(w) && c in w.calls && w.calls[c].Reconciling?
  {
    var p := w.calls[c];
    var r := w.hist[p.snap];
    Change(
      if p.at == AddFinalizer && rp.updated then Some(r.(finalizers := r.finalizers + {FINALIZER}))
      else if p.at == RemoveFinalizer && rp.updated then Some(r.(finalizers := r.finalizers - {FINALIZER}))
      else None,
      if Creates(cx, w, p, rp) then Some(Created(p.at.step, p.snap, p.secrets)) else None,
      Some(c), NextCall(cx, r, p, rp))
  }

  function PutChange(w: World, c: nat): Change
    requires WellFormed(w) && c in w.calls && w.calls[c].Updating? && w.calls[c].stage.Got?
  {
    var p := w.calls[c];
    if IsCurrent(w, p.stage.version)
    then Change(Some(Latest(w).(status := p.st)), Some(Wrote(c, |w.hist|, p.snap)), Some(c), Some(p.(stage := Put(p.stage.mutex))))
    else Moves(c, Some(p.(stage := Locked(p.stage.mutex))))
  }

  function ChangeOf(cx: Context, w: World, l: Label): Change
    requires WellFormed(w) && Enabled(cx, w, l)
  {
    match l
    case UserEdits(spec) => Stores(Latest(w).(spec := spec))
    case UserDeletes => if Latest(w).finalizers == {} then NO_CHANGE else Stores(Latest(w).(deleting := true))
    case WfAppears(wf, phase) => Notes(Reached(wf, phase))
    case WfVanishes(_) => NO_CHANGE
    case ArgoSets(wf, phase) => Notes(Reached(wf, phase))
    case AddonReads(snap) => Moves(w.next, Some(Reconciling(snap, Begin, w.hist[snap].status, None)))
    case AddonSteps(c, rp, _) => AddonChange(cx, w, c, rp)
    case WorkflowReads(snap, wf, phase, message) =>
      var got := FromWorkflow(cx, w.hist[snap], wf, phase, message);
      if got == None then NO_CHANGE else Moves(w.next, Some(Updating(snap, got.value, Queued)))
    case LooksUp(c) => Moves(c, Some(w.calls[c].(stage := Waiting(w.mutex))))
    case Locks(c) => Moves(c, Some(w.calls[c].(stage := Locked(w.calls[c].stage.mutex))))
    case Gets(c, v) =>
      Moves(c, if GuardFires(w.hist[v].status, w.calls[c].st) then None
               else Some(w.calls[c].(stage := Got(w.calls[c].stage.mutex, v))))
    case Puts(c) => PutChange(w, c)
    case Caches(c) => Moves(c, None)
    case GivesUp(c) => Moves(c, None)
    case Uncaches(_) => NO_CHANGE
    case Forgets => NO_CHANGE
  }

  /** The object goes when a deletion meets no finalizer, or when its last finalizer does. */
  function GoneAfter(w: World, l: Label): bool
    requires WellFormed(w)
  {
    match l
    case UserDeletes => w.gone || Latest(w).finalizers == {}
    case AddonSteps(c, rp, _) =>
      || w.gone
      || (c in w.calls && w.calls[c].Reconciling? && w.calls[c].at == RemoveFinalizer && rp.updated
          && w.hist[w.calls[c].snap].deleting && w.hist[w.calls[c].snap].finalizers <= {FINALIZER})
    case _ => w.gone
  }

  function WfsAfter(cx: Context, w: World, l: Label): map<string, WfPhase>
    requires WellFormed(w)
  {
    match l
    case WfAppears(wf, phase) => w.wfs[wf := phase]
    case WfVanishes(wf) => w.wfs - {wf}
    case ArgoSets(wf, phase) => w.wfs[wf := phase]
    case AddonSteps(c, rp, deleted) =>
      if c !in w.calls || !w.calls[c].Reconciling? then w.wfs
      else if w.calls[c].at == ListOld && rp.listed then w.wfs - deleted
      else if Creates(cx, w, w.calls[c], rp)
      then w.wfs[FormattedName(cx, w.hist[w.calls[c].snap].spec, w.calls[c].at.step) := WfUnknown]
      else w.wfs
    case _ => w.wfs
  }

  /** A deletion takes the addon out of the cache once its workflow, if it has one, has been looked at. */
  predicate LeavesCache(at: Point, spec: Spec) {
    at == AfterWf(Delete) || (at == RemoveFinalizer && spec.delete.template == "")
  }

  function CacheAfter(w: World, l: Label): map<Key, Phase>
    requires WellFormed(w)
  {
    match l
    case AddonSteps(c, _, _) =>
      if c in w.calls && w.calls[c].Reconciling? && LeavesCache(w.calls[c].at, w.hist[w.calls[c].snap].spec)
      then w.cache - {SpecKey(w.hist[w.calls[c].snap].spec)}
      else w.cache
    case Caches(c) =>
      if c in w.calls then w.cache[SpecKey(w.hist[w.calls[c].snap].spec) := w.calls[c].st.installed] else w.cache
    case Uncaches(key) => w.cache - {key}
    case _ => w.cache
  }

  function Append<T>(s: seq<T>, x: Option<T>): seq<T> { if x == None then s else s + [x.value] }

  function CallsAfter(calls: map<nat, Call>, ch: Change): map<nat, Call> {
    if ch.who == None then calls
    else if ch.call == None then calls - {ch.who.value}
    else calls[ch.who.value := ch.call.value]
  }

  function Step(cx: Context, w: World, l: Label): World
    requires WellFormed(w) && Enabled(cx, w, l)
  {
    var ch := ChangeOf(cx, w, l);
    World(Append(w.hist, ch.stored), GoneAfter(w, l), WfsAfter(cx, w, l), Append(w.events, ch.noted),
          CallsAfter(w.calls, ch), if ch.who == Some(w.next) then w.next + 1 else w.next,
          if l.Forgets? then w.mutex + 1 else w.mutex, CacheAfter(w, l))
  }

  // ---------------------------------------------------------------------------
  // Runs.

  lemma ChangeFits(cx: Context, w: World, l: Label)
    requires WellFormed(w) && Enabled(cx, w, l)
    ensures var ch := ChangeOf(cx, w, l);
            && (ch.who.Some? ==> ch.who.value <= w.next)
            && (ch.who.Some? && ch.call.Some? ==>
                  && ch.call.value.snap < |w.hist|
                  && (ch.call.value.Updating? && ch.call.value.stage.Got? ==> ch.call.value.stage.version < |w.hist|))
  {
  }

  /** Only a landed write of the updater stores another status. */
  lemma StoredStatus(cx: Context, w: World, l: Label)
    requires WellFormed(w) && Enabled(cx, w, l) && ChangeOf(cx, w, l).stored.Some?
    ensures ChangeOf(cx, w, l).stored.value.status == if l.Puts? then w.calls[l.call].st else Latest(w).status
  {
  }

  lemma {:induction false} StepWellFormed(cx: Context, w: World, l: Label)
    requires WellFormed(w) && Enabled(cx, w, l)
    ensures WellFormed(Step(cx, w, l))
  {
    ChangeFits(cx, w, l);
  }

  /** The world a sequence of steps leads to; `None` if some step is not possible. */
  function Play(cx: Context, w: World, ls: seq<Label>): (end: Option<World>)
    requires WellFormed(w)
    ensures end.Some? ==> WellFormed(end.value)
  {
    if ls == [] then Some(w)
    else
      var n := |ls| - 1;
      var before := Play(cx, w, ls[..n]);
      if before.Some? && Enabled(cx, before.value, ls[n]) then
        StepWellFormed(cx, before.value, ls[n]);
        Some(Step(cx, before.value, ls[n]))
      else None
  }

  /** The last step of a run, taken apart. */
  lemma LastStep(cx: Context, w: World, ls: seq<Label>, w': World) returns (before: World)
    requires WellFormed(w) && ls != [] && Play(cx, w, ls) == Some(w')
    ensures Play(cx, w, ls[..|ls| - 1]) == Some(before)
    ensures WellFormed(before) && Enabled(cx, before, ls[|ls| - 1]) && Step(cx, before, ls[|ls| - 1]) == w'
  {
    before := Play(cx, w, ls[..|ls| - 1]).value;
  }

  /** `w` is reached from a new addon by the steps `ls`. */
  ghost predicate Run(cx: Context, spec: Spec, ls: seq<Label>, w: World) {
    Play(cx, Start(spec), ls) == Some(w)
  }
}
