/** The validation of an addon: duplicates, name length, namespace, and whether its dependencies are
    resolvable and installed (pkg/addon/addon_validator.go). */
module Validation {
  import opened AddonTypes
  import opened Text
  import opened VersionCache
  import opened Dependencies
  import WorkflowNames

  datatype Finding = AnySucceeded | ExactSucceeded | ExactPending | NotInstalled

  predicate Unsatisfied(f: Finding) { f == ExactPending || f == NotInstalled }

  /** What looking at the dependency `d` may find. */
  ghost predicate Finds(s: Snapshot, deps: map<string, string>, d: string, f: Finding)
    requires d in deps
  {
    var pkg, ver := Trim(d), Trim(deps[d]);
    if ver == "*" then
      f == if exists v :: (pkg, v) in s.flat && s.flat[(pkg, v)].phase == Succeeded then AnySucceeded else NotInstalled
    else
      exists answer :: Answers(s.flat, s.sat, pkg, ver, answer) && f == Judge(answer)
  }

  function Judge(answer: Option<Version>): Finding {
    if answer == None then NotInstalled
    else match answer.value.phase
         case Succeeded => ExactSucceeded
         case Pending => ExactPending
         case _ => NotInstalled
  }

  /** The result of visiting the dependencies in one order; `None` is success. The first dependency
      on an exact version that succeeded ends the visit. */
  function Visit(findings: map<string, Finding>, order: seq<string>): (complaint: Option<Finding>)
    requires forall d | d in order :: d in findings
    ensures complaint.Some? ==>
              Unsatisfied(complaint.value) && exists d | d in order :: findings[d] == complaint.value
  {
    if order == [] then None
    else match findings[order[0]]
         case AnySucceeded => Visit(findings, order[1..])
         case ExactSucceeded => None
         case f => Some(f)
  }

  ghost predicate IsOrder(order: seq<string>, keys: set<string>) {
    && (forall d :: d in order <==> d in keys)
    && (forall i, j | 0 <= i < j < |order| :: order[i] != order[j])
  }

  lemma {:induction false} OrdersAppend(a: seq<string>, own: set<string>, b: seq<string>, bs: set<string>)
    requires IsOrder(a, own) && IsOrder(b, bs) && own !! bs
    ensures IsOrder(a + b, own + bs)
  {
    forall i, j | 0 <= i < j < |a + b| ensures (a + b)[i] != (a + b)[j] {
      if i < |a| <= j {
        assert a[i] in own && b[j - |a|] in bs;
      }
    }
  }

  lemma {:induction false} OrderOf(keys: set<string>) returns (order: seq<string>)
    ensures IsOrder(order, keys)
  {
    if keys == {} {
      order := [];
    } else {
      var d :| d in keys;
      var rest := OrderOf(keys - {d});
      order := [d] + rest;
    }
  }

  lemma {:induction false} OrderStarting(keys: set<string>, d: string) returns (order: seq<string>)
    requires d in keys
    ensures IsOrder(order, keys) && order[0] == d
  {
    var rest := OrderOf(keys - {d});
    order := [d] + rest;
  }

  lemma {:induction false} VisitPasses(findings: map<string, Finding>, order: seq<string>)
    requires forall d | d in order :: d in findings
    ensures (forall d | d in order :: !Unsatisfied(findings[d])) ==> Visit(findings, order) == None
    ensures ((forall d | d in order :: findings[d] != ExactSucceeded)
             && (exists d | d in order :: Unsatisfied(findings[d]))) ==> Visit(findings, order) != None
  {
    if order != [] {
      VisitPasses(findings, order[1..]);
      assert order == [order[0]] + order[1..];
    }
  }

  ghost predicate PassesInEveryOrder(findings: map<string, Finding>) {
    forall order | IsOrder(order, findings.Keys) :: Visit(findings, order) == None
  }

  ghost predicate PassesInSomeOrder(findings: map<string, Finding>) {
    exists order | IsOrder(order, findings.Keys) :: Visit(findings, order) == None
  }

  /** The verdict over all iteration orders: every order passes exactly when no dependency is
      unsatisfied; some order passes exactly when, besides, one exact dependency has succeeded. So the
      order matters exactly when an unsatisfied and an exactly satisfied dependency meet. */
  lemma {:induction false} VisitOverOrders(findings: map<string, Finding>)
    ensures PassesInEveryOrder(findings) <==> forall d | d in findings :: !Unsatisfied(findings[d])
    ensures PassesInSomeOrder(findings) <==>
            || (forall d | d in findings :: !Unsatisfied(findings[d]))
            || (exists d :: d in findings && findings[d] == ExactSucceeded)
  {
    forall order | IsOrder(order, findings.Keys)
      ensures (forall d | d in findings :: !Unsatisfied(findings[d])) ==> Visit(findings, order) == None
      ensures ((forall d | d in findings :: findings[d] != ExactSucceeded)
               && (exists d :: d in findings && Unsatisfied(findings[d]))) ==> Visit(findings, order) != None
    {
      VisitPasses(findings, order);
    }
    var any := OrderOf(findings.Keys);
    if d :| d in findings && Unsatisfied(findings[d]) {
      var order := OrderStarting(findings.Keys, d);
      assert Visit(findings, order) != None;
    }
    if d :| d in findings && findings[d] == ExactSucceeded {
      var order := OrderStarting(findings.Keys, d);
      assert Visit(findings, order) == None;
    }
  }

  /** Each dependency has a finding that the cache may show. */
  ghost predicate Found(s: Snapshot, deps: map<string, string>, findings: map<string, Finding>) {
    findings.Keys == deps.Keys && forall d | d in deps :: Finds(s, deps, d, findings[d])
  }

  lemma {:induction false} FoundAgain(s: Snapshot, deps: map<string, string>, findings: map<string, Finding>, d: string, f: Finding)
    requires Found(s, deps, findings) && d in deps && Finds(s, deps, d, f)
    ensures Found(s, deps, findings[d := f])
  {
  }

  /** `order` lists exactly the dependencies no longer to do, all of them satisfied by a range. */
  ghost predicate Visited(findings: map<string, Finding>, order: seq<string>, todo: set<string>) {
    todo <= findings.Keys && IsOrder(order, findings.Keys - todo) && forall d | d in order :: findings[d] == AnySucceeded
  }

  lemma {:induction false} VisitGoesOn(findings: map<string, Finding>, order: seq<string>, todo: set<string>, d: string)
    requires Visited(findings, order, todo) && d in todo
    ensures Visited(findings[d := AnySucceeded], order + [d], todo - {d})
  {
    OrdersAppend(order, findings.Keys - todo, [d], {d});
    assert findings.Keys - todo + {d} == findings.Keys - (todo - {d});
  }

  lemma {:induction false} VisitEnds(findings: map<string, Finding>, order: seq<string>, todo: set<string>, d: string, f: Finding)
    returns (whole: seq<string>)
    requires Visited(findings, order, todo) && d in todo && f != AnySucceeded
    ensures IsOrder(whole, findings.Keys)
    ensures Visit(findings[d := f], whole) == if f == ExactSucceeded then None else Some(f)
  {
    var rest := OrderStarting(todo, d);
    whole := order + rest;
    OrdersAppend(order, findings.Keys - todo, rest, todo);
    assert findings.Keys - todo + todo == findings.Keys;
    VisitContinues(findings[d := f], order, rest);
  }

  ghost function AnyFinding(s: Snapshot, deps: map<string, string>, d: string): (f: Finding)
    requires d in deps
    ensures Finds(s, deps, d, f)
  {
    var pkg, ver := Trim(d), Trim(deps[d]);
    if ver == "*" then
      if exists v :: (pkg, v) in s.flat && s.flat[(pkg, v)].phase == Succeeded then AnySucceeded else NotInstalled
    else
      AnAnswer(s, pkg, ver);
      var answer :| Answers(s.flat, s.sat, pkg, ver, answer);
      Judge(answer)
  }

  lemma {:induction false} AnAnswer(s: Snapshot, pkg: string, ver: string)
    ensures exists answer :: Answers(s.flat, s.sat, pkg, ver, answer)
  {
    if (pkg, ver) in s.flat {
      assert Answers(s.flat, s.sat, pkg, ver, Some(s.flat[(pkg, ver)]));
    } else if v :| (pkg, v) in s.flat && s.sat(ver, v) {
      assert Answers(s.flat, s.sat, pkg, ver, Some(s.flat[(pkg, v)]));
    } else {
      assert Answers(s.flat, s.sat, pkg, ver, None);
    }
  }

  /** The checks of all dependencies may end like this: visiting them in some order does, each found
      as the cache may show it. */
  ghost predicate MayEnd(s: Snapshot, deps: map<string, string>, complaint: Option<Finding>) {
    exists findings, order :: EndsWith(s, deps, findings, order, complaint)
  }

  ghost predicate EndsWith(s: Snapshot, deps: map<string, string>, findings: map<string, Finding>, order: seq<string>,
                           complaint: Option<Finding>)
  {
    Found(s, deps, findings) && IsOrder(order, deps.Keys) && Visit(findings, order) == complaint
  }

  lemma {:induction false} Ends(s: Snapshot, deps: map<string, string>, findings: map<string, Finding>, order: seq<string>,
             complaint: Option<Finding>)
    requires Found(s, deps, findings) && IsOrder(order, deps.Keys) && Visit(findings, order) == complaint
    ensures MayEnd(s, deps, complaint)
  {
    assert EndsWith(s, deps, findings, order, complaint);
  }

  /** A complaint is about a dependency that the cache may show unsatisfied; without one, all pass in some order. */
  lemma {:induction false} EndMeans(s: Snapshot, deps: map<string, string>, complaint: Option<Finding>)
    requires MayEnd(s, deps, complaint)
    ensures complaint.Some? ==> Unsatisfied(complaint.value) && exists d | d in deps :: Finds(s, deps, d, complaint.value)
    ensures complaint == None ==>
              exists findings: map<string, Finding> :: Found(s, deps, findings) && PassesInSomeOrder(findings)
  {
    var findings, order :| EndsWith(s, deps, findings, order, complaint);
    if complaint == None {
      assert PassesInSomeOrder(findings);
    }
  }

  /** The checks pass if all dependencies are found satisfied by a range, or if one found satisfied by
      an exact version comes first. */
  lemma {:induction false} PassesIf(s: Snapshot, deps: map<string, string>, findings: map<string, Finding>)
    requires Found(s, deps, findings)
    requires (forall d | d in deps :: findings[d] == AnySucceeded) || exists d :: d in deps && findings[d] == ExactSucceeded
    ensures MayEnd(s, deps, None)
  {
    VisitOverOrders(findings);
    var order :| IsOrder(order, findings.Keys) && Visit(findings, order) == None;
    Ends(s, deps, findings, order, None);
  }

  /** The findings of a cache, with one of them chosen. */
  lemma {:induction false} Choose(s: Snapshot, deps: map<string, string>, d: string, f: Finding) returns (findings: map<string, Finding>)
    requires d in deps && Finds(s, deps, d, f)
    ensures Found(s, deps, findings) && findings[d] == f
  {
    findings := (map x | x in deps :: AnyFinding(s, deps, x))[d := f];
  }

  lemma {:induction false} ComplainsIf(s: Snapshot, deps: map<string, string>, d: string, f: Finding)
    requires d in deps && Finds(s, deps, d, f) && Unsatisfied(f)
    ensures MayEnd(s, deps, Some(f))
  {
    var findings := Choose(s, deps, d, f);
    var order := OrderStarting(findings.Keys, d);
    Ends(s, deps, findings, order, Some(f));
  }

  lemma {:induction false} PassesOnlyIf(s: Snapshot, deps: map<string, string>)
    requires MayEnd(s, deps, None)
    ensures || (exists d :: d in deps && Finds(s, deps, d, ExactSucceeded))
            || (forall d | d in deps :: Finds(s, deps, d, AnySucceeded))
  {
    var findings, order :| EndsWith(s, deps, findings, order, None);
    assert PassesInSomeOrder(findings);
    VisitOverOrders(findings);
  }

  // ---------------------------------------------------------------------------
  // The verdict in terms of the cached phases.

  /** The dependency is on a package, whatever its version. */
  ghost predicate OnAny(deps: map<string, string>, d: string, pkg: string)
    requires d in deps
  {
    Pads(d, pkg) && Pads(deps[d], "*")
  }

  /** The dependency is on a version or a range of versions of a package. */
  ghost predicate OnVersion(deps: map<string, string>, d: string, pkg: string, ver: string)
    requires d in deps
  {
    Pads(d, pkg) && Pads(deps[d], ver) && ver != "*"
  }

  /** Looking up a dependency on a version may find one in this phase. */
  ghost predicate MayBeIn(s: Snapshot, deps: map<string, string>, d: string, phase: Phase)
    requires d in deps
  {
    exists pkg, ver, v :: OnVersion(deps, d, pkg, ver) && Answers(s.flat, s.sat, pkg, ver, Some(v)) && v.phase == phase
  }

  /** Looking up a dependency on a version may find one that is neither pending nor a success. */
  ghost predicate MayBeOther(s: Snapshot, deps: map<string, string>, d: string)
    requires d in deps
  {
    exists pkg, ver, v :: && OnVersion(deps, d, pkg, ver) && Answers(s.flat, s.sat, pkg, ver, Some(v))
                          && v.phase != Succeeded && v.phase != Pending
  }

  ghost predicate MayBeMissing(s: Snapshot, deps: map<string, string>, d: string)
    requires d in deps
  {
    exists pkg, ver :: OnVersion(deps, d, pkg, ver) && Answers(s.flat, s.sat, pkg, ver, None)
  }

  /** The dependency is on any version of a package, and some cached one has succeeded. */
  ghost predicate SomeSucceeded(s: Snapshot, deps: map<string, string>, d: string)
    requires d in deps
  {
    exists pkg, v :: OnAny(deps, d, pkg) && (pkg, v) in s.flat && s.flat[(pkg, v)].phase == Succeeded
  }

  ghost predicate NoneSucceeded(s: Snapshot, deps: map<string, string>, d: string)
    requires d in deps
  {
    exists pkg :: OnAny(deps, d, pkg) && forall v | (pkg, v) in s.flat :: s.flat[(pkg, v)].phase != Succeeded
  }

  lemma {:induction false} OnTrimmed(deps: map<string, string>, d: string)
    requires d in deps
    ensures forall pkg :: OnAny(deps, d, pkg) <==> pkg == Trim(d) && Trim(deps[d]) == "*"
    ensures forall pkg, ver :: OnVersion(deps, d, pkg, ver) <==> pkg == Trim(d) && ver == Trim(deps[d]) && ver != "*"
  {
    forall pkg ensures Trim(d) == pkg <==> Pads(d, pkg) { TrimExactly(d, pkg); }
    forall ver ensures Trim(deps[d]) == ver <==> Pads(deps[d], ver) { TrimExactly(deps[d], ver); }
  }

  /** What is found about a dependency, by the phases of what the cache shows. */
  lemma {:induction false} FindsExactly(s: Snapshot, deps: map<string, string>, d: string)
    requires d in deps
    ensures Finds(s, deps, d, ExactSucceeded) <==> MayBeIn(s, deps, d, Succeeded)
    ensures Finds(s, deps, d, ExactPending) <==> MayBeIn(s, deps, d, Pending)
    ensures Finds(s, deps, d, AnySucceeded) <==> SomeSucceeded(s, deps, d)
    ensures Finds(s, deps, d, NotInstalled) <==>
            NoneSucceeded(s, deps, d) || MayBeMissing(s, deps, d) || MayBeOther(s, deps, d)
  {
    OnTrimmed(deps, d);
    if Trim(deps[d]) == "*" {
      FindsAny(s, deps, d, Trim(d));
    } else {
      FindsVersion(s, deps, d, Trim(d), Trim(deps[d]));
    }
  }

  lemma {:induction false} FindsAny(s: Snapshot, deps: map<string, string>, d: string, pkg: string)
    requires d in deps && pkg == Trim(d) && Trim(deps[d]) == "*"
    requires forall p :: OnAny(deps, d, p) <==> p == pkg
    requires forall p, ver :: !OnVersion(deps, d, p, ver)
    ensures !Finds(s, deps, d, ExactSucceeded) && !Finds(s, deps, d, ExactPending)
    ensures Finds(s, deps, d, AnySucceeded) <==> SomeSucceeded(s, deps, d)
    ensures Finds(s, deps, d, NotInstalled) <==> NoneSucceeded(s, deps, d)
    ensures !MayBeMissing(s, deps, d) && !MayBeOther(s, deps, d) && forall phase :: !MayBeIn(s, deps, d, phase)
  {
    assert OnAny(deps, d, pkg);
  }

  lemma {:induction false} FindsVersion(s: Snapshot, deps: map<string, string>, d: string, pkg: string, ver: string)
    requires d in deps && pkg == Trim(d) && ver == Trim(deps[d]) && ver != "*"
    requires forall p :: !OnAny(deps, d, p)
    requires forall p, x :: OnVersion(deps, d, p, x) <==> p == pkg && x == ver
    ensures Finds(s, deps, d, ExactSucceeded) <==> MayBeIn(s, deps, d, Succeeded)
    ensures Finds(s, deps, d, ExactPending) <==> MayBeIn(s, deps, d, Pending)
    ensures !Finds(s, deps, d, AnySucceeded) && !SomeSucceeded(s, deps, d) && !NoneSucceeded(s, deps, d)
    ensures Finds(s, deps, d, NotInstalled) <==> MayBeMissing(s, deps, d) || MayBeOther(s, deps, d)
  {
    VersionIn(s, deps, d, pkg, ver, Succeeded);
    VersionIn(s, deps, d, pkg, ver, Pending);
    VersionOther(s, deps, d, pkg, ver);
    JudgeFinds(s, deps, d, pkg, ver);
  }

  lemma {:induction false} VersionIn(s: Snapshot, deps: map<string, string>, d: string, pkg: string, ver: string, phase: Phase)
    requires d in deps && forall p, x :: OnVersion(deps, d, p, x) <==> p == pkg && x == ver
    ensures MayBeIn(s, deps, d, phase) <==> exists v :: Answers(s.flat, s.sat, pkg, ver, Some(v)) && v.phase == phase
  {
    assert OnVersion(deps, d, pkg, ver);
  }

  lemma {:induction false} VersionOther(s: Snapshot, deps: map<string, string>, d: string, pkg: string, ver: string)
    requires d in deps && forall p, x :: OnVersion(deps, d, p, x) <==> p == pkg && x == ver
    ensures MayBeOther(s, deps, d) <==>
            exists v :: Answers(s.flat, s.sat, pkg, ver, Some(v)) && v.phase != Succeeded && v.phase != Pending
    ensures MayBeMissing(s, deps, d) <==> Answers(s.flat, s.sat, pkg, ver, None)
  {
    assert OnVersion(deps, d, pkg, ver);
  }

  lemma {:induction false} JudgeFinds(s: Snapshot, deps: map<string, string>, d: string, pkg: string, ver: string)
    requires d in deps && pkg == Trim(d) && ver == Trim(deps[d]) && ver != "*"
    ensures Finds(s, deps, d, ExactSucceeded) <==> exists v :: Answers(s.flat, s.sat, pkg, ver, Some(v)) && v.phase == Succeeded
    ensures Finds(s, deps, d, ExactPending) <==> exists v :: Answers(s.flat, s.sat, pkg, ver, Some(v)) && v.phase == Pending
    ensures !Finds(s, deps, d, AnySucceeded)
    ensures Finds(s, deps, d, NotInstalled) <==>
            || Answers(s.flat, s.sat, pkg, ver, None)
            || exists v :: Answers(s.flat, s.sat, pkg, ver, Some(v)) && v.phase != Succeeded && v.phase != Pending
  {
    forall v | Answers(s.flat, s.sat, pkg, ver, Some(v)) ensures Finds(s, deps, d, Judge(Some(v))) {}
    if Answers(s.flat, s.sat, pkg, ver, None) { assert Finds(s, deps, d, Judge(None)); }
  }

  /** For every cache and all dependencies: the checks can pass exactly when some dependency on a version
      may be found with that version succeeded, or all dependencies are on any version of a package
      of which one has succeeded; they can report a pending dependency exactly when one may be found
      pending, and one that is not installed exactly when one may be missing or found in another
      phase, or is on any version of a package of which none has succeeded; and they report nothing else. */
  lemma {:induction false} EndsExactly(s: Snapshot, deps: map<string, string>)
    ensures MayEnd(s, deps, None) <==>
            || (exists d | d in deps :: MayBeIn(s, deps, d, Succeeded))
            || (forall d | d in deps :: SomeSucceeded(s, deps, d))
    ensures MayEnd(s, deps, Some(ExactPending)) <==> exists d | d in deps :: MayBeIn(s, deps, d, Pending)
    ensures MayEnd(s, deps, Some(NotInstalled)) <==>
            exists d | d in deps ::
              NoneSucceeded(s, deps, d) || MayBeMissing(s, deps, d) || MayBeOther(s, deps, d)
    ensures forall f | MayEnd(s, deps, Some(f)) :: f == ExactPending || f == NotInstalled
  {
    PassesExactly(s, deps);
    ComplainsExactly(s, deps);
  }

  lemma {:induction false} PassesExactly(s: Snapshot, deps: map<string, string>)
    ensures MayEnd(s, deps, None) <==>
            || (exists d | d in deps :: MayBeIn(s, deps, d, Succeeded))
            || (forall d | d in deps :: SomeSucceeded(s, deps, d))
  {
    EndsByFindings(s, deps);
    forall d | d in deps
      ensures Finds(s, deps, d, ExactSucceeded) <==> MayBeIn(s, deps, d, Succeeded)
      ensures Finds(s, deps, d, AnySucceeded) <==> SomeSucceeded(s, deps, d)
    {
      FindsExactly(s, deps, d);
    }
  }

  lemma {:induction false} ComplainsExactly(s: Snapshot, deps: map<string, string>)
    ensures MayEnd(s, deps, Some(ExactPending)) <==> exists d | d in deps :: MayBeIn(s, deps, d, Pending)
    ensures MayEnd(s, deps, Some(NotInstalled)) <==>
            exists d | d in deps :: NoneSucceeded(s, deps, d) || MayBeMissing(s, deps, d) || MayBeOther(s, deps, d)
    ensures forall f | MayEnd(s, deps, Some(f)) :: f == ExactPending || f == NotInstalled
  {
    EndsByFindings(s, deps);
    forall d | d in deps
      ensures Finds(s, deps, d, ExactPending) <==> MayBeIn(s, deps, d, Pending)
      ensures Finds(s, deps, d, NotInstalled) <==>
              NoneSucceeded(s, deps, d) || MayBeMissing(s, deps, d) || MayBeOther(s, deps, d)
    {
      FindsExactly(s, deps, d);
    }
  }

  lemma {:induction false} EndsByFindings(s: Snapshot, deps: map<string, string>)
    ensures MayEnd(s, deps, None) <==>
            || (exists d :: d in deps && Finds(s, deps, d, ExactSucceeded))
            || (forall d | d in deps :: Finds(s, deps, d, AnySucceeded))
    ensures forall f :: MayEnd(s, deps, Some(f)) <==> Unsatisfied(f) && exists d | d in deps :: Finds(s, deps, d, f)
  {
    if MayEnd(s, deps, None) { PassesOnlyIf(s, deps); }
    if d :| d in deps && Finds(s, deps, d, ExactSucceeded) {
      var findings := Choose(s, deps, d, ExactSucceeded);
      PassesIf(s, deps, findings);
    }
    if forall d | d in deps :: Finds(s, deps, d, AnySucceeded) {
      PassesIf(s, deps, map d | d in deps :: AnySucceeded);
    }
    forall f ensures MayEnd(s, deps, Some(f)) <==> Unsatisfied(f) && exists d | d in deps :: Finds(s, deps, d, f) {
      if MayEnd(s, deps, Some(f)) { EndMeans(s, deps, Some(f)); }
      if d :| d in deps && Finds(s, deps, d, f) && Unsatisfied(f) { ComplainsIf(s, deps, d, f); }
    }
  }

  datatype Complaint =
    | Duplicate | NameTooLong | NoNamespace | BadWorkflow
    | Unresolved(verdict: Verdict) | Dependency(finding: Finding)

  /** The cache may show that another addon holds the package version of `v`, or that none does. */
  ghost predicate MayBeTaken(s: Snapshot, v: Version, taken: bool) {
    exists answer :: && Answers(s.flat, s.sat, v.pkg.name, v.pkg.version, answer)
                     && (taken <==> answer.Some? && answer.value.name != v.name)
  }

  class Validator {
    const cache: Cache

    constructor (cache: Cache)
      ensures this.cache == cache
    {
      this.cache := cache;
    }

    ghost function View(): Snapshot
      reads cache`addons
    {
      Snapshot(cache.Contents(), cache.sat)
    }

    method ValidateDuplicate(v: Version) returns (dup: bool)
      ensures MayBeTaken(View(), v, dup)
    {
      var answer := cache.GetVersion(v.pkg.name, v.pkg.version);
      dup := answer.Some? && answer.value.name != v.name;
    }

    /** What one dependency looks like in the cache. */
    method Inspect(deps: map<string, string>, d: string) returns (f: Finding)
      requires d in deps
      ensures Finds(View(), deps, d, f)
    {
      var pkg, ver := Trim(d), Trim(deps[d]);
      if ver == "*" {
        var versions := cache.GetVersions(pkg);
        assert forall v :: (pkg, v) in View().flat <==> versions.Some? && v in versions.value;
        if versions == None {
          return NotInstalled;
        }
        var todo := versions.value.Keys;
        while todo != {}
          invariant todo <= versions.value.Keys
          invariant forall v | v in versions.value && v !in todo :: versions.value[v].phase != Succeeded
        {
          var v :| v in todo;
          if versions.value[v].phase == Succeeded {
            assert (pkg, v) in View().flat;
            return AnySucceeded;
          }
          todo := todo - {v};
        }
        return NotInstalled;
      } else {
        var answer := cache.GetVersion(pkg, ver);
        return Judge(answer);
      }
    }

    method ValidateDependencies(deps: map<string, string>) returns (complaint: Option<Finding>)
      ensures MayEnd(View(), deps, complaint)
    {
      ghost var s := View();
      ghost var findings, order := map d | d in deps :: AnyFinding(s, deps, d), [];
      var todo := deps.Keys;
      while todo != {}
        invariant Found(s, deps, findings) && Visited(findings, order, todo)
      {
        var d :| d in todo;
        var f := Inspect(deps, d);
        FoundAgain(s, deps, findings, d, f);
        if f != AnySucceeded {
          order := VisitEnds(findings, order, todo, d, f);
          complaint := if f == ExactSucceeded then None else Some(f);
          Ends(s, deps, findings[d := f], order, complaint);
          return;
        }
        VisitGoesOn(findings, order, todo, d);
        findings, order, todo := findings[d := f], order + [d], todo - {d};
      }
      VisitPasses(findings, order);
      Ends(s, deps, findings, order, None);
      return None;
    }

    /** The whole validation; the workflow templates are judged elsewhere. */
    method Validate(v: Version, namespace: string, templatesValid: bool) returns (complaint: Option<Complaint>)
      ensures complaint == Some(Duplicate) ==> MayBeTaken(View(), v, true)
      ensures complaint == Some(NameTooLong) ==> !WorkflowNames.NameLengthValid(v.name)
      ensures complaint == Some(NoNamespace) ==> namespace == ""
      ensures complaint == Some(BadWorkflow) ==> !templatesValid
      ensures complaint == None ==>
                && MayBeTaken(View(), v, false) && WorkflowNames.NameLengthValid(v.name) && namespace != "" && templatesValid
                && SomeWay(View(), v, {Label(v)}) && (exists rank :: Certificate(View(), v, rank))
                && MayEnd(View(), v.pkg.deps, None)
      ensures Healthy(View(), v) ==> !(complaint.Some? && complaint.value.Unresolved?)
      ensures complaint == Some(Duplicate) || MayBeTaken(View(), v, false)
      ensures complaint != Some(Duplicate) && |v.name| > 31 ==> complaint == Some(NameTooLong)
      ensures complaint !in {Some(Duplicate), Some(NameTooLong)} && namespace == "" ==> complaint == Some(NoNamespace)
      ensures complaint !in {Some(Duplicate), Some(NameTooLong), Some(NoNamespace)} && !templatesValid ==>
                complaint == Some(BadWorkflow)
      ensures complaint.Some? && complaint.value.Dependency? ==>
                SomeWay(View(), v, {Label(v)}) && MayEnd(View(), v.pkg.deps, Some(complaint.value.finding))
      ensures complaint.Some? && complaint.value == Unresolved(TooDeep) ==> |Labels(View())| >= MAX_DEPTH
    {
      var dup := ValidateDuplicate(v);
      if dup {
        return Some(Duplicate);
      }
      if |v.name| > 31 {
        return Some(NameTooLong);
      }
      if namespace == "" {
        return Some(NoNamespace);
      }
      if !templatesValid {
        return Some(BadWorkflow);
      }
      var resolver := new Resolver(cache);
      var verdict := resolver.Resolve(v);
      if verdict != Resolved {
        return Some(Unresolved(verdict));
      }
      var finding := ValidateDependencies(v.pkg.deps);
      if finding.Some? {
        return Some(Dependency(finding.value));
      }
      return None;
    }
  }

  lemma {:induction false} VisitContinues(findings: map<string, Finding>, done: seq<string>, rest: seq<string>)
    requires forall d | d in done + rest :: d in findings
    requires forall d | d in done :: findings[d] == AnySucceeded
    ensures Visit(findings, done + rest) == Visit(findings, rest)
  {
    if done == [] {
      assert done + rest == rest;
    } else {
      assert (done + rest)[1..] == done[1..] + rest;
      assert forall d | d in done[1..] + rest :: d in done + rest;
      VisitContinues(findings, done[1..], rest);
    }
  }
}
