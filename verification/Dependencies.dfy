/** Dependency resolution: what the depth-first search of pkg/addon/addon_validator.go decides,
    stated over the graph that one snapshot of the version cache spans. */
module Dependencies {
  import opened AddonTypes
  import opened Text
  import opened VersionCache

  const MAX_DEPTH := 256

  /** A snapshot of the cache together with the constraint check. */
  datatype Snapshot = Snapshot(flat: map<Key, Version>, sat: (string, string) -> bool)

  function Label(v: Version): string { v.pkg.name + ":" + v.pkg.version }

  ghost function Labels(s: Snapshot): set<string> {
    set k | k in s.flat :: Label(s.flat[k])
  }

  ghost predicate MayAnswer(s: Snapshot, n: Version, d: string, answer: Option<Version>)
    requires d in n.pkg.deps
  {
    Answers(s.flat, s.sat, Trim(d), Trim(n.pkg.deps[d]), answer)
  }

  /** `v` is a version that the dependency `d` of `n` may resolve to. */
  ghost predicate Candidate(s: Snapshot, n: Version, d: string, v: Version) {
    d in n.pkg.deps && MayAnswer(s, n, d, Some(v))
  }

  /** A dependency is looked up by its package name and version without the white space around them. */
  lemma {:induction false} LooksUpTrimmed(s: Snapshot, n: Version, d: string, answer: Option<Version>)
    requires d in n.pkg.deps
    ensures MayAnswer(s, n, d, answer) <==>
            exists pkg, ver :: Pads(d, pkg) && Pads(n.pkg.deps[d], ver) && Answers(s.flat, s.sat, pkg, ver, answer)
    ensures Trim(d) == n.pkg.name <==> Pads(d, n.pkg.name)
  {
    var x := n.pkg.deps[d];
    TrimExactly(d, Trim(d));
    TrimExactly(x, Trim(x));
    TrimExactly(d, n.pkg.name);
    forall pkg, ver | Pads(d, pkg) && Pads(x, ver) ensures pkg == Trim(d) && ver == Trim(x) {
      TrimExactly(d, pkg);
      TrimExactly(x, ver);
    }
  }

  lemma {:induction false} CandidateIsCached(s: Snapshot, n: Version, d: string, v: Version)
    requires Candidate(s, n, d, v)
    ensures v in s.flat.Values && Label(v) in Labels(s)
  {
  }

  // ---------------------------------------------------------------------------
  // What the search establishes. `path` holds the labels on the way to `n`, that of `n` included.

  /** Some way of answering the lookups below `n` resolves everything. */
  ghost predicate SomeWay(s: Snapshot, n: Version, path: set<string>)
    decreases Labels(s) - path, 1
  {
    |path| <= MAX_DEPTH && forall d | d in n.pkg.deps :: SomeWayVia(s, n, path, d)
  }

  ghost predicate SomeWayVia(s: Snapshot, n: Version, path: set<string>, d: string)
    requires d in n.pkg.deps
    decreases Labels(s) - path, 0
  {
    && Trim(d) != n.pkg.name
    && exists v :: Candidate(s, n, d, v) && Fresh(s, v, path) && SomeWay(s, v, path + {Label(v)})
  }

  /** Every way of answering the lookups below `n` resolves everything. */
  ghost predicate EveryWay(s: Snapshot, n: Version, path: set<string>)
    decreases Labels(s) - path, 1
  {
    |path| <= MAX_DEPTH && forall d | d in n.pkg.deps :: EveryWayVia(s, n, path, d)
  }

  ghost predicate EveryWayVia(s: Snapshot, n: Version, path: set<string>, d: string)
    requires d in n.pkg.deps
    decreases Labels(s) - path, 0
  {
    && Trim(d) != n.pkg.name
    && !MayAnswer(s, n, d, None)
    && forall v :: Candidate(s, n, d, v) ==> Fresh(s, v, path) && EveryWay(s, v, path + {Label(v)})
  }

  ghost predicate Fresh(s: Snapshot, v: Version, path: set<string>) {
    Label(v) in Labels(s) && Label(v) !in path
  }

  /** Whatever the dependency `d` of `n` may resolve to is on the path. */
  ghost predicate AllOnPath(s: Snapshot, n: Version, d: string, path: set<string>)
    requires d in n.pkg.deps
  {
    !MayAnswer(s, n, d, None) && forall v | Candidate(s, n, d, v) :: Label(v) in path
  }

  // ---------------------------------------------------------------------------
  // The graph.

  ghost predicate Edge(s: Snapshot, n: Version, v: Version) {
    exists d :: Candidate(s, n, d, v)
  }

  ghost predicate Walk(s: Snapshot, root: Version, ws: seq<Version>) {
    && ws != [] && ws[0] == root
    && forall i | 0 <= i < |ws| - 1 :: Edge(s, ws[i], ws[i + 1])
  }

  /** Every dependency of `n` has a version to resolve to, and none is on the package of `n` itself. */
  ghost predicate LocallySound(s: Snapshot, n: Version) {
    forall d | d in n.pkg.deps :: Trim(d) != n.pkg.name && !MayAnswer(s, n, d, None)
  }

  ghost predicate Distinct(ws: seq<Version>) {
    forall i, j | 0 <= i < j < |ws| :: Label(ws[i]) != Label(ws[j])
  }

  /** Everything reachable from `root` resolves, and no walk from it repeats a version or is longer
      than the depth cap. */
  ghost predicate Healthy(s: Snapshot, root: Version) {
    forall ws | Walk(s, root, ws) ::
      LocallySound(s, ws[|ws| - 1]) && Distinct(ws) && |ws| <= MAX_DEPTH
  }

  ghost predicate Avoids(ws: seq<Version>, path: set<string>) {
    forall i | 0 < i < |ws| :: Label(ws[i]) !in path
  }

  lemma {:induction false} EveryWayWalk(s: Snapshot, n: Version, path: set<string>, ws: seq<Version>)
    requires EveryWay(s, n, path) && Label(n) in path && Walk(s, n, ws)
    ensures LocallySound(s, ws[|ws| - 1]) && Distinct(ws) && Avoids(ws, path) && |path| + |ws| - 1 <= MAX_DEPTH
    decreases |ws|
  {
    if |ws| > 1 {
      var v := ws[1];
      assert Edge(s, ws[0], ws[1]);
      var d :| Candidate(s, n, d, v);
      CandidateIsCached(s, n, d, v);
      var rest := ws[1..];
      forall i | 0 <= i < |rest| - 1 ensures Edge(s, rest[i], rest[i + 1]) {
        assert Edge(s, ws[i + 1], ws[i + 2]);
      }
      EveryWayWalk(s, v, path + {Label(v)}, rest);
      assert forall i | 0 < i < |ws| :: ws[i] == rest[i - 1];
    }
  }

  ghost predicate HealthyBeyond(s: Snapshot, n: Version, path: set<string>) {
    forall ws | Walk(s, n, ws) ::
      LocallySound(s, ws[|ws| - 1]) && Distinct(ws) && Avoids(ws, path) && |path| + |ws| - 1 <= MAX_DEPTH
  }

  lemma {:induction false} ConsWalk(s: Snapshot, n: Version, v: Version, ws: seq<Version>)
    requires Edge(s, n, v) && Walk(s, v, ws)
    ensures Walk(s, n, [n] + ws)
  {
    var whole := [n] + ws;
    forall i | 0 <= i < |whole| - 1 ensures Edge(s, whole[i], whole[i + 1]) {
      if i > 0 { assert Edge(s, ws[i - 1], ws[i]); }
    }
  }

  lemma {:induction false} ConsAvoids(n: Version, ws: seq<Version>, path: set<string>)
    requires ws != [] && Distinct([n] + ws) && Avoids([n] + ws, path)
    ensures Distinct(ws) && Avoids(ws, path + {Label(ws[0])}) && Label(ws[0]) !in path
  {
    var whole := [n] + ws;
    forall i | 0 <= i < |ws| ensures ws[i] == whole[i + 1] && Label(ws[i]) !in path {
      assert Label(whole[i + 1]) !in path;
    }
  }

  lemma {:induction false} HealthyTail(s: Snapshot, n: Version, d: string, v: Version, path: set<string>)
    requires HealthyBeyond(s, n, path) && Candidate(s, n, d, v)
    ensures Label(v) !in path && HealthyBeyond(s, v, path + {Label(v)})
  {
    assert Edge(s, n, v);
    forall ws | Walk(s, v, ws)
      ensures LocallySound(s, ws[|ws| - 1]) && Distinct(ws) && Avoids(ws, path + {Label(v)})
      ensures Label(v) !in path && |path + {Label(v)}| + |ws| - 1 <= MAX_DEPTH
    {
      ConsWalk(s, n, v, ws);
      var whole := [n] + ws;
      assert whole[|whole| - 1] == ws[|ws| - 1];
      ConsAvoids(n, ws, path);
    }
    assert Walk(s, v, [v]);
  }

  lemma {:induction false} HealthyEveryWay(s: Snapshot, n: Version, path: set<string>)
    requires HealthyBeyond(s, n, path)
    ensures EveryWay(s, n, path)
    decreases Labels(s) - path
  {
    assert Walk(s, n, [n]);
    assert LocallySound(s, [n][0]);
    forall d, v | d in n.pkg.deps && Candidate(s, n, d, v)
      ensures Fresh(s, v, path) && EveryWay(s, v, path + {Label(v)})
    {
      HealthyTail(s, n, d, v, path);
      CandidateIsCached(s, n, d, v);
      HealthyEveryWay(s, v, path + {Label(v)});
    }
  }

  /** The recursive criterion is the graph criterion. */
  lemma {:induction false} EveryWayIsHealthy(s: Snapshot, root: Version)
    ensures EveryWay(s, root, {Label(root)}) <==> Healthy(s, root)
  {
    if EveryWay(s, root, {Label(root)}) {
      forall ws | Walk(s, root, ws)
        ensures LocallySound(s, ws[|ws| - 1]) && Distinct(ws) && |ws| <= MAX_DEPTH
      {
        EveryWayWalk(s, root, {Label(root)}, ws);
      }
    }
    if Healthy(s, root) {
      forall ws | Walk(s, root, ws) ensures Avoids(ws, {Label(root)}) {
        assert Distinct(ws);
      }
      HealthyEveryWay(s, root, {Label(root)});
    }
  }

  /** No dependency of `n` has two versions to resolve to. */
  ghost predicate OneAnswer(s: Snapshot, n: Version) {
    forall d, v1, v2 | Candidate(s, n, d, v1) && Candidate(s, n, d, v2) :: v1 == v2
  }

  /** No lookup that can be made below `root` has two answers. */
  ghost predicate Determined(s: Snapshot, root: Version) {
    forall ws | Walk(s, root, ws) :: OneAnswer(s, ws[|ws| - 1])
  }

  lemma {:induction false} DeterminedTail(s: Snapshot, n: Version, d: string, v: Version)
    requires Determined(s, n) && Candidate(s, n, d, v)
    ensures OneAnswer(s, n) && Determined(s, v)
  {
    assert Walk(s, n, [n]);
    assert OneAnswer(s, [n][0]);
    assert Edge(s, n, v);
    forall ws | Walk(s, v, ws) ensures OneAnswer(s, ws[|ws| - 1]) {
      ConsWalk(s, n, v, ws);
      var whole := [n] + ws;
      assert whole[|whole| - 1] == ws[|ws| - 1];
    }
  }

  lemma {:induction false} SomeAnswerNotNone(s: Snapshot, n: Version, d: string, v: Version)
    requires Candidate(s, n, d, v)
    ensures !MayAnswer(s, n, d, None)
  {
  }

  lemma {:induction false} SomeWayIsEveryWay(s: Snapshot, n: Version, path: set<string>)
    requires Determined(s, n) && SomeWay(s, n, path)
    ensures EveryWay(s, n, path)
    decreases Labels(s) - path
  {
    forall d | d in n.pkg.deps ensures EveryWayVia(s, n, path, d) {
      assert SomeWayVia(s, n, path, d);
      var w :| Candidate(s, n, d, w) && Fresh(s, w, path) && SomeWay(s, w, path + {Label(w)});
      SomeAnswerNotNone(s, n, d, w);
      DeterminedTail(s, n, d, w);
      SomeWayIsEveryWay(s, w, path + {Label(w)});
      assert forall v :: Candidate(s, n, d, v) ==> v == w;
    }
  }

  // ---------------------------------------------------------------------------
  // What acceptance certifies, however the lookups are answered.

  /** Every dependency of `v` is on another package and can resolve to a version of smaller rank. */
  ghost predicate RankedBelow(s: Snapshot, rank: map<Version, nat>, v: Version)
    requires v in rank
  {
    forall d | d in v.pkg.deps :: Trim(d) != v.pkg.name && RankedVia(s, rank, v, d)
  }

  ghost predicate RankedVia(s: Snapshot, rank: map<Version, nat>, v: Version, d: string)
    requires v in rank
  {
    exists c :: Candidate(s, v, d, c) && c in rank && rank[c] < rank[v]
  }

  ghost predicate Ranked(s: Snapshot, rank: map<Version, nat>) {
    forall v | v in rank :: RankedBelow(s, rank, v)
  }

  /** A choice of versions that resolves everything below `root`: it is closed under dependencies,
      free of cycles, since ranks fall along every dependency, not deeper than the cap, and does not
      come back to the label of the root. */
  ghost predicate Certificate(s: Snapshot, root: Version, rank: map<Version, nat>) {
    && Ranked(s, rank) && root in rank && rank[root] < MAX_DEPTH
    && forall v | v in rank && v != root :: Label(v) != Label(root)
  }

  /** For each version the smaller of two ranks. */
  ghost function Merged(a: map<Version, nat>, b: map<Version, nat>): map<Version, nat> {
    map v | v in a.Keys + b.Keys :: if v in a && (v in b ==> a[v] <= b[v]) then a[v] else b[v]
  }

  lemma {:induction false} MergedBelow(s: Snapshot, a: map<Version, nat>, m: map<Version, nat>, v: Version)
    requires v in a && v in m && RankedBelow(s, a, v) && m[v] == a[v]
    requires forall c | c in a :: c in m && m[c] <= a[c]
    ensures RankedBelow(s, m, v)
  {
    forall d | d in v.pkg.deps ensures RankedVia(s, m, v, d) {
      assert RankedVia(s, a, v, d);
      var c :| Candidate(s, v, d, c) && c in a && a[c] < a[v];
      assert c in m && m[c] < m[v];
    }
  }

  lemma {:induction false} MergedRanked(s: Snapshot, a: map<Version, nat>, b: map<Version, nat>)
    requires Ranked(s, a) && Ranked(s, b)
    ensures Ranked(s, Merged(a, b))
  {
    var m := Merged(a, b);
    forall v | v in m ensures RankedBelow(s, m, v) {
      if v in a && m[v] == a[v] {
        MergedBelow(s, a, m, v);
      } else {
        MergedBelow(s, b, m, v);
      }
    }
  }

  /** Ranks for everything that some of the dependencies of a node resolve to. */
  ghost predicate Covers(s: Snapshot, n: Version, path: set<string>, deps: set<string>, rank: map<Version, nat>) {
    && Ranked(s, rank) && (forall v | v in rank :: Label(v) !in path)
    && forall d | d in deps :: CoversVia(s, n, path, d, rank)
  }

  ghost predicate CoversVia(s: Snapshot, n: Version, path: set<string>, d: string, rank: map<Version, nat>) {
    exists c :: Candidate(s, n, d, c) && c in rank && rank[c] + |path| < MAX_DEPTH
  }

  lemma {:induction false} MergedCovers(s: Snapshot, n: Version, path: set<string>, deps: set<string>, a: map<Version, nat>, d: string,
                     b: map<Version, nat>)
    requires Covers(s, n, path, deps, a) && Covers(s, n, path, {d}, b)
    ensures Covers(s, n, path, deps + {d}, Merged(a, b))
  {
    MergedRanked(s, a, b);
    forall d' | d' in deps + {d} ensures CoversVia(s, n, path, d', Merged(a, b)) {
      var from := if d' in deps then a else b;
      assert CoversVia(s, n, path, d', from);
      var c :| Candidate(s, n, d', c) && c in from && from[c] + |path| < MAX_DEPTH;
      assert c in Merged(a, b) && Merged(a, b)[c] <= from[c];
    }
  }

  lemma {:induction false} CoverOne(s: Snapshot, n: Version, path: set<string>, d: string) returns (rank: map<Version, nat>)
    requires d in n.pkg.deps && SomeWayVia(s, n, path, d)
    ensures Covers(s, n, path, {d}, rank)
    decreases Labels(s) - path, 0
  {
    var v :| Candidate(s, n, d, v) && Fresh(s, v, path) && SomeWay(s, v, path + {Label(v)});
    rank := Certify(s, v, path + {Label(v)});
    assert CoversVia(s, n, path, d, rank);
  }

  lemma {:induction false} CoverAll(s: Snapshot, n: Version, path: set<string>, deps: set<string>) returns (rank: map<Version, nat>)
    requires deps <= n.pkg.deps.Keys && forall d | d in deps :: SomeWayVia(s, n, path, d)
    ensures Covers(s, n, path, deps, rank)
    decreases Labels(s) - path, 1, deps
  {
    rank := map[];
    if deps != {} {
      var d :| d in deps;
      var rest := CoverAll(s, n, path, deps - {d});
      var one := CoverOne(s, n, path, d);
      MergedCovers(s, n, path, deps - {d}, rest, d, one);
      rank := Merged(rest, one);
      assert deps - {d} + {d} == deps;
    }
  }

  /** What can be resolved has ranks, by which it is free of cycles. */
  lemma {:induction false} Certify(s: Snapshot, n: Version, path: set<string>) returns (rank: map<Version, nat>)
    requires SomeWay(s, n, path) && Label(n) in path
    ensures Ranked(s, rank) && n in rank && rank[n] + |path| <= MAX_DEPTH
    ensures forall v | v in rank && v != n :: Label(v) !in path
    decreases Labels(s) - path, 2
  {
    var below := CoverAll(s, n, path, n.pkg.deps.Keys);
    assert n !in below;
    rank := below[n := MAX_DEPTH - |path|];
    forall v | v in rank ensures RankedBelow(s, rank, v) {
      if v == n {
        forall d | d in n.pkg.deps ensures Trim(d) != n.pkg.name && RankedVia(s, rank, n, d) {
          assert SomeWayVia(s, n, path, d);
          assert CoversVia(s, n, path, d, below);
          var c :| Candidate(s, n, d, c) && c in below && below[c] + |path| < MAX_DEPTH;
          assert c in rank && rank[c] < rank[n];
        }
      } else {
        MergedBelow(s, below, rank, v);
      }
    }
  }

  /** Cached versions have labels of their own. */
  ghost predicate LabelsUnique(s: Snapshot) {
    forall v, w | v in s.flat.Values && w in s.flat.Values && Label(v) == Label(w) :: v == w
  }

  /** The labels on the path belong to ranked versions of a higher rank than `v`. */
  ghost predicate AbovePath(s: Snapshot, root: Version, rank: map<Version, nat>, path: set<string>, v: Version)
    requires v in rank
  {
    forall l | l in path :: exists u :: u in rank && Label(u) == l && rank[u] >= rank[v] && (u == root || u in s.flat.Values)
  }

  lemma {:induction false} NextIsFresh(s: Snapshot, root: Version, rank: map<Version, nat>, path: set<string>, v: Version, d: string, c: Version)
    requires LabelsUnique(s) && Certificate(s, root, rank) && v in rank && AbovePath(s, root, rank, path, v)
    requires Candidate(s, v, d, c) && c in rank && rank[c] < rank[v] <= rank[root]
    ensures Fresh(s, c, path) && AbovePath(s, root, rank, path + {Label(c)}, c)
  {
    CandidateIsCached(s, v, d, c);
  }

  lemma {:induction false} CertificateResolves(s: Snapshot, root: Version, rank: map<Version, nat>, path: set<string>, v: Version)
    requires LabelsUnique(s) && Certificate(s, root, rank) && v in rank && AbovePath(s, root, rank, path, v)
    requires rank[v] <= rank[root] && |path| + rank[v] <= MAX_DEPTH
    ensures SomeWay(s, v, path)
    decreases rank[v]
  {
    assert RankedBelow(s, rank, v);
    forall d | d in v.pkg.deps ensures SomeWayVia(s, v, path, d) {
      assert RankedVia(s, rank, v, d);
      var c :| Candidate(s, v, d, c) && c in rank && rank[c] < rank[v];
      NextIsFresh(s, root, rank, path, v, d, c);
      CertificateResolves(s, root, rank, path + {Label(c)}, c);
    }
  }

  /** What some way of answering resolves has a certificate; and with labels of their own for all
      cached versions, what has a certificate is resolved in some way. */
  lemma {:induction false} SomeWayIsCertified(s: Snapshot, root: Version)
    ensures SomeWay(s, root, {Label(root)}) ==> exists rank :: Certificate(s, root, rank)
    ensures LabelsUnique(s) ==> (SomeWay(s, root, {Label(root)}) <==> exists rank :: Certificate(s, root, rank))
  {
    if SomeWay(s, root, {Label(root)}) {
      var rank := Certify(s, root, {Label(root)});
      assert Certificate(s, root, rank);
    }
    if rank :| LabelsUnique(s) && Certificate(s, root, rank) {
      CertificateResolves(s, root, rank, {Label(root)}, root);
    }
  }

  // ---------------------------------------------------------------------------
  // Labels and keys.

  predicate ColonFree(name: string) { ':' !in name }

  lemma {:induction false} NameEndsAtColon(v: Version)
    requires ColonFree(v.pkg.name)
    ensures Label(v)[|v.pkg.name|] == ':' && forall i | 0 <= i < |v.pkg.name| :: Label(v)[i] != ':'
    ensures Label(v)[..|v.pkg.name|] == v.pkg.name && Label(v)[|v.pkg.name| + 1..] == v.pkg.version
  {
    assert forall i | 0 <= i < |v.pkg.name| :: Label(v)[i] == v.pkg.name[i];
  }

  /** Two versions whose package names hold no colon have one label only if they have one key. */
  lemma {:induction false} LabelsFaithful(v: Version, w: Version)
    requires ColonFree(v.pkg.name) && ColonFree(w.pkg.name)
    ensures Label(v) == Label(w) <==> KeyOf(v) == KeyOf(w)
  {
    NameEndsAtColon(v);
    NameEndsAtColon(w);
  }

  ghost predicate AllColonFree(s: Snapshot, root: Version) {
    ColonFree(root.pkg.name) && forall k | k in s.flat :: ColonFree(s.flat[k].pkg.name)
  }

  /** In a cache whose entries sit under their own keys, colon-free package names make labels unique. */
  lemma {:induction false} ColonFreeLabelsUnique(s: Snapshot, root: Version)
    requires AllColonFree(s, root) && WellKeyed(s.flat)
    ensures LabelsUnique(s)
  {
    forall v, w | v in s.flat.Values && w in s.flat.Values && Label(v) == Label(w) ensures v == w {
      LabelsFaithful(v, w);
      assert v == s.flat[KeyOf(v)] && w == s.flat[KeyOf(w)];
    }
  }

  ghost predicate DistinctKeys(ws: seq<Version>) {
    forall i, j | 0 <= i < j < |ws| :: KeyOf(ws[i]) != KeyOf(ws[j])
  }

  lemma {:induction false} WalkIsCached(s: Snapshot, root: Version, ws: seq<Version>, i: nat)
    requires Walk(s, root, ws) && 0 < i < |ws|
    ensures ws[i] in s.flat.Values && Label(ws[i]) in Labels(s)
  {
    assert Edge(s, ws[i - 1], ws[i - 1 + 1]);
    var d :| Candidate(s, ws[i - 1], d, ws[i]);
    CandidateIsCached(s, ws[i - 1], d, ws[i]);
  }

  lemma {:induction false} DistinctFits(labels: set<string>, ws: seq<Version>)
    requires Distinct(ws) && forall i | 0 <= i < |ws| :: Label(ws[i]) in labels
    ensures |ws| <= |labels|
    decreases |ws|
  {
    if ws != [] {
      var n := |ws| - 1;
      var rest := ws[..n];
      DistinctFits(labels - {Label(ws[n])}, rest);
    }
  }

  /** With colon-free package names, healthy means: everything reachable resolves, no walk comes back
      to a package version, and no walk is too long; and below 256 cached versions the last is implied. */
  lemma {:induction false} HealthyIsAcyclic(s: Snapshot, root: Version)
    requires AllColonFree(s, root)
    ensures Healthy(s, root) <==>
            forall ws | Walk(s, root, ws) ::
              && LocallySound(s, ws[|ws| - 1]) && DistinctKeys(ws)
              && (|Labels(s)| < 256 || |ws| <= 256)
  {
    forall ws: seq<Version> | Walk(s, root, ws)
      ensures Distinct(ws) <==> DistinctKeys(ws)
      ensures Distinct(ws) ==> |ws| <= |Labels(s)| + 1
    {
      forall i | 0 <= i < |ws| ensures ColonFree(ws[i].pkg.name) {
        if i > 0 { WalkIsCached(s, root, ws, i); }
      }
      forall i, j | 0 <= i < j < |ws| ensures Label(ws[i]) == Label(ws[j]) <==> KeyOf(ws[i]) == KeyOf(ws[j]) {
        LabelsFaithful(ws[i], ws[j]);
      }
      if Distinct(ws) {
        forall i | 0 <= i < |ws| - 1 ensures Label(ws[1..][i]) in Labels(s) { WalkIsCached(s, root, ws, i + 1); }
        DistinctFits(Labels(s), ws[1..]);
      }
    }
  }

  /** Some version of another key has the same label. */
  ghost predicate Collides(v: Version) {
    exists w :: Label(w) == Label(v) && KeyOf(w) != KeyOf(v)
  }

  /** A label can be read as another key exactly when the package name or the version has a colon. */
  lemma {:induction false} CollidesExactly(v: Version)
    ensures Collides(v) <==> ':' in v.pkg.name || ':' in v.pkg.version
  {
    var name, version := v.pkg.name, v.pkg.version;
    if ':' in name {
      var i :| 0 <= i < |name| && name[i] == ':';
      var w := v.(pkg := v.pkg.(name := name[..i], version := name[i + 1..] + ":" + version));
      assert name == name[..i] + ":" + name[i + 1..];
      assert Label(w) == Label(v) && |w.pkg.name| != |name|;
    } else if ':' in version {
      var i :| 0 <= i < |version| && version[i] == ':';
      var w := v.(pkg := v.pkg.(name := name + ":" + version[..i], version := version[i + 1..]));
      assert version == version[..i] + ":" + version[i + 1..];
      assert Label(w) == Label(v) && |w.pkg.name| != |name|;
    } else if w :| Label(w) == Label(v) && KeyOf(w) != KeyOf(v) {
      OneColon(v, w);
    }
  }

  lemma {:induction false} OneColon(v: Version, w: Version)
    requires ':' !in v.pkg.name && ':' !in v.pkg.version && Label(v) == Label(w)
    ensures KeyOf(v) == KeyOf(w)
  {
    var m, n := |v.pkg.name|, |w.pkg.name|;
    assert Label(w)[n] == ':';
    assert n == m;
    assert Label(v)[..m] == v.pkg.name && Label(w)[..n] == w.pkg.name;
    assert Label(v)[m + 1..] == v.pkg.version && Label(w)[n + 1..] == w.pkg.version;
  }

  // ---------------------------------------------------------------------------
  // The search.

  datatype Verdict = Resolved | OwnPackage | Unresolvable | Circular | TooDeep

  class Resolver {
    const cache: Cache
    var visited: map<string, Version>

    constructor (cache: Cache)
      ensures this.cache == cache && visited == map[]
    {
      this.cache, visited := cache, map[];
    }

    ghost function View(): Snapshot
      reads cache`addons
    {
      Snapshot(cache.Contents(), cache.sat)
    }

    /** One node of the search. `s` is the view of the cache, and `root` the label the search
        started from, the only one that the cache may lack. */
    method ResolveDependencies(n: Version, depth: nat, ghost s: Snapshot, ghost root: string) returns (verdict: Verdict)
      requires s == View()
      requires Label(n) !in visited && |visited| == depth && visited.Keys <= Labels(s) + {root}
      requires if depth == 0 then root == Label(n) else root in visited && Label(n) in Labels(s)
      modifies this`visited
      ensures verdict == Resolved ==> visited == old(visited) && SomeWay(s, n, old(visited.Keys) + {Label(n)})
      ensures EveryWay(s, n, old(visited.Keys) + {Label(n)}) ==> verdict == Resolved
      ensures verdict == TooDeep ==> |Labels(s)| >= MAX_DEPTH
      ensures depth <= |Labels(s)|
      decreases Labels(s) - (visited.Keys + {Label(n)}), 2
    {
      DepthBound(visited.Keys, Labels(s), root, Label(n), depth);
      if depth >= MAX_DEPTH {
        return TooDeep;
      }
      var name := n.pkg.name + ":" + n.pkg.version;
      AddThenRemove(visited, name, n);
      visited := visited[name := n];
      verdict := ResolveAll(n, depth, s, root);
      if verdict == Resolved {
        visited := visited - {name};
      }
    }

    /** All dependencies of the node `n`, in any order, with its label already on the path. */
    method ResolveAll(n: Version, depth: nat, ghost s: Snapshot, ghost root: string) returns (verdict: Verdict)
      requires s == View()
      requires |visited| == depth + 1 && visited.Keys <= Labels(s) + {root} && root in visited && depth < MAX_DEPTH
      modifies this`visited
      ensures verdict == Resolved ==> visited == old(visited) && SomeWay(s, n, old(visited.Keys))
      ensures EveryWay(s, n, old(visited.Keys)) ==> verdict == Resolved
      ensures verdict == TooDeep ==> |Labels(s)| >= MAX_DEPTH
      decreases Labels(s) - visited.Keys, 1
    {
      var todo := n.pkg.deps.Keys;
      while todo != {}
        invariant todo <= n.pkg.deps.Keys
        invariant visited == old(visited)
        invariant forall d | d in n.pkg.deps && d !in todo :: SomeWayVia(s, n, old(visited.Keys), d)
      {
        var d :| d in todo;
        verdict := ResolveDependency(n, d, depth, s, root);
        if verdict != Resolved {
          return;
        }
        todo := todo - {d};
      }
      return Resolved;
    }

    /** One dependency of the node `n`, whose label ends the path. */
    method ResolveDependency(n: Version, d: string, depth: nat, ghost s: Snapshot, ghost root: string) returns (verdict: Verdict)
      requires s == View()
      requires |visited| == depth + 1 && visited.Keys <= Labels(s) + {root} && root in visited
      requires d in n.pkg.deps
      modifies this`visited
      ensures verdict == Resolved ==> visited == old(visited) && SomeWayVia(s, n, old(visited.Keys), d)
      ensures EveryWayVia(s, n, old(visited.Keys), d) ==> verdict == Resolved
      ensures verdict == TooDeep ==> |Labels(s)| >= MAX_DEPTH
      ensures Trim(d) == n.pkg.name ==> verdict == OwnPackage
      ensures Trim(d) != n.pkg.name && MayAnswer(s, n, d, None) ==> verdict == Unresolvable
      ensures Trim(d) != n.pkg.name && AllOnPath(s, n, d, old(visited.Keys)) ==> verdict == Circular
      decreases Labels(s) - visited.Keys, 0
    {
      var pkgName, pkgVersion := Trim(d), Trim(n.pkg.deps[d]);
      if pkgName == n.pkg.name {
        return OwnPackage;
      }
      var answer := cache.GetVersion(pkgName, pkgVersion);
      if answer == None {
        assert MayAnswer(s, n, d, None);
        return Unresolvable;
      }
      var v := answer.value;
      assert Candidate(s, n, d, v);
      CandidateIsCached(s, n, d, v);
      var dname := v.pkg.name + ":" + v.pkg.version;
      if dname in visited {
        return Circular;
      }
      verdict := ResolveDependencies(v, depth + 1, s, root);
    }

    /** The search from an empty path set. It accepts every healthy graph; what it accepts has a
        certificate, however the lookups were answered; where no lookup below `n` has two answers it
        accepts exactly the healthy graphs; and with fewer than 256 cached versions it never reaches
        the depth cap. */
    method Resolve(n: Version) returns (verdict: Verdict)
      requires visited == map[]
      modifies this`visited
      ensures Healthy(View(), n) ==> verdict == Resolved
      ensures verdict == Resolved ==> visited == map[] && SomeWay(View(), n, {Label(n)})
      ensures verdict == Resolved ==> exists rank :: Certificate(View(), n, rank)
      ensures Determined(View(), n) ==> (verdict == Resolved <==> Healthy(View(), n))
      ensures |Labels(View())| < 256 ==> verdict != TooDeep
    {
      ghost var s := View();
      ghost var start := visited.Keys;
      verdict := ResolveDependencies(n, 0, s, Label(n));
      VerdictMeans(s, n, start, verdict == Resolved);
    }
  }

  lemma {:induction false} VerdictMeans(s: Snapshot, n: Version, start: set<string>, resolved: bool)
    requires start == {}
    requires resolved ==> SomeWay(s, n, start + {Label(n)})
    requires EveryWay(s, n, start + {Label(n)}) ==> resolved
    ensures resolved ==> SomeWay(s, n, {Label(n)})
    ensures Healthy(s, n) ==> resolved
    ensures Determined(s, n) ==> (resolved <==> Healthy(s, n))
    ensures resolved ==> exists rank :: Certificate(s, n, rank)
  {
    assert start + {Label(n)} == {Label(n)};
    EveryWayIsHealthy(s, n);
    SomeWayIsCertified(s, n);
    if Determined(s, n) && resolved {
      SomeWayIsEveryWay(s, n, {Label(n)});
    }
  }

  lemma {:induction false} AddThenRemove<K, V>(m: map<K, V>, k: K, v: V)
    requires k !in m
    ensures m[k := v] - {k} == m && m[k := v].Keys == m.Keys + {k} && |m[k := v]| == |m| + 1
  {
  }

  lemma {:induction false} DepthBound(visited: set<string>, labels: set<string>, root: string, own: string, depth: nat)
    requires own !in visited && |visited| == depth && visited <= labels + {root}
    requires if depth == 0 then root == own else root in visited && own in labels
    ensures depth <= |labels|
  {
    if depth > 0 {
      var inner := (visited - {root}) + {own};
      assert |inner| == depth;
      SubsetSize(inner, labels);
    }
  }

  lemma {:induction false} SubsetSize<T>(a: set<T>, b: set<T>)
    requires a <= b
    ensures |a| <= |b|
  {
    if a != {} {
      var x :| x in a;
      SubsetSize(a - {x}, b - {x});
    }
  }
}
