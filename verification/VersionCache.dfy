/** The version cache: a nested map from package name to version to cached version
    (pkg/addon/addon_version_cache.go), which stands for a flat map keyed by both. */
module VersionCache {
  import opened AddonTypes

  datatype Version = Version(name: string, namespace: string, pkg: PackageSpec, phase: Phase)

  type Key = (string, string)

  type Nested = map<string, map<string, Version>>

  function KeyOf(v: Version): Key { (v.pkg.name, v.pkg.version) }

  ghost function Flat(m: Nested): map<Key, Version> {
    map p, v | p in m && v in m[p] :: (p, v) := m[p][v]
  }

  /** Every entry sits under the package name and version it carries. */
  ghost predicate WellKeyed(flat: map<Key, Version>) {
    forall k | k in flat :: (flat[k].pkg.name, flat[k].pkg.version) == k
  }

  datatype Op = Add(version: Version) | Remove(pkg: string, ver: string) | RemoveAll(pkg: string)

  function AddNested(m: Nested, v: Version): Nested {
    var inner := if v.pkg.name in m then m[v.pkg.name] else map[];
    m[v.pkg.name := inner[v.pkg.version := v]]
  }

  function RemoveNested(m: Nested, pkg: string, ver: string): Nested {
    if pkg in m && ver in m[pkg] then m[pkg := m[pkg] - {ver}] else m
  }

  function ApplyNested(m: Nested, op: Op): Nested {
    match op
    case Add(v) => AddNested(m, v)
    case Remove(pkg, ver) => RemoveNested(m, pkg, ver)
    case RemoveAll(pkg) => m - {pkg}
  }

  ghost function ApplyFlat(flat: map<Key, Version>, op: Op): map<Key, Version> {
    match op
    case Add(v) => flat[(v.pkg.name, v.pkg.version) := v]
    case Remove(pkg, ver) => flat - {(pkg, ver)}
    case RemoveAll(pkg) => map k | k in flat && k.0 != pkg :: flat[k]
  }

  function RunNested(m: Nested, ops: seq<Op>): Nested
    decreases |ops|
  {
    if ops == [] then m else RunNested(ApplyNested(m, ops[0]), ops[1..])
  }

  ghost function RunFlat(flat: map<Key, Version>, ops: seq<Op>): map<Key, Version>
    decreases |ops|
  {
    if ops == [] then flat else RunFlat(ApplyFlat(flat, ops[0]), ops[1..])
  }

  lemma {:induction false} FlatIs(m: Nested, g: map<Key, Version>)
    requires forall k: Key :: k in g <==> k.0 in m && k.1 in m[k.0]
    requires forall k: Key | k in g :: g[k] == m[k.0][k.1]
    ensures Flat(m) == g
  {
    forall k: Key ensures k in Flat(m) <==> k in g { assert k == (k.0, k.1); }
    assert Flat(m).Keys == g.Keys;
  }

  lemma {:induction false} AddRefines(m: Nested, v: Version)
    ensures Flat(AddNested(m, v)) == Flat(m)[KeyOf(v) := v]
  {
    FlatIs(AddNested(m, v), Flat(m)[KeyOf(v) := v]);
  }

  lemma {:induction false} RemoveRefines(m: Nested, pkg: string, ver: string)
    ensures Flat(RemoveNested(m, pkg, ver)) == Flat(m) - {(pkg, ver)}
  {
    FlatIs(RemoveNested(m, pkg, ver), Flat(m) - {(pkg, ver)});
  }

  lemma {:induction false} RemoveAllRefines(m: Nested, pkg: string)
    ensures Flat(m - {pkg}) == ApplyFlat(Flat(m), RemoveAll(pkg))
  {
    FlatIs(m - {pkg}, ApplyFlat(Flat(m), RemoveAll(pkg)));
  }

  lemma {:induction false} StepRefines(m: Nested, op: Op)
    ensures Flat(ApplyNested(m, op)) == ApplyFlat(Flat(m), op)
  {
    match op
    case Add(v) => AddRefines(m, v);
    case Remove(pkg, ver) => RemoveRefines(m, pkg, ver);
    case RemoveAll(pkg) => RemoveAllRefines(m, pkg);
  }

  /** After any sequence of additions and removals the nested cache stands for the flat one, with
      every entry under its own key. */
  lemma {:induction false} RunRefines(m: Nested, ops: seq<Op>)
    requires WellKeyed(Flat(m))
    ensures Flat(RunNested(m, ops)) == RunFlat(Flat(m), ops)
    ensures WellKeyed(Flat(RunNested(m, ops)))
    decreases |ops|
  {
    if ops != [] {
      StepRefines(m, ops[0]);
      RunRefines(ApplyNested(m, ops[0]), ops[1..]);
    }
  }

  /** The answers `GetVersion` may give: the exact entry, else any entry the constraint admits. */
  ghost predicate Answers(flat: map<Key, Version>, sat: (string, string) -> bool,
                          pkg: string, ver: string, answer: Option<Version>)
  {
    if (pkg, ver) in flat then
      answer == Some(flat[(pkg, ver)])
    else if exists v :: (pkg, v) in flat && sat(ver, v) then
      answer.Some? && exists v :: (pkg, v) in flat && sat(ver, v) && answer.value == flat[(pkg, v)]
    else
      answer == None
  }

  class Cache {
    /** Whether a text is a constraint and a second text a version that meets it. */
    const sat: (string, string) -> bool
    var addons: Nested

    constructor (sat: (string, string) -> bool)
      ensures this.sat == sat && addons == map[] && Contents() == map[]
    {
      this.sat := sat;
      addons := map[];
    }

    ghost function Contents(): map<Key, Version>
      reads this`addons
    {
      Flat(addons)
    }

    method AddVersion(v: Version)
      modifies this`addons
      ensures addons == AddNested(old(addons), v)
      ensures Contents() == old(Contents())[(v.pkg.name, v.pkg.version) := v]
    {
      ghost var before := addons;
      var inner := map[];
      if v.pkg.name in addons {
        inner := addons[v.pkg.name];
      }
      addons := addons[v.pkg.name := inner[v.pkg.version := v]];
      AddRefines(before, v);
    }

    method RemoveVersion(pkg: string, ver: string)
      modifies this`addons
      ensures addons == RemoveNested(old(addons), pkg, ver)
      ensures Contents() == old(Contents()) - {(pkg, ver)}
    {
      RemoveRefines(addons, pkg, ver);
      if pkg in addons && ver in addons[pkg] {
        addons := addons[pkg := addons[pkg] - {ver}];
      }
    }

    method RemoveVersions(pkg: string)
      modifies this`addons
      ensures addons == old(addons) - {pkg}
      ensures forall k :: k in Contents() <==> k in old(Contents()) && k.0 != pkg
      ensures forall k | k in Contents() :: Contents()[k] == old(Contents())[k]
    {
      RemoveAllRefines(addons, pkg);
      if pkg in addons {
        addons := addons - {pkg};
      }
    }

    method CopyVersionMap(m: map<string, Version>) returns (copy: map<string, Version>)
      ensures copy == m
    {
      copy := map[];
      var todo := m.Keys;
      while todo != {}
        invariant todo <= m.Keys
        invariant copy == map k | k in m && k !in todo :: m[k]
      {
        var key :| key in todo;
        copy := copy[key := m[key]];
        todo := todo - {key};
      }
    }

    method GetVersions(pkg: string) returns (versions: Option<map<string, Version>>)
      ensures versions == if pkg in addons then Some(addons[pkg]) else None
    {
      if pkg !in addons {
        return None;
      }
      var copy := CopyVersionMap(addons[pkg]);
      return Some(copy);
    }

    method ResolveVersion(m: map<string, Version>, ver: string) returns (answer: Option<Version>)
      ensures answer.Some? <==> exists key :: key in m && sat(ver, key)
      ensures answer.Some? ==> exists key :: key in m && sat(ver, key) && answer.value == m[key]
    {
      var todo := m.Keys;
      while todo != {}
        invariant todo <= m.Keys
        invariant forall key | key in m && key !in todo :: !sat(ver, key)
      {
        var key :| key in todo;
        if sat(ver, key) {
          return Some(m[key]);
        }
        todo := todo - {key};
      }
      return None;
    }

    method GetVersion(pkg: string, ver: string) returns (answer: Option<Version>)
      ensures Answers(Contents(), sat, pkg, ver, answer)
      ensures (pkg, ver) in Contents() ==> answer == Some(Contents()[(pkg, ver)])
      ensures (pkg, ver) !in Contents() ==>
                (answer == None <==> forall v | (pkg, v) in Contents() :: !sat(ver, v))
      ensures (pkg, ver) !in Contents() && answer.Some? ==>
                exists v :: (pkg, v) in Contents() && sat(ver, v) && answer.value == Contents()[(pkg, v)]
    {
      var vmap := GetVersions(pkg);
      if vmap == None {
        return None;
      }
      if ver in vmap.value {
        assert (pkg, ver) in Contents();
        return Some(vmap.value[ver]);
      }
      answer := ResolveVersion(vmap.value, ver);
      assert forall v :: (pkg, v) in Contents() <==> v in addons[pkg];
      if answer.Some? {
        ghost var key :| key in addons[pkg] && sat(ver, key) && answer.value == addons[pkg][key];
        assert (pkg, key) in Contents() && Contents()[(pkg, key)] == addons[pkg][key];
      }
    }

    method GetAllVersions() returns (all: Nested)
      ensures all == addons
    {
      all := map[];
      var todo := addons.Keys;
      while todo != {}
        invariant todo <= addons.Keys
        invariant all == map k | k in addons && k !in todo :: addons[k]
      {
        var key :| key in todo;
        var copy := CopyVersionMap(addons[key]);
        all := all[key := copy];
        todo := todo - {key};
      }
    }

    method HasVersionName(name: string) returns (found: Option<Version>)
      ensures found.Some? <==> exists k :: k in Contents() && Contents()[k].name == name
      ensures found.Some? ==> exists k :: k in Contents() && Contents()[k] == found.value && found.value.name == name
    {
      var all := GetAllVersions();
      var pkgs := all.Keys;
      while pkgs != {}
        invariant pkgs <= all.Keys
        invariant forall k | k in Contents() && k.0 !in pkgs :: Contents()[k].name != name
      {
        var pkg :| pkg in pkgs;
        var vers := all[pkg].Keys;
        while vers != {}
          invariant vers <= all[pkg].Keys
          invariant forall v | v in all[pkg] && v !in vers :: all[pkg][v].name != name
        {
          var ver :| ver in vers;
          if all[pkg][ver].name == name {
            assert (pkg, ver) in Contents() && Contents()[(pkg, ver)] == all[pkg][ver];
            return Some(all[pkg][ver]);
          }
          vers := vers - {ver};
        }
        pkgs := pkgs - {pkg};
      }
      return None;
    }
  }
}
