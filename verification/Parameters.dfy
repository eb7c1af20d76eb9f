/** The parameters an addon hands to its workflows (api/addon/v1alpha1/addon_types.go,
    pkg/workflows/workflow.go). */
module Parameters {
  import opened AddonTypes

  /** A parameter in a workflow's list; one the template declares may lack a value. */
  datatype Param = Param(name: string, value: Option<string>)

  // ---------------------------------------------------------------------------
  // Reading a list of parameters: the last occurrence of a name counts.

  function LastOf(ps: seq<Param>): map<string, Option<string>> {
    if ps == [] then map[] else LastOf(ps[..|ps| - 1])[ps[|ps| - 1].name := ps[|ps| - 1].value]
  }

  lemma {:induction false} LastOfAppend(ps: seq<Param>, qs: seq<Param>)
    ensures LastOf(ps + qs) == LastOf(ps) + LastOf(qs)
    decreases |qs|
  {
    if qs == [] {
      assert ps + qs == ps;
    } else {
      LastOfAppend(ps, qs[..|qs| - 1]);
      assert (ps + qs)[..|ps + qs| - 1] == ps + qs[..|qs| - 1];
    }
  }

  function Names(ps: seq<Param>): set<string> { set i | 0 <= i < |ps| :: ps[i].name }

  predicate Distinct(ps: seq<Param>) { forall i, j | 0 <= i < j < |ps| :: ps[i].name != ps[j].name }

  lemma {:induction false} DistinctAppend(ps: seq<Param>, qs: seq<Param>)
    ensures Distinct(ps + qs) <==> Distinct(ps) && Distinct(qs) && Names(ps) !! Names(qs)
    ensures Names(ps + qs) == Names(ps) + Names(qs)
  {
    var all := ps + qs;
    forall i | 0 <= i < |ps| ensures all[i] == ps[i] {}
    forall j | 0 <= j < |qs| ensures all[|ps| + j] == qs[j] {}
    if Distinct(all) {
      forall i, j | 0 <= i < |ps| && 0 <= j < |qs| ensures ps[i].name != qs[j].name {
        assert all[i].name != all[|ps| + j].name;
      }
      forall i, j | 0 <= i < j < |qs| ensures qs[i].name != qs[j].name {
        assert all[|ps| + i].name != all[|ps| + j].name;
      }
    }
    if Distinct(ps) && Distinct(qs) && Names(ps) !! Names(qs) {
      forall i, j | 0 <= i < j < |all| ensures all[i].name != all[j].name {
        if i < |ps| <= j { assert ps[i].name in Names(ps) && qs[j - |ps|].name in Names(qs); }
      }
    }
  }

  /** Reading finds every name; where names are distinct, every entry is what is read for its name. */
  lemma {:induction false} ReadsAll(ps: seq<Param>)
    ensures LastOf(ps).Keys == Names(ps)
    ensures Distinct(ps) ==> forall p | p in ps :: p.name in LastOf(ps) && LastOf(ps)[p.name] == p.value
  {
    if ps != [] {
      var n := |ps| - 1;
      ReadsAll(ps[..n]);
      OneMore(ps[..n], ps[n]);
      assert ps == ps[..n] + [ps[n]];
      forall p | Distinct(ps) && p in ps ensures p.name in LastOf(ps) && LastOf(ps)[p.name] == p.value {
        if p != ps[n] { assert p in ps[..n]; }
      }
    }
  }

  /** What is read for a name is the value of its last entry. */
  lemma {:induction false} LastOfMeans(ps: seq<Param>, name: string, value: Option<string>)
    ensures name in LastOf(ps) && LastOf(ps)[name] == value <==>
            exists i :: 0 <= i < |ps| && ps[i] == Param(name, value) && forall j | i < j < |ps| :: ps[j].name != name
  {
    if ps != [] {
      var n := |ps| - 1;
      LastOfMeans(ps[..n], name, value);
      if i :| 0 <= i < n && ps[..n][i] == Param(name, value) && forall j | i < j < n :: ps[..n][j].name != name {
        assert ps[n].name != name ==> ps[i] == Param(name, value) && forall j | i < j < |ps| :: ps[j].name != name by {
          forall j | i < j < n ensures ps[j].name != name { assert ps[..n][j] == ps[j]; }
        }
      }
      if i :| 0 <= i < |ps| && ps[i] == Param(name, value) && forall j | i < j < |ps| :: ps[j].name != name {
        if i < n { assert ps[..n][i] == ps[i]; }
      }
    }
  }

  // ---------------------------------------------------------------------------
  // What an addon declares.

  function AsValues(m: map<string, string>): map<string, Option<string>> { map name | name in m :: Some(m[name]) }

  function PackageFields(pkg: PackageSpec): map<string, string> {
    map["pkgChannel" := pkg.channel, "pkgName" := pkg.name, "pkgVersion" := pkg.version, "pkgType" := pkg.pkgType,
        "pkgDescription" := pkg.description]
  }

  function BaseFields(params: AddonParams): map<string, string> {
    map["namespace" := params.namespace, "clusterName" := params.clusterName, "clusterRegion" := params.clusterRegion]
  }

  /** The value a name has for an addon: data before additional configuration before the base fields. */
  function ValueOf(params: AddonParams, name: string): Option<string> {
    if name in params.data then Some(params.data[name])
    else if name in params.additionalConfigs then Some(params.additionalConfigs[name])
    else if name in BaseFields(params) then Some(BaseFields(params)[name])
    else None
  }

  /** The map gives every name its value, and no others. */
  ghost predicate Gives(m: map<string, string>, params: AddonParams) {
    forall name :: (name in m <==> ValueOf(params, name).Some?) && (name in m ==> Some(m[name]) == ValueOf(params, name))
  }

  method CopyInto(m: map<string, string>, from: map<string, string>) returns (r: map<string, string>)
    ensures r == m + from
  {
    r := m;
    var rest := from.Keys;
    while rest != {}
      invariant rest <= from.Keys
      invariant forall name :: name in r <==> name in m || name in from.Keys - rest
      invariant forall name | name in r :: r[name] == if name in from.Keys - rest then from[name] else m[name]
      decreases rest
    {
      var name :| name in rest;
      r := r[name := from[name]];
      rest := rest - {name};
    }
  }

  /** Neither data nor additional configuration gives the name. */
  predicate NotGiven(params: AddonParams, name: string) { name !in params.data && name !in params.additionalConfigs }

  method GetAllAddonParameters(params: AddonParams) returns (m: map<string, string>)
    ensures Gives(m, params)
    ensures m.Keys == {"namespace", "clusterName", "clusterRegion"} + params.additionalConfigs.Keys + params.data.Keys
    ensures forall name | name in params.data :: m[name] == params.data[name]
    ensures forall name | name in params.additionalConfigs && name !in params.data :: m[name] == params.additionalConfigs[name]
    ensures NotGiven(params, "namespace") ==> m["namespace"] == params.namespace
    ensures NotGiven(params, "clusterName") ==> m["clusterName"] == params.clusterName
    ensures NotGiven(params, "clusterRegion") ==> m["clusterRegion"] == params.clusterRegion
  {
    m := map[];
    m := m["namespace" := params.namespace];
    m := m["clusterName" := params.clusterName];
    m := m["clusterRegion" := params.clusterRegion];
    assert m == BaseFields(params);
    m := CopyInto(m, params.additionalConfigs);
    m := CopyInto(m, params.data);
  }

  // ---------------------------------------------------------------------------
  // Injection into a workflow.

  /** A list of parameters that says exactly what a map says. */
  predicate Lists(ps: seq<Param>, m: map<string, string>) {
    Distinct(ps) && Names(ps) == m.Keys && LastOf(ps) == AsValues(m)
  }

  /** The entries of a map in whatever order the iteration takes. */
  method ListEntries(m: map<string, string>) returns (ps: seq<Param>)
    ensures Lists(ps, m) && |ps| == |m|
  {
    ps := [];
    var rest := m.Keys;
    while rest != {}
      invariant rest <= m.Keys && |ps| + |rest| == |m.Keys|
      invariant Lists(ps, m - rest)
      decreases rest
    {
      var name :| name in rest;
      ListsOneMore(ps, m, rest, name);
      ps := ps + [Param(name, Some(m[name]))];
      rest := rest - {name};
    }
    assert m - {} == m;
  }

  lemma {:induction false} ListsOneMore(ps: seq<Param>, m: map<string, string>, rest: set<string>, name: string)
    requires name in rest && rest <= m.Keys && Lists(ps, m - rest)
    ensures Lists(ps + [Param(name, Some(m[name]))], m - (rest - {name}))
  {
    ListsAdd(ps, m - rest, name, m[name]);
    assert m - (rest - {name}) == (m - rest)[name := m[name]];
  }

  lemma {:induction false} ListsAdd(ps: seq<Param>, m: map<string, string>, name: string, value: string)
    requires Lists(ps, m) && name !in m
    ensures Lists(ps + [Param(name, Some(value))], m[name := value])
  {
    OneMore(ps, Param(name, Some(value)));
    assert AsValues(m[name := value]) == AsValues(m)[name := Some(value)];
  }

  lemma {:induction false} OneMore(ps: seq<Param>, p: Param)
    ensures Names(ps + [p]) == Names(ps) + {p.name} && LastOf(ps + [p]) == LastOf(ps)[p.name := p.value]
    ensures Distinct(ps + [p]) <==> Distinct(ps) && p.name !in Names(ps)
  {
    DistinctAppend(ps, [p]);
    assert Names([p]) == {p.name} by { assert [p][0] == p; }
    assert (ps + [p])[..|ps|] == ps;
  }

  /** No name stands in two of the places the parameters come from. */
  predicate Apart(template: seq<Param>, spec: Spec) {
    var fixed := BaseFields(spec.params).Keys + PackageFields(spec.pkg).Keys;
    && Distinct(template) && Names(template) !! fixed
    && spec.params.additionalConfigs.Keys !! Names(template) + fixed
    && spec.params.data.Keys !! Names(template) + fixed + spec.params.additionalConfigs.Keys
  }

  function NamespaceParam(params: AddonParams): seq<Param> { [Param("namespace", Some(params.namespace))] }

  function PackageParams(pkg: PackageSpec): seq<Param> {
    [Param("pkgChannel", Some(pkg.channel))] + [Param("pkgName", Some(pkg.name))] + [Param("pkgVersion", Some(pkg.version))]
    + [Param("pkgType", Some(pkg.pkgType))] + [Param("pkgDescription", Some(pkg.description))]
  }

  function ClusterParams(params: AddonParams): seq<Param> {
    [Param("clusterName", Some(params.clusterName))] + [Param("clusterRegion", Some(params.clusterRegion))]
  }

  function FixedParams(spec: Spec): seq<Param> {
    NamespaceParam(spec.params) + PackageParams(spec.pkg) + ClusterParams(spec.params)
  }

  /** The namespace, the package fields and the cluster fields, one after the other. */
  method AppendFixed(spec: Spec, declared: seq<Param>) returns (injected: seq<Param>)
    ensures injected == declared + FixedParams(spec)
  {
    injected := declared;
    injected := injected + [Param("namespace", Some(spec.params.namespace))];
    injected := injected + [Param("pkgChannel", Some(spec.pkg.channel))];
    injected := injected + [Param("pkgName", Some(spec.pkg.name))];
    injected := injected + [Param("pkgVersion", Some(spec.pkg.version))];
    injected := injected + [Param("pkgType", Some(spec.pkg.pkgType))];
    injected := injected + [Param("pkgDescription", Some(spec.pkg.description))];
    injected := injected + [Param("clusterName", Some(spec.params.clusterName))];
    injected := injected + [Param("clusterRegion", Some(spec.params.clusterRegion))];
  }

  /** Appends the fixed fields and the entries of both maps to the list of a workflow, which may have none. */
  method ConfigureGlobalWFParameters(spec: Spec, template: Option<seq<Param>>) returns (injected: seq<Param>)
    ensures var declared := if template.Some? then template.value else [];
            && declared <= injected
            && |injected| == |declared| + 8 + |spec.params.additionalConfigs| + |spec.params.data|
            && Reads(injected, declared, spec)
            && (Distinct(injected) <==> Apart(declared, spec))
            && ShowsRest(injected, declared, spec)
    ensures ShowsFields(injected, spec)
  {
    var declared := if template.Some? then template.value else [];
    injected := AppendFixed(spec, declared);
    var configs := ListEntries(spec.params.additionalConfigs);
    injected := injected + configs;
    var data := ListEntries(spec.params.data);
    injected := injected + data;
    FixedLength(spec);
    InjectedReads(spec, declared, configs, data);
    InjectedDistinct(spec, declared, configs, data);
    ReadsRest(spec, declared, injected);
    ReadsFields(spec, declared, injected);
  }

  lemma {:induction false} FixedLength(spec: Spec)
    ensures |FixedParams(spec)| == 8
  {
  }

  /** Reading the list gives a name its value for the addon, else its package field, else what the
      template declares for it. */
  predicate ReadsName(injected: seq<Param>, declared: seq<Param>, spec: Spec, name: string) {
    && (name in LastOf(injected) <==>
          ValueOf(spec.params, name).Some? || name in PackageFields(spec.pkg) || name in LastOf(declared))
    && (name in LastOf(injected) ==>
          LastOf(injected)[name] ==
            if ValueOf(spec.params, name).Some? then ValueOf(spec.params, name)
            else if name in PackageFields(spec.pkg) then Some(PackageFields(spec.pkg)[name])
            else LastOf(declared)[name])
  }

  ghost predicate Reads(injected: seq<Param>, declared: seq<Param>, spec: Spec) {
    forall name :: ReadsName(injected, declared, spec, name)
  }

  const FIXED := {"namespace", "clusterName", "clusterRegion", "pkgChannel", "pkgName", "pkgVersion", "pkgType", "pkgDescription"}

  /** Unless data or additional configuration gives the name, it reads as the value. */
  predicate Shows(injected: seq<Param>, spec: Spec, name: string, value: string) {
    NotGiven(spec.params, name) ==> ReadsAs(injected, name, Some(value))
  }

  /** Each fixed name reads as its own field, unless data or additional configuration gives it. */
  predicate ShowsFields(injected: seq<Param>, spec: Spec) {
    && Shows(injected, spec, "namespace", spec.params.namespace)
    && Shows(injected, spec, "clusterName", spec.params.clusterName)
    && Shows(injected, spec, "clusterRegion", spec.params.clusterRegion)
    && Shows(injected, spec, "pkgChannel", spec.pkg.channel)
    && Shows(injected, spec, "pkgName", spec.pkg.name)
    && Shows(injected, spec, "pkgVersion", spec.pkg.version)
    && Shows(injected, spec, "pkgType", spec.pkg.pkgType)
    && Shows(injected, spec, "pkgDescription", spec.pkg.description)
  }

  /** Data comes first, then additional configuration; any other name that is not fixed reads as the
      template has it. */
  predicate ShowsRest(injected: seq<Param>, declared: seq<Param>, spec: Spec) {
    && (forall name | name in spec.params.data :: ReadsAs(injected, name, Some(spec.params.data[name])))
    && (forall name | name in spec.params.additionalConfigs && name !in spec.params.data ::
          ReadsAs(injected, name, Some(spec.params.additionalConfigs[name])))
    && (forall name | name in LastOf(declared) && NotGiven(spec.params, name) && name !in FIXED ::
          ReadsAs(injected, name, LastOf(declared)[name]))
  }

  predicate ReadsAs(ps: seq<Param>, name: string, value: Option<string>) { name in LastOf(ps) && LastOf(ps)[name] == value }

  lemma {:induction false} FixedKeys(spec: Spec)
    ensures BaseFields(spec.params).Keys + PackageFields(spec.pkg).Keys == FIXED
  {
  }

  lemma {:induction false} ReadsRest(spec: Spec, declared: seq<Param>, injected: seq<Param>)
    requires Reads(injected, declared, spec)
    ensures ShowsRest(injected, declared, spec)
  {
    FixedKeys(spec);
    forall name | name in spec.params.data ensures ReadsAs(injected, name, Some(spec.params.data[name])) {
      assert ReadsName(injected, declared, spec, name);
    }
    forall name | name in spec.params.additionalConfigs && name !in spec.params.data
      ensures ReadsAs(injected, name, Some(spec.params.additionalConfigs[name]))
    {
      assert ReadsName(injected, declared, spec, name);
    }
    forall name | name in LastOf(declared) && NotGiven(spec.params, name) && name !in FIXED
      ensures ReadsAs(injected, name, LastOf(declared)[name])
    {
      assert ReadsName(injected, declared, spec, name);
    }
  }

  lemma {:induction false} ReadsFields(spec: Spec, declared: seq<Param>, injected: seq<Param>)
    requires Reads(injected, declared, spec)
    ensures ShowsFields(injected, spec)
  {
    PackageNamesApart();
    BaseShows(spec, declared, injected, "namespace", spec.params.namespace);
    BaseShows(spec, declared, injected, "clusterName", spec.params.clusterName);
    BaseShows(spec, declared, injected, "clusterRegion", spec.params.clusterRegion);
    PackageShows(spec, declared, injected, "pkgChannel", spec.pkg.channel);
    PackageShows(spec, declared, injected, "pkgName", spec.pkg.name);
    PackageShows(spec, declared, injected, "pkgVersion", spec.pkg.version);
    PackageShows(spec, declared, injected, "pkgType", spec.pkg.pkgType);
    PackageShows(spec, declared, injected, "pkgDescription", spec.pkg.description);
  }

  lemma {:induction false} BaseShows(spec: Spec, declared: seq<Param>, injected: seq<Param>, name: string, value: string)
    requires Reads(injected, declared, spec) && name in BaseFields(spec.params) && BaseFields(spec.params)[name] == value
    ensures Shows(injected, spec, name, value)
  {
    assert ReadsName(injected, declared, spec, name);
  }

  lemma {:induction false} PackageShows(spec: Spec, declared: seq<Param>, injected: seq<Param>, name: string, value: string)
    requires Reads(injected, declared, spec) && name in PackageFields(spec.pkg) && PackageFields(spec.pkg)[name] == value
    ensures Shows(injected, spec, name, value)
  {
    FixedNamesApart(spec);
    assert ReadsName(injected, declared, spec, name);
  }

  function ParamsOf(fields: seq<(string, string)>): seq<Param> {
    if fields == [] then [] else ParamsOf(fields[..|fields| - 1]) + [Param(fields[|fields| - 1].0, Some(fields[|fields| - 1].1))]
  }

  function MapOf(fields: seq<(string, string)>): map<string, string> {
    if fields == [] then map[] else MapOf(fields[..|fields| - 1])[fields[|fields| - 1].0 := fields[|fields| - 1].1]
  }

  lemma {:induction false} OneMoreField(fields: seq<(string, string)>, f: (string, string))
    ensures ParamsOf(fields + [f]) == ParamsOf(fields) + [Param(f.0, Some(f.1))]
    ensures MapOf(fields + [f]) == MapOf(fields)[f.0 := f.1]
  {
    assert (fields + [f])[..|fields|] == fields;
  }

  lemma {:induction false} FieldsList(fields: seq<(string, string)>)
    requires forall i, j | 0 <= i < j < |fields| :: fields[i].0 != fields[j].0
    ensures Lists(ParamsOf(fields), MapOf(fields))
    ensures forall name | name in MapOf(fields) :: exists i :: 0 <= i < |fields| && fields[i].0 == name
  {
    if fields == [] {
      ListsNothing();
    } else {
      var n := |fields| - 1;
      FieldsList(fields[..n]);
      ListsAdd(ParamsOf(fields[..n]), MapOf(fields[..n]), fields[n].0, fields[n].1);
    }
  }

  lemma {:induction false} PackageLists(pkg: PackageSpec)
    ensures Lists(PackageParams(pkg), PackageFields(pkg))
  {
    PackageNamesApart();
    var a, b, c := ("pkgChannel", pkg.channel), ("pkgName", pkg.name), ("pkgVersion", pkg.version);
    var d, e := ("pkgType", pkg.pkgType), ("pkgDescription", pkg.description);
    OneMoreField([], a);
    assert [] + [a] == [a] && ParamsOf([]) + [Param(a.0, Some(a.1))] == [Param(a.0, Some(a.1))];
    OneMoreField([a], b);
    OneMoreField([a] + [b], c);
    OneMoreField([a] + [b] + [c], d);
    OneMoreField([a] + [b] + [c] + [d], e);
    FieldsList([a] + [b] + [c] + [d] + [e]);
  }

  lemma {:induction false} PackageNamesApart()
    ensures "pkgName" != "pkgType" && "pkgChannel" != "pkgVersion"
  {
    assert "pkgName"[3] != "pkgType"[3] && "pkgChannel"[3] != "pkgVersion"[3];
  }

  lemma {:induction false} ListsNothing()
    ensures Lists([], map[])
    ensures forall p: Param :: [] + [p] == [p]
  {
  }

  lemma {:induction false} BaseLists(params: AddonParams)
    ensures Lists(NamespaceParam(params), map["namespace" := params.namespace])
    ensures Lists(ClusterParams(params), map["clusterName" := params.clusterName, "clusterRegion" := params.clusterRegion])
  {
    ListsNothing();
    ListsAdd([], map[], "namespace", params.namespace);
    ListsAdd([], map[], "clusterName", params.clusterName);
    ListsAdd([Param("clusterName", Some(params.clusterName))], map["clusterName" := params.clusterName], "clusterRegion",
             params.clusterRegion);
  }

  lemma {:induction false} ValuesOfSum(m: map<string, string>, n: map<string, string>)
    ensures AsValues(m + n) == AsValues(m) + AsValues(n)
  {
  }

  /** Lists with no name in common, one after the other, list both maps. */
  lemma {:induction false} ListsAppend(ps: seq<Param>, m: map<string, string>, qs: seq<Param>, n: map<string, string>)
    requires Lists(ps, m) && Lists(qs, n) && m.Keys !! n.Keys
    ensures Lists(ps + qs, m + n)
  {
    LastOfAppend(ps, qs);
    DistinctAppend(ps, qs);
    ValuesOfSum(m, n);
    assert (m + n).Keys == m.Keys + n.Keys;
  }

  lemma {:induction false} FixedNamesApart(spec: Spec)
    ensures "namespace" !in PackageFields(spec.pkg) && "clusterName" !in PackageFields(spec.pkg)
    ensures "clusterRegion" !in PackageFields(spec.pkg)
  {
  }

  lemma {:induction false} FixedLists(spec: Spec)
    ensures Lists(FixedParams(spec), PackageFields(spec.pkg) + BaseFields(spec.params))
  {
    var params, fields := spec.params, PackageFields(spec.pkg);
    var m1, m2 := map["namespace" := params.namespace],
                  map["clusterName" := params.clusterName, "clusterRegion" := params.clusterRegion];
    PackageLists(spec.pkg);
    BaseLists(params);
    FixedNamesApart(spec);
    ListsAppend(NamespaceParam(params), m1, PackageParams(spec.pkg), fields);
    ListsAppend(NamespaceParam(params) + PackageParams(spec.pkg), m1 + fields, ClusterParams(params), m2);
    SumsAgree(params, fields);
  }

  lemma {:induction false} SumsAgree(params: AddonParams, fields: map<string, string>)
    requires "namespace" !in fields
    ensures map["namespace" := params.namespace] + fields
            + map["clusterName" := params.clusterName, "clusterRegion" := params.clusterRegion] == fields + BaseFields(params)
  {
  }

  lemma {:induction false} InjectedReads(spec: Spec, declared: seq<Param>, configs: seq<Param>, data: seq<Param>)
    requires Lists(configs, spec.params.additionalConfigs) && Lists(data, spec.params.data)
    ensures Reads(declared + FixedParams(spec) + configs + data, declared, spec)
  {
    LastOfAppend(declared, FixedParams(spec));
    LastOfAppend(declared + FixedParams(spec), configs);
    LastOfAppend(declared + FixedParams(spec) + configs, data);
    FixedLists(spec);
    FixedNamesApart(spec);
    var injected := declared + FixedParams(spec) + configs + data;
    forall name ensures ReadsName(injected, declared, spec, name) {
      ReadsSum(spec, declared, injected, name);
    }
  }

  lemma {:induction false} ReadsSum(spec: Spec, declared: seq<Param>, injected: seq<Param>, name: string)
    requires LastOf(injected) == LastOf(declared) + AsValues(PackageFields(spec.pkg) + BaseFields(spec.params))
                                 + AsValues(spec.params.additionalConfigs) + AsValues(spec.params.data)
    ensures ReadsName(injected, declared, spec, name)
  {
  }

  lemma {:induction false} InjectedDistinct(spec: Spec, declared: seq<Param>, configs: seq<Param>, data: seq<Param>)
    requires Lists(configs, spec.params.additionalConfigs) && Lists(data, spec.params.data)
    ensures Distinct(declared + FixedParams(spec) + configs + data) <==> Apart(declared, spec)
  {
    FixedLists(spec);
    DistinctAppend(declared, FixedParams(spec));
    DistinctAppend(declared + FixedParams(spec), configs);
    DistinctAppend(declared + FixedParams(spec) + configs, data);
  }

  lemma {:induction false} PackageValues(pkg: PackageSpec)
    ensures AsValues(PackageFields(pkg)) ==
              map["pkgChannel" := Some(pkg.channel), "pkgName" := Some(pkg.name), "pkgVersion" := Some(pkg.version),
                  "pkgType" := Some(pkg.pkgType), "pkgDescription" := Some(pkg.description)]
  {
    PackageNamesApart();
  }

  /** The list a workflow gets and the parameter map of the addon agree: reading the list is the map
      laid over the package fields, laid over the template. */
  lemma {:induction false} InjectionAgrees(spec: Spec, declared: seq<Param>, injected: seq<Param>, all: map<string, string>)
    requires Reads(injected, declared, spec) && Gives(all, spec.params)
    ensures LastOf(injected) ==
              LastOf(declared)
              + map["pkgChannel" := Some(spec.pkg.channel), "pkgName" := Some(spec.pkg.name),
                    "pkgVersion" := Some(spec.pkg.version), "pkgType" := Some(spec.pkg.pkgType),
                    "pkgDescription" := Some(spec.pkg.description)]
              + map name | name in all :: Some(all[name])
  {
    PackageValues(spec.pkg);
    var sum := LastOf(declared) + AsValues(PackageFields(spec.pkg)) + AsValues(all);
    forall name
      ensures name in LastOf(injected) <==> name in sum
      ensures name in sum ==> LastOf(injected)[name] == sum[name]
    {
      assert ReadsName(injected, declared, spec, name);
    }
  }

  /** What the template declares for a name stays, exactly unless the addon gives the name another value. */
  lemma {:induction false} TemplateKeeps(spec: Spec, declared: seq<Param>, injected: seq<Param>, name: string)
    requires Reads(injected, declared, spec) && name in LastOf(declared)
    ensures name in LastOf(injected)
    ensures LastOf(injected)[name] == LastOf(declared)[name] <==>
            && (ValueOf(spec.params, name).Some? ==> ValueOf(spec.params, name) == LastOf(declared)[name])
            && (ValueOf(spec.params, name).None? && name in PackageFields(spec.pkg) ==>
                  Some(PackageFields(spec.pkg)[name]) == LastOf(declared)[name])
  {
    assert ReadsName(injected, declared, spec, name);
  }
}
