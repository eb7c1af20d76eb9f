/** Texts of several YAML documents: the bundle a workflow is built with, reading one back, and the
    labelling of the documents inside a workflow (pkg/workflows/workflow_builder.go,
    pkg/addonctl/addonctl.go, pkg/workflows/workflow.go). */
module Manifests {
  import opened AddonTypes
  import opened Text

  const SEP := "---\n"

  lemma {:induction false} SepUnbordered()
    ensures Unbordered(SEP)
  {
    assert SEP[1..] != SEP[..3] by { assert SEP[1..][2] == '\n' && SEP[..3][2] == '-'; }
    assert SEP[2..] != SEP[..2] by { assert SEP[2..][1] == '\n' && SEP[..2][1] == '-'; }
    assert SEP[3..] != SEP[..1] by { assert SEP[3..][0] == '\n' && SEP[..1][0] == '-'; }
  }

  predicate HasSuffix(s: string, suffix: string) {
    |suffix| <= |s| && s[|s| - |suffix|..] == suffix
  }

  // ---------------------------------------------------------------------------
  // The bundle.

  /** A resource as it stands in a bundle, on lines of its own. */
  function Form(resource: string): string { if HasSuffix(resource, "\n") then resource else resource + "\n" }

  function Forms(resources: seq<string>): seq<string> {
    seq(|resources|, i requires 0 <= i < |resources| => Form(resources[i]))
  }

  function Bundle(resources: seq<string>): string { Join(Forms(resources) + [""], SEP) }

  lemma {:induction false} JoinEnds(parts: seq<string>, last: string, sep: string)
    ensures Join(parts + [last] + [""], sep) == Join(parts + [""], sep) + (last + sep)
  {
    if parts == [] {
      assert [last] + [""] == [last, ""] && [] + [last] + [""] == [last, ""] && [] + [""] == [""];
      assert Join([last, ""], sep) == last + (sep + "");
    } else {
      JoinEnds(parts[1..], last, sep);
      var all, some := parts + [last] + [""], parts + [""];
      assert all[1..] == parts[1..] + [last] + [""] && some[1..] == parts[1..] + [""];
    }
  }

  method Resources(resources: seq<string>) returns (text: string)
    ensures text == Bundle(resources)
  {
    text := "";
    assert Forms(resources[..0]) + [""] == [""];
    for n := 0 to |resources|
      invariant text == Bundle(resources[..n])
    {
      var resource := resources[n];
      var separator := "---\n";
      if !HasSuffix(resource, "\n") {
        separator := "\n" + separator;
      }
      text := text + (resource + separator);
      assert resource + separator == Form(resource) + SEP;
      JoinEnds(Forms(resources[..n]), Form(resource), SEP);
      assert resources[..n + 1] == resources[..n] + [resource];
      FormsMore(resources[..n], resource);
    }
    assert resources[..|resources|] == resources;
  }

  /** The separator stands at a place exactly when its four characters do. */
  lemma {:induction false} SepAt(s: string, i: nat)
    ensures OccursAt(s, SEP, i) <==> i + 4 <= |s| && s[i] == s[i + 1] == s[i + 2] == '-' && s[i + 3] == '\n'
  {
    if i + 4 <= |s| {
      var t := s[i..i + 4];
      assert t[0] == s[i] && t[1] == s[i + 1] && t[2] == s[i + 2] && t[3] == s[i + 3];
      assert SEP[0] == SEP[1] == SEP[2] == '-' && SEP[3] == '\n';
    }
  }

  lemma {:induction false} DashesAtEnd(s: string)
    ensures HasSuffix(s, "---") <==> 3 <= |s| && s[|s| - 3] == s[|s| - 2] == s[|s| - 1] == '-'
  {
    if 3 <= |s| {
      var t := s[|s| - 3..];
      assert t[0] == s[|s| - 3] && t[1] == s[|s| - 2] && t[2] == s[|s| - 1];
    }
  }

  /** A line end completes a separator exactly when all of it but the line end stands before. */
  lemma {:induction false} LineEndCompletes(s: string)
    ensures Contains(s + "\n", SEP) <==> Contains(s, SEP) || HasSuffix(s, "---")
  {
    var t, n := s + "\n", |s|;
    DashesAtEnd(s);
    forall i: nat ensures OccursAt(t, SEP, i) <==> OccursAt(s, SEP, i) || (i + 3 == n && HasSuffix(s, "---")) {
      SepAt(s, i);
      SepAt(t, i);
    }
    if HasSuffix(s, "---") { assert OccursAt(t, SEP, n - 3); }
  }

  /** A form holds a separator exactly when the resource does, or leaves one open at its end. */
  lemma {:induction false} FormContains(resource: string)
    ensures Contains(Form(resource), SEP) <==> Contains(resource, SEP) || HasSuffix(resource, "---")
  {
    LineEndCompletes(resource);
    DashesAtEnd(resource);
  }

  /** A resource that ends its last line stands in a bundle as it is, and any other with a line end. */
  lemma {:induction false} FormsAre(resources: seq<string>, i: nat)
    requires i < |resources|
    ensures |Forms(resources)| == |resources|
    ensures var r := resources[i];
            Forms(resources)[i] == if r != "" && r[|r| - 1] == '\n' then r else r + "\n"
  {
    var r := resources[i];
    if r != "" { assert r[|r| - 1..] == [r[|r| - 1]]; }
  }

  /** Splitting a bundle gives the forms of its resources and an empty tail, exactly when no resource
      holds a separator or leaves one open; otherwise there are more pieces. */
  lemma {:induction false} BundleSplitsExactly(resources: seq<string>)
    ensures Split(Bundle(resources), SEP) == Forms(resources) + [""] <==>
            forall r | r in resources :: !Contains(r, SEP) && !HasSuffix(r, "---")
    ensures |Split(Bundle(resources), SEP)| == |resources| + 1 <==>
            forall r | r in resources :: !Contains(r, SEP) && !HasSuffix(r, "---")
  {
    var parts := Forms(resources) + [""];
    SepUnbordered();
    SplitJoinExact(parts, SEP);
    assert !Contains("", SEP);
    forall i | 0 <= i < |resources|
      ensures !Contains(parts[i], SEP) <==> !Contains(resources[i], SEP) && !HasSuffix(resources[i], "---")
    {
      FormContains(resources[i]);
    }
    if forall i | 0 <= i < |parts| :: !Contains(parts[i], SEP) {
      forall r | r in resources ensures !Contains(r, SEP) && !HasSuffix(r, "---") {
        var i :| 0 <= i < |resources| && resources[i] == r;
        assert !Contains(parts[i], SEP);
      }
    }
  }

  // ---------------------------------------------------------------------------
  // Reading a bundle back.

  function NonBlank(pieces: seq<string>): seq<string> {
    if pieces == [] then []
    else NonBlank(pieces[..|pieces| - 1]) + if Blank(pieces[|pieces| - 1]) then [] else [pieces[|pieces| - 1]]
  }

  lemma {:induction false} StepNamesDiffer()
    ensures "prereqs" != "install"
  {
    assert "prereqs"[0] != "install"[0];
  }

  /** The resources collected from the files of a command line. */
  class Collected {
    var prereqs: seq<string>
    var install: seq<string>

    method Collect(resource: string, forPrereqs: bool, forInstall: bool)
      modifies this
      ensures prereqs == old(prereqs) + if forPrereqs then [resource] else []
      ensures install == old(install) + if !forPrereqs && forInstall then [resource] else []
    {
      if forPrereqs {
        prereqs := prereqs + [resource];
      } else if forInstall {
        install := install + [resource];
      }
    }

    /** `content` is `None` when the file cannot be read. */
    method ParseResources(content: Option<string>, stepName: string) returns (failed: bool)
      modifies this
      ensures failed <==> content == None
      ensures prereqs == old(prereqs) + if !failed && stepName == "prereqs" then NonBlank(Split(content.value, SEP)) else []
      ensures install == old(install) + if !failed && stepName == "install" then NonBlank(Split(content.value, SEP)) else []
    {
      if content == None { return true; }
      var resources := Split(content.value, "---\n");
      var forPrereqs, forInstall := stepName == "prereqs", stepName == "install";
      StepNamesDiffer();
      ghost var kept := [];
      for n := 0 to |resources|
        invariant kept == NonBlank(resources[..n])
        invariant prereqs == old(prereqs) + if forPrereqs then kept else []
        invariant install == old(install) + if forInstall then kept else []
      {
        NonBlankMore(resources, n);
        if Trim(resources[n]) == "" {
          continue;
        }
        kept := kept + [resources[n]];
        Collect(resources[n], forPrereqs, forInstall);
      }
      assert resources[..|resources|] == resources;
      return false;
    }
  }

  lemma {:induction false} NonBlankMore(pieces: seq<string>, n: nat)
    requires n < |pieces|
    ensures NonBlank(pieces[..n + 1]) == NonBlank(pieces[..n]) + if Trim(pieces[n]) == "" then [] else [pieces[n]]
  {
    TrimBlank(pieces[n]);
    assert pieces[..n + 1][..n] == pieces[..n];
  }

  lemma {:induction false} NonBlankForms(resources: seq<string>)
    ensures NonBlank(Forms(resources)) == Forms(NonBlank(resources))
  {
    if resources != [] {
      var n := |resources| - 1;
      NonBlankForms(resources[..n]);
      BlankForm(resources[n]);
      assert resources == resources[..n] + [resources[n]];
      FormsMore(resources[..n], resources[n]);
      FormsMore(NonBlank(resources[..n]), resources[n]);
      assert Forms(resources)[..n] == Forms(resources[..n]);
    }
  }

  lemma {:induction false} FormsMore(resources: seq<string>, resource: string)
    ensures Forms(resources + [resource]) == Forms(resources) + [Form(resource)]
  {
  }

  lemma {:induction false} BlankForm(resource: string)
    ensures Blank(Form(resource)) <==> Blank(resource)
  {
    if !Blank(resource) {
      var i :| 0 <= i < |resource| && !IsSpace(resource[i]);
      assert Form(resource)[i] == resource[i];
    }
  }

  lemma {:induction false} NonBlankSnoc(a: seq<string>, p: string)
    ensures NonBlank(a + [p]) == NonBlank(a) + if Trim(p) == "" then [] else [p]
  {
    TrimBlank(p);
    assert (a + [p])[..|a|] == a;
  }

  lemma {:induction false} NonBlankOne(p: string)
    ensures NonBlank([p]) == if Trim(p) == "" then [] else [p]
  {
    NonBlankSnoc([], p);
    assert [] + [p] == [p];
  }

  /** Dropping the blank pieces keeps the others, in order. */
  lemma {:induction false} NonBlankAppend(a: seq<string>, b: seq<string>)
    ensures NonBlank(a + b) == NonBlank(a) + NonBlank(b)
    decreases |b|
  {
    if b == [] {
      assert a + b == a;
    } else {
      var n := |b| - 1;
      assert a + b == a + b[..n] + [b[n]] && b == b[..n] + [b[n]];
      NonBlankAppend(a, b[..n]);
      NonBlankSnoc(a + b[..n], b[n]);
      NonBlankSnoc(b[..n], b[n]);
    }
  }

  lemma {:induction false} NonBlankIn(pieces: seq<string>, piece: string)
    ensures piece in NonBlank(pieces) <==> piece in pieces && !Blank(piece)
  {
    if pieces != [] {
      var n := |pieces| - 1;
      NonBlankIn(pieces[..n], piece);
      assert pieces == pieces[..n] + [pieces[n]];
    }
  }

  lemma {:induction false} SeparatorIsNotBlank(s: string)
    requires Contains(s, SEP)
    ensures !Blank(s)
  {
    var i: nat :| i <= |s| && OccursAt(s, SEP, i);
    assert s[i] == s[i..i + 4][0] == '-';
  }

  /** Reading a bundle back gives the resources that are not blank, in order and on lines of their
      own, exactly when no resource holds a separator or leaves one open at its end. */
  lemma {:induction false} BundleReadsBackExactly(resources: seq<string>)
    ensures NonBlank(Split(Bundle(resources), SEP)) == Forms(NonBlank(resources)) <==>
            forall r | r in resources :: !Contains(r, SEP) && !HasSuffix(r, "---")
  {
    var pieces := Split(Bundle(resources), SEP);
    NonBlankForms(resources);
    BundleSplitsExactly(resources);
    if forall r | r in resources :: !Contains(r, SEP) && !HasSuffix(r, "---") {
      assert (Forms(resources) + [""])[..|resources|] == Forms(resources);
    } else {
      var r :| r in resources && (Contains(r, SEP) || HasSuffix(r, "---"));
      var i :| 0 <= i < |resources| && resources[i] == r;
      FormContains(r);
      assert Forms(resources)[i] == Form(r);
      SeparatorIsNotBlank(Form(r));
      NonBlankIn(Forms(resources), Form(r));
      NonBlankIn(pieces, Form(r));
      SplitFree(Bundle(resources), SEP);
    }
  }

  /** A text that is read, bundled and read again comes back, each piece on lines of its own, exactly
      when no piece leaves a separator open. */
  lemma {:induction false} ReadAgainExactly(text: string)
    ensures var pieces := NonBlank(Split(text, SEP));
            NonBlank(Split(Bundle(pieces), SEP)) == Forms(pieces) <==> forall p | p in pieces :: !HasSuffix(p, "---")
  {
    var pieces := NonBlank(Split(text, SEP));
    SplitFree(text, SEP);
    BundleReadsBackExactly(pieces);
    forall p | p in pieces ensures !Contains(p, SEP) && !Blank(p) { NonBlankIn(Split(text, SEP), p); }
    forall i | 0 <= i < |pieces| ensures !Blank(pieces[i]) { assert pieces[i] in pieces; }
    AllKept(pieces);
  }

  lemma {:induction false} AllKept(pieces: seq<string>)
    requires forall i | 0 <= i < |pieces| :: !Blank(pieces[i])
    ensures NonBlank(pieces) == pieces
  {
    if pieces != [] {
      var n := |pieces| - 1;
      forall i | 0 <= i < n ensures !Blank(pieces[..n][i]) { assert pieces[..n][i] == pieces[i]; }
      AllKept(pieces[..n]);
      assert pieces == pieces[..n] + [pieces[n]];
    }
  }

  // ---------------------------------------------------------------------------
  // Labels.

  /** A Kubernetes object: its labels and everything else. */
  datatype Doc = Doc(labels: map<string, string>, rest: string)

  /** The YAML library: what it makes of a text and how it prints an object, `None` being an error. */
  datatype Codec = Codec(unmarshal: string -> Option<Doc>, marshal: Doc -> Option<string>)

  /** The name and the package version of the addon whose workflow is being made. */
  datatype Owner = Owner(name: string, version: string)

  const NAME_LABEL := "app.kubernetes.io/name"
  const VERSION_LABEL := "app.kubernetes.io/version"
  const PART_LABEL := "app.kubernetes.io/part-of"
  const MANAGED_LABEL := "app.kubernetes.io/managed-by"
  const GROUP := "addonmgr.keikoproj.io"

  function DefaultLabels(ow: Owner): map<string, string> {
    map[NAME_LABEL := ow.name, VERSION_LABEL := ow.version, PART_LABEL := ow.name, MANAGED_LABEL := GROUP]
  }

  function Labelled(d: Doc, ow: Owner): Doc { d.(labels := d.labels + DefaultLabels(ow)) }

  /** An object in memory, whose labels are set in place. */
  class Resource {
    var content: Doc

    constructor ()
      ensures content == Doc(map[], "")
    {
      content := Doc(map[], "");
    }

    method AddDefaultLabels(ow: Owner)
      modifies this
      ensures content == Labelled(old(content), ow)
    {
      var labels := content.labels;
      labels := labels[NAME_LABEL := ow.name];
      labels := labels[VERSION_LABEL := ow.version];
      labels := labels[PART_LABEL := ow.name];
      labels := labels[MANAGED_LABEL := GROUP];
      content := content.(labels := labels);
    }
  }

  /** The document in a piece of text: `None` for a blank piece and for one that cannot be parsed. */
  function DocIn(cd: Codec, piece: string): Option<Doc> {
    if Blank(piece) then None else cd.unmarshal(Trim(piece))
  }

  /** What a piece becomes; `None` when it cannot be parsed or printed. */
  function LabelPiece(cd: Codec, ow: Owner, piece: string): Option<string> {
    if Blank(piece) then Some("")
    else if DocIn(cd, piece) == None then None
    else cd.marshal(Labelled(DocIn(cd, piece).value, ow))
  }

  /** The parser gets the text of a piece without the white space around it, and what it makes of it
      is printed with the labels on it. */
  lemma {:induction false} PieceBecomes(cd: Codec, ow: Owner, l: string, s: string, r: string)
    requires Blank(l) && Blank(r) && Edged(s)
    ensures s == "" ==> LabelPiece(cd, ow, l + s + r) == Some("")
    ensures s != "" && cd.unmarshal(s) == None ==> LabelPiece(cd, ow, l + s + r) == None
    ensures s != "" && cd.unmarshal(s).Some? ==>
              exists d' :: Carries(ow, cd.unmarshal(s).value, d') && LabelPiece(cd, ow, l + s + r) == cd.marshal(d')
  {
    TrimPad(l, s, r);
    TrimBlank(l + s + r);
    if s != "" && cd.unmarshal(s).Some? {
      var d := cd.unmarshal(s).value;
      LabelledCarries(d, Labelled(d, ow), ow);
    }
  }

  method ProcessArtifact(cd: Codec, ow: Owner, obj: string, resource: Resource) returns (text: Option<string>)
    modifies resource
    ensures text == LabelPiece(cd, ow, obj)
  {
    TrimBlank(obj);
    var trimmed := Trim(obj);
    if trimmed == "" { return Some(trimmed); }
    var data := cd.unmarshal(trimmed);
    if data == None { return None; }
    resource.content := data.value;
    resource.AddDefaultLabels(ow);
    text := cd.marshal(resource.content);
  }

  predicate AllLabel(cd: Codec, ow: Owner, pieces: seq<string>) {
    forall i | 0 <= i < |pieces| :: LabelPiece(cd, ow, pieces[i]).Some?
  }

  function LabelPieces(cd: Codec, ow: Owner, pieces: seq<string>): seq<string>
    requires AllLabel(cd, ow, pieces)
  {
    seq(|pieces|, i requires 0 <= i < |pieces| => LabelPiece(cd, ow, pieces[i]).value)
  }

  /** What a text of several documents becomes. */
  function LabelText(cd: Codec, ow: Owner, data: string): Option<string> {
    var pieces := Split(data, SEP);
    if AllLabel(cd, ow, pieces) then Some(Join(LabelPieces(cd, ow, pieces), SEP)) else None
  }

  method ProcessText(cd: Codec, ow: Owner, data: string) returns (text: Option<string>)
    ensures text == LabelText(cd, ow, data)
  {
    var objs := [];
    var pieces := Split(data, "---\n");
    for n := 0 to |pieces|
      invariant AllLabel(cd, ow, pieces[..n]) && objs == LabelPieces(cd, ow, pieces[..n])
    {
      var resource := new Resource();
      var obj := ProcessArtifact(cd, ow, pieces[n], resource);
      if obj == None { return None; }
      objs := objs + [obj.value];
    }
    assert pieces[..|pieces|] == pieces;
    text := Some(Join(objs, "---\n"));
  }

  /** A part of a workflow: the raw data of its artifacts, if it has any, and its manifest. */
  class StepObject {
    var artifacts: Option<seq<Option<string>>>
    var manifest: Option<string>

    /** Artifacts are rewritten one after the other up to the first that cannot be; a manifest is
        looked at only where there are no artifacts. */
    method ProcessWorkflowResources(cd: Codec, ow: Owner) returns (failed: bool)
      modifies this
      ensures old(artifacts).Some? ==>
                && manifest == old(manifest) && artifacts.Some? && Rewrites(cd, ow, old(artifacts).value, artifacts.value)
                && (failed <==> !Labels(cd, ow, old(artifacts).value, |old(artifacts).value|))
      ensures old(artifacts).None? && old(manifest).Some? ==>
                && artifacts.None? && manifest.Some? && Rewrites(cd, ow, [old(manifest)], [manifest])
                && (failed <==> LabelText(cd, ow, old(manifest).value) == None)
      ensures old(artifacts).None? && old(manifest).None? ==> artifacts.None? && manifest.None? && !failed
    {
      if artifacts.Some? {
        var arts := artifacts.value;
        for n := 0 to |arts|
          invariant Labels(cd, ow, arts, n) && manifest == old(manifest)
          invariant artifacts.Some? && |artifacts.value| == |arts| && artifacts.value[n..] == arts[n..]
          invariant forall i | 0 <= i < n :: artifacts.value[i] == LabelText(cd, ow, Raw(arts[i]))
        {
          var text := ProcessText(cd, ow, Raw(arts[n]));
          if text == None {
            assert forall i | n <= i < |arts| :: artifacts.value[i] == arts[n..][i - n];
            return true;
          }
          artifacts := Some(artifacts.value[n := text]);
        }
        return false;
      } else if manifest.Some? {
        var text := ProcessText(cd, ow, manifest.value);
        if text == None { return true; }
        manifest := text;
      }
      return false;
    }
  }

  /** The data of an artifact; one without any is read as empty. */
  function Raw(artifact: Option<string>): string { if artifact == None then "" else artifact.value }

  /** The first `n` texts can all be labelled. */
  predicate Labels(cd: Codec, ow: Owner, texts: seq<Option<string>>, n: nat)
    requires n <= |texts|
  {
    forall i | 0 <= i < n :: LabelText(cd, ow, Raw(texts[i])).Some?
  }

  /** Every text before the first that cannot be labelled is labelled, and the others are as they were. */
  predicate Rewrites(cd: Codec, ow: Owner, was: seq<Option<string>>, now: seq<Option<string>>) {
    && |now| == |was|
    && forall i | 0 <= i < |was| ::
         now[i] == if Labels(cd, ow, was, i + 1) then LabelText(cd, ow, if was[i] == None then "" else was[i].value) else was[i]
  }

  // ---------------------------------------------------------------------------
  // What labelling keeps.

  /** The number of documents and their order stay, exactly when no object prints with a separator. */
  lemma {:induction false} CountKeptExactly(cd: Codec, ow: Owner, data: string)
    requires LabelText(cd, ow, data).Some?
    ensures var pieces, out := Split(data, SEP), Split(LabelText(cd, ow, data).value, SEP);
            && (|out| == |pieces| <==>
                forall i | 0 <= i < |pieces| :: !Contains(LabelPiece(cd, ow, pieces[i]).value, SEP))
            && (|out| == |pieces| <==> out == LabelPieces(cd, ow, pieces))
  {
    var pieces := Split(data, SEP);
    var printed := LabelPieces(cd, ow, pieces);
    SepUnbordered();
    SplitJoinExact(printed, SEP);
    assert forall i | 0 <= i < |pieces| :: printed[i] == LabelPiece(cd, ow, pieces[i]).value;
  }

  /** The document of a piece, once labelled, prints to text that reads back as that document. */
  predicate ReadsBack(cd: Codec, ow: Owner, piece: string)
    requires LabelPiece(cd, ow, piece).Some?
  {
    DocIn(cd, piece).Some? ==>
      DocIn(cd, LabelPiece(cd, ow, piece).value) == Some(Labelled(DocIn(cd, piece).value, ow))
  }

  /** Every document of a text reads back once labelled, and prints without a separator. */
  predicate PrintsWell(cd: Codec, ow: Owner, data: string) {
    var pieces := Split(data, SEP);
    forall i | 0 <= i < |pieces| && LabelPiece(cd, ow, pieces[i]).Some? ::
      ReadsBack(cd, ow, pieces[i]) && !Contains(LabelPiece(cd, ow, pieces[i]).value, SEP)
  }

  /** The labels of an addon are on a document, and nothing else about it has changed. */
  ghost predicate Carries(ow: Owner, d: Doc, d': Doc) {
    && d'.rest == d.rest
    && ReadsLabel(d', "app.kubernetes.io/name", ow.name) && ReadsLabel(d', "app.kubernetes.io/part-of", ow.name)
    && ReadsLabel(d', "app.kubernetes.io/version", ow.version)
    && ReadsLabel(d', "app.kubernetes.io/managed-by", "addonmgr.keikoproj.io")
    && forall l | l !in {"app.kubernetes.io/name", "app.kubernetes.io/part-of", "app.kubernetes.io/version",
                         "app.kubernetes.io/managed-by"} ::
         (l in d'.labels <==> l in d.labels) && (l in d.labels ==> d'.labels[l] == d.labels[l])
  }

  predicate ReadsLabel(d: Doc, name: string, value: string) { name in d.labels && d.labels[name] == value }

  lemma {:induction false} LabelledCarries(d: Doc, d': Doc, ow: Owner)
    ensures Carries(ow, d, d') <==> d' == Labelled(d, ow)
  {
    if Carries(ow, d, d') {
      assert d'.labels == d.labels + DefaultLabels(ow);
    }
  }

  /** The piece `out` holds what `piece` does, with the labels: its document if it has one, else none. */
  ghost predicate Keeps(cd: Codec, ow: Owner, piece: string, out: string) {
    if DocIn(cd, piece) == None then DocIn(cd, out) == None
    else DocIn(cd, out).Some? && Carries(ow, DocIn(cd, piece).value, DocIn(cd, out).value)
  }

  lemma {:induction false} KeepsExactly(cd: Codec, ow: Owner, piece: string)
    requires LabelPiece(cd, ow, piece).Some?
    ensures Keeps(cd, ow, piece, LabelPiece(cd, ow, piece).value) <==> ReadsBack(cd, ow, piece)
  {
    var out := LabelPiece(cd, ow, piece).value;
    if DocIn(cd, piece).Some? && DocIn(cd, out).Some? {
      LabelledCarries(DocIn(cd, piece).value, DocIn(cd, out).value, ow);
    }
  }

  /** Labelling a text keeps its documents, one by one and in order, each with the labels on it and
      otherwise as it was, exactly when the documents of that text, once labelled, read back and
      print without a separator. */
  lemma {:induction false} DocumentsKeptExactly(cd: Codec, ow: Owner, data: string)
    requires LabelText(cd, ow, data).Some?
    ensures var pieces, out := Split(data, SEP), Split(LabelText(cd, ow, data).value, SEP);
            (|out| == |pieces| && forall i | 0 <= i < |pieces| :: Keeps(cd, ow, pieces[i], out[i]))
            <==> PrintsWell(cd, ow, data)
  {
    var pieces, out := Split(data, SEP), Split(LabelText(cd, ow, data).value, SEP);
    var printed := LabelPieces(cd, ow, pieces);
    CountKeptExactly(cd, ow, data);
    forall i | 0 <= i < |pieces| ensures Keeps(cd, ow, pieces[i], printed[i]) <==> ReadsBack(cd, ow, pieces[i]) {
      KeepsExactly(cd, ow, pieces[i]);
    }
  }

  lemma {:induction false} PieceTwice(cd: Codec, ow: Owner, piece: string)
    requires LabelPiece(cd, ow, piece).Some? && ReadsBack(cd, ow, piece)
    ensures LabelPiece(cd, ow, LabelPiece(cd, ow, piece).value) == LabelPiece(cd, ow, piece)
  {
    if !Blank(piece) {
      LabelledTwice(DocIn(cd, piece).value, ow);
    }
  }

  lemma {:induction false} LabelledTwice(d: Doc, ow: Owner)
    ensures Labelled(Labelled(d, ow), ow) == Labelled(d, ow)
  {
    assert d.labels + DefaultLabels(ow) + DefaultLabels(ow) == d.labels + DefaultLabels(ow);
  }

  /** Under the same condition labelling a second time changes nothing. */
  lemma {:induction false} LabellingTwice(cd: Codec, ow: Owner, data: string)
    requires LabelText(cd, ow, data).Some? && PrintsWell(cd, ow, data)
    ensures LabelText(cd, ow, LabelText(cd, ow, data).value) == LabelText(cd, ow, data)
  {
    var pieces := Split(data, SEP);
    var out := LabelPieces(cd, ow, pieces);
    CountKeptExactly(cd, ow, data);
    forall i | 0 <= i < |out| ensures LabelPiece(cd, ow, out[i]) == Some(out[i]) {
      PieceTwice(cd, ow, pieces[i]);
    }
    assert LabelPieces(cd, ow, out) == out;
  }
}
