/** Workflow names: how they are composed from an addon and how the workflow controller takes them
    apart again (api/addon/v1alpha1/addon_types.go, pkg/common/helpers.go). */
module WorkflowNames {
  import opened AddonTypes
  import opened Text

  const MAX_ADDON_NAME := 31

  function Checksum(cx: Context, spec: Spec): string { Hex(cx.adler(spec)) }

  function Compose(name: string, prefix: string, step: LifecycleStep, checksum: string): string {
    (if prefix != "" then name + "-" + prefix else name) + ("-" + (step.Text() + ("-" + (checksum + ("-" + "wf")))))
  }

  function FormattedName(cx: Context, spec: Spec, step: LifecycleStep): string {
    Compose(cx.name, spec.Workflow(step).namePrefix, step, Checksum(cx, spec))
  }

  /** The checksum and the step a workflow name carries, or `None` where the source reports an error. */
  function Extract(wfName: string): Option<(string, LifecycleStep)> {
    var parts := Split(wfName, "-");
    var n := |parts|;
    if n < 4 || Trim(parts[n - 1]) != "wf" then None
    else
      var checksum := Trim(parts[n - 2]);
      var step := Trim(parts[n - 3]);
      if step == "prereqs" then Some((checksum, Prereqs))
      else if step == "install" then Some((checksum, Install))
      else if step == "validate" then Some((checksum, Validate))
      else if step == "delete" then Some((checksum, Delete))
      else None
  }

  predicate HyphenFree(s: string) { forall i | 0 <= i < |s| :: s[i] != '-' }

  /** A checksum as the program prints it: hexadecimal digits, at least one. */
  predicate HexWord(s: string) {
    s != "" && forall i | 0 <= i < |s| :: '0' <= s[i] <= '9' || 'a' <= s[i] <= 'f'
  }

  lemma {:induction false} SplitWord(s: string)
    requires HyphenFree(s)
    ensures Split(s, "-") == [s]
  {
    forall i: nat | i < |s| ensures !OccursAt(s, "-", i) {
      assert s[i] != '-';
    }
  }

  lemma {:induction false} StepText(step: LifecycleStep)
    ensures HyphenFree(step.Text()) && Trim(step.Text()) == step.Text()
    ensures 6 <= |step.Text()| <= 8
  {
    TrimStable(step.Text());
  }

  lemma {:induction false} ThreeParts(a: string, b: string, c: string)
    requires HyphenFree(a) && HyphenFree(b) && HyphenFree(c)
    ensures Split(a + ("-" + (b + ("-" + c))), "-") == [a, b, c]
  {
    SplitWord(a);
    SplitWord(b);
    SplitWord(c);
    SplitAppend(b, "-", c);
    SplitAppend(a, "-", b + ("-" + c));
    assert [a] + ([b] + [c]) == [a, b, c];
  }

  lemma {:induction false} FourParts(head: string, a: string, b: string, c: string)
    requires HyphenFree(a) && HyphenFree(b) && HyphenFree(c)
    ensures Split(head + ("-" + (a + ("-" + (b + ("-" + c))))), "-") == Split(head, "-") + [a, b, c]
  {
    ThreeParts(a, b, c);
    SplitAppend(head, "-", a + ("-" + (b + ("-" + c))));
  }

  lemma {:induction false} ExtractParts(wfName: string, head: seq<string>, step: LifecycleStep, checksum: string)
    requires Split(wfName, "-") == head + [step.Text(), checksum, "wf"] && head != []
    requires Trim(checksum) == checksum
    ensures Extract(wfName) == Some((checksum, step))
  {
    var parts, n := Split(wfName, "-"), |head|;
    assert parts[n] == step.Text() && parts[n + 1] == checksum && parts[n + 2] == "wf";
    StepText(step);
    TrimStable("wf");
  }

  /** Whatever hyphens the addon name and the prefix hold, the step and the checksum come back. */
  lemma {:induction false} ExtractCompose(name: string, prefix: string, step: LifecycleStep, checksum: string)
    requires HexWord(checksum)
    ensures Extract(Compose(name, prefix, step, checksum)) == Some((checksum, step))
  {
    var head := if prefix != "" then name + "-" + prefix else name;
    StepText(step);
    FourParts(head, step.Text(), checksum, "wf");
    TrimStable(checksum);
    ExtractParts(Compose(name, prefix, step, checksum), Split(head, "-"), step, checksum);
  }

  /** The word that stands for a step in a name. */
  predicate Says(word: string, step: LifecycleStep) {
    || (step == Prereqs && word == "prereqs") || (step == Install && word == "install")
    || (step == Delete && word == "delete") || (step == Validate && word == "validate")
  }

  lemma {:induction false} OneWord(word: string, step: LifecycleStep)
    ensures Says(word, step) <==> word == step.Text()
  {
  }

  /** Parts of a name and of a prefix, if there is one, and then three more. */
  ghost predicate AreParts(name: string, prefix: string, parts: seq<string>, word: string, checksum: string) {
    parts == Split(name, "-") + (if prefix == "" then [] else Split(prefix, "-")) + [word, checksum, "wf"]
  }

  lemma {:induction false} HeadParts(name: string, prefix: string, word: string, checksum: string)
    requires HyphenFree(word) && HyphenFree(checksum)
    ensures var head := if prefix != "" then name + "-" + prefix else name;
            AreParts(name, prefix, Split(head + ("-" + (word + ("-" + (checksum + ("-" + "wf"))))), "-"), word, checksum)
  {
    if prefix == "" {
      FourParts(name, word, checksum, "wf");
      assert Split(name, "-") + [] == Split(name, "-");
    } else {
      var head := name + "-" + prefix;
      FourParts(head, word, checksum, "wf");
      assert head == name + ("-" + prefix);
      SplitAppend(name, "-", prefix);
    }
  }

  /** The parts of a workflow name between its hyphens: those of the addon name, then those of the
      prefix if there is one, then the word for the step, the checksum and "wf". */
  lemma {:induction false} NameParts(cx: Context, spec: Spec, step: LifecycleStep)
    ensures AreParts(cx.name, spec.Workflow(step).namePrefix, Split(FormattedName(cx, spec, step), "-"),
                     step.Text(), Checksum(cx, spec))
  {
    ChecksumIsHex(cx, spec);
    StepText(step);
    HeadParts(cx.name, spec.Workflow(step).namePrefix, step.Text(), Checksum(cx, spec));
  }

  /** The words for the steps, and the checksum as the hash in hexadecimal without leading zeros. */
  lemma {:induction false} WordsAre(cx: Context, spec: Spec, step: LifecycleStep)
    ensures Says(step.Text(), step)
    ensures ReadHex(Checksum(cx, spec)) == cx.adler(spec)
    ensures |Checksum(cx, spec)| > 1 ==> Checksum(cx, spec)[0] != '0'
  {
    HexDenotes(cx.adler(spec));
  }

  /** The name ends in three parts without hyphens: white space aside, a word for the step, the
      checksum and "wf"; before them stands at least one more part. */
  ghost predicate Ends(wfName: string, checksum: string, step: LifecycleStep) {
    exists head, a, b, c, word :: && wfName == head + ("-" + (a + ("-" + (b + ("-" + c)))))
                                  && EndParts(a, b, c, word, checksum, step)
  }

  ghost predicate EndParts(a: string, b: string, c: string, word: string, checksum: string, step: LifecycleStep) {
    && HyphenFree(a) && HyphenFree(b) && HyphenFree(c)
    && Says(word, step) && Pads(a, word) && Pads(b, checksum) && Pads(c, "wf")
  }

  lemma {:induction false} FreeIsHyphenFree(s: string)
    requires !Contains(s, "-")
    ensures HyphenFree(s)
  {
    forall i | 0 <= i < |s| ensures s[i] != '-' {
      assert !OccursAt(s, "-", i);
      assert s[i..i + 1] == [s[i]];
    }
  }

  lemma {:induction false} JoinInit(parts: seq<string>)
    requires |parts| >= 2
    ensures Join(parts, "-") == Join(parts[..|parts| - 1], "-") + ("-" + parts[|parts| - 1])
  {
    var n := |parts| - 1;
    JoinSnoc(parts[..n], parts[n], "-");
    assert parts[..n] + [parts[n]] == parts;
  }

  lemma {:induction false} InitInit(parts: seq<string>, n: nat)
    requires 0 < n <= |parts|
    ensures parts[..n][..n - 1] == parts[..n - 1] && parts[..n][n - 1] == parts[n - 1]
  {
  }

  lemma {:induction false} JoinThree(parts: seq<string>)
    requires |parts| >= 4
    ensures var n := |parts|;
            Join(parts, "-") == Join(parts[..n - 3], "-") + ("-" + parts[n - 3]) + ("-" + parts[n - 2]) + ("-" + parts[n - 1])
  {
    var n := |parts|;
    JoinInit(parts);
    JoinInit(parts[..n - 1]);
    InitInit(parts, n - 1);
    JoinInit(parts[..n - 2]);
    InitInit(parts, n - 2);
  }

  lemma {:induction false} Regroup(head: string, a: string, b: string, c: string)
    ensures head + ("-" + a) + ("-" + b) + ("-" + c) == head + ("-" + (a + ("-" + (b + ("-" + c)))))
  {
  }

  lemma {:induction false} LastThree(wfName: string, head: string, a: string, b: string, c: string)
    requires var parts, n := Split(wfName, "-"), |Split(wfName, "-")|;
             n >= 4 && head == Join(parts[..n - 3], "-") && a == parts[n - 3] && b == parts[n - 2] && c == parts[n - 1]
    ensures wfName == head + ("-" + (a + ("-" + (b + ("-" + c)))))
    ensures HyphenFree(a) && HyphenFree(b) && HyphenFree(c)
  {
    JoinSplit(wfName, "-");
    JoinThree(Split(wfName, "-"));
    Regroup(head, a, b, c);
    SplitFree(wfName, "-");
    FreeIsHyphenFree(a);
    FreeIsHyphenFree(b);
    FreeIsHyphenFree(c);
  }

  lemma {:induction false} ExtractEnds(wfName: string, checksum: string, step: LifecycleStep)
    requires Extract(wfName) == Some((checksum, step))
    ensures Ends(wfName, checksum, step)
  {
    var parts, n := Split(wfName, "-"), |Split(wfName, "-")|;
    var head, a, b, c := Join(parts[..n - 3], "-"), parts[n - 3], parts[n - 2], parts[n - 1];
    LastThree(wfName, head, a, b, c);
    TrimExactly(a, Trim(a));
    TrimExactly(b, checksum);
    TrimExactly(c, "wf");
    assert EndParts(a, b, c, Trim(a), checksum, step);
  }

  /** A name is taken apart exactly when it ends so, into exactly that checksum and step. */
  lemma {:induction false} ExtractExactly(wfName: string, checksum: string, step: LifecycleStep)
    ensures Extract(wfName) == Some((checksum, step)) <==> Ends(wfName, checksum, step)
  {
    if Extract(wfName) == Some((checksum, step)) {
      ExtractEnds(wfName, checksum, step);
    }
    if Ends(wfName, checksum, step) {
      var head, a, b, c, word :| && wfName == head + ("-" + (a + ("-" + (b + ("-" + c)))))
                                 && EndParts(a, b, c, word, checksum, step);
      FourParts(head, a, b, c);
      EndsAs(wfName, Split(head, "-"), a, b, c, word, checksum, step);
    }
  }

  lemma {:induction false} EndsAs(wfName: string, head: seq<string>, a: string, b: string, c: string, word: string, checksum: string,
               step: LifecycleStep)
    requires Split(wfName, "-") == head + [a, b, c] && head != [] && EndParts(a, b, c, word, checksum, step)
    ensures Extract(wfName) == Some((checksum, step))
  {
    var parts, n := Split(wfName, "-"), |head|;
    assert parts[n] == a && parts[n + 1] == b && parts[n + 2] == c;
    TrimExactly(a, word);
    TrimExactly(b, checksum);
    TrimExactly(c, "wf");
    OneWord(word, step);
    StepWords();
  }

  lemma {:induction false} StepWords()
    ensures "prereqs" != "install" && "prereqs" != "validate" && "prereqs" != "delete" && "install" != "validate"
    ensures "install" != "delete" && "validate" != "delete"
  {
    assert "prereqs"[0] != "install"[0];
  }

  lemma {:induction false} ChecksumIsHex(cx: Context, spec: Spec)
    ensures HexWord(Checksum(cx, spec))
    ensures 1 <= |Checksum(cx, spec)| <= 8
  {
    assert Pow16(8) == 0x1_0000_0000;
    HexLength(cx.adler(spec), 8);
  }

  lemma {:induction false} RoundTrip(cx: Context, spec: Spec, step: LifecycleStep)
    ensures Extract(FormattedName(cx, spec, step)) == Some((Checksum(cx, spec), step))
  {
    ChecksumIsHex(cx, spec);
    ExtractCompose(cx.name, spec.Workflow(step).namePrefix, step, Checksum(cx, spec));
  }

  /** Two names of one addon coincide only for one step, one prefix and one hash value. */
  lemma {:induction false} NamesDoNotCollide(cx: Context, s1: Spec, step1: LifecycleStep, s2: Spec, step2: LifecycleStep)
    ensures FormattedName(cx, s1, step1) == FormattedName(cx, s2, step2) <==>
            && step1 == step2 && cx.adler(s1) == cx.adler(s2)
            && s1.Workflow(step1).namePrefix == s2.Workflow(step2).namePrefix
  {
    if FormattedName(cx, s1, step1) == FormattedName(cx, s2, step2) {
      RoundTrip(cx, s1, step1);
      RoundTrip(cx, s2, step2);
      HexInjective(cx.adler(s1), cx.adler(s2));
      var tail := "-" + (step1.Text() + ("-" + (Checksum(cx, s1) + ("-" + "wf"))));
      var p1, p2 := s1.Workflow(step1).namePrefix, s2.Workflow(step2).namePrefix;
      var h1 := if p1 != "" then cx.name + "-" + p1 else cx.name;
      var h2 := if p2 != "" then cx.name + "-" + p2 else cx.name;
      assert h1 + tail == h2 + tail;
      SameHead(h1, h2, tail);
      if p1 != "" && p2 != "" {
        assert (cx.name + "-" + p1)[|cx.name| + 1..] == p1;
        assert (cx.name + "-" + p2)[|cx.name| + 1..] == p2;
      }
    }
  }

  lemma {:induction false} SameHead(h1: string, h2: string, tail: string)
    requires h1 + tail == h2 + tail
    ensures h1 == h2
  {
    assert |h1| == |h2|;
    assert (h1 + tail)[..|h1|] == h1 && (h2 + tail)[..|h2|] == h2;
  }

  /** The checksum test of the workflow controller can never fail once the name test has passed. */
  lemma {:induction false} NameTestDecides(cx: Context, spec: Spec, wfName: string, checksum: string, step: LifecycleStep)
    requires Extract(wfName) == Some((checksum, step))
    requires FormattedName(cx, spec, step) == wfName
    ensures Checksum(cx, spec) == checksum
  {
    RoundTrip(cx, spec, step);
  }

  predicate NameLengthValid(name: string) { |name| <= MAX_ADDON_NAME }

  /** Every workflow name of a validated addon is a label. */
  lemma {:induction false} NameFits(cx: Context, spec: Spec, step: LifecycleStep)
    requires NameLengthValid(cx.name) && |spec.Workflow(step).namePrefix| <= 10
    ensures |FormattedName(cx, spec, step)| <= 63
    ensures |FormattedName(cx, spec, step)| == 63 <==>
            && |cx.name| == 31 && |spec.Workflow(step).namePrefix| == 10
            && step == Validate && cx.adler(spec) >= 0x1000_0000
  {
    ChecksumIsHex(cx, spec);
    StepText(step);
    assert Pow16(7) == 0x1000_0000;
    HexLength(cx.adler(spec), 7);
    assert |"validate"| == 8 && |"delete"| == 6 && |"prereqs"| == 7 && |"install"| == 7;
  }
}
