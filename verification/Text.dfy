/** The string operations the program takes from its standard library: splitting on a separator,
    joining, trimming white space and printing in hexadecimal. */
module Text {

  // ---------------------------------------------------------------------------
  // Split and join.

  predicate OccursAt(s: string, sep: string, i: nat) {
    i + |sep| <= |s| && s[i..i + |sep|] == sep
  }

  predicate Contains(s: string, sep: string) {
    exists i: nat | i <= |s| :: OccursAt(s, sep, i)
  }

  /** The position of the first occurrence at or after `from`, or |s| when there is none. */
  function FirstFrom(s: string, sep: string, from: nat): (i: nat)
    requires sep != "" && from <= |s|
    ensures from <= i <= |s|
    ensures i < |s| ==> OccursAt(s, sep, i)
    decreases |s| - from
  {
    if from == |s| || OccursAt(s, sep, from) then from else FirstFrom(s, sep, from + 1)
  }

  lemma {:induction false} NoneBefore(s: string, sep: string, from: nat)
    requires sep != "" && from <= |s|
    ensures forall k: nat | from <= k < FirstFrom(s, sep, from) :: !OccursAt(s, sep, k)
    decreases |s| - from
  {
    if from < |s| && !OccursAt(s, sep, from) {
      NoneBefore(s, sep, from + 1);
    }
  }

  function Split(s: string, sep: string): (parts: seq<string>)
    requires sep != ""
    ensures parts != []
    decreases |s|
  {
    var i := FirstFrom(s, sep, 0);
    if i == |s| then [s] else [s[..i]] + Split(s[i + |sep|..], sep)
  }

  function Join(parts: seq<string>, sep: string): string {
    if parts == [] then "" else if |parts| == 1 then parts[0] else parts[0] + (sep + Join(parts[1..], sep))
  }

  /** No proper suffix of the separator is also a prefix of it, so two occurrences never overlap. */
  predicate Unbordered(sep: string) {
    forall k | 0 < k < |sep| :: sep[k..] != sep[..|sep| - k]
  }

  lemma {:induction false} ContainsFirst(s: string, sep: string)
    requires sep != ""
    ensures Contains(s, sep) <==> FirstFrom(s, sep, 0) < |s|
  {
    NoneBefore(s, sep, 0);
  }

  lemma {:induction false} OverlapIsBorder(t: string, sep: string, i: nat, j: nat)
    requires OccursAt(t, sep, i) && OccursAt(t, sep, j) && i < j < i + |sep|
    ensures sep[j - i..] == sep[..i + |sep| - j]
  {
    var k := j - i;
    forall m | 0 <= m < |sep| - k ensures sep[k..][m] == sep[..|sep| - k][m] {
      assert t[i..i + |sep|][k + m] == t[j + m] == t[j..j + |sep|][m];
    }
  }

  lemma {:induction false} OccursAppend(p: string, q: string, sep: string, i: nat)
    requires i + |sep| <= |p|
    ensures OccursAt(p + q, sep, i) <==> OccursAt(p, sep, i)
  {
    assert (p + q)[i..i + |sep|] == p[i..i + |sep|];
  }

  /** An occurrence that starts in `p` ends in `p`: otherwise it would overlap the separator after it. */
  lemma {:induction false} NoStraddle(p: string, sep: string, rest: string, i: nat)
    requires sep != "" && Unbordered(sep) && i < |p|
    ensures OccursAt(p + (sep + rest), sep, i) <==> OccursAt(p, sep, i)
  {
    var t := p + (sep + rest);
    if i + |sep| <= |p| {
      OccursAppend(p, sep + rest, sep, i);
    } else {
      assert t[|p|..|p| + |sep|] == sep;
      if OccursAt(t, sep, i) {
        OverlapIsBorder(t, sep, i, |p|);
      }
    }
  }

  lemma {:induction false} FirstIs(t: string, sep: string, i: nat)
    requires sep != "" && OccursAt(t, sep, i) && i < |t|
    requires forall k: nat | k < i :: !OccursAt(t, sep, k)
    ensures FirstFrom(t, sep, 0) == i
  {
    NoneBefore(t, sep, 0);
  }

  lemma {:induction false} SplitNone(p: string, sep: string)
    requires sep != "" && FirstFrom(p, sep, 0) == |p|
    ensures Split(p, sep) == [p]
  {
  }

  /** The first occurrence in `p` is the first in `p` followed by a separator and anything else. */
  lemma {:induction false} FirstStays(p: string, sep: string, rest: string)
    requires sep != "" && Unbordered(sep)
    ensures FirstFrom(p + (sep + rest), sep, 0) == FirstFrom(p, sep, 0)
  {
    var t, i := p + (sep + rest), FirstFrom(p, sep, 0);
    NoneBefore(p, sep, 0);
    forall k: nat | k < i ensures !OccursAt(t, sep, k) { NoStraddle(p, sep, rest, k); }
    if i == |p| {
      assert t[i..i + |sep|] == sep;
    } else {
      NoStraddle(p, sep, rest, i);
    }
    FirstIs(t, sep, i);
  }

  lemma {:induction false} SplitCut(t: string, sep: string, i: nat, head: string, tail: string)
    requires sep != "" && i == FirstFrom(t, sep, 0) < |t| && i + |sep| <= |t|
    requires t[..i] == head && t[i + |sep|..] == tail
    ensures Split(t, sep) == [head] + Split(tail, sep)
  {
  }

  lemma {:induction false} CutAppend(p: string, sep: string, rest: string, i: nat)
    requires i + |sep| <= |p|
    ensures var t := p + (sep + rest); t[..i] == p[..i] && t[i + |sep|..] == p[i + |sep|..] + (sep + rest)
  {
  }

  lemma {:induction false} CutAtEnd(p: string, sep: string, rest: string)
    ensures var t := p + (sep + rest); t[..|p|] == p && t[|p| + |sep|..] == rest
  {
  }

  /** Splitting is a homomorphism at every separator, whatever stands before it. */
  lemma {:induction false} SplitAppend(p: string, sep: string, rest: string)
    requires sep != "" && Unbordered(sep)
    ensures Split(p + (sep + rest), sep) == Split(p, sep) + Split(rest, sep)
    decreases |p|
  {
    var t, i := p + (sep + rest), FirstFrom(p, sep, 0);
    FirstStays(p, sep, rest);
    if i == |p| {
      SplitNone(p, sep);
      CutAtEnd(p, sep, rest);
      SplitCut(t, sep, i, p, rest);
    } else {
      var head, q := p[..i], p[i + |sep|..];
      SplitCut(p, sep, i, head, q);
      CutAppend(p, sep, rest, i);
      SplitCut(t, sep, i, head, q + (sep + rest));
      SplitAppend(q, sep, rest);
      Associates([head], Split(q, sep), Split(rest, sep));
    }
  }

  lemma {:induction false} Associates<T>(a: seq<T>, b: seq<T>, c: seq<T>)
    ensures a + (b + c) == a + b + c
  {
  }

  /** All the pieces of all the parts, in order. */
  function SplitAll(parts: seq<string>, sep: string): seq<string>
    requires sep != ""
  {
    if parts == [] then [] else Split(parts[0], sep) + SplitAll(parts[1..], sep)
  }

  lemma {:induction false} SplitJoin(parts: seq<string>, sep: string)
    requires sep != "" && Unbordered(sep) && parts != []
    ensures Split(Join(parts, sep), sep) == SplitAll(parts, sep)
  {
    if |parts| == 1 {
      assert SplitAll(parts[1..], sep) == [];
    } else {
      SplitJoin(parts[1..], sep);
      SplitAppend(parts[0], sep, Join(parts[1..], sep));
    }
  }

  lemma {:induction false} SplitAllSize(parts: seq<string>, sep: string)
    requires sep != ""
    ensures |SplitAll(parts, sep)| >= |parts|
    ensures |SplitAll(parts, sep)| == |parts| ==>
              forall i | 0 <= i < |parts| :: !Contains(parts[i], sep)
    ensures (forall i | 0 <= i < |parts| :: !Contains(parts[i], sep)) ==> SplitAll(parts, sep) == parts
  {
    if parts != [] {
      SplitAllSize(parts[1..], sep);
      ContainsFirst(parts[0], sep);
      assert forall i | 0 < i < |parts| :: parts[i] == parts[1..][i - 1];
      if forall i | 0 <= i < |parts| :: !Contains(parts[i], sep) {
        assert parts == [parts[0]] + parts[1..];
      }
    }
  }

  /** Splitting undoes joining exactly when no part contains the separator: in that case the parts
      come back one by one, and otherwise there are more pieces than parts. */
  lemma {:induction false} SplitJoinExact(parts: seq<string>, sep: string)
    requires sep != "" && Unbordered(sep) && parts != []
    ensures (forall i | 0 <= i < |parts| :: !Contains(parts[i], sep)) <==> Split(Join(parts, sep), sep) == parts
    ensures Split(Join(parts, sep), sep) == parts <==> |Split(Join(parts, sep), sep)| == |parts|
  {
    SplitJoin(parts, sep);
    SplitAllSize(parts, sep);
  }

  lemma {:induction false} NoneInPrefix(s: string, sep: string, i: nat)
    requires sep != "" && i <= |s| && forall k: nat | k < i :: !OccursAt(s, sep, k)
    ensures !Contains(s[..i], sep)
  {
    forall k: nat | k <= i ensures !OccursAt(s[..i], sep, k) {
      if k + |sep| <= i {
        assert s[..i] + s[i..] == s;
        OccursAppend(s[..i], s[i..], sep, k);
      }
    }
  }

  /** The pieces of a split are free of the separator. */
  lemma {:induction false} SplitFree(s: string, sep: string)
    requires sep != ""
    ensures forall p | p in Split(s, sep) :: !Contains(p, sep)
    decreases |s|
  {
    var i := FirstFrom(s, sep, 0);
    ContainsFirst(s, sep);
    if i == |s| {
      SplitNone(s, sep);
    } else {
      SplitCut(s, sep, i, s[..i], s[i + |sep|..]);
      NoneBefore(s, sep, 0);
      NoneInPrefix(s, sep, i);
      SplitFree(s[i + |sep|..], sep);
    }
  }

  // ---------------------------------------------------------------------------
  // White space.

  /** The Unicode White_Space characters. */
  predicate IsSpace(c: char) {
    || '\t' <= c <= '\r' || c == ' '
    || c == '\U{0085}' || c == '\U{00A0}' || c == '\U{1680}' || '\U{2000}' <= c <= '\U{200A}'
    || c == '\U{2028}' || c == '\U{2029}' || c == '\U{202F}' || c == '\U{205F}' || c == '\U{3000}'
  }

  function TrimLeft(s: string): string {
    if s != "" && IsSpace(s[0]) then TrimLeft(s[1..]) else s
  }

  function TrimRight(s: string): string {
    if s != "" && IsSpace(s[|s| - 1]) then TrimRight(s[..|s| - 1]) else s
  }

  function Trim(s: string): string { TrimRight(TrimLeft(s)) }

  predicate Blank(s: string) {
    forall i | 0 <= i < |s| :: IsSpace(s[i])
  }

  lemma {:induction false} TrimLeftBlank(s: string)
    ensures Blank(s) <==> TrimLeft(s) == ""
    ensures TrimLeft(s) != "" ==> !IsSpace(TrimLeft(s)[0])
  {
    if s != "" && IsSpace(s[0]) {
      TrimLeftBlank(s[1..]);
      assert forall i | 0 < i < |s| :: s[i] == s[1..][i - 1];
    }
  }

  lemma {:induction false} TrimRightKeepsHead(s: string)
    requires s != "" && !IsSpace(s[0])
    ensures TrimRight(s) != ""
  {
    if IsSpace(s[|s| - 1]) {
      TrimRightKeepsHead(s[..|s| - 1]);
    }
  }

  /** Trimming leaves nothing exactly of a blank text. */
  lemma {:induction false} TrimBlank(s: string)
    ensures Trim(s) == "" <==> Blank(s)
  {
    TrimLeftBlank(s);
    if TrimLeft(s) != "" {
      TrimRightKeepsHead(TrimLeft(s));
    }
  }

  lemma {:induction false} TrimStable(s: string)
    requires s != "" ==> !IsSpace(s[0]) && !IsSpace(s[|s| - 1])
    ensures Trim(s) == s
  {
  }

  /** The text has no white space at its ends. */
  predicate Edged(s: string) { s != "" ==> !IsSpace(s[0]) && !IsSpace(s[|s| - 1]) }

  /** `x` is `s` with nothing but white space around it, and `s` has none at its ends. */
  ghost predicate Pads(x: string, s: string) {
    Edged(s) && exists l, r :: Blank(l) && Blank(r) && x == l + s + r
  }

  lemma {:induction false} TrimLeftCuts(s: string) returns (l: string)
    ensures Blank(l) && s == l + TrimLeft(s)
  {
    l := "";
    if s != "" && IsSpace(s[0]) {
      l := TrimLeftCuts(s[1..]);
      l := [s[0]] + l;
    }
  }

  lemma {:induction false} TrimRightCuts(s: string) returns (r: string)
    ensures Blank(r) && s == TrimRight(s) + r
    ensures TrimRight(s) != "" ==> !IsSpace(TrimRight(s)[|TrimRight(s)| - 1]) && TrimRight(s)[0] == s[0]
  {
    r := "";
    if s != "" && IsSpace(s[|s| - 1]) {
      r := TrimRightCuts(s[..|s| - 1]);
      r := r + [s[|s| - 1]];
      assert s == s[..|s| - 1] + [s[|s| - 1]];
    }
  }

  lemma {:induction false} TrimCuts(x: string)
    ensures Pads(x, Trim(x))
  {
    var l := TrimLeftCuts(x);
    var r := TrimRightCuts(TrimLeft(x));
    TrimLeftBlank(x);
    assert x == l + Trim(x) + r;
  }

  lemma {:induction false} TrimLeftPad(l: string, s: string)
    requires Blank(l) && (s != "" ==> !IsSpace(s[0]))
    ensures TrimLeft(l + s) == s
  {
    if l == "" {
      assert l + s == s;
    } else {
      assert (l + s)[1..] == l[1..] + s;
      TrimLeftPad(l[1..], s);
    }
  }

  lemma {:induction false} TrimRightPad(s: string, r: string)
    requires Blank(r) && (s != "" ==> !IsSpace(s[|s| - 1]))
    ensures TrimRight(s + r) == s
  {
    if r == "" {
      assert s + r == s;
    } else {
      assert (s + r)[..|s + r| - 1] == s + r[..|r| - 1];
      TrimRightPad(s, r[..|r| - 1]);
    }
  }

  lemma {:induction false} TrimPad(l: string, s: string, r: string)
    requires Blank(l) && Blank(r) && Edged(s)
    ensures Trim(l + s + r) == s
  {
    if s == "" {
      assert l + s + r == l + r;
      forall i | 0 <= i < |l + r| ensures IsSpace((l + r)[i]) {}
      TrimBlank(l + s + r);
    } else {
      assert l + s + r == l + (s + r);
      TrimLeftPad(l, s + r);
      TrimRightPad(s, r);
    }
  }

  /** Trimming a text gives the one text without white space at its ends that it pads. */
  lemma {:induction false} TrimExactly(x: string, s: string)
    ensures Trim(x) == s <==> Pads(x, s)
  {
    TrimCuts(x);
    if Pads(x, s) {
      var l, r :| Blank(l) && Blank(r) && x == l + s + r;
      TrimPad(l, s, r);
    }
  }

  /** In particular spaces, tabs and line ends go from both ends, and everything between the first and
      the last visible character stays. */
  lemma {:induction false} TrimVisible(l: string, s: string, r: string)
    requires forall c | c in l + r :: c in {' ', '\t', '\n', '\r'}
    requires s != "" && '!' <= s[0] <= '~' && '!' <= s[|s| - 1] <= '~'
    ensures Trim(l + s + r) == s
  {
    assert Blank(l) by { forall i | 0 <= i < |l| ensures IsSpace(l[i]) { assert l[i] in l + r; } }
    assert Blank(r) by { forall i | 0 <= i < |r| ensures IsSpace(r[i]) { assert r[i] in l + r; } }
    TrimPad(l, s, r);
  }

  // ---------------------------------------------------------------------------
  // Hexadecimal.

  function HexDigit(n: nat): (c: char)
    requires n < 16
    ensures '0' <= c <= '9' || 'a' <= c <= 'f'
  {
    "0123456789abcdef"[n]
  }

  /** Lower-case hexadecimal without leading zeros. */
  function Hex(n: nat): (s: string)
    ensures s != ""
    ensures forall i | 0 <= i < |s| :: '0' <= s[i] <= '9' || 'a' <= s[i] <= 'f'
  {
    if n < 16 then [HexDigit(n)] else Hex(n / 16) + [HexDigit(n % 16)]
  }

  function Pow16(k: nat): nat { if k == 0 then 1 else 16 * Pow16(k - 1) }

  lemma {:induction false} HexLength(n: nat, k: nat)
    requires k > 0
    ensures n < Pow16(k) <==> |Hex(n)| <= k
  {
    if k > 1 && n >= 16 {
      HexLength(n / 16, k - 1);
    } else if k > 1 {
      assert Pow16(k - 1) >= 1 by { Pow16Positive(k - 1); }
    }
  }

  lemma {:induction false} Pow16Positive(k: nat)
    ensures Pow16(k) >= 1
  {
    if k > 0 { Pow16Positive(k - 1); }
  }

  lemma {:induction false} HexInjective(m: nat, n: nat)
    requires Hex(m) == Hex(n)
    ensures m == n
  {
    HexStep(m, n);
    if m >= 16 {
      HexInjective(m / 16, n / 16);
    }
  }

  lemma {:induction false} HexStep(m: nat, n: nat)
    requires Hex(m) == Hex(n)
    ensures m % 16 == n % 16 && (m >= 16 <==> n >= 16)
    ensures m >= 16 ==> Hex(m / 16) == Hex(n / 16)
  {
    HexParts(m);
    HexParts(n);
    DigitInjective(m % 16, n % 16);
  }

  lemma {:induction false} HexParts(n: nat)
    ensures Hex(n)[|Hex(n)| - 1] == HexDigit(n % 16)
    ensures |Hex(n)| > 1 <==> n >= 16
    ensures n >= 16 ==> Hex(n)[..|Hex(n)| - 1] == Hex(n / 16)
  {
  }

  lemma {:induction false} DigitInjective(m: nat, n: nat)
    requires m < 16 && n < 16 && HexDigit(m) == HexDigit(n)
    ensures m == n
  {
  }

  /** The value of a hexadecimal digit, by its place in the alphabet. */
  function DigitValue(c: char): int { if '0' <= c <= '9' then c as int - '0' as int else c as int - 'a' as int + 10 }

  /** The number that digits denote, the first being the highest. */
  function ReadHex(s: string): int { if s == "" then 0 else 16 * ReadHex(s[..|s| - 1]) + DigitValue(s[|s| - 1]) }

  /** Printing in hexadecimal denotes the number, without leading zeros. */
  lemma {:induction false} HexDenotes(n: nat)
    ensures ReadHex(Hex(n)) == n
    ensures |Hex(n)| > 1 ==> Hex(n)[0] != '0'
  {
    HexParts(n);
    DigitDenotes(n % 16);
    var s := Hex(n);
    if n >= 16 {
      HexDenotes(n / 16);
      FirstDigit(n);
    } else {
      assert s[..|s| - 1] == "";
    }
  }

  lemma {:induction false} FirstDigit(n: nat)
    requires n >= 16 && (|Hex(n / 16)| > 1 ==> Hex(n / 16)[0] != '0')
    ensures Hex(n)[0] != '0'
  {
    if n < 256 {
      assert Hex(n / 16) == [HexDigit(n / 16)];
      DigitDenotes(n / 16);
    } else {
      HexParts(n / 16);
    }
    assert Hex(n)[0] == Hex(n / 16)[0];
  }

  lemma {:induction false} DigitDenotes(n: nat)
    requires n < 16
    ensures DigitValue(HexDigit(n)) == n
  {
    var digits := "0123456789abcdef";
    assert digits[n] == HexDigit(n);
    assert digits[0] == '0' && digits[1] == '1' && digits[2] == '2' && digits[3] == '3' && digits[4] == '4' && digits[5] == '5';
    assert digits[6] == '6' && digits[7] == '7' && digits[8] == '8' && digits[9] == '9' && digits[10] == 'a';
    assert digits[11] == 'b' && digits[12] == 'c' && digits[13] == 'd' && digits[14] == 'e' && digits[15] == 'f';
  }

  // ---------------------------------------------------------------------------
  // Joining what was split.

  lemma {:induction false} JoinCons(head: string, parts: seq<string>, sep: string)
    requires parts != []
    ensures Join([head] + parts, sep) == head + (sep + Join(parts, sep))
  {
    assert ([head] + parts)[1..] == parts;
  }

  lemma {:induction false} CutWhole(s: string, sep: string, i: nat)
    requires OccursAt(s, sep, i)
    ensures s == s[..i] + (sep + s[i + |sep|..])
  {
  }

  /** Joining the pieces of a split gives the text back. */
  lemma {:induction false} JoinSplit(s: string, sep: string)
    requires sep != ""
    ensures Join(Split(s, sep), sep) == s
    decreases |s|
  {
    var i := FirstFrom(s, sep, 0);
    if i == |s| {
      SplitNone(s, sep);
    } else {
      var head, rest := s[..i], s[i + |sep|..];
      var parts := Split(rest, sep);
      SplitCut(s, sep, i, head, rest);
      JoinSplit(rest, sep);
      JoinCons(head, parts, sep);
      CutWhole(s, sep, i);
    }
  }

  lemma {:induction false} JoinSnoc(parts: seq<string>, last: string, sep: string)
    requires parts != []
    ensures Join(parts + [last], sep) == Join(parts, sep) + (sep + last)
  {
    if |parts| > 1 {
      JoinSnoc(parts[1..], last, sep);
      assert (parts + [last])[1..] == parts[1..] + [last];
    } else {
      assert (parts + [last])[1..] == [last];
    }
  }
}
