/** Where the traceability bootstrap puts its anchors (`_criterion_indices`,
    `_inject_primary`, `_inject_numbered_section`), and what follows from it. */
module Bootstrap {
  import opened Nums
  import opened Strings
  import opened AnchorReader
  import opened AnchorInjection

  // ------------------------------------------------------------ the anchor patterns

  predicate ThreeDigits(s: string) {
    |s| >= 3 && IsDigit(s[0]) && IsDigit(s[1]) && IsDigit(s[2])
  }

  /** `fr-[a-z]+-[0-9]{3}`, `sec-[0-9]{3}` or `nfr-[0-9]{3}`. */
  predicate IsBase(s: string) {
    || (|s| >= 8 && s[..3] == "fr-" && (forall i :: 3 <= i < |s| - 4 ==> IsLower(s[i]))
        && s[|s| - 4] == '-' && ThreeDigits(s[|s| - 3..]))
    || (|s| == 7 && (s[..4] == "sec-" || s[..4] == "nfr-") && ThreeDigits(s[4..]))
  }

  const AC := "-ac-"

  /** A base, then perhaps `-ac-[0-9]{2}`. */
  predicate IsPrimaryId(s: string) {
    IsBase(s)
    || (|s| > 6 && s[|s| - 6..|s| - 2] == AC && IsDigit(s[|s| - 2]) && IsDigit(s[|s| - 1]) && IsBase(s[..|s| - 6]))
  }

  /** The middle of an anchor line; None for another line. */
  function AnchorMiddle(line: string): Option<string> {
    var n, a, b := |line|, |OPENING|, |CLOSING|;
    if n < a + b || line[..a] != OPENING || line[n - b..] != CLOSING then None else Some(line[a..n - b])
  }

  /** `PRIMARY_ANCHOR`, on a stripped line. */
  predicate IsPrimaryAnchor(line: string) {
    AnchorMiddle(line).Some? && IsPrimaryId(AnchorMiddle(line).value)
  }

  lemma MiddleOfAnchorLine(id: string)
    ensures AnchorMiddle(AnchorLine(id)) == Some(id)
  {
    var line := AnchorLine(id);
    assert line[..|OPENING|] == OPENING;
    assert line[|line| - |CLOSING|..] == CLOSING;
  }

  /** `f"{number:02d}"`. */
  function TwoDigits(n: nat): (s: string)
    ensures s != "" && forall i :: 0 <= i < |s| ==> IsDigit(s[i])
  {
    if n < 10 then "0" + Dec(n) else Dec(n)
  }

  lemma {:induction false} DecLength(n: nat)
    ensures |Dec(n)| == 1 <==> n < 10
    ensures |Dec(n)| <= 2 <==> n < 100
  {
    if n >= 10 {
      if n / 10 >= 10 {
        DecLength(n / 10);
      } else {
        assert |Dec(n / 10)| == 1;
      }
    }
  }

  /** A criterion's anchor matches the pattern exactly for numbers of two digits. */
  lemma CriterionMatchesIff(base: string, n: nat)
    requires IsBase(base)
    ensures IsPrimaryId(base + AC + TwoDigits(n)) <==> n <= 99
  {
    hide IsBase, Dec;
    var t := TwoDigits(n);
    var s := base + AC + t;
    DecLength(n);
    NotABase(base, t);
    if n <= 99 {
      assert |t| == 2 && |s| == |base| + 6;
      assert s[|base|..|base| + 4] == AC && s[..|base|] == base;
      assert s[|s| - 2] == t[0] && s[|s| - 1] == t[1];
    } else {
      assert |t| >= 3;
      LongTail(base, t);
    }
  }

  lemma NotABase(base: string, t: string)
    requires IsBase(base)
    ensures |base| >= 7 && !IsBase(base + AC + t)
  {
    var s := base + AC + t;
    assert s[|base| - 1] == base[|base| - 1] && IsDigit(s[|base| - 1]);
    assert forall i :: 0 <= i < |base| ==> s[i] == base[i];
    assert s[|base|] == '-' && s[|base| + 1] == 'a';
  }

  lemma LongTail(base: string, t: string)
    requires |t| >= 3 && forall i :: 0 <= i < |t| ==> IsDigit(t[i])
    ensures var s := base + AC + t; s[|s| - 6..|s| - 2] != AC
  {
    var s := base + AC + t;
    var part := s[|s| - 6..|s| - 2];
    assert part[3] == s[|s| - 3] == t[|t| - 3];
  }

  // ------------------------------------------------------------ headings

  function Uppers(s: string): (k: nat)
    ensures k <= |s| && forall i :: 0 <= i < k ==> 'A' <= s[i] <= 'Z'
  {
    if s != "" && 'A' <= s[0] <= 'Z' then 1 + Uppers(s[1..]) else 0
  }

  /** The length of the requirement id a text starts with. */
  function IdLength(s: string): (n: Option<nat>)
    ensures n.Some? ==> 7 <= n.value <= |s|
  {
    if StartsWith(s, "FR-") then
      var k := Uppers(s[3..]);
      if k > 0 && StartsWith(s[3 + k..], "-") && ThreeDigits(s[4 + k..]) then Some(7 + k) else None
    else if (StartsWith(s, "SEC-") || StartsWith(s, "NFR-")) && ThreeDigits(s[4..]) then Some(7)
    else None
  }

  /** `PRIMARY_HEADING`: the requirement id of a heading line. */
  function HeadingId(line: string): Option<string> {
    if !StartsWith(line, "## ") then None
    else
      var rest := line[3..];
      var n := IdLength(rest);
      if n.Some? && |rest| > n.value + 1 && rest[n.value] == ' ' then Some(rest[..n.value]) else None
  }

  /** `FR-[A-Z]+-[0-9]{3}`, `SEC-[0-9]{3}` or `NFR-[0-9]{3}`. */
  predicate IsRequirementId(id: string) {
    || (|id| == 7 && (id[..4] == "SEC-" || id[..4] == "NFR-") && ThreeDigits(id[4..]))
    || (|id| >= 8 && id[..3] == "FR-" && (forall i :: 3 <= i < |id| - 4 ==> 'A' <= id[i] <= 'Z')
        && id[|id| - 4] == '-' && ThreeDigits(id[|id| - 3..]))
  }

  lemma {:induction false} UppersOf(s: string, k: nat)
    requires k < |s| && (forall i :: 0 <= i < k ==> 'A' <= s[i] <= 'Z') && !('A' <= s[k] <= 'Z')
    ensures Uppers(s) == k
  {
    if k > 0 {
      UppersOf(s[1..], k - 1);
    }
  }

  lemma IdHasForm(s: string)
    requires IdLength(s).Some?
    ensures IsRequirementId(s[..IdLength(s).value])
  {
    var n := IdLength(s).value;
    var id := s[..n];
    if StartsWith(s, "FR-") {
      var k := Uppers(s[3..]);
      assert s[3 + k..][0] == '-' by { assert s[3 + k..][..1] == "-"; }
      var tail := s[4 + k..];
      assert tail[..3] == id[|id| - 3..];
      assert forall i :: 0 <= i < 3 ==> tail[i] == id[|id| - 3..][i];
      assert forall i :: 0 <= i < k ==> s[3..][i] == id[3 + i];
      hide Uppers;
    } else {
      assert id[4..] == s[4..][..3];
      assert forall i :: 0 <= i < 3 ==> id[4..][i] == s[4..][i];
    }
  }

  lemma IdIsRead(id: string, rest: string)
    requires IsRequirementId(id)
    ensures IdLength(id + rest) == Some(|id|)
  {
    var s := id + rest;
    if |id| == 7 && (id[..4] == "SEC-" || id[..4] == "NFR-") {
      assert s[..4] == id[..4];
      assert s[0] == s[..4][0];
      assert forall i :: 0 <= i < 3 ==> s[4..][i] == id[4..][i];
      assert !StartsWith(s, "FR-");
    } else {
      var k := |id| - 7;
      var letters := s[3..];
      assert s[..3] == id[..3];
      assert letters[k] == id[3 + k] == '-';
      assert forall i :: 0 <= i < k ==> letters[i] == id[3 + i];
      UppersOf(letters, k);
      hide Uppers;
      assert s[3 + k..][..1] == "-";
      var tail, digits := s[4 + k..], id[|id| - 3..];
      assert forall i :: 0 <= i < 3 ==> tail[i] == digits[i];
    }
  }

  /** A line is a requirement's heading exactly if it is two number signs, its id and a
      title. */
  lemma HeadingIdIff(line: string, id: string)
    ensures HeadingId(line) == Some(id)
       <==> IsRequirementId(id) && exists title :: title != "" && line == "## " + (id + (" " + title))
  {
    hide IdLength, IsRequirementId;
    if HeadingId(line) == Some(id) {
      var rest := line[3..];
      IdHasForm(rest);
      var title := rest[|id| + 1..];
      assert rest == id + (" " + title);
      assert line == "## " + rest;
    }
    if IsRequirementId(id) && exists title :: title != "" && line == "## " + (id + (" " + title)) {
      var title :| title != "" && line == "## " + (id + (" " + title));
      IdIsRead(id, " " + title);
      assert line[3..] == id + (" " + title);
      assert line[3..][|id|] == ' ' && line[3..][..|id|] == id;
    }
  }

  function LowerChar(c: char): char {
    if 'A' <= c <= 'Z' then 'a' + (c - 'A') else c
  }

  function Lower(s: string): (r: string)
    ensures |r| == |s| && forall i :: 0 <= i < |s| ==> r[i] == LowerChar(s[i])
  {
    seq(|s|, i requires 0 <= i < |s| => LowerChar(s[i]))
  }

  /** The anchor of a requirement matches the pattern. */
  lemma HeadingIsBase(line: string)
    requires HeadingId(line).Some?
    ensures IsBase(Lower(HeadingId(line).value))
  {
    hide IsBase, Uppers, Lower;
    var rest := line[3..];
    if StartsWith(rest, "FR-") {
      FunctionalBase(rest);
    } else {
      OtherBase(rest);
    }
  }

  lemma FunctionalBase(rest: string)
    requires StartsWith(rest, "FR-") && IdLength(rest).Some?
    ensures IsBase(Lower(rest[..IdLength(rest).value]))
  {
    var id := rest[..IdLength(rest).value];
    var s, k := Lower(id), Uppers(rest[3..]);
    forall i | 3 <= i < 3 + k
      ensures IsLower(s[i])
    {
      assert id[i] == rest[3..][i - 3];
    }
    assert rest[..3] == "FR-" && rest[..3] == id[..3];
    assert id[0] == id[..3][0] && id[1] == id[..3][1] && id[2] == id[..3][2];
    assert s[..3] == "fr-";
    assert id[3 + k] == rest[3 + k..][0] == '-';
    TailDigits(rest, id, s, 4 + k);
  }

  /** The three digits at the end of an id are the same in its lower-case form. */
  lemma TailDigits(rest: string, id: string, s: string, k: nat)
    requires |id| == k + 3 <= |rest| && id == rest[..|id|] && s == Lower(id) && ThreeDigits(rest[k..])
    ensures ThreeDigits(s[k..]) && s[k..] == s[|s| - 3..]
  {
    assert id[k] == rest[k..][0] && id[k + 1] == rest[k..][1] && id[k + 2] == rest[k..][2];
  }

  lemma OtherBase(rest: string)
    requires !StartsWith(rest, "FR-") && IdLength(rest).Some?
    ensures IsBase(Lower(rest[..IdLength(rest).value]))
  {
    var id := rest[..7];
    var s := Lower(id);
    assert rest[..4] == id[..4];
    assert id[0] == id[..4][0] && id[1] == id[..4][1] && id[2] == id[..4][2] && id[3] == id[..4][3];
    assert s[..4] == "sec-" || s[..4] == "nfr-";
    TailDigits(rest, id, s, 4);
  }

  lemma BaseIsId(s: string)
    requires IsBase(s)
    ensures IsId(s)
  {
    if |s| == 7 && (s[..4] == "sec-" || s[..4] == "nfr-") {
      assert forall i :: 0 <= i < 4 ==> s[i] == s[..4][i];
      assert forall i :: 4 <= i < 7 ==> s[i] == s[4..][i - 4];
    } else {
      assert forall i :: 0 <= i < 3 ==> s[i] == s[..3][i];
      assert forall i :: |s| - 3 <= i < |s| ==> s[i] == s[|s| - 3..][i - (|s| - 3)];
    }
  }

  lemma CriterionIsId(base: string, n: nat)
    requires IsBase(base)
    ensures IsId(base + AC + TwoDigits(n))
  {
    BaseIsId(base);
    var s := base + AC + TwoDigits(n);
    assert s[0] == base[0];
  }

  // ------------------------------------------------------------ fences

  predicate IsFence(line: string) { StartsWith(Strip(line), "```") }

  /** Whether a fence is open before line `k`. */
  predicate Fenced(lines: seq<string>, k: nat)
    requires k <= |lines|
  {
    k > 0 && (if IsFence(lines[k - 1]) then !Fenced(lines, k - 1) else Fenced(lines, k - 1))
  }

  predicate Outside(lines: seq<string>, k: nat)
    requires k < |lines|
  {
    !IsFence(lines[k]) && !Fenced(lines, k)
  }

  /** `_outside_fence`. */
  method OutsideFence(lines: seq<string>) returns (flags: seq<bool>)
    ensures |flags| == |lines| && forall i :: 0 <= i < |lines| ==> flags[i] == Outside(lines, i)
  {
    hide IsFence;
    flags := [];
    var fenced := false;
    for i := 0 to |lines|
      invariant |flags| == i && fenced == Fenced(lines, i)
      invariant forall j :: 0 <= j < i ==> flags[j] == Outside(lines, j)
    {
      if IsFence(lines[i]) {
        fenced := !fenced;
        flags := flags + [false];
      } else {
        flags := flags + [!fenced];
      }
    }
  }

  // ------------------------------------------------------------ criteria of a section

  /** The line that opens an explicit list of criteria. */
  const MARKER := "\U{9A57}\U{6536}\U{689D}\U{4EF6}\U{FF1A}"

  function MarkerFrom(block: seq<string>, i: nat): Option<nat>
    requires i <= |block|
    decreases |block| - i
  {
    if i == |block| then None else if Strip(block[i]) == MARKER then Some(i) else MarkerFrom(block, i + 1)
  }

  predicate IsBullet(line: string) {
    || (StartsWith(line, "* ") && |line| > 2)
    || (Digits(line) > 0 && StartsWith(line[Digits(line)..], ". ") && |line| > Digits(line) + 2)
  }

  /** `^\|\s*-+`: the rule under a table's header. */
  predicate IsRule(line: string) {
    StartsWith(line, "|") && Spaces(line[1..]) < |line| - 1 && line[1 + Spaces(line[1..])] == '-'
  }

  predicate IsRow(line: string) { StartsWith(line, "|") }

  /** A plain line outside fences: neither blank, nor a rule, nor a heading. */
  predicate IsPlain(block: seq<string>, i: nat)
    requires i < |block|
  {
    Outside(block, i) && Strip(block[i]) != "" && Strip(block[i]) != "---" && !StartsWith(Strip(block[i]), "#")
  }

  function FirstPlain(block: seq<string>, i: nat): (r: Option<nat>)
    requires i <= |block|
    ensures r.Some? ==> r.value < |block| && IsPlain(block, r.value)
    decreases |block| - i
  {
    if i == |block| then None else if IsPlain(block, i) then Some(i) else FirstPlain(block, i + 1)
  }

  /** Whether a table's body is open before line `k`. */
  predicate TableBody(block: seq<string>, k: nat)
    requires k <= |block|
  {
    if k == 0 then false
    else if !Outside(block, k - 1) then TableBody(block, k - 1)
    else if IsRule(block[k - 1]) then true
    else TableBody(block, k - 1) && (Strip(block[k - 1]) == "" || IsRow(block[k - 1]))
  }

  // ------------------------------------------------------------ what these patterns match

  /** The fence lines before line `k`. */
  function FencesBefore(lines: seq<string>, k: nat): nat
    requires k <= |lines|
  {
    |set j | 0 <= j < k && IsFence(lines[j])|
  }

  /** A fence is open after an odd number of fence lines. */
  lemma {:induction false} FencedIffOdd(lines: seq<string>, k: nat)
    requires k <= |lines|
    ensures Fenced(lines, k) <==> FencesBefore(lines, k) % 2 == 1
  {
    FencesCounted(lines, k);
    hide IsFence, FencesBefore;
    if k > 0 {
      FencedIffOdd(lines, k - 1);
    }
  }

  lemma FencesCounted(lines: seq<string>, k: nat)
    requires k <= |lines|
    ensures FencesBefore(lines, k)
         == if k == 0 then 0 else FencesBefore(lines, k - 1) + if IsFence(lines[k - 1]) then 1 else 0
  {
    hide IsFence;
    var now := set j | 0 <= j < k && IsFence(lines[j]);
    if k == 0 {
      assert now == {};
    } else {
      var before := set j | 0 <= j < k - 1 && IsFence(lines[j]);
      if IsFence(lines[k - 1]) {
        assert now == before + {k - 1} && k - 1 !in before;
      } else {
        assert now == before;
      }
    }
  }

  lemma {:induction false} MarkerIsFirst(block: seq<string>, i: nat)
    requires i <= |block|
    ensures MarkerFrom(block, i).None? <==> forall k :: i <= k < |block| ==> Strip(block[k]) != MARKER
    ensures MarkerFrom(block, i).Some? ==>
              var found := MarkerFrom(block, i).value;
              && i <= found < |block| && Strip(block[found]) == MARKER
              && forall k :: i <= k < found ==> Strip(block[k]) != MARKER
    decreases |block| - i
  {
    hide Strip;
    if i < |block| && Strip(block[i]) != MARKER {
      MarkerIsFirst(block, i + 1);
    }
  }

  lemma {:induction false} PlainIsFirst(block: seq<string>, i: nat)
    requires i <= |block|
    ensures FirstPlain(block, i).None? <==> forall k :: i <= k < |block| ==> !IsPlain(block, k)
    ensures FirstPlain(block, i).Some? ==>
              i <= FirstPlain(block, i).value && forall k :: i <= k < FirstPlain(block, i).value ==> !IsPlain(block, k)
    decreases |block| - i
  {
    hide IsPlain;
    if i < |block| && !IsPlain(block, i) {
      PlainIsFirst(block, i + 1);
    }
  }

  /** The rule in line `r` has opened a table that no line before `k` has ended. */
  predicate TableSince(block: seq<string>, r: nat, k: nat)
    requires k <= |block|
  {
    && r < k && Outside(block, r) && IsRule(block[r])
    && forall j :: r < j < k && Outside(block, j) ==> IsRow(block[j]) || Strip(block[j]) == ""
  }

  /** A table's body is open exactly if there was a rule, and since then, outside fences,
      there were only rows and blank lines. */
  lemma {:induction false} TableBodyIff(block: seq<string>, k: nat)
    requires k <= |block|
    ensures TableBody(block, k) <==> exists r :: TableSince(block, r, k)
  {
    hide Outside, Strip;
    if k > 0 {
      var last := block[k - 1];
      TableBodyIff(block, k - 1);
      if Outside(block, k - 1) && IsRule(last) {
        assert TableSince(block, k - 1, k);
      }
      hide IsRule, IsRow;
      if r: nat :| TableSince(block, r, k) && r < k - 1 {
        assert TableSince(block, r, k - 1);
      }
      if TableBody(block, k - 1) && TableBody(block, k) {
        var r: nat :| TableSince(block, r, k - 1);
        RulesAreRows(last);
        assert TableSince(block, r, k);
      }
    }
  }

  lemma RulesAreRows(line: string)
    ensures IsRule(line) ==> IsRow(line)
  {
  }

  lemma {:induction false} DigitsUpTo(s: string, k: nat)
    requires k < |s| && !IsDigit(s[k])
    ensures Digits(s) == k <==> forall i :: 0 <= i < k ==> IsDigit(s[i])
  {
    if k > 0 {
      DigitsUpTo(s[1..], k - 1);
      assert forall i :: 0 <= i < k - 1 ==> s[1..][i] == s[i + 1];
    }
  }

  /** A bullet is a star and a space, or digits, a full stop and a space, and then more. */
  lemma BulletIff(line: string)
    ensures IsBullet(line)
       <==> || (|line| > 2 && line[0] == '*' && line[1] == ' ')
            || (exists k :: 0 < k && k + 2 < |line| && (forall i :: 0 <= i < k ==> IsDigit(line[i]))
                            && line[k] == '.' && line[k + 1] == ' ')
  {
    if |line| > 2 {
      assert line[..2] == [line[0], line[1]];
    }
    if Digits(line) > 0 && StartsWith(line[Digits(line)..], ". ") && |line| > Digits(line) + 2 {
      var k := Digits(line);
      assert line[k] == line[k..][..2][0] && line[k + 1] == line[k..][..2][1];
      DigitsUpTo(line, k);
    }
    if k :| 0 < k && k + 2 < |line| && (forall i :: 0 <= i < k ==> IsDigit(line[i]))
            && line[k] == '.' && line[k + 1] == ' ' {
      DigitsUpTo(line, k);
      assert line[k..][..2] == [line[k], line[k + 1]];
    }
    hide Digits;
  }

  /** A rule is a bar, white space or none, and a dash. */
  lemma RuleIff(line: string)
    ensures IsRule(line)
       <==> exists gap, rest :: AllSpaces(gap) && line == "|" + (gap + ("-" + rest))
  {
    if IsRule(line) {
      var tail := line[1..];
      var k := Spaces(tail);
      SpacesAre(tail);
      assert tail == tail[..k] + ("-" + tail[k + 1..]);
      assert line == "|" + tail;
    }
    if gap, rest :| AllSpaces(gap) && line == "|" + (gap + ("-" + rest)) {
      SpacesOf(gap, "-" + rest);
      assert line[1..] == gap + ("-" + rest);
      hide Spaces;
      assert line[1 + |gap|] == '-';
    }
  }

  /** A bullet that counts, or a row of a table's body. */
  predicate IsFound(block: seq<string>, marker: Option<nat>, i: nat)
    requires i < |block|
  {
    && Outside(block, i)
    && if marker.Some? then IsBullet(block[i]) && i > marker.value
       else IsBullet(block[i]) || (!IsRule(block[i]) && IsRow(block[i]) && TableBody(block, i))
  }

  /** The lines that carry a criterion. Without a marker these are the first plain
      line, every bullet and every table row; with one, the bullets after it. */
  predicate IsCandidate(block: seq<string>, marker: Option<nat>, i: nat)
    requires i < |block|
  {
    IsFound(block, marker, i) || (marker.None? && FirstPlain(block, 0) == Some(i))
  }

  /** The candidates before line `k`, in order. */
  function Candidates(block: seq<string>, marker: Option<nat>, k: nat): (r: seq<nat>)
    requires k <= |block|
    ensures forall j :: 0 <= j < |r| ==> r[j] < k
  {
    hide IsCandidate;
    if k == 0 then []
    else Candidates(block, marker, k - 1) + if IsCandidate(block, marker, k - 1) then [k - 1] else []
  }

  /** Every candidate is listed, nothing else is, and they are in order. */
  lemma {:induction false} CandidatesAre(block: seq<string>, marker: Option<nat>, k: nat)
    requires k <= |block|
    ensures Increasing(Candidates(block, marker, k))
    ensures forall i: nat :: i in Candidates(block, marker, k) <==> i < k && IsCandidate(block, marker, i)
  {
    hide IsCandidate;
    if k > 0 {
      CandidatesAre(block, marker, k - 1);
    }
  }

  /** `_criterion_indices`, as offsets into the section; None where it raises. */
  function CriterionOffsets(block: seq<string>): (r: Option<seq<nat>>)
    ensures r.Some? ==> r.value != [] && forall j :: 0 <= j < |r.value| ==> r.value[j] < |block|
  {
    var found := Candidates(block, MarkerFrom(block, 0), |block|);
    if found != [] then Some(found)
    else if FirstPlain(block, 0).Some? then Some([FirstPlain(block, 0).value])
    else None
  }

  /** The lines a criterion is put in front of are no headings and not blank, so
      they are targets unless they are comments or hold an anchor themselves. */
  lemma CriteriaAreTargets(block: seq<string>, j: nat)
    requires CriterionOffsets(block).Some? && j < |CriterionOffsets(block).value|
    ensures var line := block[CriterionOffsets(block).value[j]];
            Explicit(line).None? && !StartsWith(Strip(line), "<!--") ==> IsTarget(line)
  {
    hide Explicit, Heading;
    var i := CriterionOffsets(block).value[j];
    CandidatesAre(block, MarkerFrom(block, 0), |block|);
    assert CriterionOffsets(block).value[j] in CriterionOffsets(block).value;
    assert IsCandidate(block, MarkerFrom(block, 0), i) || IsPlain(block, i);
    if !IsPlain(block, i) {
      NotBlank(block[i], 0);
    }
  }

  /** A line with a character that is no white space does not strip to nothing. */
  lemma {:induction false} NotBlank(line: string, i: nat)
    ensures i < |line| && !IsSpace(line[i]) ==> Strip(line) != ""
    decreases |line|
  {
    if i < |line| && !IsSpace(line[i]) {
      if IsSpace(line[0]) {
        NotBlank(line[1..], i - 1);
      } else if IsSpace(line[|line| - 1]) {
        NotBlank(line[..|line| - 1], i);
      }
    }
  }

  /** `_criterion_indices`: its three loops. */
  method CriterionIndices(lines: seq<string>, start: nat, end: nat) returns (r: Option<seq<nat>>)
    requires start <= end <= |lines|
    ensures var offsets := CriterionOffsets(lines[start..end]);
            if offsets.None? then r.None?
            else r.Some? && |r.value| == |offsets.value|
                 && forall j :: 0 <= j < |r.value| ==> r.value[j] == start + offsets.value[j]
  {
    hide IsFound, FirstPlain, MarkerFrom, Outside, TableBody, IsCandidate;
    var block := lines[start..end];
    var marker := MarkerFrom(block, 0);
    var outside := OutsideFence(block);
    var first := FindPlain(block, outside);
    var candidates := ScanBlock(block, marker, outside, first, start);
    var inOrder := InOrder(candidates, start, end);
    SameList(block, marker, start, inOrder);
    if inOrder != [] {
      return Some(inOrder);
    }
    r := if first.Some? then Some([start + first.value]) else None;
  }

  /** The loop over the lines of the section. */
  method ScanBlock(block: seq<string>, marker: Option<nat>, outside: seq<bool>, first: Option<nat>, start: nat)
    returns (candidates: set<nat>)
    requires |outside| == |block| && forall i :: 0 <= i < |block| ==> outside[i] == Outside(block, i)
    requires first.Some? ==> first.value < |block|
    ensures forall c :: c in candidates <==>
              start <= c < start + |block|
              && (IsFound(block, marker, c - start) || (marker.None? && first == Some(c - start)))
  {
    hide IsFound, Outside, TableBody;
    candidates := if marker.None? && first.Some? then {start + first.value} else {};
    var tableBody := false;
    NoTableYet(block);
    for offset := 0 to |block|
      invariant marker.None? ==> tableBody == TableBody(block, offset)
      invariant marker.Some? ==> !tableBody
      invariant forall c :: c in candidates <==>
                  start <= c < start + |block|
                  && ((c - start < offset && IsFound(block, marker, c - start))
                        || (marker.None? && first == Some(c - start)))
    {
      var found;
      found, tableBody := ScanLine(block, marker, outside[offset], offset, tableBody);
      if found {
        candidates := candidates + {start + offset};
      }
    }
  }

  lemma NoTableYet(block: seq<string>)
    ensures !TableBody(block, 0)
  {
  }

  /** The body of the main loop: whether the line is found, and the new state of
      `table_body`. */
  method ScanLine(block: seq<string>, marker: Option<nat>, outside: bool, offset: nat, tableBody0: bool)
    returns (found: bool, tableBody: bool)
    requires offset < |block| && outside == Outside(block, offset)
    requires marker.None? ==> tableBody0 == TableBody(block, offset)
    requires marker.Some? ==> !tableBody0
    ensures found == IsFound(block, marker, offset)
    ensures marker.None? ==> tableBody == TableBody(block, offset + 1)
    ensures marker.Some? ==> !tableBody
  {
    hide IsBullet, IsRule, IsFence, Strip, Outside;
    found, tableBody := false, tableBody0;
    if outside {
      var line := block[offset];
      if IsBullet(line) && (marker.None? || offset > marker.value) {
        found := true;
      }
      if marker.None? && IsRule(line) {
        tableBody := true;
      } else if marker.None? && tableBody && IsRow(line) {
        found := true;
      } else if tableBody && Strip(line) != "" && !IsRow(line) {
        tableBody := false;
      }
    }
  }

  /** The first plain line, as the loops around the main one find it. */
  method FindPlain(block: seq<string>, outside: seq<bool>) returns (first: Option<nat>)
    requires |outside| == |block| && forall i :: 0 <= i < |block| ==> outside[i] == Outside(block, i)
    ensures first == FirstPlain(block, 0)
  {
    hide IsFence, Strip, Outside;
    for offset := 0 to |block|
      invariant FirstPlain(block, 0) == FirstPlain(block, offset)
    {
      if outside[offset] && Strip(block[offset]) != "" && Strip(block[offset]) != "---"
         && !StartsWith(Strip(block[offset]), "#") {
        return Some(offset);
      }
    }
    first := None;
  }

  predicate Increasing(s: seq<nat>) { forall j, m :: 0 <= j < m < |s| ==> s[j] < s[m] }

  /** `sorted` of a set of line numbers. */
  method InOrder(candidates: set<nat>, start: nat, end: nat) returns (r: seq<nat>)
    requires forall c :: c in candidates ==> start <= c < end
    ensures Increasing(r) && forall c :: c in r <==> c in candidates
  {
    r := [];
    if start < end {
      for c := start to end
        invariant Increasing(r) && forall d :: d in r <==> d in candidates && d < c
      {
        if c in candidates {
          assert forall j :: 0 <= j < |r| ==> r[j] in r;
          r := r + [c];
        }
      }
    }
  }

  lemma {:induction false} SameIncreasing(a: seq<nat>, b: seq<nat>)
    requires Increasing(a) && Increasing(b) && forall c :: c in a <==> c in b
    ensures a == b
  {
    if a == [] {
      NoMembers(b);
    } else {
      NoMembers(a);
      assert a[0] in b && b != [];
      assert b[0] in a;
      var i :| 0 <= i < |b| && b[i] == a[0];
      var j :| 0 <= j < |a| && a[j] == b[0];
      assert i == 0;
      forall c
        ensures c in a[1..] <==> c in b[1..]
      {
        IncreasingTail(a, c);
        IncreasingTail(b, c);
      }
      SameIncreasing(a[1..], b[1..]);
      assert a == [a[0]] + a[1..] && b == [b[0]] + b[1..];
    }
  }

  lemma NoMembers(b: seq<nat>)
    ensures b != [] ==> exists c :: c in b
  {
    if b != [] {
      assert b[0] in b;
    }
  }

  lemma IncreasingTail(a: seq<nat>, c: nat)
    requires Increasing(a) && a != []
    ensures c in a[1..] <==> c in a && c != a[0]
  {
    if c in a && c != a[0] {
      var i :| 0 <= i < |a| && a[i] == c;
      assert a[1..][i - 1] == c;
    }
    if c in a[1..] {
      var i :| 0 <= i < |a[1..]| && a[1..][i] == c;
      assert a[i + 1] == c;
    }
  }

  lemma ShiftedIs(found: seq<nat>, list: seq<nat>, start: nat)
    requires Increasing(found) && Increasing(list)
    requires forall c :: c in found <==> c >= start && c - start in list
    ensures |found| == |list| && forall j :: 0 <= j < |list| ==> found[j] == start + list[j]
  {
    var shifted := seq(|list|, j requires 0 <= j < |list| => start + list[j]);
    forall c
      ensures c in found <==> c in shifted
    {
      if c in shifted {
        var j :| 0 <= j < |list| && shifted[j] == c;
        assert list[j] in list;
      }
      if c in found {
        var j :| 0 <= j < |list| && list[j] == c - start;
        assert shifted[j] == c;
      }
    }
    SameIncreasing(found, shifted);
  }

  /** The sorted set of line numbers is the list of candidates, shifted. */
  lemma SameList(block: seq<string>, marker: Option<nat>, start: nat, found: seq<nat>)
    requires Increasing(found)
    requires forall c :: c in found <==>
               start <= c < start + |block|
               && (IsFound(block, marker, c - start) || (marker.None? && FirstPlain(block, 0) == Some(c - start)))
    ensures var list := Candidates(block, marker, |block|);
            |found| == |list| && forall j :: 0 <= j < |list| ==> found[j] == start + list[j]
  {
    CandidatesAre(block, marker, |block|);
    hide IsFound, FirstPlain, Candidates;
    var list := Candidates(block, marker, |block|);
    forall c
      ensures c in found <==> c >= start && c - start in list
    {
      if c >= start {
        InCandidates(block, marker, c - start);
      }
    }
    ShiftedIs(found, list, start);
  }

  lemma InCandidates(block: seq<string>, marker: Option<nat>, i: nat)
    ensures i in Candidates(block, marker, |block|)
       <==> i < |block| && (IsFound(block, marker, i) || (marker.None? && FirstPlain(block, 0) == Some(i)))
  {
    CandidatesAre(block, marker, |block|);
    hide IsFound, FirstPlain, Candidates;
  }

  // ------------------------------------------------------------ the primary anchors

  /** `^#{1,2}\s+`: where a requirement's section ends. */
  predicate EndsSection(line: string) {
    1 <= Hashes(line) <= 2 && Spaces(line[Hashes(line)..]) > 0
  }

  function SectionEnd(lines: seq<string>, k: nat): (end: nat)
    requires k <= |lines|
    ensures k <= end <= |lines|
    decreases |lines| - k
  {
    if k == |lines| || EndsSection(lines[k]) then k else SectionEnd(lines, k + 1)
  }

  function Section(lines: seq<string>, h: nat): seq<string>
    requires h < |lines|
  {
    lines[h + 1..SectionEnd(lines, h + 1)]
  }

  type Ids = seq<seq<string>>

  function Put(ids: Ids, at: nat, id: string): (r: Ids)
    requires at < |ids|
    ensures |r| == |ids|
  {
    ids[at := ids[at] + [id]]
  }

  /** The first `n` criteria of a section, numbered from 1. */
  function PutCriteria(ids: Ids, start: nat, offsets: seq<nat>, base: string, n: nat): (r: Ids)
    requires n <= |offsets| && forall j :: 0 <= j < |offsets| ==> start + offsets[j] < |ids|
    ensures |r| == |ids|
  {
    if n == 0 then ids
    else Put(PutCriteria(ids, start, offsets, base, n - 1), start + offsets[n - 1], base + AC + TwoDigits(n))
  }

  /** The anchors of the headings among the first `h` lines; None where a section
      has no candidate. */
  function Placed(lines: seq<string>, h: nat): (r: Option<Ids>)
    requires h <= |lines|
    ensures r.Some? ==> |r.value| == |lines|
  {
    if h == 0 then Some(seq(|lines|, _ => []))
    else
      var before, heading := Placed(lines, h - 1), HeadingId(lines[h - 1]);
      if before.None? || heading.None? then before
      else
        var offsets := CriterionOffsets(Section(lines, h - 1));
        if offsets.None? then None
        else
          var base := Lower(heading.value);
          Some(PutCriteria(Put(before.value, h - 1, base), h, offsets.value, base, |offsets.value|))
  }

  function PlacePrimary(lines: seq<string>): Option<Ids> {
    Placed(lines, |lines|)
  }

  /** `_inject_primary`, on the text of a file. */
  function InjectPrimary(text: string): Option<string> {
    Injected(text, IsPrimaryAnchor, PlacePrimary)
  }

  /** At most 99 criteria in each section among the first `h` lines. */
  predicate SmallSections(lines: seq<string>, h: nat)
    requires h <= |lines|
  {
    forall g :: 0 <= g < h && HeadingId(lines[g]).Some? && CriterionOffsets(Section(lines, g)).Some? ==>
      |CriterionOffsets(Section(lines, g)).value| <= 99
  }

  predicate AllIds(ids: Ids) {
    forall i, j :: 0 <= i < |ids| && 0 <= j < |ids[i]| ==> IsId(ids[i][j])
  }

  predicate AllPrimary(ids: Ids) {
    forall i :: 0 <= i < |ids| ==> AllMatch(ids[i], IsPrimaryAnchor)
  }

  lemma LineMatchesIff(id: string)
    requires IsId(id)
    ensures IsPrimaryAnchor(Strip(AnchorLine(id))) <==> IsPrimaryId(id)
  {
    hide IsPrimaryId;
    AnchorLineIsOneLine(id);
    MiddleOfAnchorLine(id);
  }

  lemma PutOne(ids: Ids, at: nat, id: string)
    requires at < |ids| && IsId(id) && AllIds(ids)
    ensures AllIds(Put(ids, at, id))
    ensures AllPrimary(Put(ids, at, id)) <==> AllPrimary(ids) && IsPrimaryId(id)
  {
    hide IsId, IsPrimaryId, IsPrimaryAnchor, Strip, AnchorLine;
    LineMatchesIff(id);
    var after := Put(ids, at, id);
    forall i | 0 <= i < |ids| && i != at
      ensures after[i] == ids[i]
    {
    }
    assert after[at] == ids[at] + [id];
    MatchSnoc(ids[at], id);
    hide AllMatch;
  }

  lemma MatchSnoc(row: seq<string>, id: string)
    ensures AllMatch(row + [id], IsPrimaryAnchor)
       <==> AllMatch(row, IsPrimaryAnchor) && IsPrimaryAnchor(Strip(AnchorLine(id)))
  {
    hide IsPrimaryAnchor, Strip, AnchorLine;
    var all := row + [id];
    assert forall i :: 0 <= i < |row| ==> all[i] == row[i];
    assert all[|row|] == id;
  }

  lemma {:induction false} PutCriteriaMatch(ids: Ids, start: nat, offsets: seq<nat>, base: string, n: nat)
    requires n <= |offsets| && (forall j :: 0 <= j < |offsets| ==> start + offsets[j] < |ids|)
    requires IsBase(base) && AllIds(ids)
    ensures AllIds(PutCriteria(ids, start, offsets, base, n))
    ensures AllPrimary(PutCriteria(ids, start, offsets, base, n)) <==> AllPrimary(ids) && n <= 99
  {
    hide IsBase, AllIds, AllPrimary, IsPrimaryId, Put, TwoDigits, IsId;
    if n > 0 {
      PutCriteriaMatch(ids, start, offsets, base, n - 1);
      CriterionIsId(base, n);
      CriterionMatchesIff(base, n);
      PutOne(PutCriteria(ids, start, offsets, base, n - 1), start + offsets[n - 1], base + AC + TwoDigits(n));
    }
  }

  lemma {:induction false} PlacedMatch(lines: seq<string>, h: nat)
    requires h <= |lines| && Placed(lines, h).Some?
    ensures AllIds(Placed(lines, h).value)
    ensures AllPrimary(Placed(lines, h).value) <==> SmallSections(lines, h)
  {
    hide IsBase, AllIds, AllPrimary, IsPrimaryId, Put, PutCriteria, IsId, HeadingId, CriterionOffsets, Lower, Section,
         SmallSections;
    if h == 0 {
      NothingPlaced(lines);
    } else {
      PlacedMatch(lines, h - 1);
      OneMoreSection(lines, h - 1);
      if HeadingId(lines[h - 1]).Some? {
        var base, offsets := Lower(HeadingId(lines[h - 1]).value), CriterionOffsets(Section(lines, h - 1)).value;
        HeadingIsBase(lines[h - 1]);
        BaseIsId(base);
        BaseMatches(base);
        var before := Placed(lines, h - 1).value;
        PutOne(before, h - 1, base);
        OffsetsInside(lines, h - 1);
        PutCriteriaMatch(Put(before, h - 1, base), h, offsets, base, |offsets|);
      }
    }
  }

  lemma BaseMatches(base: string)
    requires IsBase(base)
    ensures IsPrimaryId(base)
  {
  }

  lemma OffsetsInside(lines: seq<string>, h: nat)
    requires h < |lines|
    ensures CriterionOffsets(Section(lines, h)).Some? ==>
              forall j :: 0 <= j < |CriterionOffsets(Section(lines, h)).value| ==>
                h + 1 + CriterionOffsets(Section(lines, h)).value[j] < |lines|
  {
  }

  lemma NothingPlaced(lines: seq<string>)
    ensures AllIds(Placed(lines, 0).value) && AllPrimary(Placed(lines, 0).value) && SmallSections(lines, 0)
  {
  }

  lemma OneMoreSection(lines: seq<string>, h: nat)
    requires h < |lines|
    ensures SmallSections(lines, h + 1)
       <==> SmallSections(lines, h)
            && (HeadingId(lines[h]).Some? && CriterionOffsets(Section(lines, h)).Some? ==>
                  |CriterionOffsets(Section(lines, h)).value| <= 99)
  {
    hide HeadingId, CriterionOffsets, Section;
  }

  /** The lines `_inject_primary` reads the file as. */
  function PrimaryLines(text: string): seq<string> { Cleaned(SplitLines(text), IsPrimaryAnchor) }

  lemma PrimaryPlaces(text: string)
    requires PlacePrimary(PrimaryLines(text)).Some?
    ensures Places(text, IsPrimaryAnchor, PlacePrimary) && !IsPrimaryAnchor("")
  {
    hide AllPrimary, SmallSections;
    PlacedMatch(PrimaryLines(text), |PrimaryLines(text)|);
    hide Placed, IsId, Cleaned, SplitLines;
  }

  /** The main result on cleaning: the injected file, cleaned, is the original,
      cleaned, exactly when no section has a hundred criteria and a line is left. */
  lemma CleaningUndoesInjectionIff(text: string)
    requires PlacePrimary(PrimaryLines(text)).Some?
    ensures InjectPrimary(text).Some?
    ensures PrimaryLines(InjectPrimary(text).value) == PrimaryLines(text)
       <==> PrimaryLines(text) != [] && SmallSections(PrimaryLines(text), |PrimaryLines(text)|)
  {
    hide SmallSections, Placed, Places, AllMatch, AllIds, Cleaned, SplitLines, Injected, IsPrimaryAnchor;
    PrimaryPlaces(text);
    PlacedMatch(PrimaryLines(text), |PrimaryLines(text)|);
    CleanedFileIff(text, IsPrimaryAnchor, PlacePrimary);
  }

  /** The main result on repetition: injecting twice is injecting once. */
  lemma InjectingTwiceIsOnce(text: string)
    requires PlacePrimary(PrimaryLines(text)).Some?
    requires SmallSections(PrimaryLines(text), |PrimaryLines(text)|)
    ensures InjectPrimary(text).Some?
    ensures InjectPrimary(InjectPrimary(text).value) == InjectPrimary(text)
  {
    hide SmallSections, Placed, Places, AllMatch, AllIds, Cleaned, SplitLines, Injected, IsPrimaryAnchor;
    PrimaryPlaces(text);
    PlacedMatch(PrimaryLines(text), |PrimaryLines(text)|);
    OneEmptyLine();
    InjectionIsIdempotent(text, IsPrimaryAnchor, PlacePrimary);
  }

  lemma OneEmptyLine()
    ensures PlacePrimary([""]) == Some([[]])
  {
    assert HeadingId("").None?;
    assert Placed([""], 1) == Placed([""], 0);
    assert Placed([""], 0).value == [[]];
  }

  // ------------------------------------------------------------ reading back

  /** A line an anchor may stand in front of, if it is no comment and holds no
      anchor of its own. */
  predicate TargetUnlessComment(line: string) {
    Explicit(line).None? && !StartsWith(Strip(line), "<!--") ==> IsTarget(line)
  }

  predicate OnTargets(lines: seq<string>, ids: Ids)
    requires |ids| == |lines|
  {
    forall i :: 0 <= i < |ids| && ids[i] != [] ==> TargetUnlessComment(lines[i])
  }

  lemma HeadingIsTarget(line: string)
    requires HeadingId(line).Some?
    ensures Heading(line).Some? && TargetUnlessComment(line)
  {
    hide Explicit;
    assert line[..3] == "## ";
    assert line[0] == line[..3][0] && line[1] == line[..3][1] && line[2] == line[..3][2];
    var t := line[1..][1..];
    assert t[0] == ' ';
    assert Hashes(t) == 0 && Hashes(line[1..]) == 1;
    assert line[2..] == t;
    assert Spaces(t) == 1 + Spaces(t[1..]);
    assert t[1..] == line[3..];
    NoSpaceFirst(line[3..]);
  }

  lemma NoSpaceFirst(rest: string)
    requires IdLength(rest).Some?
    ensures Spaces(rest) == 0
  {
    if StartsWith(rest, "FR-") {
      assert rest[0] == rest[..3][0];
    } else {
      assert rest[0] == rest[..4][0];
    }
  }

  lemma {:induction false} PutCriteriaOnTargets(lines: seq<string>, ids: Ids, start: nat, block: seq<string>,
                                                base: string, n: nat)
    requires |ids| == |lines| && OnTargets(lines, ids)
    requires CriterionOffsets(block).Some? && n <= |CriterionOffsets(block).value|
    requires start + |block| <= |lines| && block == lines[start..start + |block|]
    ensures OnTargets(lines, PutCriteria(ids, start, CriterionOffsets(block).value, base, n))
  {
    hide CriterionOffsets, TargetUnlessComment, TwoDigits;
    if n > 0 {
      PutCriteriaOnTargets(lines, ids, start, block, base, n - 1);
      var at := CriterionOffsets(block).value[n - 1];
      assert block[at] == lines[start + at];
      CriterionOnTarget(block, n - 1);
    }
  }

  lemma CriterionOnTarget(block: seq<string>, j: nat)
    requires CriterionOffsets(block).Some? && j < |CriterionOffsets(block).value|
    ensures TargetUnlessComment(block[CriterionOffsets(block).value[j]])
  {
    CriteriaAreTargets(block, j);
  }

  lemma {:induction false} PlacedOnTargets(lines: seq<string>, h: nat)
    requires h <= |lines| && Placed(lines, h).Some?
    ensures OnTargets(lines, Placed(lines, h).value)
  {
    hide HeadingId, CriterionOffsets, PutCriteria, TargetUnlessComment, Lower;
    if h > 0 {
      PlacedOnTargets(lines, h - 1);
      if HeadingId(lines[h - 1]).Some? {
        HeadingIsTarget(lines[h - 1]);
        var base := Lower(HeadingId(lines[h - 1]).value);
        var ids := Put(Placed(lines, h - 1).value, h - 1, base);
        assert OnTargets(lines, ids);
        PutCriteriaOnTargets(lines, ids, h, Section(lines, h - 1), base,
            |CriterionOffsets(Section(lines, h - 1)).value|);
      }
    }
  }

  // ------------------------------------------------------------ no two anchors are equal

  function Criterion(base: string, n: nat): string { base + AC + TwoDigits(n) }

  lemma {:induction false} DecInjective(n: nat, m: nat)
    requires Dec(n) == Dec(m)
    ensures n == m
  {
    DecLength(n);
    DecLength(m);
    if n >= 10 {
      assert Dec(n)[..|Dec(n)| - 1] == Dec(n / 10) && Dec(m)[..|Dec(m)| - 1] == Dec(m / 10);
      DecInjective(n / 10, m / 10);
      assert Dec(n)[|Dec(n)| - 1] == Dec(m)[|Dec(m)| - 1];
    }
  }

  lemma {:induction false} DecStarts(n: nat)
    ensures n > 0 ==> Dec(n)[0] != '0'
  {
    if n >= 10 {
      DecStarts(n / 10);
      assert Dec(n)[0] == Dec(n / 10)[0];
    }
  }

  lemma TwoDigitsInjective(n: nat, m: nat)
    requires TwoDigits(n) == TwoDigits(m)
    ensures n == m
  {
    DecStarts(n);
    DecStarts(m);
    hide Dec;
    if n < 10 && m < 10 {
      assert TwoDigits(n)[1..] == Dec(n) && TwoDigits(m)[1..] == Dec(m);
      DecInjective(n, m);
    } else if n >= 10 && m >= 10 {
      DecInjective(n, m);
    }
  }

  /** A criterion's anchor names its requirement and its number. */
  lemma CriterionInjective(a: string, b: string, n: nat, m: nat)
    requires IsBase(a) && IsBase(b) && Criterion(a, n) == Criterion(b, m)
    ensures a == b && n == m
  {
    hide IsBase, TwoDigits;
    NotLonger(a, b, n, m);
    NotLonger(b, a, m, n);
    assert Criterion(a, n)[..|a|] == a && Criterion(b, m)[..|b|] == b;
    assert Criterion(a, n)[|a| + 4..] == TwoDigits(n) && Criterion(b, m)[|b| + 4..] == TwoDigits(m);
    TwoDigitsInjective(n, m);
  }

  /** The dash after a base is followed by a letter, and no later dash of one is. */
  lemma NotLonger(a: string, b: string, n: nat, m: nat)
    requires IsBase(a) && IsBase(b) && Criterion(a, n) == Criterion(b, m)
    ensures |b| <= |a|
  {
    hide TwoDigits;
    NotABase(a, TwoDigits(n));
    DashesOfBase(b);
    hide IsBase;
    var s := Criterion(a, n);
    assert s[|a|] == '-' && s[|a| + 1] == 'a';
    assert forall i :: 0 <= i < |b| ==> s[i] == b[i];
  }

  lemma DashesOfBase(b: string)
    requires IsBase(b)
    ensures |b| >= 7 && IsDigit(b[|b| - 1])
    ensures forall k :: 7 <= k < |b| - 1 && b[k] == '-' ==> IsDigit(b[k + 1])
  {
    if |b| > 7 {
      var t := b[|b| - 3..];
      assert t[0] == b[|b| - 3] && t[1] == b[|b| - 2] && t[2] == b[|b| - 1];
    }
  }

  /** The anchors of the requirement `base` and of its criteria. */
  ghost predicate HasStem(id: string, base: string) {
    id == base || exists n: nat :: id == Criterion(base, n)
  }

  lemma StemIsUnique(id: string, a: string, b: string)
    requires IsBase(a) && IsBase(b) && HasStem(id, a) && HasStem(id, b)
    ensures a == b
  {
    hide IsBase, TwoDigits, Criterion;
    if id != a && id != b {
      var n: nat :| id == Criterion(a, n);
      var m: nat :| id == Criterion(b, m);
      CriterionInjective(a, b, n, m);
    } else if id != b {
      var m: nat :| id == Criterion(b, m);
      BaseIsNoCriterion(a, b, m);
    } else if id != a {
      var n: nat :| id == Criterion(a, n);
      BaseIsNoCriterion(b, a, n);
    }
  }

  lemma BaseIsNoCriterion(a: string, b: string, n: nat)
    requires IsBase(a) && IsBase(b)
    ensures a != Criterion(b, n)
  {
    NotABase(b, TwoDigits(n));
  }

  predicate Holds(ids: Ids, id: string) {
    exists i, j :: 0 <= i < |ids| && 0 <= j < |ids[i]| && ids[i][j] == id
  }

  /** What is in the rows after one more anchor was put, and where. */
  lemma PutHolds(ids: Ids, at: nat, id: string, x: string)
    requires at < |ids| && Holds(Put(ids, at, id), x)
    ensures x == id || Holds(ids, x)
  {
    var after := Put(ids, at, id);
    var i, j :| 0 <= i < |after| && 0 <= j < |after[i]| && after[i][j] == x;
    if x != id {
      assert j < |ids[i]| && ids[i][j] == x;
    }
  }

  lemma PutDistinct(ids: Ids, at: nat, id: string)
    requires at < |ids| && Distinct(ids) && !Holds(ids, id)
    ensures Distinct(Put(ids, at, id))
  {
    var after := Put(ids, at, id);
    assert after[at] == ids[at] + [id];
    forall i, j, m, n | 0 <= i < |after| && 0 <= j < |after[i]| && 0 <= m < |after| && 0 <= n < |after[m]|
                        && after[i][j] == after[m][n]
      ensures i == m && j == n
    {
      PlaceAfterPut(ids, at, id, i, j);
      PlaceAfterPut(ids, at, id, m, n);
    }
  }

  lemma PlaceAfterPut(ids: Ids, at: nat, id: string, i: nat, j: nat)
    requires at < |ids| && !Holds(ids, id) && i < |ids| && j < |Put(ids, at, id)[i]|
    ensures Put(ids, at, id)[i][j] == id <==> i == at && j == |ids[at]|
    ensures Put(ids, at, id)[i][j] != id ==> j < |ids[i]| && Put(ids, at, id)[i][j] == ids[i][j]
  {
  }

  /** Of the anchors with this stem, only the requirement's and the first `n`
      criteria's are there. */
  ghost predicate UpTo(ids: Ids, base: string, n: nat) {
    forall x :: Holds(ids, x) && HasStem(x, base) ==> x == base || exists m: nat :: m <= n && x == Criterion(base, m)
  }

  lemma {:induction false} CriteriaDistinct(ids: Ids, start: nat, offsets: seq<nat>, base: string, n: nat)
    requires n <= |offsets| && forall j :: 0 <= j < |offsets| ==> start + offsets[j] < |ids|
    requires IsBase(base) && Distinct(ids) && forall x :: Holds(ids, x) && HasStem(x, base) ==> x == base
    ensures var after := PutCriteria(ids, start, offsets, base, n);
            && Distinct(after) && UpTo(after, base, n)
            && forall x :: Holds(after, x) ==> Holds(ids, x) || HasStem(x, base)
  {
    hide IsBase, Put, TwoDigits, Distinct, Holds, Criterion;
    if n > 0 {
      CriteriaDistinct(ids, start, offsets, base, n - 1);
      NextCriterion(PutCriteria(ids, start, offsets, base, n - 1), start + offsets[n - 1], base, n);
      PutIsCriterion(ids, start, offsets, base, n);
    }
  }

  lemma PutIsCriterion(ids: Ids, start: nat, offsets: seq<nat>, base: string, n: nat)
    requires 0 < n <= |offsets| && forall j :: 0 <= j < |offsets| ==> start + offsets[j] < |ids|
    ensures PutCriteria(ids, start, offsets, base, n)
         == Put(PutCriteria(ids, start, offsets, base, n - 1), start + offsets[n - 1], Criterion(base, n))
  {
  }

  lemma NextCriterion(ids: Ids, at: nat, base: string, n: nat)
    requires at < |ids| && n > 0 && IsBase(base) && Distinct(ids) && UpTo(ids, base, n - 1)
    ensures var after := Put(ids, at, Criterion(base, n));
            && Distinct(after) && UpTo(after, base, n)
            && forall x :: Holds(after, x) ==> Holds(ids, x) || HasStem(x, base)
  {
    hide IsBase, Put, TwoDigits, Distinct, Holds, Criterion;
    var id := Criterion(base, n);
    assert HasStem(id, base);
    if Holds(ids, id) {
      BaseIsNoCriterion(base, base, n);
      var m: nat :| m <= n - 1 && id == Criterion(base, m);
      CriterionInjective(base, base, n, m);
    }
    PutDistinct(ids, at, id);
    forall x | Holds(Put(ids, at, id), x)
      ensures x == id || Holds(ids, x)
    {
      PutHolds(ids, at, id, x);
    }
  }

  /** No requirement has two headings. */
  predicate DistinctHeadings(lines: seq<string>) {
    forall g, k :: 0 <= g < k < |lines| && HeadingId(lines[g]).Some? && HeadingId(lines[k]).Some? ==>
      HeadingId(lines[g]) != HeadingId(lines[k])
  }

  function Base(line: string): string
    requires HeadingId(line).Some?
  {
    Lower(HeadingId(line).value)
  }

  /** Every anchor belongs to one of the first `h` lines. */
  ghost predicate StemsWithin(lines: seq<string>, ids: Ids, h: nat)
    requires h <= |lines|
  {
    forall x :: Holds(ids, x) ==> exists g :: 0 <= g < h && HeadingId(lines[g]).Some? && HasStem(x, Base(lines[g]))
  }

  /** Requirement ids have no lower-case letters, so lowering them loses nothing. */
  lemma BasesDiffer(a: string, b: string)
    requires HeadingId(a).Some? && HeadingId(b).Some? && Base(a) == Base(b)
    ensures HeadingId(a) == HeadingId(b)
  {
    hide IdLength;
    var s, t := HeadingId(a).value, HeadingId(b).value;
    NoLowerCase(a[3..]);
    NoLowerCase(b[3..]);
    forall i | 0 <= i < |s|
      ensures s[i] == t[i]
    {
      assert Lower(s)[i] == Lower(t)[i];
    }
    assert s == t;
  }

  lemma NoLowerCase(rest: string)
    requires IdLength(rest).Some?
    ensures forall i :: 0 <= i < IdLength(rest).value ==> !IsLower(rest[i])
  {
    if StartsWith(rest, "FR-") {
      var k := Uppers(rest[3..]);
      assert forall i :: 0 <= i < 3 ==> rest[i] == rest[..3][i];
      assert forall i :: 3 <= i < 3 + k ==> rest[i] == rest[3..][i - 3];
      assert rest[3 + k] == rest[3 + k..][0] == rest[3 + k..][..1][0];
      assert forall i :: 4 + k <= i < 7 + k ==> rest[i] == rest[4 + k..][i - 4 - k];
    } else {
      assert forall i :: 0 <= i < 4 ==> rest[i] == rest[..4][i];
      assert forall i :: 4 <= i < 7 ==> rest[i] == rest[4..][i - 4];
    }
  }

  lemma NewStem(lines: seq<string>, ids: Ids, h: nat, x: string)
    requires h < |lines| && HeadingId(lines[h]).Some? && DistinctHeadings(lines) && StemsWithin(lines, ids, h)
    requires Holds(ids, x)
    ensures !HasStem(x, Base(lines[h]))
  {
    hide Holds, HasStem, HeadingId, Base;
    var g :| 0 <= g < h && HeadingId(lines[g]).Some? && HasStem(x, Base(lines[g]));
    if HasStem(x, Base(lines[h])) {
      BaseOfHeading(lines[g]);
      BaseOfHeading(lines[h]);
      StemIsUnique(x, Base(lines[g]), Base(lines[h]));
      BasesDiffer(lines[g], lines[h]);
    }
  }

  lemma BaseOfHeading(line: string)
    requires HeadingId(line).Some?
    ensures IsBase(Base(line))
  {
    HeadingIsBase(line);
  }

  /** A section whose requirement is new adds new anchors. */
  lemma SectionDistinct(lines: seq<string>, ids: Ids, h: nat, offsets: seq<nat>)
    requires h < |lines| == |ids| && HeadingId(lines[h]).Some? && DistinctHeadings(lines) && StemsWithin(lines, ids, h)
    requires Distinct(ids) && forall j :: 0 <= j < |offsets| ==> h + 1 + offsets[j] < |ids|
    ensures var after := PutCriteria(Put(ids, h, Base(lines[h])), h + 1, offsets, Base(lines[h]), |offsets|);
            Distinct(after) && StemsWithin(lines, after, h + 1)
  {
    hide Holds, HeadingId, Base, Put, PutCriteria, Distinct, DistinctHeadings, StemsWithin, HasStem;
    var base := Base(lines[h]);
    BaseOfHeading(lines[h]);
    ItsOwnStem(base);
    if Holds(ids, base) {
      NewStem(lines, ids, h, base);
    }
    PutDistinct(ids, h, base);
    forall x | Holds(Put(ids, h, base), x)
      ensures x == base || Holds(ids, x)
      ensures HasStem(x, base) ==> x == base
    {
      PutHolds(ids, h, base, x);
      if x != base {
        NewStem(lines, ids, h, x);
      }
    }
    CriteriaDistinct(Put(ids, h, base), h + 1, offsets, base, |offsets|);
    MoreStems(lines, ids, PutCriteria(Put(ids, h, base), h + 1, offsets, base, |offsets|), h);
  }

  lemma ItsOwnStem(base: string)
    ensures HasStem(base, base)
  {
  }

  lemma MoreStems(lines: seq<string>, ids: Ids, after: Ids, h: nat)
    requires h < |lines| && HeadingId(lines[h]).Some? && StemsWithin(lines, ids, h)
    requires forall x :: Holds(after, x) ==> Holds(ids, x) || HasStem(x, Base(lines[h]))
    ensures StemsWithin(lines, after, h + 1)
  {
    hide Holds, HeadingId, Base, HasStem;
    forall x | Holds(after, x)
      ensures exists g :: 0 <= g < h + 1 && HeadingId(lines[g]).Some? && HasStem(x, Base(lines[g]))
    {
      if Holds(ids, x) {
        var g :| 0 <= g < h && HeadingId(lines[g]).Some? && HasStem(x, Base(lines[g]));
      }
    }
  }

  /** Where no requirement has two headings, no anchor is placed twice. */
  lemma {:induction false} PlacedDistinct(lines: seq<string>, h: nat)
    requires h <= |lines| && Placed(lines, h).Some? && DistinctHeadings(lines)
    ensures Distinct(Placed(lines, h).value) && StemsWithin(lines, Placed(lines, h).value, h)
  {
    hide HeadingId, CriterionOffsets, PutCriteria, Put, Lower, Section, Distinct, DistinctHeadings, StemsWithin;
    if h == 0 {
      NothingHeld(lines);
    } else {
      PlacedDistinct(lines, h - 1);
      var before := Placed(lines, h - 1).value;
      if HeadingId(lines[h - 1]).Some? {
        var offsets := CriterionOffsets(Section(lines, h - 1)).value;
        OffsetsInside(lines, h - 1);
        SectionDistinct(lines, before, h - 1, offsets);
      } else {
        StemsWiden(lines, before, h - 1);
      }
    }
  }

  lemma NothingHeld(lines: seq<string>)
    ensures Distinct(Placed(lines, 0).value) && StemsWithin(lines, Placed(lines, 0).value, 0)
  {
  }

  lemma StemsWiden(lines: seq<string>, ids: Ids, h: nat)
    requires h < |lines| && StemsWithin(lines, ids, h)
    ensures StemsWithin(lines, ids, h + 1)
  {
    hide Holds, HasStem, HeadingId, Base;
  }

  /** The main result on reading: where no requirement has two headings and no line
      defines one of the anchors itself, every anchor injected in front of a line that
      is no comment and holds no anchor reads as the text of that line. */
  lemma InjectedAnchorsReadBack(lines: seq<string>, slug: string -> string, i: nat, j: nat)
    requires PlacePrimary(lines).Some? && DistinctHeadings(lines) && Undefined(lines, PlacePrimary(lines).value)
    requires i < |lines| && j < |PlacePrimary(lines).value[i]|
    requires Explicit(lines[i]).None? && !StartsWith(Strip(lines[i]), "<!--")
    ensures var ids := PlacePrimary(lines).value;
            var anchors := Anchors(Woven(lines, ids, |lines|), slug);
            ids[i][j] in anchors && anchors[ids[i][j]] == TextOf(lines[i])
  {
    hide Placed, Explicit, Strip, Woven, Anchors, TextOf, IsTarget, Distinct, Undefined, DistinctHeadings;
    PlacedDistinct(lines, |lines|);
    PlacedMatch(lines, |lines|);
    PlacedOnTargets(lines, |lines|);
    AnchorsReadBack(lines, PlacePrimary(lines).value, slug, i, j);
  }

  // ------------------------------------------------------------ every anchor, and no other

  /** The heading in line `h` asks for this anchor in front of line `i`: its own, or that of
      the criterion there, numbered in order from 1. */
  predicate AsksFor(lines: seq<string>, h: nat, i: nat, id: string)
    requires h < |lines|
  {
    && HeadingId(lines[h]).Some? && CriterionOffsets(Section(lines, h)).Some?
    && var base, offsets := Lower(HeadingId(lines[h]).value), CriterionOffsets(Section(lines, h)).value;
       (i == h && id == base) || CriterionAsks(offsets, h + 1, base, |offsets|, i, id)
  }

  predicate CriterionAsks(offsets: seq<nat>, start: nat, base: string, n: nat, i: nat, id: string)
    requires n <= |offsets|
  {
    exists m :: 0 <= m < n && i == start + offsets[m] && id == base + AC + TwoDigits(m + 1)
  }

  lemma PutAt(ids: Ids, at: nat, new_: string, i: nat, id: string)
    requires at < |ids| && i < |ids|
    ensures id in Put(ids, at, new_)[i] <==> id in ids[i] || (i == at && id == new_)
  {
  }

  lemma {:induction false} PutCriteriaAt(ids: Ids, start: nat, offsets: seq<nat>, base: string, n: nat, i: nat,
                                            id: string)
    requires n <= |offsets| && (forall j :: 0 <= j < |offsets| ==> start + offsets[j] < |ids|) && i < |ids|
    ensures id in PutCriteria(ids, start, offsets, base, n)[i]
       <==> id in ids[i] || CriterionAsks(offsets, start, base, n, i, id)
  {
    hide TwoDigits, Put;
    if n > 0 {
      PutCriteriaAt(ids, start, offsets, base, n - 1, i, id);
      PutAt(PutCriteria(ids, start, offsets, base, n - 1), start + offsets[n - 1], base + AC + TwoDigits(n), i, id);
      var new_ := base + AC + TwoDigits(n);
      assert CriterionAsks(offsets, start, base, n, i, id)
        <==> CriterionAsks(offsets, start, base, n - 1, i, id) || (i == start + offsets[n - 1] && id == new_) by {
        if i == start + offsets[n - 1] && id == new_ {
          assert id == base + AC + TwoDigits(n - 1 + 1);
        }
      }
    }
  }

  /** In front of a line stand exactly the anchors that some heading asks for there; it
      fails exactly if a section has nothing to number. */
  lemma {:induction false} PlacedIff(lines: seq<string>, h: nat, i: nat, id: string)
    requires h <= |lines| && i < |lines|
    ensures Placed(lines, h).None?
       <==> exists g :: 0 <= g < h && HeadingId(lines[g]).Some? && CriterionOffsets(Section(lines, g)).None?
    ensures Placed(lines, h).Some? ==>
              (id in Placed(lines, h).value[i] <==> exists g :: 0 <= g < h && AsksFor(lines, g, i, id))
  {
    hide HeadingId, CriterionOffsets, Section, Lower, PutCriteria, Put, CriterionAsks;
    if h > 0 {
      PlacedIff(lines, h - 1, i, id);
      var before, heading, offsets := Placed(lines, h - 1), HeadingId(lines[h - 1]),
          CriterionOffsets(Section(lines, h - 1));
      if before.Some? && heading.Some? && offsets.Some? {
        var base := Lower(heading.value);
        OffsetsInside(lines, h - 1);
        PutAt(before.value, h - 1, base, i, id);
        PutCriteriaAt(Put(before.value, h - 1, base), h, offsets.value, base, |offsets.value|, i, id);
        assert id in Placed(lines, h).value[i] <==> id in before.value[i] || AsksFor(lines, h - 1, i, id);
      }
    }
  }

  // ------------------------------------------------------------ the injector

  /** `_inject_primary`. */
  method RunInjectPrimary(text: string) returns (r: Option<string>)
    ensures r == InjectPrimary(text)
  {
    hide HeadingId, CriterionOffsets, PutCriteria, Put, Lower;
    var lines := Cleaned(SplitLines(text), IsPrimaryAnchor);
    var ids: Ids := seq(|lines|, _ => []);
    for index := 0 to |lines|
      invariant |ids| == |lines| && Placed(lines, index) == Some(ids)
    {
      var heading := HeadingId(lines[index]);
      if heading.Some? {
        var end := SectionEnd(lines, index + 1);
        var candidates := CriterionIndices(lines, index + 1, end);
        if candidates.None? {
          NoneStays(lines, index + 1, |lines|);
          return None;
        }
        ids := PutSection(lines, index, ids, Lower(heading.value), candidates.value);
      }
    }
    var output := WeaveLines(lines, ids);
    r := Some(JoinLines(output));
  }

  lemma {:induction false} NoneStays(lines: seq<string>, h: nat, k: nat)
    requires h <= k <= |lines| && Placed(lines, h).None?
    ensures Placed(lines, k).None?
  {
    hide HeadingId, CriterionOffsets, PutCriteria;
    if h < k {
      NoneStays(lines, h, k - 1);
    }
  }

  /** The body of that loop, and the loop over the candidates inside it. */
  method PutSection(lines: seq<string>, index: nat, ids0: Ids, base: string, candidates: seq<nat>) returns (ids: Ids)
    requires index < |lines| == |ids0|
    requires var offsets := CriterionOffsets(Section(lines, index));
             offsets.Some? && |candidates| == |offsets.value|
             && forall j :: 0 <= j < |candidates| ==> candidates[j] == index + 1 + offsets.value[j] < |lines|
    ensures ids == PutCriteria(Put(ids0, index, base), index + 1, CriterionOffsets(Section(lines, index)).value, base,
                               |CriterionOffsets(Section(lines, index)).value|)
  {
    hide CriterionOffsets, TwoDigits, Section;
    ids := Put(ids0, index, base);
    for number := 1 to |candidates| + 1
      invariant |ids| == |lines|
      invariant ids == PutCriteria(Put(ids0, index, base), index + 1, CriterionOffsets(Section(lines, index)).value,
                                   base, number - 1)
    {
      ids := Put(ids, candidates[number - 1], base + AC + TwoDigits(number));
    }
  }
}
