/** The anchors of a numbered section (`_inject_numbered_section`). */
module NumberedAnchors {
  import opened Nums
  import opened Strings
  import opened AnchorReader
  import opened AnchorInjection
  import B = Bootstrap

  /** A section between two headings, and how its items are named. */
  datatype Style = Style(startHeading: string, endHeading: string, prefix: string, digits: nat)

  /** `lines.index(line)`; None stands for ValueError. */
  function IndexOf(lines: seq<string>, line: string, i: nat): (r: Option<nat>)
    requires i <= |lines|
    ensures r.Some? ==> r.value < |lines| && lines[r.value] == line
    decreases |lines| - i
  {
    if i == |lines| then None else if lines[i] == line then Some(i) else IndexOf(lines, line, i + 1)
  }

  predicate AllDigits(s: string) { forall i :: 0 <= i < |s| ==> IsDigit(s[i]) }

  function ReadNat(s: string): nat
    requires forall i :: 0 <= i < |s| ==> IsDigit(s[i])
  {
    if s == "" then 0
    else
      var last := s[|s| - 1];
      assert IsDigit(last);
      10 * ReadNat(s[..|s| - 1]) + (last - '0') as nat
  }

  lemma {:induction false} DigitsAre(s: string)
    ensures forall i :: 0 <= i < Digits(s) ==> IsDigit(s[i])
  {
    if s != "" && IsDigit(s[0]) {
      DigitsAre(s[1..]);
    }
  }

  /** The number of a line that matches `^([0-9]+)\. (.+)`. */
  function ItemNumber(line: string): Option<nat> {
    var k := Digits(line);
    if k > 0 && StartsWith(line[k..], ". ") && |line| > k + 2 then
      DigitsAre(line);
      Some(ReadNat(line[..k]))
    else None
  }

  lemma {:induction false} DigitsOf(s: string, k: nat)
    requires k < |s| && !IsDigit(s[k])
    ensures Digits(s) == k <==> forall i :: 0 <= i < k ==> IsDigit(s[i])
  {
    if k > 0 {
      DigitsOf(s[1..], k - 1);
      assert forall i :: 0 <= i < k - 1 ==> s[1..][i] == s[i + 1];
    }
  }

  /** A line is numbered exactly if it is digits, a full stop, a space and more. */
  lemma ItemNumberIff(line: string, n: nat)
    ensures ItemNumber(line) == Some(n)
       <==> exists k :: 0 < k && k + 2 < |line| && AllDigits(line[..k]) && line[k] == '.' && line[k + 1] == ' '
                        && ReadNat(line[..k]) == n
  {
    hide ReadNat;
    if ItemNumber(line) == Some(n) {
      DigitsAre(line);
      var k := Digits(line);
      assert line[k..][..2] == ". " && line[k] == line[k..][..2][0] && line[k + 1] == line[k..][..2][1];
    }
    if k :| 0 < k && k + 2 < |line| && AllDigits(line[..k]) && line[k] == '.' && line[k + 1] == ' '
            && ReadNat(line[..k]) == n {
      assert forall i :: 0 <= i < k ==> line[..k][i] == line[i];
      DigitsOf(line, k);
      assert line[k..][..2] == ". ";
    }
  }

  /** A heading is looked for from the top. */
  lemma {:induction false} IndexOfIs(lines: seq<string>, line: string, i: nat)
    requires i <= |lines|
    ensures IndexOf(lines, line, i).None? <==> forall k :: i <= k < |lines| ==> lines[k] != line
    ensures IndexOf(lines, line, i).Some? ==>
              var found := IndexOf(lines, line, i).value; i <= found && forall k :: i <= k < found ==> lines[k] != line
    decreases |lines| - i
  {
    if i < |lines| && lines[i] != line {
      IndexOfIs(lines, line, i + 1);
    }
  }

  /** `f"{number:0{digits}d}"`. */
  function ZeroPadded(n: nat, digits: nat): (s: string)
    ensures |s| >= digits && s != "" && forall i :: 0 <= i < |s| ==> IsDigit(s[i])
    ensures |s| == digits <==> |Dec(n)| <= digits
  {
    var d := Dec(n);
    (if |d| < digits then seq(digits - |d|, _ => '0') else "") + d
  }

  function Pow10(k: nat): nat {
    if k == 0 then 1 else 10 * Pow10(k - 1)
  }

  lemma {:induction false} DecFits(n: nat, k: nat)
    requires k > 0
    ensures |Dec(n)| <= k <==> n < Pow10(k)
  {
    if k == 1 {
      assert Pow10(1) == 10 * Pow10(0);
    } else if n >= 10 {
      DecFits(n / 10, k - 1);
    } else {
      SmallFits(k);
    }
  }

  lemma {:induction false} SmallFits(k: nat)
    requires k > 0
    ensures Pow10(k) >= 10
  {
    if k > 1 {
      SmallFits(k - 1);
    } else {
      assert Pow10(1) == 10 * Pow10(0);
    }
  }

  function Anchor(style: Style, n: nat): string { style.prefix + "-" + ZeroPadded(n, style.digits) }

  const SUFFIX := "-ac-01"

  /** `{prefix}-[0-9]{digits}`, then perhaps `-ac-[0-9]{2}`; the prefix in lower case. */
  predicate IsNumberedId(style: Style, s: string) {
    var p := |style.prefix| + 1;
    && StartsWith(s, style.prefix + "-")
    && |s| >= p + style.digits && AllDigits(s[p..p + style.digits])
    && var rest := s[p + style.digits..];
       rest == "" || (|rest| == 6 && rest[..4] == B.AC && AllDigits(rest[4..]))
  }

  predicate IsNumberedAnchor(style: Style, line: string) {
    B.AnchorMiddle(line).Some? && IsNumberedId(style, B.AnchorMiddle(line).value)
  }

  predicate IsItem(lines: seq<string>, start: nat, end: nat, i: nat)
    requires i < |lines|
  {
    start < i < end && B.Outside(lines, i) && ItemNumber(lines[i]).Some?
  }

  /** Both anchors of every numbered item between the two headings. */
  function Place(style: Style, lines: seq<string>): (r: Option<seq<seq<string>>>)
    ensures r.Some? ==> |r.value| == |lines|
  {
    var start, end := IndexOf(lines, style.startHeading, 0), IndexOf(lines, style.endHeading, 0);
    if start.None? || end.None? then None
    else
      Some(seq(|lines|, i requires 0 <= i < |lines| =>
        if IsItem(lines, start.value, end.value, i) then
          [Anchor(style, ItemNumber(lines[i]).value), Anchor(style, ItemNumber(lines[i]).value) + SUFFIX]
        else []))
  }

  lemma {:induction false} ReadNatOfDec(n: nat)
    ensures AllDigits(Dec(n)) && ReadNat(Dec(n)) == n
  {
    var s := Dec(n);
    if n >= 10 {
      ReadNatOfDec(n / 10);
      assert s[..|s| - 1] == Dec(n / 10);
    } else {
      assert s[..0] == "";
    }
  }

  lemma {:induction false} LeadingZeros(k: nat, s: string)
    requires AllDigits(s)
    ensures AllDigits(seq(k, _ => '0') + s) && ReadNat(seq(k, _ => '0') + s) == ReadNat(s)
    decreases |s|, k
  {
    var all := seq(k, _ => '0') + s;
    if s != "" {
      LeadingZeros(k, s[..|s| - 1]);
      assert all[..|all| - 1] == seq(k, _ => '0') + s[..|s| - 1];
    } else if k > 0 {
      LeadingZeros(k - 1, s);
      assert all[..|all| - 1] == seq(k - 1, _ => '0') + s;
    }
  }

  /** An anchor carries the number of its item, after the prefix and a dash. */
  lemma AnchorReads(style: Style, n: nat)
    ensures var a, p := Anchor(style, n), |style.prefix| + 1;
            && |a| >= p && a[..p] == style.prefix + "-" && AllDigits(a[p..]) && ReadNat(a[p..]) == n
  {
    ReadNatOfDec(n);
    var a, p, d := Anchor(style, n), |style.prefix| + 1, Dec(n);
    hide Dec;
    assert a[p..] == ZeroPadded(n, style.digits);
    if |d| < style.digits {
      var zeros: string := seq(style.digits - |d|, _ => '0');
      LeadingZeros(style.digits - |d|, d);
      assert a[p..] == zeros + d;
    } else {
      assert a[p..] == d;
    }
  }

  /** Exactly the numbered lines between the two headings, outside fences, get anchors:
      one that carries the line's number, and its criterion's. */
  lemma PlacedIff(style: Style, lines: seq<string>, i: nat)
    requires i < |lines| && Place(style, lines).Some?
    ensures var ids := Place(style, lines).value[i];
            var start, end := IndexOf(lines, style.startHeading, 0).value, IndexOf(lines, style.endHeading, 0).value;
            var numbered := start < i < end && B.Outside(lines, i) && ItemNumber(lines[i]).Some?;
            && (ids != [] <==> numbered)
            && (numbered ==>
                  && |ids| == 2 && ids[1] == ids[0] + SUFFIX
                  && |ids[0]| >= |style.prefix| + 1 && ids[0][..|style.prefix| + 1] == style.prefix + "-"
                  && AllDigits(ids[0][|style.prefix| + 1..])
                  && Some(ReadNat(ids[0][|style.prefix| + 1..])) == ItemNumber(lines[i]))
  {
    hide B.Outside, ItemNumber, Anchor, ReadNat, IndexOf;
    if IsItem(lines, IndexOf(lines, style.startHeading, 0).value, IndexOf(lines, style.endHeading, 0).value, i) {
      AnchorReads(style, ItemNumber(lines[i]).value);
    }
  }

  lemma AnchorIsId(style: Style, n: nat)
    requires IsId(style.prefix)
    ensures IsId(Anchor(style, n)) && IsId(Anchor(style, n) + SUFFIX)
  {
    hide Dec;
    var a := Anchor(style, n);
    assert a[0] == style.prefix[0];
    assert (a + SUFFIX)[0] == a[0];
  }

  /** An item's anchors match the pattern exactly if its number has no more digits
      than the style gives it. */
  lemma AnchorMatchesIff(style: Style, n: nat)
    requires style.digits > 0
    ensures IsNumberedId(style, Anchor(style, n)) <==> n < Pow10(style.digits)
    ensures IsNumberedId(style, Anchor(style, n) + SUFFIX) <==> n < Pow10(style.digits)
  {
    hide Dec, Pow10;
    DecFits(n, style.digits);
    var z, p := ZeroPadded(n, style.digits), |style.prefix| + 1;
    ShortTail(style, z);
  }

  lemma ShortTail(style: Style, z: string)
    requires |z| >= style.digits > 0 && AllDigits(z)
    ensures IsNumberedId(style, style.prefix + "-" + z) <==> |z| == style.digits
    ensures IsNumberedId(style, style.prefix + "-" + z + SUFFIX) <==> |z| == style.digits
  {
    var p, d := |style.prefix| + 1, style.digits;
    var a, b := style.prefix + "-" + z, style.prefix + "-" + z + SUFFIX;
    assert a[..p] == style.prefix + "-" && b[..p] == style.prefix + "-";
    assert a[p..p + d] == z[..d] && b[p..p + d] == z[..d];
    assert a[p + d..] == z[d..];
    assert b[p + d..] == z[d..] + SUFFIX;
    var rest := z[d..];
    if |z| == d {
      assert b[p + d..] == SUFFIX;
      assert SUFFIX[..4] == B.AC && SUFFIX[4..] == "01";
    } else {
      assert rest != "";
      assert |rest| == 6 ==> rest[..4][0] == rest[0];
    }
  }

  /** Every item of the section has a number the style has room for. */
  predicate NumbersFit(style: Style, lines: seq<string>) {
    var start, end := IndexOf(lines, style.startHeading, 0), IndexOf(lines, style.endHeading, 0);
    start.Some? && end.Some? ==>
      forall i :: 0 <= i < |lines| && IsItem(lines, start.value, end.value, i) ==>
        ItemNumber(lines[i]).value < Pow10(style.digits)
  }

  lemma RowMatches(style: Style, row: seq<string>, n: nat)
    requires style.digits > 0 && IsId(style.prefix)
    requires row == [Anchor(style, n), Anchor(style, n) + SUFFIX]
    ensures AllMatch(row, (s: string) => IsNumberedAnchor(style, s)) <==> n < Pow10(style.digits)
    ensures IsId(row[0]) && IsId(row[1])
  {
    hide IsNumberedId, IsId, Anchor, Strip, AnchorLine, Pow10;
    AnchorIsId(style, n);
    AnchorMatchesIff(style, n);
    AnchorLineIsOneLine(row[0]);
    AnchorLineIsOneLine(row[1]);
    B.MiddleOfAnchorLine(row[0]);
    B.MiddleOfAnchorLine(row[1]);
  }

  lemma PlacedMatch(style: Style, lines: seq<string>)
    requires style.digits > 0 && IsId(style.prefix) && Place(style, lines).Some?
    ensures var ids := Place(style, lines).value;
            && (forall i, j :: 0 <= i < |ids| && 0 <= j < |ids[i]| ==> IsId(ids[i][j]))
            && ((forall i :: 0 <= i < |ids| ==> AllMatch(ids[i], (s: string) => IsNumberedAnchor(style, s)))
                <==> NumbersFit(style, lines))
  {
    hide IsId, Anchor, IsItem, AllMatch, Pow10;
    var ids := Place(style, lines).value;
    var start, end := IndexOf(lines, style.startHeading, 0).value, IndexOf(lines, style.endHeading, 0).value;
    var pattern := (s: string) => IsNumberedAnchor(style, s);
    forall i | 0 <= i < |lines|
      ensures IsItem(lines, start, end, i) ==> ItemNumber(lines[i]).Some?
    {
      ItemHasNumber(lines, start, end, i);
    }
    forall i | 0 <= i < |ids|
      ensures IsItem(lines, start, end, i) ==>
                (AllMatch(ids[i], pattern) <==> ItemNumber(lines[i]).value < Pow10(style.digits))
      ensures !IsItem(lines, start, end, i) ==> AllMatch(ids[i], pattern)
      ensures forall j :: 0 <= j < |ids[i]| ==> IsId(ids[i][j])
    {
      if IsItem(lines, start, end, i) {
        RowMatches(style, ids[i], ItemNumber(lines[i]).value);
      } else {
        EmptyMatches(pattern);
      }
    }
  }

  lemma ItemHasNumber(lines: seq<string>, start: nat, end: nat, i: nat)
    requires i < |lines|
    ensures IsItem(lines, start, end, i) ==> ItemNumber(lines[i]).Some?
  {
  }

  lemma EmptyMatches(pattern: string -> bool)
    ensures AllMatch([], pattern)
  {
  }

  /** The lines `_inject_numbered_section` reads the file as, and what it writes. */
  function SectionLines(style: Style, text: string): seq<string> {
    Cleaned(SplitLines(text), (s: string) => IsNumberedAnchor(style, s))
  }

  function InjectNumbered(style: Style, text: string): Option<string> {
    Injected(text, (s: string) => IsNumberedAnchor(style, s), (lines: seq<string>) => Place(style, lines))
  }

  /** Cleaning undoes the injection exactly when every number fits, and then
      injecting twice is injecting once. */
  lemma NumberedInjectionIsReversibleIff(style: Style, text: string)
    requires style.digits > 0 && IsId(style.prefix) && Place(style, SectionLines(style, text)).Some?
    ensures InjectNumbered(style, text).Some?
    ensures SectionLines(style, InjectNumbered(style, text).value) == SectionLines(style, text)
       <==> NumbersFit(style, SectionLines(style, text))
    ensures NumbersFit(style, SectionLines(style, text)) ==>
              InjectNumbered(style, InjectNumbered(style, text).value) == InjectNumbered(style, text)
  {
    hide IsId, AllMatch, Cleaned, SplitLines, NumbersFit, IsNumberedAnchor, Injected;
    var lines := SectionLines(style, text);
    var pattern := (s: string) => IsNumberedAnchor(style, s);
    var place := (l: seq<string>) => Place(style, l);
    PlacedMatch(style, lines);
    EmptyIsNoAnchor(style);
    HasALine(style, lines);
    CleanedFileIff(text, pattern, place);
    if NumbersFit(style, lines) {
      InjectionIsIdempotent(text, pattern, place);
    }
  }

  lemma EmptyIsNoAnchor(style: Style)
    ensures !IsNumberedAnchor(style, "")
  {
  }

  lemma HasALine(style: Style, lines: seq<string>)
    requires Place(style, lines).Some?
    ensures lines != []
  {
  }
}
