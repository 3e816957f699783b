/** Weaving anchor lines into a Markdown file, and cleaning them out again: the
    part of the bootstrap that does not depend on where the anchors go. */
module AnchorInjection {
  import opened Nums
  import opened Strings
  import opened AnchorReader

  // ------------------------------------------------------------ cleaning and weaving

  /** `_clean_lines`, on the lines of the file. */
  function Cleaned(lines: seq<string>, isAnchor: string -> bool): seq<string>
    decreases |lines|
  {
    if lines == [] then []
    else
      Cleaned(lines[..|lines| - 1], isAnchor)
      + if isAnchor(Strip(lines[|lines| - 1])) then [] else [lines[|lines| - 1]]
  }

  function AnchorLines(ids: seq<string>): (lines: seq<string>)
    ensures |lines| == |ids| && forall i :: 0 <= i < |ids| ==> lines[i] == AnchorLine(ids[i])
  {
    seq(|ids|, i requires 0 <= i < |ids| => AnchorLine(ids[i]))
  }

  /** The first `k` lines, each after its anchors. */
  function Woven(lines: seq<string>, ids: seq<seq<string>>, k: nat): seq<string>
    requires k <= |lines| == |ids|
  {
    if k == 0 then [] else Woven(lines, ids, k - 1) + AnchorLines(ids[k - 1]) + [lines[k - 1]]
  }

  /** The last loop of both injectors. */
  method WeaveLines(lines: seq<string>, ids: seq<seq<string>>) returns (output: seq<string>)
    requires |ids| == |lines|
    ensures output == Woven(lines, ids, |lines|)
  {
    output := [];
    for index := 0 to |lines|
      invariant output == Woven(lines, ids, index)
    {
      output := output + AnchorLines(ids[index]);
      output := output + [lines[index]];
    }
  }

  // ------------------------------------------------------------ cleaning undoes weaving

  predicate NoneIs(lines: seq<string>, isAnchor: string -> bool) {
    forall i :: 0 <= i < |lines| ==> !isAnchor(Strip(lines[i]))
  }

  predicate AllMatch(ids: seq<string>, isAnchor: string -> bool) {
    forall i :: 0 <= i < |ids| ==> isAnchor(Strip(AnchorLine(ids[i])))
  }

  lemma {:induction false} CleanedHasNone(lines: seq<string>, isAnchor: string -> bool)
    ensures NoneIs(Cleaned(lines, isAnchor), isAnchor)
    ensures |Cleaned(lines, isAnchor)| <= |lines|
    decreases |lines|
  {
    hide Strip;
    if lines != [] {
      CleanedHasNone(lines[..|lines| - 1], isAnchor);
    }
  }

  lemma {:induction false} CleanedAppend(a: seq<string>, b: seq<string>, isAnchor: string -> bool)
    ensures Cleaned(a + b, isAnchor) == Cleaned(a, isAnchor) + Cleaned(b, isAnchor)
    decreases |b|
  {
    hide Strip;
    if b == [] {
      assert a + b == a;
    } else {
      var s := a + b;
      CleanedAppend(a, b[..|b| - 1], isAnchor);
      assert s[..|s| - 1] == a + b[..|b| - 1] && s[|s| - 1] == b[|b| - 1];
    }
  }

  /** Anchor lines vanish in cleaning exactly when they all match. */
  lemma {:induction false} CleanedAnchors(ids: seq<string>, isAnchor: string -> bool)
    ensures Cleaned(AnchorLines(ids), isAnchor) == [] <==> AllMatch(ids, isAnchor)
    decreases |ids|
  {
    hide Strip, AnchorLine;
    var lines := AnchorLines(ids);
    if ids != [] {
      CleanedAnchors(ids[..|ids| - 1], isAnchor);
      assert lines[..|lines| - 1] == AnchorLines(ids[..|ids| - 1]);
    }
  }

  lemma CleanedOne(line: string, isAnchor: string -> bool)
    ensures Cleaned([line], isAnchor) == if isAnchor(Strip(line)) then [] else [line]
  {
    hide Strip;
    assert [line][..0] == [];
  }

  lemma {:induction false} CleanedWoven(lines: seq<string>, ids: seq<seq<string>>, k: nat, isAnchor: string -> bool)
    requires k <= |lines| == |ids| && NoneIs(lines, isAnchor)
    ensures |Cleaned(Woven(lines, ids, k), isAnchor)| >= k
    ensures (forall i :: 0 <= i < k ==> AllMatch(ids[i], isAnchor))
       <==> Cleaned(Woven(lines, ids, k), isAnchor) == lines[..k]
    ensures |Cleaned(Woven(lines, ids, k), isAnchor)| == k
        ==> forall i :: 0 <= i < k ==> AllMatch(ids[i], isAnchor)
  {
    hide Strip, AllMatch, AnchorLines, Cleaned, NoneIs;
    NothingToClean(isAnchor);
    if k > 0 {
      NotAnchor(lines, k - 1, isAnchor);
      CleanedWoven(lines, ids, k - 1, isAnchor);
      var before, block := Woven(lines, ids, k - 1), AnchorLines(ids[k - 1]);
      CleanedAppend(before + block, [lines[k - 1]], isAnchor);
      CleanedAppend(before, block, isAnchor);
      CleanedOne(lines[k - 1], isAnchor);
      CleanedAnchors(ids[k - 1], isAnchor);
      assert lines[..k] == lines[..k - 1] + [lines[k - 1]];
      Fits(Cleaned(before, isAnchor), Cleaned(block, isAnchor), lines[k - 1], lines[..k - 1]);
    }
  }

  lemma NothingToClean(isAnchor: string -> bool)
    ensures Cleaned([], isAnchor) == []
  {
  }

  lemma NotAnchor(lines: seq<string>, k: nat, isAnchor: string -> bool)
    requires NoneIs(lines, isAnchor) && k < |lines|
    ensures !isAnchor(Strip(lines[k]))
  {
  }

  lemma Fits(b: seq<string>, c: seq<string>, x: string, p: seq<string>)
    requires |b| >= |p|
    ensures b + c + [x] == p + [x] <==> b == p && c == []
    ensures |b + c + [x]| == |p| + 1 ==> |b| == |p| && c == []
  {
    if b + c + [x] == p + [x] {
      assert |b| + |c| == |p|;
      assert (b + c + [x])[..|p|] == b && (p + [x])[..|p|] == p;
    }
  }

  /** Cleaning gives back exactly the lines woven into when every anchor matches
      the pattern, and never otherwise. */
  lemma CleaningUndoesWeavingIff(lines: seq<string>, ids: seq<seq<string>>, isAnchor: string -> bool)
    requires |ids| == |lines| && NoneIs(lines, isAnchor)
    ensures Cleaned(Woven(lines, ids, |lines|), isAnchor) == lines
       <==> forall i :: 0 <= i < |ids| ==> AllMatch(ids[i], isAnchor)
  {
    CleanedWoven(lines, ids, |lines|, isAnchor);
    assert lines[..|lines|] == lines;
  }

  // ------------------------------------------------------------ reading back

  predicate WellFormed(ids: seq<seq<string>>) {
    forall i, j :: 0 <= i < |ids| && 0 <= j < |ids[i]| ==> IsId(ids[i][j])
  }

  predicate Distinct(ids: seq<seq<string>>) {
    forall i, j, m, n :: 0 <= i < |ids| && 0 <= j < |ids[i]| && 0 <= m < |ids| && 0 <= n < |ids[m]| ==>
      ids[i][j] == ids[m][n] ==> i == m && j == n
  }

  /** No line of the file defines one of the anchors itself. */
  predicate Undefined(lines: seq<string>, ids: seq<seq<string>>) {
    forall i, j, k :: 0 <= i < |ids| && 0 <= j < |ids[i]| && 0 <= k < |lines| ==> Explicit(lines[k]) != Some(ids[i][j])
  }

  predicate ProperIds(lines: seq<string>, ids: seq<seq<string>>) {
    |ids| == |lines| && WellFormed(ids) && Distinct(ids) && Undefined(lines, ids)
  }

  /** The lines from the one after line `k` on, with their anchors. */
  lemma {:induction false} WovenSplits(lines: seq<string>, ids: seq<seq<string>>, i: nat, k: nat)
    requires i < k <= |lines| == |ids|
    ensures exists rest :: Woven(lines, ids, k) == Woven(lines, ids, i) + (AnchorLines(ids[i]) + [lines[i]]) + rest
                           && forall l :: l in rest ==> FromLater(lines, ids, i, l)
  {
    hide AnchorLines, FromLater;
    if k == i + 1 {
      assert Woven(lines, ids, k) == Woven(lines, ids, i) + (AnchorLines(ids[i]) + [lines[i]]) + [];
    } else {
      WovenSplits(lines, ids, i, k - 1);
      var rest :| Woven(lines, ids, k - 1) == Woven(lines, ids, i) + (AnchorLines(ids[i]) + [lines[i]]) + rest
                  && forall l :: l in rest ==> FromLater(lines, ids, i, l);
      var more := AnchorLines(ids[k - 1]) + [lines[k - 1]];
      LaterLines(lines, ids, i, k - 1);
      assert Woven(lines, ids, k) == Woven(lines, ids, i) + (AnchorLines(ids[i]) + [lines[i]]) + (rest + more);
    }
  }

  predicate FromLater(lines: seq<string>, ids: seq<seq<string>>, i: nat, l: string)
    requires |ids| == |lines|
  {
    l in lines || exists m, n :: i < m < |ids| && 0 <= n < |ids[m]| && l == AnchorLine(ids[m][n])
  }

  lemma LaterLines(lines: seq<string>, ids: seq<seq<string>>, i: nat, m: nat)
    requires i < m < |lines| == |ids|
    ensures forall l :: l in AnchorLines(ids[m]) + [lines[m]] ==> FromLater(lines, ids, i, l)
  {
    hide AnchorLine;
    forall l | l in AnchorLines(ids[m])
      ensures FromLater(lines, ids, i, l)
    {
      var n :| 0 <= n < |ids[m]| && AnchorLines(ids[m])[n] == l;
    }
  }

  lemma LaterDefinesOthers(lines: seq<string>, ids: seq<seq<string>>, i: nat, j: nat, l: string)
    requires ProperIds(lines, ids) && i < |ids| && j < |ids[i]| && FromLater(lines, ids, i, l)
    ensures Explicit(l) != Some(ids[i][j])
  {
    hide Explicit, AnchorLine, IsId;
    if l in lines {
      var k :| 0 <= k < |lines| && lines[k] == l;
    } else {
      var m, n :| i < m < |ids| && 0 <= n < |ids[m]| && l == AnchorLine(ids[m][n]);
      AnchorLineReads(ids[m][n]);
    }
  }

  /** Each anchor put in front of a target line reads as the text of that line. */
  lemma AnchorsReadBack(lines: seq<string>, ids: seq<seq<string>>, slug: string -> string, i: nat, j: nat)
    requires ProperIds(lines, ids) && i < |ids| && j < |ids[i]| && IsTarget(lines[i])
    ensures var anchors := Anchors(Woven(lines, ids, |lines|), slug);
            ids[i][j] in anchors && anchors[ids[i][j]] == TextOf(lines[i])
  {
    hide Explicit, Heading, IsTarget, TextOf, AnchorLine, FromLater, Woven, ReadAll;
    WovenSplits(lines, ids, i, |lines|);
    var block := AnchorLines(ids[i]) + [lines[i]];
    var rest :| Woven(lines, ids, |lines|) == Woven(lines, ids, i) + block + rest
                && forall l :: l in rest ==> FromLater(lines, ids, i, l);
    var start := Reader(map[], []);
    var before := ReadAll(start, Woven(lines, ids, i), slug);
    ReadAllAppend(start, Woven(lines, ids, i) + block, rest, slug);
    ReadAllAppend(start, Woven(lines, ids, i), block, slug);
    forall n | 0 <= n < |ids[i]|
      ensures Explicit(AnchorLines(ids[i])[n]) == Some(ids[i][n])
    {
      AnchorLineReads(ids[i][n]);
    }
    BlockReads(before, ids[i], AnchorLines(ids[i]), lines[i], slug);
    forall k | 0 <= k < |rest|
      ensures Explicit(rest[k]) != Some(ids[i][j])
    {
      assert rest[k] in rest;
      LaterDefinesOthers(lines, ids, i, j, rest[k]);
    }
    KeepsText(ReadAll(before, block, slug), rest, slug, ids[i][j]);
  }

  // ------------------------------------------------------------ files

  predicate AllOneLine(lines: seq<string>) { forall i :: 0 <= i < |lines| ==> OneLine(lines[i]) }

  lemma {:induction false} CleanedOneLine(lines: seq<string>, isAnchor: string -> bool)
    requires AllOneLine(lines)
    ensures AllOneLine(Cleaned(lines, isAnchor))
    decreases |lines|
  {
    hide Strip, OneLine;
    if lines != [] {
      CleanedOneLine(lines[..|lines| - 1], isAnchor);
    }
  }

  lemma {:induction false} WovenOneLine(lines: seq<string>, ids: seq<seq<string>>, k: nat)
    requires k <= |lines| == |ids| && AllOneLine(lines)
    requires forall i, j :: 0 <= i < |ids| && 0 <= j < |ids[i]| ==> IsId(ids[i][j])
    ensures AllOneLine(Woven(lines, ids, k))
  {
    hide OneLine;
    if k > 0 {
      WovenOneLine(lines, ids, k - 1);
      var row := ids[k - 1];
      forall j | 0 <= j < |row|
        ensures OneLine(AnchorLine(row[j]))
      {
        AnchorLineIsOneLine(row[j]);
      }
    }
  }

  lemma AnchorLineIsOneLine(id: string)
    requires IsId(id)
    ensures OneLine(AnchorLine(id))
    ensures Strip(AnchorLine(id)) == AnchorLine(id)
  {
    StripKeeps(AnchorLine(id));
  }

  /** What an injector writes, given where the anchors go; `place` is None where it
      raises. */
  function Injected(text: string, isAnchor: string -> bool,
                    place: seq<string> -> Option<seq<seq<string>>>): Option<string> {
    var lines := Cleaned(SplitLines(text), isAnchor);
    var ids := place(lines);
    if ids.None? || |ids.value| != |lines| then None
    else Some(JoinLines(Woven(lines, ids.value, |lines|)))
  }

  predicate Places(text: string, isAnchor: string -> bool, place: seq<string> -> Option<seq<seq<string>>>) {
    var lines := Cleaned(SplitLines(text), isAnchor);
    var ids := place(lines);
    && ids.Some? && |ids.value| == |lines|
    && forall i, j :: 0 <= i < |lines| && 0 <= j < |ids.value[i]| ==> IsId(ids.value[i][j])
  }

  /** The lines of the injected file, cleaned: those of the original, cleaned,
      exactly when every anchor matches the pattern and there was a line at all. */
  lemma CleanedFileIff(text: string, isAnchor: string -> bool, place: seq<string> -> Option<seq<seq<string>>>)
    requires Places(text, isAnchor, place) && !isAnchor("")
    ensures Injected(text, isAnchor, place).Some?
    ensures var lines := Cleaned(SplitLines(text), isAnchor);
            var ids := place(lines).value;
            Cleaned(SplitLines(Injected(text, isAnchor, place).value), isAnchor) == lines
            <==> lines != [] && forall i :: 0 <= i < |ids| ==> AllMatch(ids[i], isAnchor)
  {
    hide AllMatch, IsId, Strip, Woven, Cleaned, SplitLines, JoinLines, OneLine, AllOneLine, NoneIs;
    var lines := Cleaned(SplitLines(text), isAnchor);
    var ids := place(lines).value;
    SplitIsOneLine(text);
    CleanedHasNone(SplitLines(text), isAnchor);
    CleanedOneLine(SplitLines(text), isAnchor);
    WovenOneLine(lines, ids, |lines|);
    WrittenIsRead(Woven(lines, ids, |lines|));
    CleaningUndoesWeavingIff(lines, ids, isAnchor);
    WovenEmptyIff(lines, ids);
    CleanedOne("", isAnchor);
    EmptyStripped();
  }

  lemma SplitIsOneLine(text: string)
    ensures AllOneLine(SplitLines(text))
  {
  }

  lemma WrittenIsRead(lines: seq<string>)
    requires AllOneLine(lines)
    ensures SplitLines(JoinLines(lines)) == if lines == [] then [""] else lines
  {
    SplitInvertsJoin(lines);
  }

  lemma EmptyStripped()
    ensures Strip("") == ""
  {
  }

  lemma WovenEmptyIff(lines: seq<string>, ids: seq<seq<string>>)
    requires |ids| == |lines|
    ensures Woven(lines, ids, |lines|) == [] <==> lines == []
  {
  }

  /** Injecting twice is injecting once, when every anchor matches the pattern; a
      file without lines becomes one empty line, and stays that. */
  lemma InjectionIsIdempotent(text: string, isAnchor: string -> bool, place: seq<string> -> Option<seq<seq<string>>>)
    requires Places(text, isAnchor, place) && !isAnchor("")
    requires Cleaned(SplitLines(text), isAnchor) == [] ==> place([""]) == Some([[]])
    requires var lines := Cleaned(SplitLines(text), isAnchor);
             forall i :: 0 <= i < |place(lines).value| ==> AllMatch(place(lines).value[i], isAnchor)
    ensures Injected(text, isAnchor, place).Some?
    ensures Injected(Injected(text, isAnchor, place).value, isAnchor, place) == Injected(text, isAnchor, place)
  {
    hide AllMatch, IsId, Strip, SplitLines;
    CleanedFileIff(text, isAnchor, place);
    var lines := Cleaned(SplitLines(text), isAnchor);
    if lines == [] {
      assert Injected(text, isAnchor, place) == Some("\n");
      SplitInvertsJoin([]);
      CleanedOne("", isAnchor);
      EmptyStripped();
      assert AnchorLines([]) == [];
      assert Woven([""], [[]], 1) == Woven([""], [[]], 0) + AnchorLines([]) + [""] == [""];
      assert JoinLines([""]) == "\n";
    }
  }
}
