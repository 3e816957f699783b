/** Reading anchors from Markdown (`markdown_anchors`). */
module AnchorReader {
  import opened Nums
  import opened Strings

  // ------------------------------------------------------------ one line

  predicate IsIdStart(c: char) { IsLower(c) || IsDigit(c) }

  predicate IsIdChar(c: char) { IsIdStart(c) || c == '.' || c == '_' || c == '-' }

  predicate IsId(s: string) {
    s != "" && IsIdStart(s[0]) && forall i :: 0 <= i < |s| ==> IsIdChar(s[i])
  }

  /** How many white-space characters `s` starts with. */
  function Spaces(s: string): (k: nat)
    ensures k <= |s|
  {
    if s != "" && IsSpace(s[0]) then 1 + Spaces(s[1..]) else 0
  }

  function IdChars(s: string): (k: nat)
    ensures k <= |s|
    ensures forall i :: 0 <= i < k ==> IsIdChar(s[i])
  {
    if s != "" && IsIdChar(s[0]) then 1 + IdChars(s[1..]) else 0
  }

  /** The id of an explicit anchor that starts here:
      `<a\s+id="([a-z0-9][a-z0-9._-]*)"></a>`. */
  function AnchorHere(s: string): Option<string> {
    if !StartsWith(s, "<a") then None
    else
      var k := Spaces(s[2..]);
      var t := s[2 + k..];
      if k == 0 || !StartsWith(t, "id=\"") then None
      else
        var n := IdChars(t[4..]);
        if n == 0 || !IsIdStart(t[4]) || !StartsWith(t[4 + n..], "\"></a>") then None
        else Some(t[4..4 + n])
  }

  /** The first explicit anchor anywhere in the line. */
  function Explicit(line: string): Option<string> {
    if AnchorHere(line).Some? then AnchorHere(line)
    else if line == "" then None
    else Explicit(line[1..])
  }

  function Hashes(s: string): (k: nat)
    ensures k <= |s|
  {
    if s != "" && s[0] == '#' then 1 + Hashes(s[1..]) else 0
  }

  /** The title of a heading line: `^#{1,6}\s+(.+?)\s*$`, stripped. */
  function Heading(line: string): Option<string> {
    var k := Hashes(line);
    if k < 1 || k > 6 then None
    else
      var rest := line[k..];
      var n := Spaces(rest);
      if n == 0 || (n == |rest| && n < 2) then None else Some(Strip(rest))
  }

  function Digits(s: string): (k: nat)
    ensures k <= |s|
  {
    if s != "" && IsDigit(s[0]) then 1 + Digits(s[1..]) else 0
  }

  /** A line without its list marker: `^(\*|-|\d+\.)\s+` removed. */
  function Unmarked(s: string): string {
    var n := Digits(s);
    var k := if s != "" && (s[0] == '*' || s[0] == '-') then 1
             else if n > 0 && n < |s| && s[n] == '.' then n + 1
             else 0;
    if k > 0 && Spaces(s[k..]) > 0 then s[k + Spaces(s[k..])..] else s
  }

  function Plain(s: string): string {
    if s == "" then "" else (if s[0] in {'`', '*', '_'} then "" else [s[0]]) + Plain(s[1..])
  }

  /** The human text of a line an anchor points at. */
  function TextOf(line: string): string {
    if Heading(line).Some? then Heading(line).value else Plain(Unmarked(Strip(line)))
  }

  /** A line that anchors before it point at. */
  predicate IsTarget(line: string) {
    && Explicit(line).None?
    && (Heading(line).Some? || (Strip(line) != "" && !StartsWith(Strip(line), "<!--")))
  }

  // ------------------------------------------------------------ what the patterns match

  predicate AllSpaces(s: string) { forall i :: 0 <= i < |s| ==> IsSpace(s[i]) }

  lemma {:induction false} SpacesOf(s: string, rest: string)
    requires AllSpaces(s) && (rest == "" || !IsSpace(rest[0]))
    ensures Spaces(s + rest) == |s|
  {
    if s == "" {
      assert s + rest == rest;
    } else {
      SpacesOf(s[1..], rest);
      assert (s + rest)[1..] == s[1..] + rest;
    }
  }

  lemma {:induction false} SpacesAre(s: string)
    ensures AllSpaces(s[..Spaces(s)]) && (Spaces(s) < |s| ==> !IsSpace(s[Spaces(s)]))
  {
    if s != "" && IsSpace(s[0]) {
      SpacesAre(s[1..]);
      assert s[..Spaces(s)] == [s[0]] + s[1..][..Spaces(s[1..])];
    }
  }

  /** The form of an explicit anchor. */
  ghost predicate IsAnchor(s: string, id: string, gap: string, rest: string) {
    IsId(id) && gap != "" && AllSpaces(gap) && s == "<a" + (gap + Attribute(id, rest))
  }

  function Attribute(id: string, rest: string): string { "id=\"" + (id + ("\"></a>" + rest)) }

  lemma GapReads(gap: string, t: string)
    requires AllSpaces(gap) && t != "" && !IsSpace(t[0])
    ensures var s := "<a" + (gap + t); StartsWith(s, "<a") && Spaces(s[2..]) == |gap| && s[2 + |gap|..] == t
  {
    SpacesOf(gap, t);
    assert ("<a" + (gap + t))[2..] == gap + t;
  }

  lemma AttributeReads(id: string, rest: string)
    requires IsId(id)
    ensures var t := Attribute(id, rest);
            && |t| >= 4 && !IsSpace(t[0]) && StartsWith(t, "id=\"") && IdChars(t[4..]) == |id| && 4 + |id| <= |t|
            && t[4..4 + |id|] == id && StartsWith(t[4 + |id|..], "\"></a>")
  {
    IdCharsOf(id, "\"></a>" + rest);
    hide IdChars;
    var t := Attribute(id, rest);
    assert t[4..] == id + ("\"></a>" + rest);
    assert t[4 + |id|..] == "\"></a>" + rest;
  }

  lemma AnchorMatches(s: string, id: string, gap: string, rest: string)
    requires IsAnchor(s, id, gap, rest)
    ensures AnchorHere(s) == Some(id)
  {
    AttributeReads(id, rest);
    GapReads(gap, Attribute(id, rest));
    hide Spaces, IdChars, Attribute, StartsWith, IsSpace;
  }

  lemma AttributeHasForm(t: string) returns (id: string, rest: string)
    requires StartsWith(t, "id=\"") && IdChars(t[4..]) > 0 && IsIdStart(t[4])
    requires StartsWith(t[4 + IdChars(t[4..])..], "\"></a>")
    ensures id == t[4..4 + IdChars(t[4..])] && IsId(id) && t == Attribute(id, rest)
  {
    var n := IdChars(t[4..]);
    hide IdChars;
    id := t[4..4 + n];
    var tail := t[4 + n..];
    rest := tail[6..];
    assert forall i :: 0 <= i < n ==> id[i] == t[4..][i];
    assert tail == "\"></a>" + rest;
    assert t[4..] == id + tail;
    assert t == "id=\"" + t[4..];
  }

  lemma AnchorParts(s: string)
    requires AnchorHere(s).Some?
    ensures |s| >= 2 && StartsWith(s, "<a") && Spaces(s[2..]) > 0
    ensures var t := s[2 + Spaces(s[2..])..];
            && StartsWith(t, "id=\"") && IdChars(t[4..]) > 0 && IsIdStart(t[4])
            && StartsWith(t[4 + IdChars(t[4..])..], "\"></a>") && AnchorHere(s) == Some(t[4..4 + IdChars(t[4..])])
  {
    hide Spaces, IdChars, IsIdStart;
  }

  lemma AnchorHasForm(s: string) returns (gap: string, rest: string)
    requires AnchorHere(s).Some?
    ensures IsAnchor(s, AnchorHere(s).value, gap, rest)
  {
    hide AnchorHere, StartsWith, Spaces, IdChars, IsIdStart, IsId, Attribute, AllSpaces;
    AnchorParts(s);
    var k := Spaces(s[2..]);
    gap := s[2..][..k];
    SpacesAre(s[2..]);
    var id;
    id, rest := AttributeHasForm(s[2 + k..]);
    Refitted(s, k);
  }

  lemma Refitted(s: string, k: nat)
    requires StartsWith(s, "<a") && 2 + k <= |s|
    ensures s == "<a" + (s[2..][..k] + s[2 + k..])
  {
    assert s[2..] == s[2..][..k] + s[2 + k..] && s == "<a" + s[2..];
  }

  /** Where an anchor is found, the text has its form, and the other way round. */
  lemma AnchorIff(s: string, id: string)
    ensures AnchorHere(s) == Some(id) <==> exists gap, rest :: IsAnchor(s, id, gap, rest)
  {
    if AnchorHere(s) == Some(id) {
      var gap, rest := AnchorHasForm(s);
    }
    if gap, rest :| IsAnchor(s, id, gap, rest) {
      AnchorMatches(s, id, gap, rest);
    }
  }

  /** The anchor of a line is the first there is. */
  lemma {:induction false} ExplicitIsFirst(line: string)
    ensures Explicit(line).None? <==> forall i :: 0 <= i <= |line| ==> AnchorHere(line[i..]).None?
    ensures Explicit(line).Some? ==>
              exists i :: 0 <= i <= |line| && AnchorHere(line[i..]) == Explicit(line)
                          && forall j :: 0 <= j < i ==> AnchorHere(line[j..]).None?
  {
    hide AnchorHere;
    assert line[0..] == line;
    if AnchorHere(line).None? && line != "" {
      var rest := line[1..];
      ExplicitIsFirst(rest);
      assert forall i :: 0 <= i <= |rest| ==> rest[i..] == line[i + 1..];
      if Explicit(rest).Some? {
        var i :| 0 <= i <= |rest| && AnchorHere(rest[i..]) == Explicit(rest)
                 && forall j :: 0 <= j < i ==> AnchorHere(rest[j..]).None?;
        forall j | 0 <= j < i + 1
          ensures AnchorHere(line[j..]).None?
        {
          if j > 0 {
            assert rest[j - 1..] == line[j..];
          }
        }
        assert AnchorHere(line[i + 1..]) == Explicit(line);
      }
      forall i | 0 < i <= |line|
        ensures AnchorHere(line[i..]) == AnchorHere(rest[i - 1..])
      {
      }
    }
  }

  lemma {:induction false} HashesAre(s: string, k: nat)
    requires k < |s| && s[k] != '#'
    ensures Hashes(s) == k <==> forall i :: 0 <= i < k ==> s[i] == '#'
  {
    if k > 0 {
      HashesAre(s[1..], k - 1);
      assert forall i :: 0 <= i < k - 1 ==> s[1..][i] == s[i + 1];
    }
  }

  lemma {:induction false} HashesEnd(s: string)
    ensures forall i :: 0 <= i < Hashes(s) ==> s[i] == '#'
    ensures Hashes(s) < |s| ==> s[Hashes(s)] != '#'
  {
    if s != "" && s[0] == '#' {
      HashesEnd(s[1..]);
    }
  }

  /** A heading is one to six number signs, white space and at least one more character;
      its title is what comes after the signs, stripped. */
  lemma HeadingIff(line: string, title: string)
    ensures Heading(line) == Some(title)
       <==> exists k :: 1 <= k <= 6 && k + 1 < |line| && (forall i :: 0 <= i < k ==> line[i] == '#')
                        && IsSpace(line[k]) && title == Strip(line[k..])
  {
    hide Strip;
    if Heading(line) == Some(title) {
      HashesEnd(line);
      var k := Hashes(line);
      assert line[k..][0] == line[k];
    }
    if k :| 1 <= k <= 6 && k + 1 < |line| && (forall i :: 0 <= i < k ==> line[i] == '#')
            && IsSpace(line[k]) && title == Strip(line[k..]) {
      HashesAre(line, k);
      assert line[k..][0] == line[k];
    }
  }

  // ------------------------------------------------------------ the whole file

  datatype Reader = Reader(anchors: map<string, string>, pending: seq<string>)

  function Assigned(anchors: map<string, string>, pending: seq<string>, text: string): map<string, string> {
    map a | a in anchors.Keys + (set p | p in pending) :: if a in pending then text else anchors[a]
  }

  /** One round of the loop; `slug` stands for `github_slug`. */
  function Read(r: Reader, line: string, slug: string -> string): Reader {
    if Explicit(line).Some? then r.(pending := r.pending + [Explicit(line).value])
    else if Heading(line).Some? then
      var title := Heading(line).value;
      var anchors := if slug(title) in r.anchors then r.anchors else r.anchors[slug(title) := title];
      Reader(Assigned(anchors, r.pending, title), [])
    else if IsTarget(line) then Reader(Assigned(r.anchors, r.pending, TextOf(line)), [])
    else r
  }

  function ReadAll(r: Reader, lines: seq<string>, slug: string -> string): Reader
    decreases |lines|
  {
    if lines == [] then r else ReadAll(Read(r, lines[0], slug), lines[1..], slug)
  }

  function Anchors(lines: seq<string>, slug: string -> string): map<string, string> {
    var r := ReadAll(Reader(map[], []), lines, slug);
    Named(r.anchors, r.pending)
  }

  /** Anchors with no line after them are their own text. */
  function Named(anchors: map<string, string>, pending: seq<string>): map<string, string> {
    map a | a in anchors.Keys + (set p | p in pending) :: if a in pending then a else anchors[a]
  }

  /** `markdown_anchors`. */
  method MarkdownAnchors(lines: seq<string>, slug: string -> string) returns (anchors: map<string, string>)
    ensures anchors == Anchors(lines, slug)
  {
    anchors := map[];
    var pending: seq<string> := [];
    assert lines[0..] == lines;
    hide Explicit, Heading, Plain, Unmarked, Strip, ReadAll, Assigned, Named;
    for index := 0 to |lines|
      invariant ReadAll(Reader(anchors, pending), lines[index..], slug) == ReadAll(Reader(map[], []), lines, slug)
    {
      var line := lines[index];
      ghost var before := Reader(anchors, pending);
      ReadNext(before, lines, index, slug);
      if Explicit(line).Some? {
        pending := pending + [Explicit(line).value];
      } else if Heading(line).Some? {
        var title := Heading(line).value;
        if slug(title) !in anchors {
          anchors := anchors[slug(title) := title];
        }
        anchors := AssignAll(anchors, pending, title);
        pending := [];
      } else if pending != [] && Strip(line) != "" && !StartsWith(Strip(line), "<!--") {
        anchors := AssignAll(anchors, pending, Plain(Unmarked(Strip(line))));
        pending := [];
      } else {
        NothingPending(anchors, pending, line);
      }
      assert Reader(anchors, pending) == Read(before, line, slug);
    }
    NothingLeft(Reader(anchors, pending), lines, slug);
    anchors := NamePending(anchors, pending);
  }

  lemma ReadNext(r: Reader, lines: seq<string>, index: nat, slug: string -> string)
    requires index < |lines|
    ensures ReadAll(r, lines[index..], slug) == ReadAll(Read(r, lines[index], slug), lines[index + 1..], slug)
  {
    hide Read;
    assert lines[index..][1..] == lines[index + 1..];
  }

  lemma NothingLeft(r: Reader, lines: seq<string>, slug: string -> string)
    ensures ReadAll(r, lines[|lines|..], slug) == r
  {
  }

  /** The loop after the last line. */
  method NamePending(anchors0: map<string, string>, pending: seq<string>) returns (anchors: map<string, string>)
    ensures anchors == Named(anchors0, pending)
  {
    anchors := anchors0;
    NothingNamed(anchors0);
    hide Named;
    for k := 0 to |pending|
      invariant anchors == Named(anchors0, pending[..k])
    {
      assert pending[..k + 1] == pending[..k] + [pending[k]];
      OneMoreNamed(anchors0, pending[..k], pending[k]);
      anchors := anchors[pending[k] := pending[k]];
    }
    assert pending[..|pending|] == pending;
  }

  lemma NothingNamed(anchors: map<string, string>)
    ensures Named(anchors, []) == anchors
  {
  }

  lemma OneMoreNamed(anchors: map<string, string>, pending: seq<string>, p: string)
    ensures Named(anchors, pending + [p]) == Named(anchors, pending)[p := p]
  {
  }

  lemma NothingPending(anchors: map<string, string>, pending: seq<string>, line: string)
    requires Explicit(line).None? && Heading(line).None?
    requires pending == [] || !IsTarget(line)
    ensures IsTarget(line) ==> Assigned(anchors, pending, TextOf(line)) == anchors && pending == []
  {
    hide TextOf;
  }

  /** The inner loops, which give every pending anchor the text. */
  method AssignAll(anchors0: map<string, string>, pending: seq<string>, text: string)
    returns (anchors: map<string, string>)
    ensures anchors == Assigned(anchors0, pending, text)
  {
    anchors := anchors0;
    NothingAssigned(anchors0, text);
    hide Assigned;
    for k := 0 to |pending|
      invariant anchors == Assigned(anchors0, pending[..k], text)
    {
      assert pending[..k + 1] == pending[..k] + [pending[k]];
      OneMoreAssigned(anchors0, pending[..k], pending[k], text);
      anchors := anchors[pending[k] := text];
    }
    assert pending[..|pending|] == pending;
  }

  lemma NothingAssigned(anchors: map<string, string>, text: string)
    ensures Assigned(anchors, [], text) == anchors
  {
  }

  lemma OneMoreAssigned(anchors: map<string, string>, pending: seq<string>, p: string, text: string)
    ensures Assigned(anchors, pending + [p], text) == Assigned(anchors, pending, text)[p := text]
  {
  }

  // ------------------------------------------------------------ what stays read

  lemma {:induction false} ReadAllAppend(r: Reader, a: seq<string>, b: seq<string>, slug: string -> string)
    ensures ReadAll(r, a + b, slug) == ReadAll(ReadAll(r, a, slug), b, slug)
    decreases |a|
  {
    hide Read;
    if a == [] {
      assert a + b == b;
    } else {
      ReadAllAppend(Read(r, a[0], slug), a[1..], b, slug);
      assert (a + b)[1..] == a[1..] + b;
    }
  }

  /** An anchor that was given its text keeps it, if no later line defines it again. */
  lemma {:induction false} KeepsText(r: Reader, lines: seq<string>, slug: string -> string, a: string)
    requires a in r.anchors && a !in r.pending
    requires forall i :: 0 <= i < |lines| ==> Explicit(lines[i]) != Some(a)
    ensures var after := ReadAll(r, lines, slug);
            a in after.anchors && a !in after.pending && after.anchors[a] == r.anchors[a]
    decreases |lines|
  {
    hide Explicit, Heading, IsTarget, TextOf;
    if lines != [] {
      KeepsText(Read(r, lines[0], slug), lines[1..], slug, a);
    }
  }

  /** A block of anchor lines and the line after it: each of its ids reads as the
      text of that line. */
  lemma {:induction false} BlockReads(r: Reader, ids: seq<string>, lines: seq<string>, target: string,
                                      slug: string -> string)
    requires |lines| == |ids| && forall i :: 0 <= i < |ids| ==> Explicit(lines[i]) == Some(ids[i])
    requires IsTarget(target)
    ensures var after := ReadAll(r, lines + [target], slug);
            after.pending == [] && forall i :: 0 <= i < |ids| ==>
              ids[i] in after.anchors && after.anchors[ids[i]] == TextOf(target)
  {
    PendingGrows(r, ids, lines, slug);
    ReadAllAppend(r, lines, [target], slug);
    var mid := ReadAll(r, lines, slug);
    hide Explicit, Heading, IsTarget;
    TargetAssigns(mid, target, slug);
    assert forall i :: 0 <= i < |ids| ==> mid.pending[|r.pending| + i] == ids[i];
  }

  lemma {:induction false} PendingGrows(r: Reader, ids: seq<string>, lines: seq<string>, slug: string -> string)
    requires |lines| == |ids| && forall i :: 0 <= i < |ids| ==> Explicit(lines[i]) == Some(ids[i])
    ensures ReadAll(r, lines, slug) == Reader(r.anchors, r.pending + ids)
    decreases |lines|
  {
    hide Explicit, Heading, IsTarget;
    if ids != [] {
      PendingGrows(Read(r, lines[0], slug), ids[1..], lines[1..], slug);
      assert r.pending + [ids[0]] + ids[1..] == r.pending + ids;
    }
  }

  lemma TargetAssigns(r: Reader, target: string, slug: string -> string)
    requires IsTarget(target)
    ensures var after := ReadAll(r, [target], slug);
            after.pending == [] && forall a :: a in r.pending ==>
                a in after.anchors && after.anchors[a] == TextOf(target)
  {
    assert [target][1..] == [];
    hide Explicit, Heading, Plain, Unmarked, Strip;
  }

  // ------------------------------------------------------------ what every anchor reads as

  /** The last line that defines the anchor. */
  function LastDefinition(lines: seq<string>, a: string): (i: Option<nat>)
    ensures i.Some? ==> i.value < |lines|
  {
    var n := |lines| - 1;
    if lines == [] then None else if Explicit(lines[n]) == Some(a) then Some(n) else LastDefinition(lines[..n], a)
  }

  /** The first line after line `i` that anchors point at. */
  function TargetAfter(lines: seq<string>, i: nat): (j: Option<nat>)
    ensures j.Some? ==> i < j.value < |lines|
  {
    var n := |lines| - 1;
    if n <= i then None
    else if TargetAfter(lines[..n], i).Some? then TargetAfter(lines[..n], i)
    else if IsTarget(lines[n]) then Some(n) else None
  }

  /** The first heading with this slug. */
  function FirstHeading(lines: seq<string>, a: string, slug: string -> string): (i: Option<nat>)
    ensures i.Some? ==> i.value < |lines| && Heading(lines[i.value]).Some?
  {
    var n := |lines| - 1;
    if lines == [] then None
    else if FirstHeading(lines[..n], a, slug).Some? then FirstHeading(lines[..n], a, slug)
    else if Explicit(lines[n]).None? && Heading(lines[n]).Some? && slug(Heading(lines[n]).value) == a then Some(n)
    else None
  }

  /** What the reader holds of an anchor after these lines. */
  ghost predicate HoldsOf(r: Reader, lines: seq<string>, slug: string -> string, a: string) {
    var i, first := LastDefinition(lines, a), FirstHeading(lines, a, slug);
    if i.None? then
      && a !in r.pending
      && (a in r.anchors <==> first.Some?)
      && (first.Some? ==> Some(r.anchors[a]) == Heading(lines[first.value]))
    else
      var j := TargetAfter(lines, i.value);
      && (a in r.pending <==> j.None?)
      && (j.Some? ==> a in r.anchors && r.anchors[a] == TextOf(lines[j.value]))
  }

  lemma HoldsNext(r: Reader, front: seq<string>, line: string, slug: string -> string, a: string)
    requires HoldsOf(r, front, slug, a)
    ensures HoldsOf(Read(r, line, slug), front + [line], slug, a)
  {
    var lines := front + [line];
    assert lines[..|front|] == front && lines[|front|] == line;
    var i := LastDefinition(front, a);
    if i.Some? {
      assert TargetAfter(lines, i.value)
          == if TargetAfter(front, i.value).Some? then TargetAfter(front, i.value)
             else if IsTarget(line) then Some(|front|) else None;
    }
    hide Explicit, Heading, Plain, Unmarked, Strip;
  }

  lemma {:induction false} ReaderHolds(lines: seq<string>, slug: string -> string, a: string)
    ensures HoldsOf(ReadAll(Reader(map[], []), lines, slug), lines, slug, a)
  {
    if lines != [] {
      var n := |lines| - 1;
      var front := lines[..n];
      ReaderHolds(front, slug, a);
      ReadAllAppend(Reader(map[], []), front, [lines[n]], slug);
      assert lines == front + [lines[n]] && [lines[n]][1..] == [];
      var r := ReadAll(Reader(map[], []), front, slug);
      assert ReadAll(r, [lines[n]], slug) == Read(r, lines[n], slug) by {
        hide Read;
        assert ReadAll(Read(r, lines[n], slug), [], slug) == Read(r, lines[n], slug);
      }
      HoldsNext(r, front, lines[n], slug, a);
      hide *;
    }
  }

  /** The main result: an anchor that is defined reads as the first line after its last
      definition that anchors point at, or as itself if there is none; any other is one
      exactly if it is the slug of a heading, and reads as the title of the first. */
  lemma AnchorsAre(lines: seq<string>, slug: string -> string, a: string)
    ensures var i, first := LastDefinition(lines, a), FirstHeading(lines, a, slug);
            var anchors := Anchors(lines, slug);
            if i.Some? then
              var j := TargetAfter(lines, i.value);
              a in anchors && anchors[a] == if j.Some? then TextOf(lines[j.value]) else a
            else
              && (a in anchors <==> first.Some?)
              && (first.Some? ==> Some(anchors[a]) == Heading(lines[first.value]))
  {
    ReaderHolds(lines, slug, a);
    hide ReadAll, LastDefinition, TargetAfter, FirstHeading, Heading, TextOf;
  }

  /** The plain text has the characters of the line in order, but for the marks. */
  lemma {:induction false} PlainAppend(a: string, b: string)
    ensures Plain(a + b) == Plain(a) + Plain(b)
  {
    if a == "" {
      assert a + b == b;
    } else {
      PlainAppend(a[1..], b);
      assert (a + b)[1..] == a[1..] + b && (a + b)[0] == a[0];
      PlainFirst(a);
      PlainFirst(a + b);
      hide *;
      var first := if a[0] in {'`', '*', '_'} then "" else [a[0]];
      Joined(first, Plain(a[1..]), Plain(b));
    }
  }

  lemma PlainFirst(s: string)
    requires s != ""
    ensures Plain(s) == (if s[0] in {'`', '*', '_'} then "" else [s[0]]) + Plain(s[1..])
  {
  }

  lemma Joined(a: string, b: string, c: string)
    ensures a + b + c == a + (b + c)
  {
  }

  lemma PlainOne(c: char)
    ensures Plain([c]) == if c == '`' || c == '*' || c == '_' then "" else [c]
  {
    assert [c][1..] == "";
  }

  /** A list marker is a star, a dash, or digits with a full stop. */
  predicate IsMarker(m: string) {
    m == "*" || m == "-"
    || (|m| > 1 && m[|m| - 1] == '.' && forall i :: 0 <= i < |m| - 1 ==> IsDigit(m[i]))
  }

  lemma {:induction false} DigitsFound(s: string, rest: string)
    requires (forall i :: 0 <= i < |s| ==> IsDigit(s[i])) && (rest == "" || !IsDigit(rest[0]))
    ensures Digits(s + rest) == |s|
  {
    if s == "" {
      assert s + rest == rest;
    } else {
      DigitsFound(s[1..], rest);
      assert (s + rest)[1..] == s[1..] + rest;
    }
  }

  /** How far the marker of a line reaches. */
  lemma MarkerReaches(m: string, rest: string)
    requires IsMarker(m)
    ensures var s := m + rest;
            && s != "" && s[|m|..] == rest
            && (if s[0] == '*' || s[0] == '-' then |m| == 1
                else Digits(s) == |m| - 1 > 0 && |m| <= |s| && s[|m| - 1] == '.')
  {
    var s := m + rest;
    assert s[0] == m[0] && s[|m| - 1] == m[|m| - 1];
    if m != "*" && m != "-" {
      var digits := m[..|m| - 1];
      assert s == digits + s[|m| - 1..] && IsDigit(s[0]);
      DigitsFound(digits, s[|m| - 1..]);
    }
  }

  /** The marker goes with the white space after it. */
  lemma MarkerGoes(m: string, gap: string, rest: string)
    requires IsMarker(m) && gap != "" && AllSpaces(gap) && (rest == "" || !IsSpace(rest[0]))
    ensures Unmarked(m + (gap + rest)) == rest
  {
    MarkerReaches(m, gap + rest);
    SpacesOf(gap, rest);
    hide Spaces, Digits, IsMarker, AllSpaces;
    assert (m + (gap + rest))[|m| + |gap|..] == rest;
  }

  lemma {:induction false} DigitsAreDigits(s: string)
    ensures forall i :: 0 <= i < Digits(s) ==> IsDigit(s[i])
  {
    if s != "" && IsDigit(s[0]) {
      DigitsAreDigits(s[1..]);
    }
  }

  lemma MarkerFound(s: string) returns (k: nat)
    requires Unmarked(s) != s
    ensures 0 < k <= |s| && IsMarker(s[..k]) && Spaces(s[k..]) > 0 && Unmarked(s) == s[k + Spaces(s[k..])..]
  {
    DigitsAreDigits(s);
    var n := Digits(s);
    hide Spaces, Digits;
    k := if s[0] == '*' || s[0] == '-' then 1 else n + 1;
    var m := s[..k];
    assert m[|m| - 1] == s[k - 1] && forall i :: 0 <= i < k ==> m[i] == s[i];
    assert k == 1 ==> m == [s[0]];
  }

  lemma Rejoined(s: string, k: nat, w: nat)
    requires k + w <= |s|
    ensures s == s[..k] + (s[k..][..w] + s[k + w..])
  {
  }

  /** And nothing else goes. */
  lemma OnlyMarkersGo(s: string)
    ensures Unmarked(s) == s
            || exists m, gap :: IsMarker(m) && gap != "" && AllSpaces(gap) && s == m + (gap + Unmarked(s))
  {
    if Unmarked(s) != s {
      var k := MarkerFound(s);
      var w := Spaces(s[k..]);
      SpacesAre(s[k..]);
      Rejoined(s, k, w);
      hide *;
      assert |s[k..][..w]| == w;
    }
  }

  // ------------------------------------------------------------ the form of an anchor line

  const OPENING := "<a id=\""
  const CLOSING := "\"></a>"

  function AnchorLine(id: string): string { OPENING + id + CLOSING }

  lemma {:induction false} IdCharsOf(id: string, rest: string)
    requires (forall i :: 0 <= i < |id| ==> IsIdChar(id[i])) && (rest != "" ==> !IsIdChar(rest[0]))
    ensures IdChars(id + rest) == |id|
  {
    if id == "" {
      assert id + rest == rest;
    } else {
      IdCharsOf(id[1..], rest);
      assert (id + rest)[1..] == id[1..] + rest;
    }
  }

  /** An anchor line is read as its id. */
  lemma AnchorLineReads(id: string)
    requires IsId(id)
    ensures Explicit(AnchorLine(id)) == Some(id)
  {
    var line := AnchorLine(id);
    assert line[..2] == "<a";
    var s := line[2..];
    assert s[0] == ' ' && s[1] == 'i';
    assert Spaces(s) == 1 + Spaces(s[1..]) == 1;
    var t := line[3..];
    assert t == "id=\"" + id + CLOSING;
    assert t[..4] == "id=\"";
    assert t[4..] == id + CLOSING;
    IdCharsOf(id, CLOSING);
    assert t[4 + |id|..] == CLOSING;
    assert t[4..4 + |id|] == id;
  }
}
