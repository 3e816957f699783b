/** The workspace path guard (`_reject_rel_path`) and the normalisation it relies
    on: a path is let through exactly when walking it never leaves the workspace. */
module RelPath {
  import opened Nums
  import opened Strings

  // ------------------------------------------------------------ segments

  /** `path.split("/")`. */
  function Split(s: string): (parts: seq<string>)
    ensures parts != []
    ensures forall i :: 0 <= i < |parts| ==> '/' !in parts[i]
  {
    if s == "" then [""]
    else if s[0] == '/' then [""] + Split(s[1..])
    else
      var rest := Split(s[1..]);
      [[s[0]] + rest[0]] + rest[1..]
  }

  /** `"/".join(parts)`. */
  function Join(parts: seq<string>): string {
    if parts == [] then ""
    else if |parts| == 1 then parts[0]
    else parts[0] + "/" + Join(parts[1..])
  }

  lemma {:induction false} SplitPart(part: string, rest: string)
    requires '/' !in part
    ensures Split(part + "/" + rest) == [part] + Split(rest)
    ensures Split(part) == [part]
  {
    var s := part + "/" + rest;
    if part == "" {
      assert s[1..] == rest;
    } else {
      SplitPart(part[1..], rest);
      assert s[1..] == part[1..] + "/" + rest;
      assert part == [part[0]] + part[1..];
    }
  }

  lemma {:induction false} SplitInvertsJoin(parts: seq<string>)
    requires parts != [] && forall i :: 0 <= i < |parts| ==> '/' !in parts[i]
    ensures Split(Join(parts)) == parts
  {
    if |parts| == 1 {
      SplitPart(parts[0], "");
    } else {
      SplitInvertsJoin(parts[1..]);
      SplitPart(parts[0], Join(parts[1..]));
      assert parts == [parts[0]] + parts[1..];
    }
  }

  lemma {:induction false} JoinInvertsSplit(s: string)
    ensures Join(Split(s)) == s
  {
    if s != "" {
      JoinInvertsSplit(s[1..]);
      var rest := Split(s[1..]);
      if s[0] == '/' {
        assert ([""] + rest)[1..] == rest;
      } else {
        assert ([[s[0]] + rest[0]] + rest[1..])[1..] == rest[1..];
      }
      assert s == [s[0]] + s[1..];
    }
  }

  // ------------------------------------------------------------ walking

  predicate Stays(part: string) { part == "" || part == "." }

  /** Where a walk from the workspace root ends; None once a prefix of it has gone
      above the root. */
  function Place(parts: seq<string>): Option<seq<string>> {
    if parts == [] then Some([])
    else
      var before, part := Place(parts[..|parts| - 1]), parts[|parts| - 1];
      if before.None? then None
      else if Stays(part) then before
      else if part != ".." then Some(before.value + [part])
      else if before.value == [] then None
      else Some(before.value[..|before.value| - 1])
  }

  /** `posixpath.normpath` of a relative path, as its stack of components. */
  function Stack(parts: seq<string>): seq<string> {
    if parts == [] then []
    else Pushed(Stack(parts[..|parts| - 1]), parts[|parts| - 1])
  }

  function Pushed(stack: seq<string>, part: string): seq<string> {
    if Stays(part) then stack
    else if part != ".." || stack == [] || stack[|stack| - 1] == ".." then stack + [part]
    else stack[..|stack| - 1]
  }

  function NormPath(s: string): string {
    var path := Join(Stack(Split(s)));
    if path == "" then "." else path
  }

  method RunNormPath(path: string) returns (r: string)
    ensures r == NormPath(path)
  {
    if path == "" {
      return ".";
    }
    var comps := Split(path);
    var stack: seq<string> := [];
    assert comps[..0] == [];
    for i := 0 to |comps|
      invariant stack == Stack(comps[..i])
    {
      assert comps[..i + 1][..i] == comps[..i];
      var comp := comps[i];
      if comp != "" && comp != "." {
        if comp != ".." || stack == [] || stack[|stack| - 1] == ".." {
          stack := stack + [comp];
        } else {
          stack := stack[..|stack| - 1];
        }
      }
    }
    assert comps[..|comps|] == comps;
    r := Join(stack);
    if r == "" {
      r := ".";
    }
  }

  /** A proper name: what a stack holds besides "..". */
  predicate IsName(part: string) {
    !Stays(part) && part != ".." && '/' !in part
  }

  predicate AllNames(parts: seq<string>) {
    forall i :: 0 <= i < |parts| ==> IsName(parts[i])
  }

  predicate NoSlashes(parts: seq<string>) {
    forall i :: 0 <= i < |parts| ==> '/' !in parts[i]
  }

  /** The stack is the place reached, or starts with ".." if the walk escaped. */
  lemma {:induction false} StackIsPlace(parts: seq<string>)
    requires NoSlashes(parts)
    ensures Place(parts).Some? ==> Stack(parts) == Place(parts).value && AllNames(Stack(parts))
    ensures Place(parts).None? ==> Stack(parts) != [] && Stack(parts)[0] == ".."
    ensures NoSlashes(Stack(parts)) && forall i :: 0 <= i < |Stack(parts)| ==> Stack(parts)[i] != ""
  {
    if parts != [] {
      StackIsPlace(parts[..|parts| - 1]);
    }
  }

  /** Walking proper names goes down one level each. */
  lemma {:induction false} NamesStay(parts: seq<string>)
    requires AllNames(parts)
    ensures Place(parts) == Some(parts) && Stack(parts) == parts
  {
    if parts != [] {
      NamesStay(parts[..|parts| - 1]);
      assert parts == parts[..|parts| - 1] + [parts[|parts| - 1]];
    }
  }

  // ------------------------------------------------------------ lengths and characters

  /** Normalising does not lengthen a path, nor bring in a character. */
  function Size(parts: seq<string>): nat {
    if parts == [] then 0 else Size(parts[..|parts| - 1]) + |parts[|parts| - 1]| + 1
  }

  lemma {:induction false} SizeFront(part: string, parts: seq<string>)
    ensures Size([part] + parts) == |part| + 1 + Size(parts)
  {
    var all := [part] + parts;
    if parts == [] {
      assert all[..0] == [];
    } else {
      SizeFront(part, parts[..|parts| - 1]);
      assert all[..|all| - 1] == [part] + parts[..|parts| - 1];
    }
  }

  lemma {:induction false} JoinLength(parts: seq<string>)
    requires parts != []
    ensures |Join(parts)| + 1 == Size(parts)
  {
    if |parts| == 1 {
      assert parts[..0] == [];
    } else {
      JoinLength(parts[1..]);
      SizeFront(parts[0], parts[1..]);
      assert parts == [parts[0]] + parts[1..];
    }
  }

  lemma {:induction false} StackIsSmaller(parts: seq<string>)
    ensures Size(Stack(parts)) <= Size(parts)
  {
    if parts != [] {
      var front, part := parts[..|parts| - 1], parts[|parts| - 1];
      StackIsSmaller(front);
      assert (Stack(front) + [part])[..|Stack(front)|] == Stack(front);
    }
  }

  predicate Clean(s: string) { forall i :: 0 <= i < |s| ==> s[i] >= ' ' }

  lemma {:induction false} SplitClean(s: string)
    requires Clean(s)
    ensures forall i :: 0 <= i < |Split(s)| ==> Clean(Split(s)[i])
  {
    if s != "" {
      SplitClean(s[1..]);
    }
  }

  lemma {:induction false} JoinClean(parts: seq<string>)
    requires forall i :: 0 <= i < |parts| ==> Clean(parts[i])
    ensures Clean(Join(parts))
  {
    if |parts| > 1 {
      JoinClean(parts[1..]);
    }
  }

  lemma {:induction false} StackClean(parts: seq<string>)
    requires forall i :: 0 <= i < |parts| ==> Clean(parts[i])
    ensures forall i :: 0 <= i < |Stack(parts)| ==> Clean(Stack(parts)[i])
  {
    if parts != [] {
      StackClean(parts[..|parts| - 1]);
    }
  }

  // ------------------------------------------------------------ the guard

  datatype Problem = Missing | TooLong | ControlCharacter | NotRelative | Escapes

  datatype Verdict = Accepted(path: string) | Rejected(problem: Problem)

  /** `_reject_rel_path`; the argument None is the missing path. */
  function Reject(argument: Option<string>, allowEmpty: bool): Verdict {
    var rel := if argument.None? then "" else argument.value;
    if allowEmpty && (rel == "" || rel == ".") then Accepted(".")
    else if rel == "" then Rejected(Missing)
    else if |rel| > 4096 then Rejected(TooLong)
    else if !Clean(rel) then Rejected(ControlCharacter)
    else if StartsWith(rel, "/") || StartsWith(rel, "~") then Rejected(NotRelative)
    else
      var clean := NormPath(rel);
      if clean == ".." || StartsWith(clean, "../") then Rejected(Escapes) else Accepted(clean)
  }

  /** Everything the guard asks of a path besides where it leads. */
  predicate WellFormed(rel: string) {
    0 < |rel| <= 4096 && Clean(rel) && !StartsWith(rel, "/") && !StartsWith(rel, "~")
  }

  /** The result of normalising, component by component. */
  lemma NormPathParts(s: string)
    ensures var stack := Stack(Split(s));
            if stack == [] then NormPath(s) == "." && Split(NormPath(s)) == ["."]
            else NormPath(s) == Join(stack) && NormPath(s) != "" && Split(NormPath(s)) == stack
  {
    var stack := Stack(Split(s));
    StackIsPlace(Split(s));
    if stack == [] {
      SplitPart(".", "");
    } else {
      SplitInvertsJoin(stack);
      SplitPart("", "");
    }
  }

  lemma EscapeShows(clean: string)
    ensures clean == ".." || StartsWith(clean, "../") <==> Split(clean)[0] == ".."
  {
    hide Split, Join;
    FirstPart(clean);
    if StartsWith(clean, "../") {
      assert clean == ".." + "/" + clean[3..];
      SplitPart("..", clean[3..]);
    } else if clean == ".." {
      SplitPart("..", "");
    }
  }

  lemma FirstPart(s: string)
    ensures var first := Split(s)[0]; s == first || StartsWith(s, first + "/")
  {
    hide Split;
    JoinInvertsSplit(s);
  }

  lemma DotIsItself()
    ensures Split(".") == ["."] && Place(["."]) == Some([]) && Stack(["."]) == [] && NormPath(".") == "."
  {
    SplitPart(".", "");
    assert ["."][..0] == [];
  }

  /** The verdict on a well-formed path turns on the first part of its normal form. */
  lemma RejectIs(rel: string, allowEmpty: bool)
    requires WellFormed(rel)
    ensures var clean := NormPath(rel);
            Reject(Some(rel), allowEmpty) == if Split(clean)[0] == ".." then Rejected(Escapes) else Accepted(clean)
  {
    hide Split, NormPath, Clean;
    DotIsItself();
    EscapeShows(NormPath(rel));
  }

  /** Where the walk stays inside, the normal form leads to the same place. */
  lemma NormalFormStays(rel: string)
    requires Place(Split(rel)).Some?
    ensures var clean := NormPath(rel);
            && Place(Split(clean)) == Place(Split(rel))
            && ".." !in Split(clean)
            && clean != "" && Split(clean)[0] != ""
  {
    hide Split, NormPath, Place, Stack;
    var stack := Stack(Split(rel));
    StackIsPlace(Split(rel));
    NormPathParts(rel);
    DotIsItself();
    NamesStay(stack);
  }

  lemma NormalFormEscapes(rel: string)
    requires Place(Split(rel)).None?
    ensures Split(NormPath(rel))[0] == ".."
  {
    hide Split, NormPath, Place, Stack;
    StackIsPlace(Split(rel));
    NormPathParts(rel);
  }

  /** The main result. A well-formed path is let through exactly when no prefix of
      its walk goes above the workspace; what is returned leads to the same place
      and has no ".." in it. */
  lemma AcceptedIffItStaysInside(rel: string, allowEmpty: bool)
    requires WellFormed(rel)
    ensures Reject(Some(rel), allowEmpty).Accepted? <==> Place(Split(rel)).Some?
    ensures Reject(Some(rel), allowEmpty).Rejected? ==> Reject(Some(rel), allowEmpty).problem == Escapes
    ensures Reject(Some(rel), allowEmpty).Accepted? ==>
              var clean := Reject(Some(rel), allowEmpty).path;
              && Place(Split(clean)) == Place(Split(rel))
              && ".." !in Split(clean)
              && clean != "" && !StartsWith(clean, "/")
  {
    hide *;
    RejectIs(rel, allowEmpty);
    if Place(Split(rel)).Some? {
      NormalFormStays(rel);
      NotAbsolute(NormPath(rel));
    } else {
      NormalFormEscapes(rel);
    }
  }

  lemma NotAbsolute(clean: string)
    ensures clean != "" && Split(clean)[0] != "" ==> !StartsWith(clean, "/")
  {
  }

  /** Every other path is turned away, each for its own reason. */
  lemma RejectedUnlessWellFormed(argument: Option<string>, allowEmpty: bool)
    ensures var rel := if argument.None? then "" else argument.value;
            !WellFormed(rel) ==>
              if allowEmpty && rel == "" then Reject(argument, allowEmpty) == Accepted(".")
              else Reject(argument, allowEmpty).Rejected? && Reject(argument, allowEmpty).problem != Escapes
  {
    assert Clean(".") && "."[..1] == ".";
  }

  /** Guarding an accepted path again gives the same path, exactly when it does
      not start with "~". */
  lemma IdempotentUnlessTilde(rel: string, allowEmpty: bool)
    requires WellFormed(rel) && Reject(Some(rel), allowEmpty).Accepted?
    ensures var clean := Reject(Some(rel), allowEmpty).path;
            Reject(Some(clean), allowEmpty) == Accepted(clean) <==> !StartsWith(clean, "~")
  {
    var clean := Reject(Some(rel), allowEmpty).path;
    hide *;
    AcceptedIffItStaysInside(rel, allowEmpty);
    RejectIs(rel, allowEmpty);
    NormalFormIsNormal(rel);
    NormalFormStays(rel);
    NotAbsolute(clean);
    WellFormedHas(rel);
    ShortAndClean(rel);
    if StartsWith(clean, "~") {
      TildeRejected(clean, allowEmpty);
    } else {
      AgainWellFormed(rel, clean);
      RejectIs(clean, allowEmpty);
    }
  }

  lemma NormalFormIsNormal(rel: string)
    requires Place(Split(rel)).Some?
    ensures NormPath(NormPath(rel)) == NormPath(rel)
  {
    hide Split, NormPath, Place, Stack;
    var stack := Stack(Split(rel));
    StackIsPlace(Split(rel));
    NormPathParts(rel);
    NormPathParts(NormPath(rel));
    DotIsItself();
    NamesStay(stack);
  }

  lemma TildeRejected(clean: string, allowEmpty: bool)
    requires StartsWith(clean, "~")
    ensures Reject(Some(clean), allowEmpty).Rejected?
  {
    assert clean[0] == clean[..1][0] == '~';
  }

  lemma WellFormedHas(rel: string)
    requires WellFormed(rel)
    ensures rel != "" && |rel| <= 4096 && Clean(rel)
  {
  }

  lemma AgainWellFormed(rel: string, clean: string)
    requires |clean| <= |rel| <= 4096 && clean != "" && Clean(clean)
    requires !StartsWith(clean, "/") && !StartsWith(clean, "~")
    ensures WellFormed(clean)
  {
  }

  lemma ShortAndClean(rel: string)
    requires rel != "" && Clean(rel)
    ensures |NormPath(rel)| <= |rel| && Clean(NormPath(rel))
  {
    var parts := Split(rel);
    SplitClean(rel);
    StackClean(parts);
    JoinClean(Stack(parts));
    JoinInvertsSplit(rel);
    JoinLength(parts);
    StackIsSmaller(parts);
    if Stack(parts) != [] {
      JoinLength(Stack(parts));
    }
  }

  /** The exception happens: the guard lets "./~x" through as "~x", which it would
      not let through itself. */
  lemma TildeSurfaces()
    ensures Reject(Some("./~x"), false) == Accepted("~x")
    ensures Reject(Some("~x"), false) == Rejected(NotRelative)
  {
    var rel := "./~x";
    assert rel == "." + "/" + "~x";
    SplitPart(".", "~x");
    SplitPart("~x", "");
    var parts := [".", "~x"];
    assert Split(rel) == parts;
    assert parts[..1] == ["."] && ["."][..0] == [];
    assert Stack(parts) == ["~x"];
    assert NormPath(rel) == "~x";
    assert StartsWith("~x", "~");
  }
}
