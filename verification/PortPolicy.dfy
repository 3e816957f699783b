/** The port-forwarding policy (`parse_port_specs`, `_intersect`,
    `effective_policy`): three layers, each of which may only narrow. */
module PortPolicy {
  import opened Nums
  import opened Strings

  const FLOOR := 1024
  const CEILING := 65535

  // ------------------------------------------------------------ reading a spec

  /** Digits with single underscores between them. */
  function Digits(s: string, value: int, afterDigit: bool): Option<int> {
    if s == "" then if afterDigit then Some(value) else None
    else if s[0] == '_' && afterDigit then Digits(s[1..], value, false)
    else if IsDigit(s[0]) then Digits(s[1..], 10 * value + (s[0] - '0') as int, true)
    else None
  }

  function Negated(v: Option<int>): Option<int> {
    if v.None? then None else Some(-v.value)
  }

  /** Python's `int()` on ASCII text; None stands for ValueError. */
  function ParseInt(text: string): Option<int> {
    var s := Strip(text);
    if s != "" && s[0] == '-' then Negated(Digits(s[1..], 0, false))
    else if s != "" && s[0] == '+' then Digits(s[1..], 0, false)
    else Digits(s, 0, false)
  }

  predicate AllDigits(s: string) { forall i :: 0 <= i < |s| ==> IsDigit(s[i]) }

  /** The number that a text of digits writes. */
  function Number(s: string): nat
    requires AllDigits(s)
  {
    if s == "" then 0
    else
      var last := s[|s| - 1];
      assert IsDigit(last);
      10 * Number(s[..|s| - 1]) + (last - '0') as nat
  }

  /** Reading on after the digits so far. */
  lemma {:induction false} DigitsContinue(s: string, t: string, value: int, after: bool)
    requires AllDigits(s)
    ensures Digits(s + t, value, after) == Digits(t, Power10(|s|) * value + Number(s), after || s != "")
  {
    if s == "" {
      assert s + t == t;
    } else {
      var first := (s[0] - '0') as int;
      assert (s + t)[1..] == s[1..] + t && IsDigit(s[0]);
      DigitsContinue(s[1..], t, 10 * value + first, true);
      NumberFront(s);
      PowerNext(|s| - 1, value, first);
    }
  }

  function Power10(k: nat): nat { if k == 0 then 1 else 10 * Power10(k - 1) }

  lemma PowerNext(k: nat, value: int, first: int)
    ensures Power10(k) * (10 * value + first) == Power10(k + 1) * value + Power10(k) * first
  {
    assert Power10(k + 1) == 10 * Power10(k);
  }

  lemma {:induction false} NumberFront(s: string)
    requires s != "" && AllDigits(s)
    ensures IsDigit(s[0]) && Number(s) == Power10(|s| - 1) * ((s[0] - '0') as int) + Number(s[1..])
  {
    if |s| == 1 {
      assert s[..0] == "" && s[1..] == "";
    } else {
      var front, rest, last := s[..|s| - 1], s[1..], s[|s| - 1];
      NumberFront(front);
      assert rest[..|s| - 2] == front[1..] && rest[|s| - 2] == last;
      NumberLast(s);
      NumberLast(rest);
      PowerTimes(|s| - 2, (s[0] - '0') as int);
      hide Number, Power10;
    }
  }

  lemma NumberLast(s: string)
    requires s != "" && AllDigits(s)
    ensures IsDigit(s[|s| - 1]) && Number(s) == 10 * Number(s[..|s| - 1]) + (s[|s| - 1] - '0') as nat
  {
    assert IsDigit(s[|s| - 1]);
  }

  lemma PowerTimes(k: nat, d: int)
    ensures Power10(k + 1) * d == 10 * (Power10(k) * d)
  {
    assert Power10(k + 1) == 10 * Power10(k);
  }

  /** Decimal numbers are read. */
  lemma NumberRead(s: string)
    requires s != "" && AllDigits(s)
    ensures Digits(s, 0, false) == Some(Number(s))
  {
    DigitsContinue(s, "", 0, false);
    assert s + "" == s;
  }

  /** What comes after a number. */
  lemma AfterNumber(s: string, t: string)
    requires s != "" && AllDigits(s)
    ensures Digits(s + t, 0, false) == Digits(t, Number(s), true)
  {
    DigitsContinue(s, t, 0, false);
  }

  lemma UnderscoreSkipped(t: string, value: int)
    requires t != "" && AllDigits(t)
    ensures Digits("_" + t, value, true) == Digits(t, value, false) == Digits(t, value, true)
    ensures Digits("__" + t, value, true) == None && Digits("_" + t, value, false) == None
    ensures Digits("_", value, true) == None
  {
    assert ("_" + t)[1..] == t && ("__" + t)[1..] == "_" + t && "_"[1..] == "";
    assert IsDigit(t[0]);
  }

  /** Single underscores between digits leave no trace, and no others are let through. */
  lemma UnderscoresRead(s: string, t: string)
    requires s != "" && t != "" && AllDigits(s) && AllDigits(t)
    ensures Digits(s + ("_" + t), 0, false) == Some(Number(s + t))
    ensures Digits(s + ("__" + t), 0, false) == None
    ensures Digits("_" + s, 0, false) == None && Digits(s + "_", 0, false) == None
  {
    AfterNumber(s, "_" + t);
    AfterNumber(s, "__" + t);
    AfterNumber(s, "_");
    AfterNumber(s, t);
    UnderscoreSkipped(t, Number(s));
    UnderscoreSkipped(s, 0);
    NumberRead(s + t);
    hide *;
  }

  /** A sign in front of a number, and white space around it. */
  lemma SignsRead(s: string)
    requires s != "" && AllDigits(s)
    ensures ParseInt("+" + s) == Some(Number(s))
    ensures ParseInt("-" + s) == Negated(Some(Number(s))) && Negated(Some(Number(s))).value + Number(s) == 0
  {
    NumberRead(s);
    EndsInDigit("+", s);
    EndsInDigit("-", s);
    hide Digits, Number, Strip, AllDigits;
    assert ("+" + s)[1..] == s && ("-" + s)[1..] == s;
  }

  lemma EndsInDigit(sign: string, s: string)
    requires s != "" && AllDigits(s) && |sign| == 1 && !IsSpace(sign[0])
    ensures Strip(sign + s) == sign + s && Strip(s) == s
  {
    assert IsDigit(s[|s| - 1]) && IsDigit(s[0]);
    assert (sign + s)[|s|] == s[|s| - 1];
  }

  lemma SpacesIgnored(s: string)
    requires s != "" && AllDigits(s)
    ensures ParseInt(s) == Some(Number(s)) && ParseInt(" " + (s + "\n")) == Some(Number(s))
  {
    NumberRead(s);
    assert IsDigit(s[|s| - 1]) && IsDigit(s[0]);
    hide Digits, Number, AllDigits;
    var tail := s + "\n";
    assert (" " + tail)[1..] == tail && tail[..|s|] == s && tail[0] == s[0] && tail[|s|] == '\n';
    assert Strip(" " + tail) == Strip(tail) == Strip(s) == s;
  }

  /** `partition("-")`: the text before the first dash, and after it. */
  function Partition(s: string): (string, string) {
    if s == "" then ("", "")
    else if s[0] == '-' then ("", s[1..])
    else
      var rest := Partition(s[1..]);
      ([s[0]] + rest.0, rest.1)
  }

  datatype Range = Range(low: int, high: int)

  predicate Contains(r: Range, p: int) { r.low <= p <= r.high }

  /** The range a spec names, before clamping; None where it cannot be read. */
  function ReadSpec(spec: string): Option<Range> {
    var (low, high) := Partition(Strip(spec));
    var start := ParseInt(low);
    var end := if high == "" then start else ParseInt(high);
    if start.None? || end.None? then None else Some(Range(start.value, end.value))
  }

  function Max(a: int, b: int): int { if a > b then a else b }
  function Min(a: int, b: int): int { if a < b then a else b }

  function Clamped(r: Range): Range { Range(Max(r.low, FLOOR), Min(r.high, CEILING)) }

  // ------------------------------------------------------------ lists of ranges

  predicate Permits(ranges: seq<Range>, p: int) {
    exists i :: 0 <= i < |ranges| && Contains(ranges[i], p)
  }

  predicate Before(a: Range, b: Range) {
    a.low < b.low || (a.low == b.low && a.high <= b.high)
  }

  /** `sorted`, which puts equal elements side by side and loses none. */
  function Inserted(r: Range, ranges: seq<Range>): seq<Range> {
    if ranges == [] || Before(r, ranges[0]) then [r] + ranges else [ranges[0]] + Inserted(r, ranges[1..])
  }

  function Sorted(ranges: seq<Range>): seq<Range> {
    if ranges == [] then [] else Inserted(ranges[0], Sorted(ranges[1..]))
  }

  lemma PermitsOne(r: Range, ranges: seq<Range>, p: int)
    ensures Permits([r] + ranges, p) <==> Contains(r, p) || Permits(ranges, p)
  {
    var all := [r] + ranges;
    assert all[0] == r;
    if Permits(ranges, p) {
      var i :| 0 <= i < |ranges| && Contains(ranges[i], p);
      assert Contains(all[i + 1], p);
    }
    if Permits(all, p) {
      var i :| 0 <= i < |all| && Contains(all[i], p);
      if i > 0 {
        assert Contains(ranges[i - 1], p);
      }
    }
  }

  lemma {:induction false} PermitsAppend(a: seq<Range>, b: seq<Range>, p: int)
    ensures Permits(a + b, p) <==> Permits(a, p) || Permits(b, p)
  {
    hide Permits, Contains;
    if a == [] {
      assert a + b == b;
      NoRangePermits(p);
    } else {
      PermitsAppend(a[1..], b, p);
      assert a + b == [a[0]] + (a[1..] + b) && a == [a[0]] + a[1..];
      PermitsOne(a[0], a[1..] + b, p);
      PermitsOne(a[0], a[1..], p);
    }
  }

  lemma NoRangePermits(p: int)
    ensures !Permits([], p)
  {
  }

  lemma {:induction false} InsertedPermits(r: Range, ranges: seq<Range>, p: int)
    ensures Permits(Inserted(r, ranges), p) <==> Contains(r, p) || Permits(ranges, p)
  {
    hide Permits, Contains;
    PermitsOne(r, ranges, p);
    if ranges != [] {
      InsertedPermits(r, ranges[1..], p);
      assert ranges == [ranges[0]] + ranges[1..];
      PermitsOne(ranges[0], ranges[1..], p);
      PermitsOne(ranges[0], Inserted(r, ranges[1..]), p);
    }
  }

  lemma {:induction false} SortedPermits(ranges: seq<Range>, p: int)
    ensures Permits(Sorted(ranges), p) == Permits(ranges, p)
  {
    hide Permits, Contains;
    if ranges != [] {
      SortedPermits(ranges[1..], p);
      InsertedPermits(ranges[0], Sorted(ranges[1..]), p);
      assert ranges == [ranges[0]] + ranges[1..];
      PermitsOne(ranges[0], ranges[1..], p);
    }
  }

  predicate InOrder(ranges: seq<Range>) {
    forall i, j :: 0 <= i < j < |ranges| ==> Before(ranges[i], ranges[j])
  }

  lemma {:induction false} InsertedInOrder(r: Range, ranges: seq<Range>)
    requires InOrder(ranges)
    ensures InOrder(Inserted(r, ranges)) && multiset(Inserted(r, ranges)) == multiset(ranges) + multiset{r}
  {
    if ranges == [] || Before(r, ranges[0]) {
      assert multiset([r] + ranges) == multiset{r} + multiset(ranges);
    } else {
      var rest := Inserted(r, ranges[1..]);
      InsertedInOrder(r, ranges[1..]);
      assert ranges == [ranges[0]] + ranges[1..];
      forall i | 0 <= i < |rest|
        ensures Before(ranges[0], rest[i])
      {
        assert rest[i] in multiset(rest);
        assert rest[i] == r || rest[i] in ranges[1..];
      }
    }
  }

  /** It sorts. */
  lemma {:induction false} SortedIs(ranges: seq<Range>)
    ensures InOrder(Sorted(ranges)) && multiset(Sorted(ranges)) == multiset(ranges)
  {
    if ranges != [] {
      SortedIs(ranges[1..]);
      InsertedInOrder(ranges[0], Sorted(ranges[1..]));
      assert ranges == [ranges[0]] + ranges[1..];
    }
  }

  // ------------------------------------------------------------ one layer

  function ReadAll(specs: seq<string>): seq<Range> {
    if specs == [] then []
    else
      var r := ReadSpec(specs[0]);
      (if r.Some? && Clamped(r.value).low <= Clamped(r.value).high then [Clamped(r.value)] else [])
      + ReadAll(specs[1..])
  }

  /** `parse_port_specs`; None means "do not narrow". */
  function ParsePortSpecs(specs: Option<seq<string>>): Option<seq<Range>> {
    if specs.None? then None else Some(Sorted(ReadAll(specs.value)))
  }

  predicate SpecAllows(spec: string, p: int) {
    ReadSpec(spec).Some? && Contains(ReadSpec(spec).value, p)
  }

  /** What a layer means: no list, or a readable spec in it that contains the port. */
  predicate Allows(specs: Option<seq<string>>, p: int) {
    specs.Some? ==> exists i :: 0 <= i < |specs.value| && SpecAllows(specs.value[i], p)
  }

  predicate InRange(p: int) { FLOOR <= p <= CEILING }

  lemma {:induction false} ReadAllPermits(specs: seq<string>, p: int)
    ensures Permits(ReadAll(specs), p) <==> InRange(p) && Allows(Some(specs), p)
  {
    hide ReadSpec;
    if specs != [] {
      ReadAllPermits(specs[1..], p);
      var r := ReadSpec(specs[0]);
      AllowsOne(specs, p);
      if r.Some? && Clamped(r.value).low <= Clamped(r.value).high {
        PermitsOne(Clamped(r.value), ReadAll(specs[1..]), p);
      } else {
        assert ReadAll(specs) == ReadAll(specs[1..]);
      }
    }
  }

  lemma AllowsOne(specs: seq<string>, p: int)
    requires specs != []
    ensures Allows(Some(specs), p) <==> SpecAllows(specs[0], p) || Allows(Some(specs[1..]), p)
  {
    hide SpecAllows;
    assert specs == [specs[0]] + specs[1..];
    if Allows(Some(specs[1..]), p) {
      var i :| 0 <= i < |specs[1..]| && SpecAllows(specs[1..][i], p);
      assert SpecAllows(specs[i + 1], p);
    }
    if Allows(Some(specs), p) && !SpecAllows(specs[0], p) {
      var i :| 0 <= i < |specs| && SpecAllows(specs[i], p);
      assert SpecAllows(specs[1..][i - 1], p);
    }
  }

  // ------------------------------------------------------------ intersecting

  /** The inner loop of `_intersect`. */
  function Overlaps(a: Range, right: seq<Range>): seq<Range> {
    if right == [] then []
    else
      var low, high := Max(a.low, right[0].low), Min(a.high, right[0].high);
      (if low <= high then [Range(low, high)] else []) + Overlaps(a, right[1..])
  }

  function AllOverlaps(left: seq<Range>, right: seq<Range>): seq<Range> {
    if left == [] then [] else Overlaps(left[0], right) + AllOverlaps(left[1..], right)
  }

  function Intersect(left: Option<seq<Range>>, right: Option<seq<Range>>): Option<seq<Range>> {
    if left.None? then right
    else if right.None? then left
    else Some(Sorted(AllOverlaps(left.value, right.value)))
  }

  /** What a parsed layer lets through: everything if it does not narrow. */
  predicate Open(ranges: Option<seq<Range>>, p: int) {
    ranges.Some? ==> Permits(ranges.value, p)
  }

  lemma {:induction false} OverlapsPermit(a: Range, right: seq<Range>, p: int)
    ensures Permits(Overlaps(a, right), p) <==> Contains(a, p) && Permits(right, p)
  {
    if right != [] {
      OverlapsPermit(a, right[1..], p);
      assert right == [right[0]] + right[1..];
      PermitsOne(right[0], right[1..], p);
      PermitsOne(Range(Max(a.low, right[0].low), Min(a.high, right[0].high)), Overlaps(a, right[1..]), p);
      hide Permits;
      var low, high := Max(a.low, right[0].low), Min(a.high, right[0].high);
      assert low > high ==> Overlaps(a, right) == Overlaps(a, right[1..]);
    }
  }

  lemma {:induction false} AllOverlapsPermit(left: seq<Range>, right: seq<Range>, p: int)
    ensures Permits(AllOverlaps(left, right), p) <==> Permits(left, p) && Permits(right, p)
  {
    hide Permits, Contains;
    NoRangePermits(p);
    if left != [] {
      AllOverlapsPermit(left[1..], right, p);
      assert left == [left[0]] + left[1..];
      PermitsOne(left[0], left[1..], p);
      OverlapsPermit(left[0], right, p);
      PermitsAppend(Overlaps(left[0], right), AllOverlaps(left[1..], right), p);
    }
  }

  /** "No list" is the identity, and otherwise intersecting is intersecting. */
  lemma IntersectIs(left: Option<seq<Range>>, right: Option<seq<Range>>, p: int)
    ensures Open(Intersect(left, right), p) <==> Open(left, p) && Open(right, p)
    ensures Intersect(left, right).None? <==> left.None? && right.None?
    ensures Intersect(None, right) == right && Intersect(left, None) == left
  {
    hide Permits;
    if left.Some? && right.Some? {
      SortedPermits(AllOverlaps(left.value, right.value), p);
      AllOverlapsPermit(left.value, right.value, p);
    }
  }

  /** As sets of ports, the order of the layers does not matter. */
  lemma IntersectLaws(a: Option<seq<Range>>, b: Option<seq<Range>>, c: Option<seq<Range>>, p: int)
    ensures Open(Intersect(a, b), p) == Open(Intersect(b, a), p)
    ensures Open(Intersect(Intersect(a, b), c), p) == Open(Intersect(a, Intersect(b, c)), p)
    ensures Open(Intersect(a, a), p) == Open(a, p)
  {
    hide Intersect, Open;
    IntersectIs(a, b, p);
    IntersectIs(b, a, p);
    IntersectIs(Intersect(a, b), c, p);
    IntersectIs(b, c, p);
    IntersectIs(a, Intersect(b, c), p);
    IntersectIs(a, a, p);
  }

  // ------------------------------------------------------------ the policy

  datatype Layer = Layer(enabled: bool, ports: Option<seq<string>>, cap: Option<int>)

  datatype BlockedBy = Integration | NodeSettings | NodeLocal

  datatype Policy = Policy(blocked: Option<BlockedBy>, ports: seq<Range>, cap: int)

  predicate Counts(cap: Option<int>) { cap.Some? && cap.value > 0 }

  /** `min` over the caps that are given and positive; None where there is none,
      and `min` raises. */
  function LeastCap(caps: seq<Option<int>>): Option<int> {
    if caps == [] then None
    else Least(caps[0], LeastCap(caps[1..]))
  }

  function Least(cap: Option<int>, rest: Option<int>): Option<int> {
    if !Counts(cap) then rest else if rest.None? then cap else Some(Min(cap.value, rest.value))
  }

  /** The three caps of a node: the deployment's, the node's settings', the node's own. */
  function Caps(perNode: int, settings: Layer, report: Layer): seq<Option<int>> {
    [Some(perNode), settings.cap, report.cap]
  }

  /** `effective_policy`. The report layer is enabled when the node neither vetoes
      nor runs a daemon too old. */
  function EffectivePolicy(integration: Layer, settings: Layer, report: Layer, perNode: int): Policy
    requires LeastCap(Caps(perNode, settings, report)).Some?
  {
    var blocked := if !integration.enabled then Some(Integration)
                   else if !settings.enabled then Some(NodeSettings)
                   else if !report.enabled then Some(NodeLocal)
                   else None;
    var ports := Intersect(Intersect(ParsePortSpecs(integration.ports), ParsePortSpecs(settings.ports)),
                           ParsePortSpecs(report.ports));
    Policy(blocked, if ports.None? then [Range(FLOOR, CEILING)] else ports.value,
           LeastCap(Caps(perNode, settings, report)).value)
  }

  lemma ParsedLayer(specs: Option<seq<string>>, p: int)
    ensures Open(ParsePortSpecs(specs), p) <==> specs.None? || (InRange(p) && Allows(specs, p))
  {
    hide Permits;
    if specs.Some? {
      SortedPermits(ReadAll(specs.value), p);
      ReadAllPermits(specs.value, p);
    }
  }

  /** The main result: a port is permitted exactly when it is in range and every
      layer that supplies a list has a readable spec containing it. */
  lemma PolicyPermits(integration: Layer, settings: Layer, report: Layer, perNode: int, p: int)
    requires LeastCap(Caps(perNode, settings, report)).Some?
    ensures Permits(EffectivePolicy(integration, settings, report, perNode).ports, p)
       <==> InRange(p) && Allows(integration.ports, p) && Allows(settings.ports, p) && Allows(report.ports, p)
  {
    hide Permits, ParsePortSpecs;
    var a, b, c := ParsePortSpecs(integration.ports), ParsePortSpecs(settings.ports), ParsePortSpecs(report.ports);
    ParsedLayer(integration.ports, p);
    ParsedLayer(settings.ports, p);
    ParsedLayer(report.ports, p);
    ParsedNone(integration.ports);
    ParsedNone(settings.ports);
    ParsedNone(report.ports);
    IntersectIs(a, b, p);
    IntersectIs(Intersect(a, b), c, p);
    hide Intersect;
    WholeRange(p);
  }

  lemma ParsedNone(specs: Option<seq<string>>)
    ensures ParsePortSpecs(specs).None? <==> specs.None?
  {
  }

  lemma WholeRange(p: int)
    ensures Permits([Range(FLOOR, CEILING)], p) <==> InRange(p)
  {
    NoRangePermits(p);
    PermitsOne(Range(FLOOR, CEILING), [], p);
    assert [Range(FLOOR, CEILING)] + [] == [Range(FLOOR, CEILING)];
  }

  /** A layer that allows no more than before adds no port to the policy. */
  lemma NarrowingAddsNoPort(integration: Layer, settings: Layer, report: Layer, integration': Layer, settings': Layer,
                            report': Layer, perNode: int, p: int)
    requires LeastCap(Caps(perNode, settings, report)).Some? && LeastCap(Caps(perNode, settings', report')).Some?
    requires Allows(integration'.ports, p) ==> Allows(integration.ports, p)
    requires Allows(settings'.ports, p) ==> Allows(settings.ports, p)
    requires Allows(report'.ports, p) ==> Allows(report.ports, p)
    ensures Permits(EffectivePolicy(integration', settings', report', perNode).ports, p)
        ==> Permits(EffectivePolicy(integration, settings, report, perNode).ports, p)
  {
    hide EffectivePolicy, Permits, Allows;
    PolicyPermits(integration, settings, report, perNode, p);
    PolicyPermits(integration', settings', report', perNode, p);
  }

  /** A list without a spec that can be read. */
  predicate Unreadable(specs: Option<seq<string>>) {
    specs.Some? && forall i :: 0 <= i < |specs.value| ==> ReadSpec(specs.value[i]).None?
  }

  /** A list in which nothing can be read is not ignored as a restriction: in
      whichever layer it is, it permits nothing, as does the empty list. */
  lemma UnreadableListPermitsNothing(integration: Layer, settings: Layer, report: Layer, perNode: int, p: int)
    requires LeastCap(Caps(perNode, settings, report)).Some?
    requires Unreadable(integration.ports) || Unreadable(settings.ports) || Unreadable(report.ports)
    ensures !Permits(EffectivePolicy(integration, settings, report, perNode).ports, p)
  {
    hide EffectivePolicy, Permits, ReadSpec;
    PolicyPermits(integration, settings, report, perNode, p);
  }

  /** The named layer is the first that refuses, and one is named exactly when the
      policy is not enabled. */
  lemma BlockedByFirstRefusal(integration: Layer, settings: Layer, report: Layer, perNode: int)
    requires LeastCap(Caps(perNode, settings, report)).Some?
    ensures var by_ := EffectivePolicy(integration, settings, report, perNode).blocked;
            && (by_ == Some(Integration) <==> !integration.enabled)
            && (by_ == Some(NodeSettings) <==> integration.enabled && !settings.enabled)
            && (by_ == Some(NodeLocal) <==> integration.enabled && settings.enabled && !report.enabled)
            && (by_ == None <==> integration.enabled && settings.enabled && report.enabled)
  {
  }

  // ------------------------------------------------------------ the cap

  /** The cap is the least of the caps that count; there is one unless none does. */
  lemma {:induction false} CapIsLeast(caps: seq<Option<int>>)
    ensures LeastCap(caps).None? <==> forall i :: 0 <= i < |caps| ==> !Counts(caps[i])
    ensures LeastCap(caps).Some? ==> LeastCap(caps) in caps && LeastCap(caps).value > 0
    ensures LeastCap(caps).Some? ==>
              forall i :: 0 <= i < |caps| && Counts(caps[i]) ==> LeastCap(caps).value <= caps[i].value
  {
    if caps != [] {
      CapIsLeast(caps[1..]);
      assert forall i :: 0 < i < |caps| ==> caps[i] == caps[1..][i - 1];
    }
  }

  /** The caps a layer can hold: what the node's settings keep (the update is refused
      outside 1..100) and what is kept of a node's report. */
  const CAP_MIN := 1
  const CAP_MAX := 100

  predicate ProperCap(cap: Option<int>) { cap.Some? ==> cap.value > 0 }

  /** `update_node_settings` on its cap; None is the refusal. */
  function UpdatedCap(cap: Option<int>, given: Option<int>, clear: bool): Option<Option<int>> {
    if clear then Some(None)
    else if given.None? then Some(cap)
    else if CAP_MIN <= given.value <= CAP_MAX then Some(given)
    else None
  }

  /** `TunnelReport.from_payload` on its cap; None in the payload is no integer. */
  function ReportedCap(limit: Option<int>): Option<int> {
    if limit.Some? && limit.value > 0 then limit else None
  }

  lemma StoredCapsAreProper(cap: Option<int>, given: Option<int>, clear: bool, limit: Option<int>)
    requires ProperCap(cap)
    ensures UpdatedCap(cap, given, clear).Some? ==> ProperCap(UpdatedCap(cap, given, clear).value)
    ensures ProperCap(ReportedCap(limit))
    ensures !clear && given == Some(0) ==> UpdatedCap(cap, given, clear).None?
  {
  }

  /** What is stored: nothing after a clearing, what was there if nothing is given, and the
      given one exactly if it is from 1 to 100. A reported cap counts exactly if it is
      positive. */
  lemma StoredCapIs(cap: Option<int>, given: Option<int>, clear: bool, limit: Option<int>)
    ensures var after := UpdatedCap(cap, given, clear);
            && (after.None? <==> !clear && given.Some? && !(0 < given.value < 101))
            && (clear ==> after == Some(None))
            && (!clear && given.None? ==> after == Some(cap))
            && (!clear && given.Some? && after.Some? ==> after.value == given)
    ensures ReportedCap(limit).Some? <==> exists n: int :: n > 0 && limit == Some(n)
    ensures ReportedCap(limit).Some? ==> ReportedCap(limit) == limit
  {
    if limit.Some? && limit.value > 0 {
      var n: int := limit.value;
      assert limit == Some(n);
    }
  }

  /** A cap that restricts at least as much: none where there was one is no restriction. */
  predicate NoLooser(cap': Option<int>, cap: Option<int>) {
    cap.Some? ==> cap'.Some? && cap'.value <= cap.value
  }

  /** Restricting one cap of several raises the least exactly when the new cap does not
      count while the old one did, and was the one that bound. */
  lemma {:induction false} RestrictingRaisesIff(caps: seq<Option<int>>, i: nat, cap': Option<int>)
    requires i < |caps| && NoLooser(cap', caps[i])
    ensures var before, after := LeastCap(caps), LeastCap(caps[i := cap']);
            var others := LeastCap(caps[..i] + caps[i + 1..]);
            if Counts(caps[i]) && !Counts(cap') && (others.None? || caps[i].value < others.value) then
              before.Some? && (after.None? || after.value > before.value)
            else
              before.Some? ==> after.Some? && after.value <= before.value
  {
    hide LeastCap;
    LeastOfOthers(caps, i);
    LeastOfOthers(caps[i := cap'], i);
    var others := caps[..i] + caps[i + 1..];
    assert caps[i := cap'][..i] + caps[i := cap'][i + 1..] == others;
    LeastIsPositive(others);
  }

  /** Whichever cap is looked at first, the least is the same. */
  lemma {:induction false} LeastOfOthers(caps: seq<Option<int>>, i: nat)
    requires i < |caps|
    ensures LeastCap(caps) == Least(caps[i], LeastCap(caps[..i] + caps[i + 1..]))
  {
    if i == 0 {
      assert caps[..i] + caps[i + 1..] == caps[1..];
    } else {
      LeastOfOthers(caps[1..], i - 1);
      var others := caps[..i] + caps[i + 1..];
      assert others[1..] == caps[1..][..i - 1] + caps[1..][i..];
      assert others[0] == caps[0];
    }
  }

  /** On caps the layers can hold, supplying or lowering one, in the node's settings, in
      its report or in both, never raises the effective cap. */
  lemma RestrictingNeverRaisesTheCap(integration: Layer, settings: Layer, report: Layer, integration': Layer,
                                     settings': Layer, report': Layer, perNode: int)
    requires LeastCap(Caps(perNode, settings, report)).Some?
    requires ProperCap(settings'.cap) && ProperCap(report'.cap)
    requires NoLooser(settings'.cap, settings.cap) && NoLooser(report'.cap, report.cap)
    ensures LeastCap(Caps(perNode, settings', report')).Some?
    ensures EffectivePolicy(integration', settings', report', perNode).cap
         <= EffectivePolicy(integration, settings, report, perNode).cap
  {
    hide LeastCap;
    var caps := Caps(perNode, settings, report);
    var between := caps[1 := settings'.cap];
    RestrictingRaisesIff(caps, 1, settings'.cap);
    RestrictingRaisesIff(between, 2, report'.cap);
    assert between[2 := report'.cap] == Caps(perNode, settings', report');
  }

  lemma LeastIsPositive(caps: seq<Option<int>>)
    ensures LeastCap(caps).Some? ==> LeastCap(caps).value > 0
  {
    CapIsLeast(caps);
  }

  // ------------------------------------------------------------ what a user is shown

  /** One entry of `port_display`. */
  function Display(r: Range): string
    requires 0 <= r.low && 0 <= r.high
  {
    if r.low == r.high then Dec(r.low) else Dec(r.low) + "-" + Dec(r.high)
  }

  /** Reading digits from the end. */
  lemma {:induction false} DigitsSnoc(s: string, c: char, value: int, afterDigit: bool)
    requires (forall i :: 0 <= i < |s| ==> IsDigit(s[i])) && IsDigit(c)
    ensures s != "" ==> Digits(s, value, afterDigit).Some?
    ensures Digits(s + [c], value, afterDigit)
         == if s == "" then Some(10 * value + (c - '0') as int)
            else Some(10 * Digits(s, value, afterDigit).value + (c - '0') as int)
  {
    var t := s + [c];
    if s == "" {
      assert t[1..] == "";
    } else {
      assert t[1..] == s[1..] + [c];
      DigitsSnoc(s[1..], c, 10 * value + (s[0] - '0') as int, true);
    }
  }

  lemma {:induction false} DigitsOfDec(n: nat)
    ensures Digits(Dec(n), 0, false) == Some(n)
  {
    if n < 10 {
      DigitsSnoc("", '0' + n as char, 0, false);
      assert "" + ['0' + n as char] == Dec(n);
    } else {
      DigitsOfDec(n / 10);
      DigitsSnoc(Dec(n / 10), '0' + (n % 10) as char, 0, false);
    }
  }

  lemma {:induction false} PartitionDash(a: string, b: string)
    requires forall i :: 0 <= i < |a| ==> IsDigit(a[i])
    ensures Partition(a + "-" + b) == (a, b)
    ensures Partition(a) == (a, "")
  {
    if a == "" {
      assert (a + "-" + b)[1..] == b;
    } else {
      PartitionDash(a[1..], b);
      assert (a + "-" + b)[1..] == a[1..] + "-" + b;
      assert a == [a[0]] + a[1..];
    }
  }

  lemma ParseDec(n: nat)
    ensures ParseInt(Dec(n)) == Some(n)
  {
    StripKeeps(Dec(n));
    DigitsOfDec(n);
  }

  /** A range shown to the user reads back as that range. */
  lemma DisplayReadsBack(r: Range)
    requires 0 <= r.low && 0 <= r.high
    ensures ReadSpec(Display(r)) == Some(r)
  {
    hide Dec, Digits, ParseInt;
    ParseDec(r.low);
    ParseDec(r.high);
    StripKeeps(Display(r));
    PartitionDash(Dec(r.low), Dec(r.high));
  }
}
