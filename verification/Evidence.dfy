/** The release verdict (`validate_static`, `coverage`, `snapshot`): what an
    accepted snapshot says about every criterion that must hold. */
module Evidence {
  import opened Nums

  datatype Criterion = Criterion(id: string, kind: string, coveredBy: string, active: bool, reviewed: bool,
                                 profile: string)

  datatype Requirement = Requirement(id: string, kind: string, must: bool, active: bool, criteria: seq<Criterion>)

  /** `gate` is empty where the link names none. */
  datatype Link = Link(id: string, source: string, kind: string, primary: bool, gate: string, locator: string)

  datatype Gate = Gate(id: string, legs: set<string>)

  datatype GateResult = GateResult(id: string, status: string, selectors: set<string>, environment: map<string, string>,
                                   skipReason: bool, artifactsMatch: bool)

  datatype Trace = Trace(requirements: seq<Requirement>, links: seq<Link>, gates: seq<Gate>)

  // ------------------------------------------------------------ indexes

  /** A dict comprehension keyed by id: the last of equal ids wins. */
  function GateIndex(gates: seq<Gate>): map<string, Gate> {
    if gates == [] then map[] else GateIndex(gates[..|gates| - 1])[gates[|gates| - 1].id := gates[|gates| - 1]]
  }

  function ResultIndex(results: seq<GateResult>): map<string, GateResult> {
    if results == [] then map[]
    else ResultIndex(results[..|results| - 1])[results[|results| - 1].id := results[|results| - 1]]
  }

  function Siblings(criteria: seq<Criterion>): map<string, Criterion> {
    if criteria == [] then map[]
    else Siblings(criteria[..|criteria| - 1])[criteria[|criteria| - 1].id := criteria[|criteria| - 1]]
  }

  function LinksFrom(links: seq<Link>, id: string): seq<Link> {
    if links == [] then []
    else LinksFrom(links[..|links| - 1], id) + if links[|links| - 1].source == id then [links[|links| - 1]] else []
  }

  lemma {:induction false} LinksFromIs(links: seq<Link>, id: string, l: Link)
    ensures l in LinksFrom(links, id) <==> l in links && l.source == id
  {
    if links != [] {
      LinksFromIs(links[..|links| - 1], id, l);
      assert links == links[..|links| - 1] + [links[|links| - 1]];
    }
  }

  lemma {:induction false} SiblingsAre(criteria: seq<Criterion>, id: string)
    ensures id in Siblings(criteria) <==> exists i :: 0 <= i < |criteria| && criteria[i].id == id
    ensures id in Siblings(criteria) ==> Siblings(criteria)[id] in criteria && Siblings(criteria)[id].id == id
  {
    if criteria != [] {
      var front, last := criteria[..|criteria| - 1], criteria[|criteria| - 1];
      SiblingsAre(front, id);
      assert criteria[|criteria| - 1].id == last.id;
      assert forall i :: 0 <= i < |front| ==> front[i] == criteria[i];
    }
  }

  lemma {:induction false} GatesAre(gates: seq<Gate>, id: string)
    ensures id in GateIndex(gates) <==> exists i :: 0 <= i < |gates| && gates[i].id == id
    ensures id in GateIndex(gates) ==> GateIndex(gates)[id] in gates && GateIndex(gates)[id].id == id
  {
    if gates != [] {
      var front, last := gates[..|gates| - 1], gates[|gates| - 1];
      GatesAre(front, id);
      assert gates[|gates| - 1].id == last.id;
      assert forall i :: 0 <= i < |front| ==> front[i] == gates[i];
    }
  }

  lemma {:induction false} ResultsAre(results: seq<GateResult>, id: string)
    ensures id in ResultIndex(results) <==> exists i :: 0 <= i < |results| && results[i].id == id
    ensures id in ResultIndex(results) ==> ResultIndex(results)[id] in results && ResultIndex(results)[id].id == id
  {
    if results != [] {
      var front, last := results[..|results| - 1], results[|results| - 1];
      ResultsAre(front, id);
      assert results[|results| - 1].id == last.id;
      assert forall i :: 0 <= i < |front| ==> front[i] == results[i];
    }
  }

  // ------------------------------------------------------------ the static validator

  const ABSORBED: set<string> := {"constraint", "data_shape", "example"}

  datatype Finding =
    | Uncovered | SelfCovered | ForeignParent | ParentNotVerifiable | ParentInactive | Unreviewed | UnexpectedParent

  /** `_classification_findings`. */
  method ClassificationFindings(c: Criterion, siblings: map<string, Criterion>) returns (findings: seq<Finding>)
    ensures findings == [] <==> WellClassified(c, siblings)
    ensures c.kind in ABSORBED && c.coveredBy in siblings && c.coveredBy != "" && c.coveredBy != c.id ==>
              (ParentNotVerifiable in findings <==> siblings[c.coveredBy].kind != "criterion")
              && (ParentInactive in findings <==> !siblings[c.coveredBy].active)
  {
    findings := [];
    if c.kind in ABSORBED {
      if c.coveredBy == "" {
        findings := findings + [Uncovered];
      } else if c.coveredBy == c.id {
        findings := findings + [SelfCovered];
      } else if c.coveredBy !in siblings {
        findings := findings + [ForeignParent];
      } else {
        var parent := siblings[c.coveredBy];
        if parent.kind != "criterion" {
          findings := findings + [ParentNotVerifiable];
        }
        if !parent.active {
          findings := findings + [ParentInactive];
        }
      }
      if !c.reviewed {
        findings := findings + [Unreviewed];
      }
    } else {
      if c.coveredBy != "" {
        findings := findings + [UnexpectedParent];
      }
      if c.kind == "needs_rewrite" && !c.reviewed {
        findings := findings + [Unreviewed];
      }
    }
  }

  /** An absorbed criterion is absorbed by another one of its requirement, which
      carries its own verification and is active. */
  predicate WellClassified(c: Criterion, siblings: map<string, Criterion>) {
    if c.kind in ABSORBED then
      && c.coveredBy != "" && c.coveredBy != c.id && c.coveredBy in siblings
      && siblings[c.coveredBy].kind == "criterion" && siblings[c.coveredBy].active
      && c.reviewed
    else c.coveredBy == "" && (c.kind == "needs_rewrite" ==> c.reviewed)
  }

  /** The part of "no findings" that the verdict relies on. */
  predicate StaticallyClean(t: Trace) {
    && (forall i :: 0 <= i < |t.requirements| ==> CleanCriteria(t.requirements[i]))
    && (forall l :: l in t.links && l.gate != "" ==> l.gate in GateIndex(t.gates))
  }

  predicate CleanCriteria(r: Requirement) {
    forall j :: 0 <= j < |r.criteria| ==> WellClassified(r.criteria[j], Siblings(r.criteria))
  }

  // ------------------------------------------------------------ coverage

  /** Link by link, what must have one: plans only functions, code and tests functions and
      security, measurements what is measured, and a specification all but goals and scope. */
  lemma RequiredIff(r: Requirement, c: Criterion, link: string)
    ensures var built := r.kind == "functional" || r.kind == "security" || r.kind == "tech_security";
            var measured := !built && (r.kind == "non_functional" || c.profile == "measurement");
            var goal := !measured && (r.kind == "mvp" || r.kind == "scope");
            link in RequiredLinks(r, c)
            <==> || (link == "planned_by" && r.kind == "functional")
                 || (link == "implemented_by" && built)
                 || (link == "verified_by" && built)
                 || (link == "measured_by" && measured)
                 || (link == "specified_by" && !goal)
                 || (link == "refined_by" && goal && r.kind == "mvp")
                 || (link == "validated_by" && goal && r.kind == "mvp")
                 || (link == "guards_scope" && goal && r.kind == "scope")
  {
    DistinctKinds();
  }

  lemma DistinctKinds()
    ensures "functional" != "non_functional" && "functional" != "mvp" && "functional" != "scope"
    ensures "security" != "non_functional" && "security" != "mvp" && "security" != "scope"
    ensures "tech_security" != "non_functional" && "tech_security" != "mvp" && "tech_security" != "scope"
    ensures "mvp" != "scope" && "functional" != "security" && "functional" != "tech_security"
  {
    assert "functional"[0] == 'f' && "security"[0] == 's';
  }

  function RequiredLinks(r: Requirement, c: Criterion): set<string> {
    if r.kind == "functional" then {"planned_by", "specified_by", "implemented_by", "verified_by"}
    else if r.kind == "security" || r.kind == "tech_security" then {"specified_by", "implemented_by", "verified_by"}
    else if r.kind == "non_functional" || c.profile == "measurement" then {"specified_by", "measured_by"}
    else if r.kind == "mvp" then {"refined_by", "validated_by"}
    else if r.kind == "scope" then {"guards_scope"}
    else {"specified_by"}
  }

  function PrimaryKinds(links: seq<Link>): set<string> {
    set i | 0 <= i < |links| && links[i].primary :: links[i].kind
  }

  datatype Status = CoveredByParent | NeedsRewrite | Verifiable | Specified

  datatype Row = Row(requirement: Requirement, criterion: Criterion, status: Status, missing: set<string>)

  function RowOf(t: Trace, r: Requirement, c: Criterion): Row {
    if c.kind in ABSORBED then Row(r, c, CoveredByParent, {})
    else if c.kind == "needs_rewrite" then Row(r, c, NeedsRewrite, {})
    else
      var missing := RequiredLinks(r, c) - PrimaryKinds(LinksFrom(t.links, c.id));
      Row(r, c, if missing == {} then Verifiable else Specified, missing)
  }

  function RowsOf(t: Trace, r: Requirement, k: nat): seq<Row>
    requires k <= |r.criteria|
  {
    if k == 0 then []
    else RowsOf(t, r, k - 1) + if r.criteria[k - 1].active then [RowOf(t, r, r.criteria[k - 1])] else []
  }

  function CoverageRows(t: Trace, k: nat): seq<Row>
    requires k <= |t.requirements|
  {
    if k == 0 then []
    else
      var r := t.requirements[k - 1];
      CoverageRows(t, k - 1) + if r.active then RowsOf(t, r, |r.criteria|) else []
  }

  /** `coverage` over every requirement. */
  method Coverage(t: Trace) returns (rows: seq<Row>)
    ensures rows == CoverageRows(t, |t.requirements|)
  {
    rows := [];
    for i := 0 to |t.requirements|
      invariant rows == CoverageRows(t, i)
    {
      var r := t.requirements[i];
      if r.active {
        ghost var before := rows;
        for j := 0 to |r.criteria|
          invariant rows == before + RowsOf(t, r, j)
        {
          hide RowOf;
          if r.criteria[j].active {
            rows := rows + [RowOf(t, r, r.criteria[j])];
          }
        }
      }
    }
  }

  lemma {:induction false} RowsContain(t: Trace, r: Requirement, k: nat, j: nat)
    requires j < k <= |r.criteria| && r.criteria[j].active
    ensures RowOf(t, r, r.criteria[j]) in RowsOf(t, r, k)
  {
    hide RowOf;
    if j < k - 1 {
      RowsContain(t, r, k - 1, j);
    }
  }

  /** Every active criterion of an active requirement has its row. */
  lemma {:induction false} CoverageContains(t: Trace, k: nat, i: nat, j: nat)
    requires i < k <= |t.requirements| && j < |t.requirements[i].criteria|
    requires t.requirements[i].active && t.requirements[i].criteria[j].active
    ensures RowOf(t, t.requirements[i], t.requirements[i].criteria[j]) in CoverageRows(t, k)
  {
    hide RowOf, RowsOf;
    if i < k - 1 {
      CoverageContains(t, k - 1, i, j);
    } else {
      RowsContain(t, t.requirements[i], |t.requirements[i].criteria|, j);
    }
  }

  // ------------------------------------------------------------ gate results

  datatype GateError =
    | Unreported(gate: string, leg: string)
    | Undeclared(gate: string, leg: string)
    | BadState(gate: string, leg: string, state: string)
    | UnknownGate(gate: string)
    | DuplicateGate(gate: string)
    | ArtifactMismatch(gate: string)
    | NeedsSkipReason(gate: string)
    | Invalid

  const LEG_STATES: set<string> := {"executed", "skipped", "not-applicable"}
  const RESERVED: set<string> := {"profile"}

  /** Every leg is accounted for, and only declared ones are. */
  predicate EnvironmentAccounted(definition: Gate, gate: GateResult) {
    && definition.legs <= gate.environment.Keys
    && forall name :: name in gate.environment && name !in RESERVED ==>
         name in definition.legs && gate.environment[name] in LEG_STATES
  }

  predicate IsEnvironmentError(definition: Gate, gate: GateResult, e: GateError) {
    match e
    case Unreported(g, leg) => g == gate.id && leg in definition.legs && leg !in gate.environment
    case Undeclared(g, leg) => g == gate.id && leg in gate.environment && leg !in RESERVED && leg !in definition.legs
    case BadState(g, leg, state) =>
      g == gate.id && leg in gate.environment && leg !in RESERVED && leg in definition.legs
      && state == gate.environment[leg] && state !in LEG_STATES
    case _ => false
  }

  /** `_environment_errors`; the loops run over sorted names. */
  method EnvironmentErrors(definition: Gate, gate: GateResult) returns (errors: seq<GateError>)
    ensures forall e :: e in errors <==> IsEnvironmentError(definition, gate, e)
    ensures errors == [] <==> EnvironmentAccounted(definition, gate)
  {
    errors := [];
    var left := definition.legs - gate.environment.Keys;
    ghost var unreported := left;
    while left != {}
      invariant left <= unreported
      invariant forall e :: e in errors <==> e.Unreported? && e.gate == gate.id && e.leg in unreported - left
    {
      var name :| name in left;
      errors := errors + [Unreported(gate.id, name)];
      left := left - {name};
    }
    left := gate.environment.Keys;
    while left != {}
      invariant left <= gate.environment.Keys
      invariant forall e :: e in errors <==>
                  IsEnvironmentError(definition, gate, e) && (e.Unreported? || e.leg !in left)
    {
      var name :| name in left;
      errors := errors + LegErrors(definition, gate, name);
      left := left - {name};
    }
    NoErrorsIffAccounted(definition, gate, errors);
  }

  /** One round of the second loop. */
  function LegErrors(definition: Gate, gate: GateResult, name: string): (errors: seq<GateError>)
    requires name in gate.environment
    ensures forall e :: e in errors <==> IsEnvironmentError(definition, gate, e) && !e.Unreported? && e.leg == name
  {
    if name in RESERVED then []
    else if name !in definition.legs then [Undeclared(gate.id, name)]
    else if gate.environment[name] !in LEG_STATES then [BadState(gate.id, name, gate.environment[name])]
    else []
  }

  lemma NoErrorsIffAccounted(definition: Gate, gate: GateResult, errors: seq<GateError>)
    requires forall e :: e in errors <==> IsEnvironmentError(definition, gate, e)
    ensures errors == [] <==> EnvironmentAccounted(definition, gate)
  {
    if errors == [] {
      forall leg | leg in definition.legs
        ensures leg in gate.environment
      {
        assert Unreported(gate.id, leg) !in errors;
      }
      forall name | name in gate.environment && name !in RESERVED
        ensures name in definition.legs && gate.environment[name] in LEG_STATES
      {
        assert Undeclared(gate.id, name) !in errors;
        assert BadState(gate.id, name, gate.environment[name]) !in errors;
      }
    } else {
      assert IsEnvironmentError(definition, gate, errors[0]);
    }
  }

  /** The results file is valid: `sound` stands for its schema, commit, clean tree
      and gate definition hash. */
  predicate ResultsValid(gates: seq<Gate>, results: seq<GateResult>, sound: bool) {
    && sound
    && (forall i, j :: 0 <= i < j < |results| ==> results[i].id != results[j].id)
    && (forall i :: 0 <= i < |results| ==> ResultValid(GateIndex(gates), results[i]))
  }

  predicate ResultValid(index: map<string, Gate>, g: GateResult) {
    && g.id in index && EnvironmentAccounted(index[g.id], g)
    && g.artifactsMatch
    && (g.status == "skipped" ==> g.skipReason)
  }

  /** `validate_gate_results`. */
  method ValidateGateResults(gates: seq<Gate>, results: seq<GateResult>, sound: bool) returns (errors: seq<GateError>)
    ensures errors == [] <==> ResultsValid(gates, results, sound)
  {
    errors := if sound then [] else [Invalid];
    var index := GateIndex(gates);
    var seen: set<string> := {};
    hide EnvironmentAccounted, GateIndex;
    for k := 0 to |results|
      invariant forall id :: id in seen <==> exists i :: 0 <= i < k && results[i].id == id
      invariant errors == [] <==>
                  && sound
                  && (forall i, j :: 0 <= i < j < k ==> results[i].id != results[j].id)
                  && (forall i :: 0 <= i < k ==> ResultValid(index, results[i]))
    {
      var gate := results[k];
      var more := OneResult(index, gate, gate.id in seen);
      errors := errors + more;
      seen := seen + {gate.id};
    }
  }

  /** The body of that loop. */
  method OneResult(index: map<string, Gate>, gate: GateResult, seen: bool) returns (errors: seq<GateError>)
    ensures errors == [] <==> ResultValid(index, gate) && !seen
  {
    errors := [];
    hide EnvironmentAccounted;
    if gate.id !in index {
      errors := errors + [UnknownGate(gate.id)];
    } else {
      var more := EnvironmentErrors(index[gate.id], gate);
      errors := errors + more;
    }
    if seen {
      errors := errors + [DuplicateGate(gate.id)];
    }
    if !gate.artifactsMatch {
      errors := errors + [ArtifactMismatch(gate.id)];
    }
    if gate.status == "skipped" && !gate.skipReason {
      errors := errors + [NeedsSkipReason(gate.id)];
    }
  }

  // ------------------------------------------------------------ the verdict on one criterion

  const EVIDENCE_KINDS: set<string> := {"verified_by", "measured_by", "validated_by", "guards_scope"}

  predicate IsEvidence(l: Link) {
    l.gate != "" && l.kind in EVIDENCE_KINDS && l.primary
  }

  function EvidenceLinks(t: Trace, id: string): set<Link> {
    set i | 0 <= i < |LinksFrom(t.links, id)| && IsEvidence(LinksFrom(t.links, id)[i]) :: LinksFrom(t.links, id)[i]
  }

  function RequiredGates(evidence: set<Link>): set<string> {
    set l | l in evidence :: l.gate
  }

  /** `unexecuted_legs`. */
  function UnexecutedLegs(definition: Gate, gate: GateResult): set<string> {
    set name | name in definition.legs
               && (if name in gate.environment then gate.environment[name] else "skipped") != "executed"
  }

  datatype Verdict = Covered | Rewrite | BlockedStatic | NoCurrentEvidence | Skipped | Failed | SelectorUnproven
                   | EnvironmentIncomplete | Verified | OnlyVerifiable

  predicate Passed(results: map<string, GateResult>, gate: string) {
    gate in results && results[gate].status == "passed"
  }

  function VerdictOf(t: Trace, results: map<string, GateResult>, row: Row): Verdict {
    var evidence := EvidenceLinks(t, row.criterion.id);
    var gates := RequiredGates(evidence);
    var failed := set g | g in gates && g in results && results[g].status != "passed";
    var unproven := set l | l in evidence && Passed(results, l.gate) && l.locator !in results[l.gate].selectors;
    var index := GateIndex(t.gates);
    var incomplete := set g | g in gates && Passed(results, g) && g in index
                              && UnexecutedLegs(index[g], results[g]) != {};
    if row.status == CoveredByParent then Covered
    else if row.status == NeedsRewrite then Rewrite
    else if row.missing != {} then BlockedStatic
    else if exists g :: g in gates && g !in results then NoCurrentEvidence
    else if failed != {} then
      if (forall g :: g in failed ==> results[g].status == "skipped") then Skipped else Failed
    else if unproven != {} then SelectorUnproven
    else if incomplete != {} then EnvironmentIncomplete
    else if gates != {} then Verified
    else OnlyVerifiable
  }

  /** What a verified criterion has, said without the computation: a primary link of
      every required type, at least one gated piece of evidence, and behind each a
      gate that passed, that ran the linked selector, and every declared leg of it. */
  predicate Proven(t: Trace, results: map<string, GateResult>, r: Requirement, c: Criterion) {
    && (forall kind :: kind in RequiredLinks(r, c) ==>
          exists l :: l in t.links && l.source == c.id && l.primary && l.kind == kind)
    && (exists l :: l in t.links && l.source == c.id && IsEvidence(l))
    && (forall l :: l in t.links && l.source == c.id && IsEvidence(l) ==> EvidenceHolds(t, results, l))
  }

  predicate EvidenceHolds(t: Trace, results: map<string, GateResult>, l: Link) {
    && Passed(results, l.gate)
    && l.locator in results[l.gate].selectors
    && (l.gate in GateIndex(t.gates) ==> AllLegsExecuted(GateIndex(t.gates)[l.gate], results[l.gate]))
  }

  predicate AllLegsExecuted(definition: Gate, gate: GateResult) {
    forall leg :: leg in definition.legs ==> leg in gate.environment && gate.environment[leg] == "executed"
  }

  lemma EvidenceLinksAre(t: Trace, id: string, l: Link)
    ensures l in EvidenceLinks(t, id) <==> l in t.links && l.source == id && IsEvidence(l)
  {
    LinksFromIs(t.links, id, l);
    hide IsEvidence, LinksFrom;
    if l in LinksFrom(t.links, id) && IsEvidence(l) {
      var i :| 0 <= i < |LinksFrom(t.links, id)| && LinksFrom(t.links, id)[i] == l;
    }
  }

  lemma LegsExecutedIff(definition: Gate, gate: GateResult)
    ensures UnexecutedLegs(definition, gate) == {} <==> AllLegsExecuted(definition, gate)
  {
    if UnexecutedLegs(definition, gate) == {} {
      forall leg | leg in definition.legs
        ensures leg in gate.environment && gate.environment[leg] == "executed"
      {
        assert leg !in UnexecutedLegs(definition, gate);
      }
    }
  }

  lemma NothingMissingIff(t: Trace, r: Requirement, c: Criterion)
    ensures RequiredLinks(r, c) - PrimaryKinds(LinksFrom(t.links, c.id)) == {}
       <==> forall kind :: kind in RequiredLinks(r, c) ==>
              exists l :: l in t.links && l.source == c.id && l.primary && l.kind == kind
  {
    hide RequiredLinks;
    forall kind
      ensures kind in PrimaryKinds(LinksFrom(t.links, c.id))
         <==> exists l :: l in t.links && l.source == c.id && l.primary && l.kind == kind
    {
      PrimaryKindIff(t, c.id, kind);
    }
    var missing := RequiredLinks(r, c) - PrimaryKinds(LinksFrom(t.links, c.id));
    hide PrimaryKinds;
    assert forall kind :: kind in RequiredLinks(r, c) && kind !in missing ==>
             kind in PrimaryKinds(LinksFrom(t.links, c.id));
    if missing != {} {
      var kind :| kind in missing;
    }
  }

  lemma PrimaryKindIff(t: Trace, id: string, kind: string)
    ensures kind in PrimaryKinds(LinksFrom(t.links, id))
       <==> exists l :: l in t.links && l.source == id && l.primary && l.kind == kind
  {
    var links := LinksFrom(t.links, id);
    if kind in PrimaryKinds(links) {
      var i :| 0 <= i < |links| && links[i].primary && links[i].kind == kind;
      LinksFromIs(t.links, id, links[i]);
    }
    if exists l :: l in t.links && l.source == id && l.primary && l.kind == kind {
      var l :| l in t.links && l.source == id && l.primary && l.kind == kind;
      LinksFromIs(t.links, id, l);
      var i :| 0 <= i < |links| && links[i] == l;
    }
  }

  lemma HoldsIff(t: Trace, results: map<string, GateResult>, evidence: set<Link>)
    ensures (forall l :: l in evidence ==> EvidenceHolds(t, results, l))
       <==> && (forall g :: g in RequiredGates(evidence) ==> Passed(results, g))
            && (forall l :: l in evidence ==> Passed(results, l.gate) ==> l.locator in results[l.gate].selectors)
            && (forall g :: g in RequiredGates(evidence) && Passed(results, g) && g in GateIndex(t.gates) ==>
                  UnexecutedLegs(GateIndex(t.gates)[g], results[g]) == {})
  {
    hide UnexecutedLegs, AllLegsExecuted, GateIndex;
    forall g | g in GateIndex(t.gates) && g in results
      ensures UnexecutedLegs(GateIndex(t.gates)[g], results[g]) == {}
         <==> AllLegsExecuted(GateIndex(t.gates)[g], results[g])
    {
      LegsExecutedIff(GateIndex(t.gates)[g], results[g]);
    }
    forall l | l in evidence
      ensures l.gate in RequiredGates(evidence)
    {
    }
  }

  /** The verdict "verified" is exactly that. */
  lemma VerifiedIffProven(t: Trace, results: map<string, GateResult>, r: Requirement, c: Criterion)
    requires c.kind !in ABSORBED && c.kind != "needs_rewrite"
    ensures VerdictOf(t, results, RowOf(t, r, c)) == Verified <==> Proven(t, results, r, c)
  {
    var evidence := EvidenceLinks(t, c.id);
    NothingMissingIff(t, r, c);
    HoldsIff(t, results, evidence);
    forall l
      ensures l in evidence <==> l in t.links && l.source == c.id && IsEvidence(l)
    {
      EvidenceLinksAre(t, c.id, l);
    }
    VerdictIff(t, results, RowOf(t, r, c));
    hide VerdictOf, RequiredLinks, IsEvidence, EvidenceHolds, UnexecutedLegs, GateIndex, LinksFrom, PrimaryKinds,
         EvidenceLinks;
    if exists l :: l in evidence {
      var l :| l in evidence;
      assert l.gate in RequiredGates(evidence);
    }
  }

  lemma VerdictIff(t: Trace, results: map<string, GateResult>, row: Row)
    ensures VerdictOf(t, results, row) == Verified
       <==> && row.status != CoveredByParent && row.status != NeedsRewrite && row.missing == {}
            && var evidence := EvidenceLinks(t, row.criterion.id);
               && RequiredGates(evidence) != {}
               && (forall g :: g in RequiredGates(evidence) ==> Passed(results, g))
               && (forall l :: l in evidence ==> Passed(results, l.gate) ==> l.locator in results[l.gate].selectors)
               && (forall g :: g in RequiredGates(evidence) && Passed(results, g) && g in GateIndex(t.gates) ==>
                     UnexecutedLegs(GateIndex(t.gates)[g], results[g]) == {})
  {
    hide EvidenceLinks, RequiredGates, UnexecutedLegs, GateIndex;
    var evidence := EvidenceLinks(t, row.criterion.id);
    var gates := RequiredGates(evidence);
    var index := GateIndex(t.gates);
    var failed := set g | g in gates && g in results && results[g].status != "passed";
    var unproven := set l | l in evidence && Passed(results, l.gate) && l.locator !in results[l.gate].selectors;
    var incomplete := set g | g in gates && Passed(results, g) && g in index
                              && UnexecutedLegs(index[g], results[g]) != {};
    assert failed == {} <==> forall g :: g in gates && g in results ==> results[g].status == "passed" by {
      assert forall g :: g in gates && g in results && results[g].status != "passed" ==> g in failed;
    }
    assert unproven == {} <==> forall l :: l in evidence && Passed(results, l.gate) ==>
             l.locator in results[l.gate].selectors by {
      assert forall l :: l in evidence && Passed(results, l.gate) && l.locator !in results[l.gate].selectors ==>
               l in unproven;
    }
    assert incomplete == {} <==>
        forall g :: g in gates && Passed(results, g) && g in index ==> UnexecutedLegs(index[g], results[g]) == {} by {
      assert forall g ::
          g in gates && Passed(results, g) && g in index && UnexecutedLegs(index[g], results[g]) != {}
          ==> g in incomplete;
    }
  }

  /** What is there to be said of a criterion of its own, in the trace and the results. */
  predicate AllSpecified(t: Trace, r: Requirement, c: Criterion) {
    forall kind :: kind in RequiredLinks(r, c) ==>
      exists l :: l in t.links && l.source == c.id && l.primary && l.kind == kind
  }

  predicate HasEvidence(t: Trace, c: Criterion) {
    exists l :: l in t.links && l.source == c.id && IsEvidence(l)
  }

  predicate AllReported(t: Trace, results: map<string, GateResult>, c: Criterion) {
    forall l :: l in t.links && l.source == c.id && IsEvidence(l) ==> l.gate in results
  }

  predicate AllPassed(t: Trace, results: map<string, GateResult>, c: Criterion) {
    forall l :: l in t.links && l.source == c.id && IsEvidence(l) ==> Passed(results, l.gate)
  }

  predicate OnlySkipped(t: Trace, results: map<string, GateResult>, c: Criterion) {
    forall l :: l in t.links && l.source == c.id && IsEvidence(l) && l.gate in results ==>
      results[l.gate].status in {"passed", "skipped"}
  }

  predicate AllSelected(t: Trace, results: map<string, GateResult>, c: Criterion) {
    forall l :: l in t.links && l.source == c.id && IsEvidence(l) ==>
      l.gate in results && l.locator in results[l.gate].selectors
  }

  /** What every other verdict means: what is the first thing that a proof lacks. */
  lemma VerdictsMean(t: Trace, results: map<string, GateResult>, r: Requirement, c: Criterion)
    requires c.kind !in ABSORBED && c.kind != "needs_rewrite"
    ensures var verdict := VerdictOf(t, results, RowOf(t, r, c));
            var specified, passed := AllSpecified(t, r, c), AllPassed(t, results, c);
            && (verdict == BlockedStatic <==> !specified)
            && (verdict == NoCurrentEvidence <==> specified && !AllReported(t, results, c))
            && (verdict == Skipped <==>
                  specified && AllReported(t, results, c) && !passed && OnlySkipped(t, results, c))
            && (verdict == Failed <==>
                  specified && AllReported(t, results, c) && !passed && !OnlySkipped(t, results, c))
            && (verdict == SelectorUnproven <==> specified && passed && !AllSelected(t, results, c))
            && (verdict == EnvironmentIncomplete <==>
                  specified && passed && AllSelected(t, results, c) && HasEvidence(t, c) && !Proven(t, results, r, c))
            && (verdict == OnlyVerifiable <==> specified && !HasEvidence(t, c))
  {
    NothingMissingIff(t, r, c);
    VerifiedIffProven(t, results, r, c);
    EvidenceSets(t, results, c);
    VerdictCases(t, results, RowOf(t, r, c));
    hide VerdictOf, RequiredLinks, PrimaryKinds, LinksFrom, EvidenceLinks, GateIndex, UnexecutedLegs, Proven,
         AllReported,
      AllPassed, OnlySkipped, AllSelected, HasEvidence;
  }

  /** The verdict as a list of cases, one question each. */
  lemma VerdictCases(t: Trace, results: map<string, GateResult>, row: Row)
    ensures var evidence := EvidenceLinks(t, row.criterion.id);
            var gates, index := RequiredGates(evidence), GateIndex(t.gates);
            VerdictOf(t, results, row)
            == if row.status == CoveredByParent then Covered
               else if row.status == NeedsRewrite then Rewrite
               else if row.missing != {} then BlockedStatic
               else if !(forall g :: g in gates ==> g in results) then NoCurrentEvidence
               else if !(forall g :: g in gates ==> Passed(results, g)) then
                 if forall g :: g in gates && g in results ==> results[g].status in {"passed", "skipped"} then Skipped
                 else Failed
               else if !(forall l :: l in evidence ==> l.gate in results && l.locator in results[l.gate].selectors) then
                 SelectorUnproven
               else if !(forall g :: g in gates && g in index ==> UnexecutedLegs(index[g], results[g]) == {}) then
                 EnvironmentIncomplete
               else if gates != {} then Verified else OnlyVerifiable
  {
    var evidence := EvidenceLinks(t, row.criterion.id);
    var gates := RequiredGates(evidence);
    NoneFailedIff(results, gates);
    NoneUnprovenIff(results, evidence);
    NoneIncompleteIff(results, gates, GateIndex(t.gates));
    GatesOfEvidence(evidence);
    hide EvidenceLinks, UnexecutedLegs, GateIndex, RequiredGates;
  }

  lemma GatesOfEvidence(evidence: set<Link>)
    ensures forall l :: l in evidence ==> l.gate in RequiredGates(evidence)
  {
  }

  lemma NoneFailedIff(results: map<string, GateResult>, gates: set<string>)
    ensures var failed := set g | g in gates && g in results && results[g].status != "passed";
            && (failed == {} <==> forall g :: g in gates && g in results ==> Passed(results, g))
            && ((forall g :: g in failed ==> results[g].status == "skipped")
                <==> forall g :: g in gates && g in results ==> results[g].status in {"passed", "skipped"})
  {
    var failed := set g | g in gates && g in results && results[g].status != "passed";
    assert forall g :: g in gates && g in results && results[g].status != "passed" ==> g in failed;
  }

  lemma NoneUnprovenIff(results: map<string, GateResult>, evidence: set<Link>)
    ensures (set l | l in evidence && Passed(results, l.gate) && l.locator !in results[l.gate].selectors) == {}
       <==> forall l :: l in evidence && Passed(results, l.gate) ==> l.locator in results[l.gate].selectors
  {
    var unproven := set l | l in evidence && Passed(results, l.gate) && l.locator !in results[l.gate].selectors;
    assert forall l :: l in evidence && Passed(results, l.gate) && l.locator !in results[l.gate].selectors ==>
             l in unproven;
  }

  lemma NoneIncompleteIff(results: map<string, GateResult>, gates: set<string>, index: map<string, Gate>)
    ensures (set g | g in gates && Passed(results, g) && g in index && UnexecutedLegs(index[g], results[g]) != {}) == {}
       <==> forall g :: g in gates && Passed(results, g) && g in index ==> UnexecutedLegs(index[g], results[g]) == {}
  {
    hide UnexecutedLegs;
    var incomplete := set g | g in gates && Passed(results, g) && g in index
                              && UnexecutedLegs(index[g], results[g]) != {};
    assert forall g :: g in gates && Passed(results, g) && g in index && UnexecutedLegs(index[g], results[g]) != {} ==>
             g in incomplete;
  }

  /** The same on the sets that the verdict is computed from. */
  lemma EvidenceSets(t: Trace, results: map<string, GateResult>, c: Criterion)
    ensures var evidence := EvidenceLinks(t, c.id);
            var gates := RequiredGates(evidence);
            && (HasEvidence(t, c) <==> gates != {})
            && (AllReported(t, results, c) <==> forall g :: g in gates ==> g in results)
            && (AllPassed(t, results, c) <==> forall g :: g in gates ==> Passed(results, g))
            && (OnlySkipped(t, results, c) <==>
                  forall g :: g in gates && g in results ==> results[g].status in {"passed", "skipped"})
            && (AllSelected(t, results, c) <==>
                  forall l :: l in evidence ==> l.gate in results && l.locator in results[l.gate].selectors)
  {
    var evidence := EvidenceLinks(t, c.id);
    forall l
      ensures l in evidence <==> l in t.links && l.source == c.id && IsEvidence(l)
    {
      EvidenceLinksAre(t, c.id, l);
    }
    hide EvidenceLinks, IsEvidence;
    assert forall l :: l in evidence ==> l.gate in RequiredGates(evidence);
    assert forall g :: g in RequiredGates(evidence) ==> exists l :: l in evidence && l.gate == g;
  }

  // ------------------------------------------------------------ the snapshot

  predicate Blocking(t: Trace, results: map<string, GateResult>, row: Row) {
    row.requirement.must && VerdictOf(t, results, row) !in {Verified, Covered}
  }

  /** `snapshot`: the verdict on each row, and whether the release is accepted. */
  method Snapshot(t: Trace, results: seq<GateResult>, sound: bool)
    returns (verdicts: seq<Verdict>, accepted: bool)
    ensures var rows := CoverageRows(t, |t.requirements|);
            && |verdicts| == |rows|
            && (forall i :: 0 <= i < |rows| ==> verdicts[i] == VerdictOf(t, ResultIndex(results), rows[i]))
            && (accepted <==> Accepted(t, results, sound))
  {
    hide VerdictOf, ResultsValid, CoverageRows, ResultIndex;
    var errors := ValidateGateResults(t.gates, results, sound);
    var rows := Coverage(t);
    var index := ResultIndex(results);
    verdicts := [];
    var blocking := 0;
    for i := 0 to |rows|
      invariant |verdicts| == i
      invariant forall k :: 0 <= k < i ==> verdicts[k] == VerdictOf(t, index, rows[k])
      invariant blocking >= 0 && (blocking == 0 <==> forall k :: 0 <= k < i ==> !Blocking(t, index, rows[k]))
    {
      var verdict := VerdictOf(t, index, rows[i]);
      verdicts := verdicts + [verdict];
      if rows[i].requirement.must && verdict !in {Verified, Covered} {
        blocking := blocking + 1;
      }
    }
    accepted := blocking == 0 && errors == [];
  }

  predicate Accepted(t: Trace, results: seq<GateResult>, sound: bool) {
    && ResultsValid(t.gates, results, sound)
    && var rows := CoverageRows(t, |t.requirements|);
       forall i :: 0 <= i < |rows| ==> !Blocking(t, ResultIndex(results), rows[i])
  }

  /** The main result. With a clean validator and an accepted snapshot, every active
      criterion that must hold is proven, or is absorbed by another criterion of its
      requirement that is proven itself. */
  lemma AcceptedIsSound(t: Trace, results: seq<GateResult>, sound: bool, i: nat, j: nat)
    requires StaticallyClean(t) && Accepted(t, results, sound)
    requires i < |t.requirements| && j < |t.requirements[i].criteria|
    requires t.requirements[i].active && t.requirements[i].must && t.requirements[i].criteria[j].active
    ensures var r, c := t.requirements[i], t.requirements[i].criteria[j];
            && c.kind != "needs_rewrite"
            && if c.kind !in ABSORBED then Proven(t, ResultIndex(results), r, c)
               else
                 exists p :: 0 <= p < |r.criteria| && r.criteria[p].id == c.coveredBy && r.criteria[p].id != c.id
                             && Proven(t, ResultIndex(results), r, r.criteria[p])
  {
    var r, c := t.requirements[i], t.requirements[i].criteria[j];
    hide Proven, VerdictOf, GateIndex, ResultsValid, CoverageRows;
    NotBlocking(t, results, sound, i, j);
    assert CleanCriteria(r) && WellClassified(c, Siblings(r.criteria));
    if c.kind in ABSORBED {
      SiblingsAre(r.criteria, c.coveredBy);
      var parent := Siblings(r.criteria)[c.coveredBy];
      var p :| 0 <= p < |r.criteria| && r.criteria[p] == parent;
      NotBlocking(t, results, sound, i, p);
      VerifiedIffProven(t, ResultIndex(results), r, parent);
    } else {
      VerifiedIffProven(t, ResultIndex(results), r, c);
    }
  }

  /** A row that must hold and does not block is verified, or stands for a part of
      another criterion. */
  lemma NotBlocking(t: Trace, results: seq<GateResult>, sound: bool, i: nat, j: nat)
    requires Accepted(t, results, sound)
    requires i < |t.requirements| && j < |t.requirements[i].criteria|
    requires t.requirements[i].active && t.requirements[i].must && t.requirements[i].criteria[j].active
    ensures var c := t.requirements[i].criteria[j];
            && c.kind != "needs_rewrite"
            && (c.kind !in ABSORBED ==> VerdictOf(t, ResultIndex(results), RowOf(t, t.requirements[i], c)) == Verified)
  {
    var r, c := t.requirements[i], t.requirements[i].criteria[j];
    var rows := CoverageRows(t, |t.requirements|);
    CoverageContains(t, |t.requirements|, i, j);
    var k :| 0 <= k < |rows| && rows[k] == RowOf(t, r, c);
    assert !Blocking(t, ResultIndex(results), rows[k]);
    CoveredOnlyIfAbsorbed(t, ResultIndex(results), r, c);
  }

  lemma CoveredOnlyIfAbsorbed(t: Trace, results: map<string, GateResult>, r: Requirement, c: Criterion)
    ensures VerdictOf(t, results, RowOf(t, r, c)) == Covered <==> c.kind in ABSORBED
    ensures c.kind == "needs_rewrite" ==> VerdictOf(t, results, RowOf(t, r, c)) == Rewrite
  {
  }

  lemma {:induction false} RowComesFrom(t: Trace, r: Requirement, k: nat, row: Row) returns (j: nat)
    requires k <= |r.criteria| && row in RowsOf(t, r, k)
    ensures j < k && r.criteria[j].active && row == RowOf(t, r, r.criteria[j])
  {
    hide RowOf;
    if row in RowsOf(t, r, k - 1) {
      j := RowComesFrom(t, r, k - 1, row);
    } else {
      j := k - 1;
    }
  }

  /** A row stands for an active criterion of an active requirement. */
  lemma {:induction false} CoverageComesFrom(t: Trace, k: nat, row: Row) returns (i: nat, j: nat)
    requires k <= |t.requirements| && row in CoverageRows(t, k)
    ensures i < k && t.requirements[i].active
    ensures j < |t.requirements[i].criteria| && t.requirements[i].criteria[j].active
    ensures row == RowOf(t, t.requirements[i], t.requirements[i].criteria[j])
  {
    hide RowOf, RowsOf;
    if row in CoverageRows(t, k - 1) {
      i, j := CoverageComesFrom(t, k - 1, row);
    } else {
      i := k - 1;
      j := RowComesFrom(t, t.requirements[i], |t.requirements[i].criteria|, row);
    }
  }

  /** A criterion that stands in the way of no release. */
  predicate Holds(t: Trace, results: map<string, GateResult>, r: Requirement, c: Criterion) {
    c.kind != "needs_rewrite" && (c.kind !in ABSORBED ==> Proven(t, results, r, c))
  }

  /** The release is accepted exactly if the results are valid and every active criterion
      of what must hold is proven or absorbed: nothing is missed, and nothing else blocks. */
  lemma AcceptedIff(t: Trace, results: seq<GateResult>, sound: bool)
    ensures Accepted(t, results, sound)
       <==> && ResultsValid(t.gates, results, sound)
            && forall i, j :: 0 <= i < |t.requirements| && 0 <= j < |t.requirements[i].criteria|
                              && t.requirements[i].active && t.requirements[i].must
                                   && t.requirements[i].criteria[j].active
                  ==> Holds(t, ResultIndex(results), t.requirements[i], t.requirements[i].criteria[j])
  {
    hide ResultsValid, CoverageRows, ResultIndex, Proven, VerdictOf, RowOf;
    var rows := CoverageRows(t, |t.requirements|);
    if Accepted(t, results, sound) {
      forall i, j | 0 <= i < |t.requirements| && 0 <= j < |t.requirements[i].criteria|
                    && t.requirements[i].active && t.requirements[i].must && t.requirements[i].criteria[j].active
        ensures Holds(t, ResultIndex(results), t.requirements[i], t.requirements[i].criteria[j])
      {
        NotBlocking(t, results, sound, i, j);
        BlocksIff(t, ResultIndex(results), t.requirements[i], t.requirements[i].criteria[j]);
      }
    }
    forall k | 0 <= k < |rows|
      ensures exists i, j :: && 0 <= i < |t.requirements| && 0 <= j < |t.requirements[i].criteria|
                             && t.requirements[i].active && t.requirements[i].criteria[j].active
                             && rows[k] == RowOf(t, t.requirements[i], t.requirements[i].criteria[j])
    {
      var i, j := CoverageComesFrom(t, |t.requirements|, rows[k]);
    }
    forall i, j | 0 <= i < |t.requirements| && 0 <= j < |t.requirements[i].criteria|
      ensures Blocking(t, ResultIndex(results), RowOf(t, t.requirements[i], t.requirements[i].criteria[j]))
         <==> t.requirements[i].must
              && !Holds(t, ResultIndex(results), t.requirements[i], t.requirements[i].criteria[j])
    {
      BlocksIff(t, ResultIndex(results), t.requirements[i], t.requirements[i].criteria[j]);
    }
  }

  lemma BlocksIff(t: Trace, results: map<string, GateResult>, r: Requirement, c: Criterion)
    ensures Blocking(t, results, RowOf(t, r, c)) <==> r.must && !Holds(t, results, r, c)
  {
    CoveredOnlyIfAbsorbed(t, results, r, c);
    if c.kind !in ABSORBED && c.kind != "needs_rewrite" {
      VerifiedIffProven(t, results, r, c);
    }
    OwnRow(t, r, c);
    hide VerdictOf, Proven, RowOf;
  }

  lemma OwnRow(t: Trace, r: Requirement, c: Criterion)
    ensures RowOf(t, r, c).requirement == r
  {
  }

  /** Under the clean validator every gate behind the evidence is declared, so the
      legs of `Proven` are never skipped over. */
  lemma EveryGateIsDeclared(t: Trace, results: map<string, GateResult>, r: Requirement, c: Criterion, l: Link)
    requires StaticallyClean(t) && Proven(t, results, r, c) && l in t.links && l.source == c.id && IsEvidence(l)
    ensures l.gate in GateIndex(t.gates) && GateIndex(t.gates)[l.gate].id == l.gate
    ensures Passed(results, l.gate) && AllLegsExecuted(GateIndex(t.gates)[l.gate], results[l.gate])
  {
    hide AllLegsExecuted, GateIndex;
    GatesAre(t.gates, l.gate);
    assert EvidenceHolds(t, results, l);
  }
}
