/** Revision records, digests, and the derivation of one revision commit from the design
    head (`application.py`, `_derive_commit` and `_rederive_commit`).

    A digest is modelled as the record of the fields it covers, so two digests are equal
    exactly when the covered fields are: the collision-freedom the source relies on. The
    16-character digest prefixes in a request identifier are taken to be collision-free too. */
module Revisions {
  import opened Wrappers
  import opened Identifiers

  const MAX_DESIGN_ID_LENGTH: nat := 64
  const MAX_SUMMARY_LENGTH: nat := 512
  const DIGEST_PREFIX_LENGTH: nat := 16
  const TRANSFORM_REFERENCE_EVALUATION := "reference-workflow-evaluation"

  datatype Error =
    | InvalidIdentifier | UnknownDomain | UnknownRevision | ForkRefused | InvalidParameters
    | BudgetExhausted | ArtifactMissing | UnknownPrepared | NotPending | DigestMismatch
    | DecisionDenied | HeadMoved | StorageFailure | CorruptKernelState | ProvenanceUnavailable

  /** What the domain packages compute. `parse` validates parameters (absent ones default to
      the reference parameters) and yields their canonical form; `report` is the canonical
      report text of one evaluation. */
  datatype Packages = Packages(
    domains: set<string>,
    parse: (string, Option<string>) -> Option<string>,
    report: (string, string, string) -> string,
    digest: string -> string,
    describe: (string, string) -> string)

  /** What the registered packages are relied on for: a validated parameter document
      validates to itself, and the default summary is acceptable summary text. */
  ghost predicate Sound(pk: Packages) {
    && (forall d, p :: pk.parse(d, p).Some? ==> pk.parse(d, pk.parse(d, p)) == pk.parse(d, p))
    && (forall d, s :: RequireText(pk.describe(d, s), MAX_SUMMARY_LENGTH) == Some(pk.describe(d, s)))
  }

  datatype Spec = Spec(designId: string, domain: string, summary: string, packageDigest: string, parameters: string, report: string)

  datatype Artifact = Artifact(domain: string, content: string)

  datatype Provenance = Provenance(
    provenanceId: string, designId: string, artifact: Artifact, packageDigest: string,
    parents: seq<string>, transformations: set<string>)

  datatype Revision = Revision(
    revisionId: string, designId: string, sequence: nat, spec: Spec,
    parentRevisionId: Option<string>, artifact: Artifact, provenanceId: string)

  datatype HeadFacts = HeadFacts(revisionId: string, sequence: nat, spec: Spec)

  datatype StateDigest = StateDigest(
    artifact: Artifact, head: Option<HeadFacts>, designId: string, domain: string, packageDigest: string,
    parameters: string, parents: seq<string>, parentRevisionId: Option<string>, provenanceId: string,
    spec: Spec, transformations: set<string>)

  datatype ActionDigest = ActionDigest(
    designId: string, domain: string, expectedHead: Option<string>, plannedRevisionId: string,
    plannedSequence: nat, spec: Spec, state: StateDigest, workflowId: Option<string>)

  datatype RequestId = RequestId(designId: string, state: StateDigest, action: ActionDigest)

  /** The length of `commit-<design>-<16 characters>-<16 characters>`. */
  function RequestIdLength(r: RequestId): nat {
    |"commit-"| + |r.designId| + 1 + DIGEST_PREFIX_LENGTH + 1 + DIGEST_PREFIX_LENGTH
  }

  // ----- The revision table -----

  /** The row with the greatest sequence number of a design. */
  function LatestForDesign(rows: seq<Revision>, design: string): Option<Revision> {
    if rows == [] then None
    else
      var earlier := LatestForDesign(rows[..|rows| - 1], design);
      var last := rows[|rows| - 1];
      if last.designId == design && (earlier.None? || earlier.value.sequence < last.sequence) then Some(last)
      else earlier
  }

  /** The row stored under a revision identifier. */
  function GetRevision(rows: seq<Revision>, id: string): (r: Option<Revision>)
    ensures r.Some? ==> r.value in rows && r.value.revisionId == id
    ensures r.None? ==> forall i :: 0 <= i < |rows| ==> rows[i].revisionId != id
  {
    if rows == [] then None
    else if rows[|rows| - 1].revisionId == id then Some(rows[|rows| - 1])
    else
      assert rows == rows[..|rows| - 1] + [rows[|rows| - 1]];
      GetRevision(rows[..|rows| - 1], id)
  }

  function IdOf(r: Option<Revision>): Option<string> {
    if r.Some? then Some(r.value.revisionId) else None
  }

  /** The revisions of one design, in the order they were stored. */
  function History(rows: seq<Revision>, design: string): seq<Revision> {
    if rows == [] then []
    else
      var earlier := History(rows[..|rows| - 1], design);
      if rows[|rows| - 1].designId == design then earlier + [rows[|rows| - 1]] else earlier
  }

  /** One row continues the chain of its design in the table `before` it. */
  predicate Continues(before: seq<Revision>, r: Revision) {
    && r.sequence == |History(before, r.designId)|
    && r.revisionId == RevisionId(r.designId, r.sequence)
    && r.provenanceId == ProvenanceId(r.designId, r.sequence)
    && r.parentRevisionId == (if r.sequence == 0 then None else Some(RevisionId(r.designId, r.sequence - 1)))
  }

  predicate Chained(rows: seq<Revision>) {
    forall i {:trigger Continues(rows[..i], rows[i])} :: 0 <= i < |rows| ==> Continues(rows[..i], rows[i])
  }

  lemma ChainedPrefix(rows: seq<Revision>, n: nat)
    requires Chained(rows) && n <= |rows|
    ensures Chained(rows[..n])
  {
    forall i | 0 <= i < n
      ensures Continues(rows[..n][..i], rows[..n][i])
    {
      assert Continues(rows[..i], rows[i]);
      assert rows[..n][..i] == rows[..i];
    }
  }

  lemma ChainedAppend(rows: seq<Revision>, r: Revision)
    requires Chained(rows) && Continues(rows, r)
    ensures Chained(rows + [r])
  {
    var all := rows + [r];
    forall i | 0 <= i < |all|
      ensures Continues(all[..i], all[i])
    {
      assert all[..i] == rows[..i];
      if i == |rows| {
        assert rows[..i] == rows;
      } else {
        assert Continues(rows[..i], rows[i]);
      }
    }
  }

  lemma {:induction false} HistoryAppend(rows: seq<Revision>, more: seq<Revision>, design: string)
    ensures History(rows + more, design) == History(rows, design) + History(more, design)
  {
    if more == [] {
      assert rows + more == rows;
    } else {
      var all := rows + more;
      assert all[..|all| - 1] == rows + more[..|more| - 1];
      HistoryAppend(rows, more[..|more| - 1], design);
    }
  }

  lemma {:induction false} HistoryElement(rows: seq<Revision>, design: string, k: nat) returns (i: nat)
    requires k < |History(rows, design)|
    ensures i < |rows| && rows[i] == History(rows, design)[k]
    ensures rows[i].designId == design && |History(rows[..i], design)| == k
  {
    var last := |rows| - 1;
    if k < |History(rows[..last], design)| {
      i := HistoryElement(rows[..last], design, k);
      assert rows[..last][..i] == rows[..i];
    } else {
      i := last;
    }
  }

  /** Position k of a history holds revision rk of the design, and its parent is exactly
      revision r(k-1) of the same design. */
  predicate Linked(r: Revision, design: string, k: nat) {
    && r.designId == design
    && r.sequence == k
    && r.revisionId == RevisionId(design, k)
    && r.provenanceId == ProvenanceId(design, k)
    && r.parentRevisionId == (if k == 0 then None else Some(RevisionId(design, k - 1)))
  }

  /** In a chained table, the history of a design is the unforked chain r0, r1, r2, ... */
  lemma HistoryIsUnforked(rows: seq<Revision>, design: string)
    requires Chained(rows)
    ensures var h := History(rows, design); forall k :: 0 <= k < |h| ==> Linked(h[k], design, k) && h[k] in rows
  {
    var h := History(rows, design);
    forall k | 0 <= k < |h|
      ensures Linked(h[k], design, k) && h[k] in rows
    {
      var i := HistoryElement(rows, design, k);
      assert Continues(rows[..i], rows[i]);
    }
  }

  /** The head read by `latest_for_design` is the last revision of the history. */
  lemma {:induction false} LatestIsLastOfHistory(rows: seq<Revision>, design: string)
    requires Chained(rows)
    ensures var h := History(rows, design);
            LatestForDesign(rows, design) == if h == [] then None else Some(h[|h| - 1])
  {
    if rows != [] {
      ChainedPrefix(rows, |rows| - 1);
      LatestIsLastOfHistory(rows[..|rows| - 1], design);
      HistoryIsUnforked(rows[..|rows| - 1], design);
      assert Continues(rows[..|rows| - 1], rows[|rows| - 1]);
    }
  }

  lemma RowIsInHistory(rows: seq<Revision>, i: nat)
    requires Chained(rows) && i < |rows|
    ensures rows[i].sequence < |History(rows, rows[i].designId)| && History(rows, rows[i].designId)[rows[i].sequence] == rows[i]
  {
    var r := rows[i];
    assert Continues(rows[..i], r);
    assert rows == rows[..i + 1] + rows[i + 1..];
    HistoryAppend(rows[..i + 1], rows[i + 1..], r.designId);
    assert rows[..i + 1][..i] == rows[..i];
  }

  lemma RowsAreInHistory(rows: seq<Revision>, r: Revision)
    requires Chained(rows) && r in rows
    ensures r.sequence < |History(rows, r.designId)| && History(rows, r.designId)[r.sequence] == r
  {
    var i :| 0 <= i < |rows| && rows[i] == r;
    RowIsInHistory(rows, i);
  }

  /** A revision identifier names at most one row, and exactly those of the histories exist. */
  lemma LookupFindsHistory(rows: seq<Revision>, design: string, k: nat)
    requires Chained(rows)
    ensures GetRevision(rows, RevisionId(design, k)) ==
            if k < |History(rows, design)| then Some(History(rows, design)[k]) else None
  {
    HistoryIsUnforked(rows, design);
    var found := GetRevision(rows, RevisionId(design, k));
    if found.Some? {
      var r := found.value;
      RowsAreInHistory(rows, r);
      HistoryIsUnforked(rows, r.designId);
      RevisionIdIsInjective(design, k, r.designId, r.sequence);
    }
  }

  /** Later tables keep every earlier history as a prefix, so a design head is unchanged
      exactly when nothing was stored for that design. */
  lemma HeadUnchangedIffNothingStored(rows: seq<Revision>, rows': seq<Revision>, design: string)
    requires Chained(rows) && Chained(rows') && rows <= rows'
    ensures History(rows, design) <= History(rows', design)
    ensures LatestForDesign(rows, design) == LatestForDesign(rows', design) <==> History(rows, design) == History(rows', design)
    ensures IdOf(LatestForDesign(rows, design)) == IdOf(LatestForDesign(rows', design)) ==>
              LatestForDesign(rows, design) == LatestForDesign(rows', design)
  {
    hide Chained, History, LatestForDesign, RevisionId, ProvenanceId;
    assert rows' == rows + rows'[|rows|..];
    HistoryAppend(rows, rows'[|rows|..], design);
    LatestIsLastOfHistory(rows, design);
    LatestIsLastOfHistory(rows', design);
    var h, h' := History(rows, design), History(rows', design);
    HistoryIsUnforked(rows', design);
    if h != [] && |h| < |h'| {
      assert h[|h| - 1] == h'[|h| - 1];
      assert Linked(h'[|h| - 1], design, |h| - 1) && Linked(h'[|h'| - 1], design, |h'| - 1);
      if h[|h| - 1].revisionId == h'[|h'| - 1].revisionId {
        RevisionIdIsInjective(design, |h| - 1, design, |h'| - 1);
      }
    }
  }

  // ----- Deriving a commit -----

  datatype Inputs = Inputs(
    domain: string, summary: Option<string>, parameters: Option<string>, parentRevisionId: Option<string>,
    parentProvenanceIds: seq<string>, transformationIds: set<string>, workflowId: Option<string>)

  datatype Derived = Derived(
    designId: string, domain: string, revisionId: string, provenanceId: string, sequence: nat,
    parentRevisionId: Option<string>, expectedHead: Option<string>, spec: Spec, artifact: Artifact,
    parameters: string, packageDigest: string, parents: seq<string>, transformations: set<string>,
    workflowId: Option<string>, state: StateDigest, action: ActionDigest, requestId: RequestId)
  {
    function ToRevision(): Revision {
      Revision(revisionId, designId, sequence, spec, parentRevisionId, artifact, provenanceId)
    }

    function ToProvenance(): Provenance {
      Provenance(provenanceId, designId, artifact, packageDigest, parents, transformations)
    }
  }

  /** What a derivation knows before it publishes the report. */
  datatype Draft = Draft(head: Option<Revision>, parentRevisionId: Option<string>, parents: seq<string>,
                         transformations: set<string>, parameters: string, report: string)

  predicate AllIdentifiers(values: seq<string>) {
    forall i :: 0 <= i < |values| ==> RequireIdentifier(values[i], MAX_IDENTIFIER_LENGTH).Some?
  }

  function Normalized(values: seq<string>): (r: seq<string>)
    requires AllIdentifiers(values)
    ensures |r| == |values|
  {
    seq(|values|, i requires 0 <= i < |values| => RequireIdentifier(values[i], MAX_IDENTIFIER_LENGTH).value)
  }

  predicate AllInSet(values: set<string>) {
    forall v :: v in values ==> RequireIdentifier(v, MAX_IDENTIFIER_LENGTH).Some?
  }

  function NormalizedSet(values: set<string>): set<string>
    requires AllInSet(values)
  {
    set v | v in values :: RequireIdentifier(v, MAX_IDENTIFIER_LENGTH).value
  }

  /** The derivation up to the evaluated report: the head is read once, a parent that is not
      that head is a fork, and parents default to the provenance of the parent revision. */
  function DraftCommit(pk: Packages, rows: seq<Revision>, subject: string, inputs: Inputs): Result<Draft, Error> {
    var head := LatestForDesign(rows, subject);
    var supplied := if inputs.parentRevisionId.None? then Some("") else RequireIdentifier(inputs.parentRevisionId.value, MAX_IDENTIFIER_LENGTH);
    if supplied.None? then Err(InvalidIdentifier)
    else
      var parentRevisionId := if inputs.parentRevisionId.None? then IdOf(head) else supplied;
      var parent := if parentRevisionId.None? then None else GetRevision(rows, parentRevisionId.value);
      if parentRevisionId.Some? && parent.None? then Err(UnknownRevision)
      else if parentRevisionId != IdOf(head) then Err(ForkRefused)
      else if !AllIdentifiers(inputs.parentProvenanceIds) || !AllInSet(inputs.transformationIds) then Err(InvalidIdentifier)
      else
        var parents := if inputs.parentProvenanceIds == [] && parent.Some? then [parent.value.provenanceId]
                       else Normalized(inputs.parentProvenanceIds);
        var model := pk.parse(inputs.domain, inputs.parameters);
        if model.None? then Err(InvalidParameters)
        else Ok(Draft(head, parentRevisionId, parents, NormalizedSet(inputs.transformationIds) + {TRANSFORM_REFERENCE_EVALUATION},
                      model.value, pk.report(inputs.domain, subject, model.value)))
  }

  function Digested(pk: Packages, subject: string, domain: string, workflowId: Option<string>, draft: Draft, summary: string): Derived {
    var sequence := if draft.head.None? then 0 else draft.head.value.sequence + 1;
    var revisionId, provenanceId := RevisionId(subject, sequence), ProvenanceId(subject, sequence);
    var artifact := Artifact(domain, draft.report);
    var spec := Spec(subject, domain, summary, pk.digest(domain), draft.parameters, draft.report);
    var facts := if draft.head.None? then None
                 else Some(HeadFacts(draft.head.value.revisionId, draft.head.value.sequence, draft.head.value.spec));
    var state := StateDigest(artifact, facts, subject, domain, pk.digest(domain), draft.parameters, draft.parents,
                             draft.parentRevisionId, provenanceId, spec, draft.transformations);
    var action := ActionDigest(subject, domain, IdOf(draft.head), revisionId, sequence, spec, state, workflowId);
    Derived(subject, domain, revisionId, provenanceId, sequence, draft.parentRevisionId, IdOf(draft.head), spec, artifact,
            draft.parameters, pk.digest(domain), draft.parents, draft.transformations, workflowId, state, action,
            RequestId(subject, state, action))
  }

  /** The rest of the derivation: the specification and the digests over everything. */
  function FinishCommit(pk: Packages, subject: string, inputs: Inputs, draft: Draft): Result<Derived, Error> {
    var summary := if inputs.summary.None? then Some(pk.describe(inputs.domain, subject))
                   else RequireText(inputs.summary.value, MAX_SUMMARY_LENGTH);
    if summary.None? then Err(InvalidParameters)
    else Ok(Digested(pk, subject, inputs.domain, inputs.workflowId, draft, summary.value))
  }

  /** The derivation alone, with the report taken as published. */
  function Derive(pk: Packages, rows: seq<Revision>, subject: string, inputs: Inputs): Result<Derived, Error> {
    var draft :- DraftCommit(pk, rows, subject, inputs);
    FinishCommit(pk, subject, inputs, draft)
  }

  /** The derivation that publishes nothing and requires the store to hold the report. */
  function DeriveAgainstStore(pk: Packages, rows: seq<Revision>, artifacts: set<string>, subject: string, inputs: Inputs): Result<Derived, Error> {
    var draft :- DraftCommit(pk, rows, subject, inputs);
    if draft.report !in artifacts then Err(ArtifactMissing)
    else FinishCommit(pk, subject, inputs, draft)
  }

  // ----- Journalled preparations -----

  datatype Preparation = Preparation(
    requestId: RequestId, designId: string, domain: string, summary: string, parameters: string,
    parentRevisionId: Option<string>, parents: seq<string>, transformations: set<string>, workflowId: Option<string>,
    revisionId: string, sequence: nat, expectedHead: Option<string>, state: StateDigest, action: ActionDigest)

  function PreparedPayload(d: Derived): Preparation {
    Preparation(d.requestId, d.designId, d.domain, d.spec.summary, d.parameters, d.parentRevisionId, d.parents,
                d.transformations, d.workflowId, d.revisionId, d.sequence, d.expectedHead, d.state, d.action)
  }

  /** A preparation as its request's digests determine it. */
  function PayloadOf(r: RequestId): Preparation {
    Preparation(r, r.designId, r.state.domain, r.state.spec.summary, r.state.parameters, r.state.parentRevisionId, r.state.parents,
                r.state.transformations, r.action.workflowId, r.action.plannedRevisionId, r.action.plannedSequence,
                r.action.expectedHead, r.state, r.action)
  }

  /** Recompute a prepared commit from the state that exists now; a different request
      identity, or a fork, means the preparation is stale. */
  function Rederive(pk: Packages, rows: seq<Revision>, artifacts: set<string>, prepared: Preparation): Result<Derived, Error> {
    var design := RequireIdentifier(prepared.designId, MAX_DESIGN_ID_LENGTH);
    var domain := RequireIdentifier(prepared.domain, MAX_IDENTIFIER_LENGTH);
    if design.None? || domain.None? then Err(InvalidIdentifier)
    else if domain.value !in pk.domains then Err(UnknownDomain)
    else if RequireText(prepared.summary, MAX_SUMMARY_LENGTH).None? then Err(InvalidParameters)
    else if !AllIdentifiers(prepared.parents) || !AllInSet(prepared.transformations) then Err(InvalidIdentifier)
    else
      var inputs := Inputs(domain.value, Some(prepared.summary), Some(prepared.parameters), prepared.parentRevisionId,
                           prepared.parents, prepared.transformations, prepared.workflowId);
      match DeriveAgainstStore(pk, rows, artifacts, design.value, inputs)
      case Err(ForkRefused) => Err(DigestMismatch)
      case Err(e) => Err(e)
      case Ok(derived) => if derived.requestId != prepared.requestId then Err(DigestMismatch) else Ok(derived)
  }

  // ----- Facts about every derivation -----

  /** The parts of a derived commit agree with each other. */
  predicate Coherent(d: Derived) {
    && d.revisionId == RevisionId(d.designId, d.sequence)
    && d.provenanceId == ProvenanceId(d.designId, d.sequence)
    && d.requestId == RequestId(d.designId, d.state, d.action)
    && d.parentRevisionId == d.expectedHead
    && d.action.expectedHead == d.expectedHead && d.action.plannedRevisionId == d.revisionId
    && d.action.plannedSequence == d.sequence && d.action.state == d.state && d.action.spec == d.spec
    && d.state.designId == d.designId && d.state.spec == d.spec && d.state.artifact == d.artifact
    && d.state.provenanceId == d.provenanceId && d.state.parents == d.parents && d.state.transformations == d.transformations
    && d.state.packageDigest == d.packageDigest && d.state.domain == d.domain && d.state.parameters == d.parameters
    && d.state.parentRevisionId == d.parentRevisionId && d.action.workflowId == d.workflowId && d.action.designId == d.designId
    && d.expectedHead == (if d.state.head.None? then None else Some(d.state.head.value.revisionId))
    && d.sequence == (if d.state.head.None? then 0 else d.state.head.value.sequence + 1)
  }

  function FactsOf(r: Revision): HeadFacts {
    HeadFacts(r.revisionId, r.sequence, r.spec)
  }

  /** The state digest describes this table's head of the design. */
  predicate DescribesHead(d: Derived, rows: seq<Revision>) {
    var head := LatestForDesign(rows, d.designId);
    d.state.head == if head.None? then None else Some(FactsOf(head.value))
  }

  lemma DerivationIsCoherent(pk: Packages, rows: seq<Revision>, subject: string, inputs: Inputs)
    requires Derive(pk, rows, subject, inputs).Ok?
    ensures var d := Derive(pk, rows, subject, inputs).value;
            Coherent(d) && DescribesHead(d, rows) && d.designId == subject && d.domain == inputs.domain
  {
  }

  /** A commit whose state digest describes the present head continues the chain. */
  lemma DescribedHeadContinues(d: Derived, rows: seq<Revision>)
    requires Chained(rows) && Coherent(d) && DescribesHead(d, rows)
    ensures Continues(rows, d.ToRevision())
    ensures IdOf(LatestForDesign(rows, d.designId)) == d.expectedHead
    ensures GetRevision(rows, d.revisionId).None?
  {
    LatestIsLastOfHistory(rows, d.designId);
    HistoryIsUnforked(rows, d.designId);
    LookupFindsHistory(rows, d.designId, d.sequence);
  }
}
