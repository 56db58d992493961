/** What a derivation makes of its inputs (`_derive_commit`): where every field of the commit comes
    from, exactly when it succeeds, and what a refusal means. */
module Derivation {
  import opened Wrappers
  import opened Identifiers
  import opened Revisions
  import opened Rederivation

  predicate ValidText(value: string) {
    0 < |Strip(value)| <= MAX_SUMMARY_LENGTH
  }

  predicate ValidName(value: string) {
    IsIdentifier(Strip(value), MAX_IDENTIFIER_LENGTH)
  }

  /** The caller's parent, if one is named, is the head of the design. */
  predicate ExtendsHead(rows: seq<Revision>, subject: string, parent: Option<string>) {
    parent.Some? ==> ValidName(parent.value) && History(rows, subject) != [] && Strip(parent.value) == HeadOf(rows, subject).revisionId
  }

  function HeadOf(rows: seq<Revision>, subject: string): Revision
    requires History(rows, subject) != []
  {
    var h := History(rows, subject);
    h[|h| - 1]
  }

  /** Everything the caller gives is valid, and the parent is the head. */
  predicate Derivable(pk: Packages, rows: seq<Revision>, subject: string, inputs: Inputs) {
    && ExtendsHead(rows, subject, inputs.parentRevisionId)
    && (forall i :: 0 <= i < |inputs.parentProvenanceIds| ==> ValidName(inputs.parentProvenanceIds[i]))
    && (forall t :: t in inputs.transformationIds ==> ValidName(t))
    && pk.parse(inputs.domain, inputs.parameters).Some?
    && (inputs.summary.Some? ==> ValidText(inputs.summary.value))
  }

  /** The parents recorded are those the caller gives, stripped, or else the provenance of the head. */
  predicate ParentsFollow(d: Derived, rows: seq<Revision>, given: seq<string>) {
    if given == [] then
      d.parents == if History(rows, d.designId) == [] then [] else [HeadOf(rows, d.designId).provenanceId]
    else
      |d.parents| == |given| && forall i :: 0 <= i < |given| ==> d.parents[i] == Strip(given[i])
  }

  /** The transformations recorded are those the caller gives, stripped, and the evaluation itself. */
  predicate TransformationsFollow(d: Derived, given: set<string>) {
    d.transformations == (set v | v in given :: Strip(v)) + {TRANSFORM_REFERENCE_EVALUATION}
  }

  /** The specification: what is built, of which parameters, and how it is described. */
  predicate SpecFollows(pk: Packages, d: Derived, subject: string, inputs: Inputs) {
    && pk.parse(inputs.domain, inputs.parameters) == Some(d.parameters)
    && d.artifact == Artifact(inputs.domain, pk.report(inputs.domain, subject, d.parameters))
    && d.packageDigest == pk.digest(inputs.domain)
    && d.spec == Spec(subject, inputs.domain,
                      if inputs.summary.Some? then Strip(inputs.summary.value) else pk.describe(inputs.domain, subject),
                      pk.digest(inputs.domain), d.parameters, pk.report(inputs.domain, subject, d.parameters))
  }

  /** The place in the history: one after the head, and named after it. */
  predicate PlaceFollows(d: Derived, rows: seq<Revision>, subject: string) {
    var h := History(rows, subject);
    && d.designId == subject && d.sequence == |h|
    && d.revisionId == "rev-" + subject + "-r" + Decimal(|h|) && d.provenanceId == "prov-" + subject + "-r" + Decimal(|h|)
    && d.parentRevisionId == d.expectedHead == (if h == [] then None else Some(h[|h| - 1].revisionId))
    && d.state.head == (if h == [] then None else Some(FactsOf(h[|h| - 1])))
  }

  /** Every field of a derived commit comes from the caller's inputs or from the head, and the
      digests cover them all. */
  lemma DerivationFollowsInputs(pk: Packages, rows: seq<Revision>, subject: string, inputs: Inputs)
    requires Chained(rows) && Derive(pk, rows, subject, inputs).Ok?
    ensures var d := Derive(pk, rows, subject, inputs).value;
            && SpecFollows(pk, d, subject, inputs)
            && PlaceFollows(d, rows, subject)
            && ParentsFollow(d, rows, inputs.parentProvenanceIds)
            && TransformationsFollow(d, inputs.transformationIds)
            && d.domain == inputs.domain && d.workflowId == inputs.workflowId
            && Coherent(d)
  {
    hide Strip, GetRevision, Decimal, MatchesPattern;
    DerivationIsCoherent(pk, rows, subject, inputs);
    HeadIsLast(rows, subject);
    hide LatestForDesign, History, Chained;
    var d := Derive(pk, rows, subject, inputs).value;
    forall t
      ensures t in d.transformations <==> t in (set v | v in inputs.transformationIds :: Strip(v)) + {TRANSFORM_REFERENCE_EVALUATION}
    {
    }
  }

  /** The head of a chained design is the last of its history, and is found under its name. */
  lemma HeadIsLast(rows: seq<Revision>, subject: string)
    requires Chained(rows)
    ensures LatestForDesign(rows, subject) == if History(rows, subject) == [] then None else Some(HeadOf(rows, subject))
    ensures var h := History(rows, subject); h != [] ==> HeadOf(rows, subject).sequence == |h| - 1
    ensures History(rows, subject) != [] ==> GetRevision(rows, HeadOf(rows, subject).revisionId) == Some(HeadOf(rows, subject))
  {
    hide Chained, History;
    LatestIsLastOfHistory(rows, subject);
    HistoryIsUnforked(rows, subject);
    var h := History(rows, subject);
    if h != [] {
      LookupFindsHistory(rows, subject, |h| - 1);
      assert Linked(h[|h| - 1], subject, |h| - 1);
    }
  }

  predicate ExplainsRefusal(pk: Packages, rows: seq<Revision>, subject: string, inputs: Inputs, error: Error) {
    match error
    case InvalidIdentifier =>
      || (inputs.parentRevisionId.Some? && !ValidName(inputs.parentRevisionId.value))
      || (exists i :: 0 <= i < |inputs.parentProvenanceIds| && !ValidName(inputs.parentProvenanceIds[i]))
      || (exists t :: t in inputs.transformationIds && !ValidName(t))
    case UnknownRevision =>
      inputs.parentRevisionId.Some? && forall i :: 0 <= i < |rows| ==> rows[i].revisionId != Strip(inputs.parentRevisionId.value)
    case ForkRefused =>
      && inputs.parentRevisionId.Some? && ValidName(inputs.parentRevisionId.value)
      && (exists i :: 0 <= i < |rows| && rows[i].revisionId == Strip(inputs.parentRevisionId.value))
      && (History(rows, subject) != [] ==> HeadOf(rows, subject).revisionId != Strip(inputs.parentRevisionId.value))
    case InvalidParameters =>
      pk.parse(inputs.domain, inputs.parameters).None? || (inputs.summary.Some? && !ValidText(inputs.summary.value))
    case _ => false
  }

  /** A derivation succeeds exactly for valid inputs that extend the head, and a refusal names
      something that is wrong with them. */
  lemma DerivationIsExact(pk: Packages, rows: seq<Revision>, subject: string, inputs: Inputs)
    requires Chained(rows) && Sound(pk)
    ensures Derive(pk, rows, subject, inputs).Ok? <==> Derivable(pk, rows, subject, inputs)
    ensures Derive(pk, rows, subject, inputs).Err? ==> ExplainsRefusal(pk, rows, subject, inputs, Derive(pk, rows, subject, inputs).error)
  {
    hide Strip, Decimal, MatchesPattern;
    HeadIsLast(rows, subject);
    hide LatestForDesign, History, Chained, GetRevision;
  }
}
