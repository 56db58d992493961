/** Re-deriving a journalled preparation: it reproduces the original commit field for field
    while the design head is unchanged, and is refused whenever the head moved. */
module Rederivation {
  import opened Wrappers
  import opened Identifiers
  import opened Revisions

  lemma ReferenceTransformIsIdentifier()
    ensures IsIdentifier(TRANSFORM_REFERENCE_EVALUATION, MAX_IDENTIFIER_LENGTH)
  {
  }

  /** Names derived from a valid design id satisfy the identifier rule up to their length. */
  lemma DerivedNameIsIdentifier(stem: string, design: string, n: nat, maximum: nat)
    requires stem == "rev-" || stem == "prov-"
    requires IsIdentifier(design, MAX_DESIGN_ID_LENGTH) && maximum <= 128
    ensures RequireIdentifier(stem + design + "-r" + Decimal(n), maximum) ==
            if |stem + design + "-r" + Decimal(n)| <= maximum then Some(stem + design + "-r" + Decimal(n)) else None
  {
    hide Strip, Decimal;
    var name := stem + design + "-r" + Decimal(n);
    assert name[0] == stem[0] && name[|name| - 1] == Decimal(n)[|Decimal(n)| - 1];
    forall i | 0 <= i < |name|
      ensures IsIdentifierChar(name[i])
    {
      if i < |stem| {
        assert name[i] == stem[i];
      } else if i < |stem + design| {
        assert name[i] == design[i - |stem|];
      } else if i < |stem + design| + 2 {
        assert name[i] == "-r"[i - |stem + design|];
      } else {
        assert name[i] == Decimal(n)[i - |stem + design| - 2];
      }
    }
    StripNormalises(name);
  }

  /** The recorded references of a commit can be read back as identifiers. They are checked
      when a caller supplies them, but not when they default to the head and its provenance. */
  predicate ReferencesReadable(d: Derived) {
    AllIdentifiers(d.parents) && (d.parentRevisionId.Some? ==> RequireIdentifier(d.parentRevisionId.value, MAX_IDENTIFIER_LENGTH).Some?)
  }

  lemma NormalizedIsStable(values: seq<string>)
    requires AllIdentifiers(values)
    ensures AllIdentifiers(Normalized(values)) && Normalized(Normalized(values)) == Normalized(values)
  {
    forall i | 0 <= i < |values|
      ensures RequireIdentifier(Normalized(values)[i], MAX_IDENTIFIER_LENGTH) == Some(Normalized(values)[i])
    {
      ValidIdentifierIsKept(values[i], MAX_IDENTIFIER_LENGTH);
    }
  }

  lemma IdentifierSetIsStable(values: set<string>)
    requires forall v :: v in values ==> IsIdentifier(v, MAX_IDENTIFIER_LENGTH)
    ensures AllInSet(values) && NormalizedSet(values) == values
  {
    forall v | v in values
      ensures RequireIdentifier(v, MAX_IDENTIFIER_LENGTH) == Some(v)
    {
      ValidIdentifierIsKept(v, MAX_IDENTIFIER_LENGTH);
    }
    assert forall v :: v in values ==> v in NormalizedSet(values);
  }

  /** Reading the recorded references back changes none of them. */
  lemma RecordedReferencesAreStable(pk: Packages, rows: seq<Revision>, subject: string, inputs: Inputs)
    requires Chained(rows) && IsIdentifier(subject, MAX_DESIGN_ID_LENGTH) && Derive(pk, rows, subject, inputs).Ok?
    ensures var d := Derive(pk, rows, subject, inputs).value;
            && AllInSet(d.transformations) && NormalizedSet(d.transformations) + {TRANSFORM_REFERENCE_EVALUATION} == d.transformations
            && (AllIdentifiers(d.parents) ==> Normalized(d.parents) == d.parents)
            && (d.parentRevisionId.Some? ==> RequireIdentifier(d.parentRevisionId.value, MAX_IDENTIFIER_LENGTH) in {None, d.parentRevisionId})
  {
    hide RequireIdentifier;
    var d := Derive(pk, rows, subject, inputs).value;
    var head := LatestForDesign(rows, subject);
    ReferenceTransformIsIdentifier();
    forall v | v in d.transformations
      ensures IsIdentifier(v, MAX_IDENTIFIER_LENGTH)
    {
    }
    IdentifierSetIsStable(d.transformations);
    HeadNamesAreReadableOrLong(rows, subject);
    if inputs.parentProvenanceIds == [] && head.Some? {
      assert d.parents == [head.value.provenanceId];
    } else {
      assert d.parents == Normalized(inputs.parentProvenanceIds);
      NormalizedIsStable(inputs.parentProvenanceIds);
    }
  }

  lemma HeadNamesAreReadableOrLong(rows: seq<Revision>, subject: string)
    requires Chained(rows) && IsIdentifier(subject, MAX_DESIGN_ID_LENGTH)
    ensures var head := LatestForDesign(rows, subject);
            head.Some? ==>
              && RequireIdentifier(head.value.provenanceId, MAX_IDENTIFIER_LENGTH) in {None, Some(head.value.provenanceId)}
              && RequireIdentifier(head.value.revisionId, MAX_IDENTIFIER_LENGTH) in {None, Some(head.value.revisionId)}
              && GetRevision(rows, head.value.revisionId) == head
  {
    LatestIsLastOfHistory(rows, subject);
    HistoryIsUnforked(rows, subject);
    var h := History(rows, subject);
    if h != [] {
      var k := |h| - 1;
      assert Linked(h[k], subject, k);
      DerivedNameIsIdentifier("prov-", subject, k, MAX_IDENTIFIER_LENGTH);
      DerivedNameIsIdentifier("rev-", subject, k, MAX_IDENTIFIER_LENGTH);
      LookupFindsHistory(rows, subject, k);
    }
  }

  /** What a derivation has settled, however its inputs were given. */
  lemma DerivationSettles(pk: Packages, rows: seq<Revision>, subject: string, inputs: Inputs)
    requires Sound(pk) && Derive(pk, rows, subject, inputs).Ok?
    ensures var d, head := Derive(pk, rows, subject, inputs).value, LatestForDesign(rows, subject);
            && pk.parse(d.domain, Some(d.parameters)) == Some(d.parameters)
            && d.artifact.content == pk.report(d.domain, subject, d.parameters)
            && d.parentRevisionId == IdOf(head)
            && (d.parents == [] ==> head.None?)
  {
    hide RequireIdentifier, RequireText, LatestForDesign, GetRevision;
  }

  /** What the second phase derives from a preparation: the draft it recorded, on the head
      that exists now. */
  lemma RecordedInputsRepeatDraft(pk: Packages, rows: seq<Revision>, rows': seq<Revision>, subject: string, inputs: Inputs)
    requires Sound(pk) && Chained(rows) && Chained(rows') && rows <= rows'
    requires IsIdentifier(subject, MAX_DESIGN_ID_LENGTH) && Derive(pk, rows, subject, inputs).Ok?
    requires ReferencesReadable(Derive(pk, rows, subject, inputs).value)
    ensures var d := Derive(pk, rows, subject, inputs).value;
            var again := Inputs(d.domain, Some(d.spec.summary), Some(d.parameters), d.parentRevisionId, d.parents, d.transformations, d.workflowId);
            var head, head' := LatestForDesign(rows, subject), LatestForDesign(rows', subject);
            if head' == head then
              DraftCommit(pk, rows', subject, again) == Ok(Draft(head, d.parentRevisionId, d.parents, d.transformations, d.parameters, d.artifact.content))
            else if head.Some? then DraftCommit(pk, rows', subject, again) == Err(ForkRefused)
            else
              && DraftCommit(pk, rows', subject, again).Ok?
              && DraftCommit(pk, rows', subject, again).value.head == head'
              && DraftCommit(pk, rows', subject, again).value.report == d.artifact.content
  {
    hide RequireIdentifier, RequireText, LatestForDesign, GetRevision, Chained, Derive, Sound, History;
    var d := Derive(pk, rows, subject, inputs).value;
    var head, head' := LatestForDesign(rows, subject), LatestForDesign(rows', subject);
    RecordedReferencesAreStable(pk, rows, subject, inputs);
    DerivationSettles(pk, rows, subject, inputs);
    HeadNamesAreReadableOrLong(rows', subject);
    HeadUnchangedIffNothingStored(rows, rows', subject);
    if head.Some? {
      OldRevisionsStayStored(rows, rows', subject);
    }
  }

  lemma OldRevisionsStayStored(rows: seq<Revision>, rows': seq<Revision>, subject: string)
    requires Chained(rows) && Chained(rows') && rows <= rows'
    requires LatestForDesign(rows, subject).Some?
    ensures GetRevision(rows', LatestForDesign(rows, subject).value.revisionId) == LatestForDesign(rows, subject)
  {
    LatestIsLastOfHistory(rows, subject);
    HistoryIsUnforked(rows, subject);
    HeadUnchangedIffNothingStored(rows, rows', subject);
    var h := History(rows, subject);
    assert Linked(h[|h| - 1], subject, |h| - 1);
    LookupFindsHistory(rows', subject, |h| - 1);
  }

  /** Closure of the re-derivation. In any later state of the store, re-deriving the journalled
      preparation yields the original derivation field for field if the head is unchanged, and
      is refused as stale if it moved. That includes the first revision, where the recorded
      parent of none silently resolves to the new head and only the request identifier differs.
      The one other outcome is a default reference too long to be read back. */
  lemma RederivationClosure(pk: Packages, rows: seq<Revision>, rows': seq<Revision>, artifacts: set<string>, subject: string, inputs: Inputs)
    requires Sound(pk) && Chained(rows) && Chained(rows') && rows <= rows'
    requires IsIdentifier(subject, MAX_DESIGN_ID_LENGTH) && IsIdentifier(inputs.domain, MAX_IDENTIFIER_LENGTH) && inputs.domain in pk.domains
    requires Derive(pk, rows, subject, inputs).Ok?
    requires Derive(pk, rows, subject, inputs).value.artifact.content in artifacts
    ensures var d := Derive(pk, rows, subject, inputs).value;
            Rederive(pk, rows', artifacts, PreparedPayload(d)) ==
            if !ReferencesReadable(d) then Err(InvalidIdentifier)
            else if LatestForDesign(rows', subject) == LatestForDesign(rows, subject) then Ok(d)
            else Err(DigestMismatch)
  {
    hide RequireIdentifier, RequireText, LatestForDesign, GetRevision, Chained, Derive, DraftCommit;
    var d := Derive(pk, rows, subject, inputs).value;
    ValidIdentifierIsKept(subject, MAX_DESIGN_ID_LENGTH);
    ValidIdentifierIsKept(inputs.domain, MAX_IDENTIFIER_LENGTH);
    RecordedReferencesAreStable(pk, rows, subject, inputs);
    SummaryIsStable(pk, rows, subject, inputs);
    DerivedIsDigested(pk, rows, subject, inputs);
    if ReferencesReadable(d) {
      RecordedInputsRepeatDraft(pk, rows, rows', subject, inputs);
    } else if AllIdentifiers(d.parents) {
      UnreadableParentIsRefused(pk, rows', subject, Inputs(d.domain, Some(d.spec.summary), Some(d.parameters), d.parentRevisionId, d.parents, d.transformations, d.workflowId));
    }
  }

  lemma DerivedIsDigested(pk: Packages, rows: seq<Revision>, subject: string, inputs: Inputs)
    requires Derive(pk, rows, subject, inputs).Ok?
    ensures var d := Derive(pk, rows, subject, inputs).value;
            d.domain == inputs.domain && d == Digested(pk, subject, d.domain, d.workflowId,
                          Draft(LatestForDesign(rows, subject), d.parentRevisionId, d.parents, d.transformations, d.parameters, d.artifact.content),
                          d.spec.summary)
  {
    hide RequireIdentifier, RequireText, LatestForDesign, GetRevision;
  }

  lemma UnreadableParentIsRefused(pk: Packages, rows: seq<Revision>, subject: string, inputs: Inputs)
    requires inputs.parentRevisionId.Some? && RequireIdentifier(inputs.parentRevisionId.value, MAX_IDENTIFIER_LENGTH).None?
    ensures DraftCommit(pk, rows, subject, inputs) == Err(InvalidIdentifier)
  {
  }

  lemma SummaryIsStable(pk: Packages, rows: seq<Revision>, subject: string, inputs: Inputs)
    requires Sound(pk) && Derive(pk, rows, subject, inputs).Ok?
    ensures var d := Derive(pk, rows, subject, inputs).value;
            RequireText(d.spec.summary, MAX_SUMMARY_LENGTH) == Some(d.spec.summary)
  {
    if inputs.summary.Some? {
      ValidTextIsKept(inputs.summary.value, MAX_SUMMARY_LENGTH);
    }
  }

  /** The references of a derivation are the caller's, normalised, or the head and its provenance. */
  lemma ReferencesComeFromCallerOrHead(pk: Packages, rows: seq<Revision>, subject: string, inputs: Inputs)
    requires Chained(rows) && IsIdentifier(subject, MAX_DESIGN_ID_LENGTH) && Derive(pk, rows, subject, inputs).Ok?
    ensures var d, head := Derive(pk, rows, subject, inputs).value, LatestForDesign(rows, subject);
            && d.parentRevisionId == IdOf(head)
            && AllIdentifiers(inputs.parentProvenanceIds)
            && (d.parents == Normalized(inputs.parentProvenanceIds) || (head.Some? && d.parents == [head.value.provenanceId]))
  {
    hide RequireIdentifier, RequireText, LatestForDesign, GetRevision, Chained;
    HeadNamesAreReadableOrLong(rows, subject);
  }

  /** Any design id short enough for its request to be decided keeps its references readable
      as long as the design has fewer than 10^34 revisions. */
  lemma ShortDesignsStayReadable(pk: Packages, rows: seq<Revision>, subject: string, inputs: Inputs)
    requires Chained(rows) && IsIdentifier(subject, MAX_DESIGN_ID_LENGTH) && Derive(pk, rows, subject, inputs).Ok?
    requires RequestIdLength(Derive(pk, rows, subject, inputs).value.requestId) <= MAX_IDENTIFIER_LENGTH
    requires |History(rows, subject)| <= PowerOfTen(34)
    ensures ReferencesReadable(Derive(pk, rows, subject, inputs).value)
  {
    hide RequireIdentifier, LatestForDesign, Derive, Chained, PowerOfTen, History, IsIdentifier;
    var d := Derive(pk, rows, subject, inputs).value;
    ReferencesComeFromCallerOrHead(pk, rows, subject, inputs);
    DerivationIsCoherent(pk, rows, subject, inputs);
    assert |subject| <= 23;
    HeadNamesFit(rows, subject);
    NormalizedIsStable(inputs.parentProvenanceIds);
  }

  lemma HeadNamesFit(rows: seq<Revision>, subject: string)
    requires Chained(rows) && IsIdentifier(subject, MAX_DESIGN_ID_LENGTH) && |subject| <= 23
    requires |History(rows, subject)| <= PowerOfTen(34)
    ensures var head := LatestForDesign(rows, subject);
            head.Some? ==>
              && RequireIdentifier(head.value.provenanceId, MAX_IDENTIFIER_LENGTH).Some?
              && RequireIdentifier(head.value.revisionId, MAX_IDENTIFIER_LENGTH).Some?
  {
    hide RequireIdentifier, PowerOfTen;
    LatestIsLastOfHistory(rows, subject);
    HistoryIsUnforked(rows, subject);
    var h := History(rows, subject);
    if h != [] {
      var k := |h| - 1;
      assert Linked(h[k], subject, k);
      DecimalLengthIsExact(k, 34);
      DerivedNameIsIdentifier("prov-", subject, k, MAX_IDENTIFIER_LENGTH);
      DerivedNameIsIdentifier("rev-", subject, k, MAX_IDENTIFIER_LENGTH);
    }
  }
}
