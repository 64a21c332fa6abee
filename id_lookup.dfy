/**
 * Per-segment primary-key lookup: from a document's `_id` bytes to the segment-local doc
 * id of its live copy, with that document's version, sequence number and primary term.
 *
 * A segment (Lucene's `LeafReader`) is modelled by the contents the lookup reads from it:
 * the postings of each term of each indexed field, the live-docs bit set, the numeric
 * doc values of each field, and the number of live documents.
 */
module IdLookup {
  import opened Wrappers

  /** `DocIdSetIterator.NO_MORE_DOCS` (`Integer.MAX_VALUE`): "no document". */
  const NO_MORE_DOCS: int := 0x7fff_ffff
  /** `SequenceNumbers.UNASSIGNED_SEQ_NO`: the sequence number of a lookup that did not load it. */
  const UNASSIGNED_SEQ_NO: int := -2
  /** `SequenceNumbers.UNASSIGNED_PRIMARY_TERM`: the primary term of a lookup that did not load it. */
  const UNASSIGNED_PRIMARY_TERM: int := 0

  /** The id bytes of a document (`BytesRef`). */
  type Id = seq<bv8>

  /** The numeric doc-values fields the lookup reads. */
  datatype DocValuesField =
    | SoftDeletes   // Lucene.SOFT_DELETES_FIELD
    | Tombstone     // SeqNoFieldMapper.TOMBSTONE_NAME
    | Version       // VersionFieldMapper.NAME
    | SeqNo         // SeqNoFieldMapper.NAME
    | PrimaryTerm   // SeqNoFieldMapper.PRIMARY_TERM_NAME

  /** The contents of one segment that the lookup can see. */
  datatype Segment = Segment(
    /** `terms(field)`: absent when the field has no terms; else each term's postings, ascending doc ids. */
    terms: map<string, map<Id, seq<int>>>,
    /** `getLiveDocs()`: None when every document is live, else the doc ids whose bit is set. */
    liveDocs: Option<set<int>>,
    /** `getNumericDocValues(field)`: absent when null, else the documents that have a value, with it. */
    docValues: map<DocValuesField, map<int, int>>,
    /** `numDocs()`: the number of live documents. */
    numDocs: nat)

  /** What Lucene guarantees of every postings list: ascending doc ids below NO_MORE_DOCS. */
  ghost predicate PostingsWellFormed(postings: seq<int>) {
    (forall i :: 0 <= i < |postings| ==> 0 <= postings[i] < NO_MORE_DOCS) &&
    (forall i, j :: 0 <= i < j < |postings| ==> postings[i] < postings[j])
  }

  ghost predicate TermsWellFormed(terms: map<Id, seq<int>>) {
    forall id :: id in terms ==> PostingsWellFormed(terms[id])
  }

  ghost predicate WellFormed(reader: Segment) {
    forall field :: field in reader.terms ==> TermsWellFormed(reader.terms[field])
  }

  /** The segment a lookup is called with, and where it starts in the whole index. */
  datatype LeafReaderContext = LeafReaderContext(reader: Segment, docBase: int)

  /** `VersionsAndSeqNoResolver.DocIdAndVersion`. */
  datatype DocIdAndVersion = DocIdAndVersion(docId: int, version: int, seqNo: int, primaryTerm: int, reader: Segment, docBase: int)

  /** `VersionsAndSeqNoResolver.DocIdAndSeqNo`. */
  datatype DocIdAndSeqNo = DocIdAndSeqNo(docId: int, seqNo: int, context: LeafReaderContext)

  /** The exceptions the lookup throws. */
  datatype LookupError =
    | NotANoOpSegment             // IllegalArgumentException: no _uid terms, yet not a no-op segment
    | MissingVersionField         // IllegalArgumentException: the segment has no version doc values
    | MissingDocValues(field: DocValuesField, docId: int)  // IllegalStateException

  /** A segment of no-ops only: it has both soft-deletes and tombstone doc values. */
  predicate IsNoOpSegment(reader: Segment) {
    SoftDeletes in reader.docValues && Tombstone in reader.docValues
  }

  /** A segment whose ids were pruned away because every document in it is deleted. */
  predicate AllDocsDeleted(reader: Segment) {
    SoftDeletes in reader.docValues && reader.numDocs == 0
  }

  /** The exception, if any, that opening a lookup on `reader` for `uidField` throws. */
  function OpenError(reader: Segment, uidField: string): (r: Option<LookupError>)
    ensures r == None <==>
      (uidField in reader.terms || IsNoOpSegment(reader) || AllDocsDeleted(reader)) && Version in reader.docValues
    ensures r == Some(NotANoOpSegment) <==>
      uidField !in reader.terms && !IsNoOpSegment(reader) && !AllDocsDeleted(reader)
    ensures r == Some(MissingVersionField) <==>
      (uidField in reader.terms || IsNoOpSegment(reader) || AllDocsDeleted(reader)) && Version !in reader.docValues
  {
    if uidField !in reader.terms &&
       (SoftDeletes !in reader.docValues || Tombstone !in reader.docValues) && !AllDocsDeleted(reader)
    then Some(NotANoOpSegment)
    else if Version !in reader.docValues then Some(MissingVersionField)
    else None
  }

  /** Whether the live-docs bits keep document `d`; no bits at all means every document is live. */
  predicate IsLive(liveDocs: Option<set<int>>, d: int) {
    liveDocs.None? || d in liveDocs.value
  }

  /** The last posting that is live, or NO_MORE_DOCS when none is. */
  function LastLive(postings: seq<int>, liveDocs: Option<set<int>>): int {
    if postings == [] then NO_MORE_DOCS
    else if IsLive(liveDocs, postings[|postings| - 1]) then postings[|postings| - 1]
    else LastLive(postings[..|postings| - 1], liveDocs)
  }

  /**
   * LastLive finds nothing exactly when every posting is deleted; otherwise it is a live
   * posting after which every posting is deleted, and, postings being ascending, the
   * greatest live doc id.
   */
  lemma {:induction false} LastLiveIsLastLivePosting(postings: seq<int>, liveDocs: Option<set<int>>)
    requires PostingsWellFormed(postings)
    ensures LastLive(postings, liveDocs) == NO_MORE_DOCS <==> forall i :: 0 <= i < |postings| ==> !IsLive(liveDocs, postings[i])
    ensures LastLive(postings, liveDocs) != NO_MORE_DOCS ==>
      exists i :: 0 <= i < |postings| && postings[i] == LastLive(postings, liveDocs) && IsLive(liveDocs, postings[i]) &&
        forall j :: i < j < |postings| ==> !IsLive(liveDocs, postings[j])
    ensures forall i :: 0 <= i < |postings| && IsLive(liveDocs, postings[i]) ==> postings[i] <= LastLive(postings, liveDocs)
  {
    if postings != [] {
      var front := postings[..|postings| - 1];
      assert forall i :: 0 <= i < |front| ==> front[i] == postings[i];
      LastLiveIsLastLivePosting(front, liveDocs);
    }
  }

  /** Of two live postings for one id, the one at the higher doc id is the one found. */
  lemma LastLiveOfTwoLive(postings: seq<int>, liveDocs: Option<set<int>>, i: int, j: int)
    requires PostingsWellFormed(postings)
    requires 0 <= i < j < |postings| && IsLive(liveDocs, postings[i]) && IsLive(liveDocs, postings[j])
    ensures LastLive(postings, liveDocs) != postings[i]
    ensures postings[j] <= LastLive(postings, liveDocs) < NO_MORE_DOCS
  {
    LastLiveIsLastLivePosting(postings, liveDocs);
  }

  /** `getDocID` as a function: the doc id the lookup settles on for `id`. */
  function DocIdFor(termsEnum: Option<map<Id, seq<int>>>, id: Id, liveDocs: Option<set<int>>): int {
    if termsEnum.Some? && id in termsEnum.value then LastLive(termsEnum.value[id], liveDocs) else NO_MORE_DOCS
  }

  /**
   * NO_MORE_DOCS comes back in three cases only: the segment holds only no-ops (no terms
   * enum), the id is not in it, or every posting for the id is deleted.
   */
  lemma DocIdForNotFound(termsEnum: Option<map<Id, seq<int>>>, id: Id, liveDocs: Option<set<int>>)
    requires termsEnum.Some? ==> TermsWellFormed(termsEnum.value)
    ensures DocIdFor(termsEnum, id, liveDocs) == NO_MORE_DOCS <==>
      || termsEnum.None?
      || id !in termsEnum.value
      || forall i :: 0 <= i < |termsEnum.value[id]| ==> !IsLive(liveDocs, termsEnum.value[id][i])
  {
    if termsEnum.Some? && id in termsEnum.value {
      LastLiveIsLastLivePosting(termsEnum.value[id], liveDocs);
    }
  }

  /** `readNumericDocValues`: the value of `field` for document `docId`, or IllegalStateException. */
  function ReadNumericDocValues(reader: Segment, field: DocValuesField, docId: int): (r: Result<int, LookupError>)
    ensures r.Success? <==> field in reader.docValues && docId in reader.docValues[field]
    ensures r.Success? ==> r.value == reader.docValues[field][docId]
    ensures r.Failure? ==> r.error == MissingDocValues(field, docId)
  {
    if field !in reader.docValues || docId !in reader.docValues[field] then Failure(MissingDocValues(field, docId))
    else Success(reader.docValues[field][docId])
  }

  /** The doc-values fields `lookupVersion` reads, in the order it reads them. */
  function VersionLookupFields(loadSeqNo: bool): seq<DocValuesField> {
    if loadSeqNo then [SeqNo, PrimaryTerm, Version] else [Version]
  }

  /** The first of `fields` that has no value for `docId`: the one whose read throws. */
  function FirstMissing(reader: Segment, fields: seq<DocValuesField>, docId: int): (r: Option<DocValuesField>)
    ensures r.None? <==> forall i :: 0 <= i < |fields| ==> ReadNumericDocValues(reader, fields[i], docId).Success?
    ensures r.Some? ==>
      exists i :: 0 <= i < |fields| && fields[i] == r.value &&
        ReadNumericDocValues(reader, fields[i], docId).Failure? &&
        forall j :: 0 <= j < i ==> ReadNumericDocValues(reader, fields[j], docId).Success?
  {
    if fields == [] then None
    else if ReadNumericDocValues(reader, fields[0], docId).Failure? then Some(fields[0])
    else
      var rest := FirstMissing(reader, fields[1..], docId);
      assert rest.Some? ==>
        exists i :: 1 <= i < |fields| && fields[i] == rest.value &&
          ReadNumericDocValues(reader, fields[i], docId).Failure? &&
          forall j :: 1 <= j < i ==> ReadNumericDocValues(reader, fields[j], docId).Success?;
      rest
  }

  class PerThreadIDVersionAndSeqNoLookup {
    const uidField: string
    /** The uid terms of the segment, None for a segment holding only no-ops. */
    const termsEnum: Option<map<Id, seq<int>>>

    ghost predicate Valid() {
      termsEnum.Some? ==> TermsWellFormed(termsEnum.value)
    }

    constructor Init(uidField: string, termsEnum: Option<map<Id, seq<int>>>)
      ensures this.uidField == uidField && this.termsEnum == termsEnum
    {
      this.uidField := uidField;
      this.termsEnum := termsEnum;
    }

    /**
     * The constructor: checks that the segment either has uid terms or is a no-op or
     * fully deleted segment, then that it has version doc values.
     */
    static method Open(reader: Segment, uidField: string) returns (r: Result<PerThreadIDVersionAndSeqNoLookup, LookupError>)
      requires WellFormed(reader)
      ensures r.Failure? <==> OpenError(reader, uidField).Some?
      ensures r.Failure? ==> r.error == OpenError(reader, uidField).value
      ensures r.Success? ==> fresh(r.value) && r.value.Valid() && r.value.uidField == uidField
      ensures r.Success? ==> r.value.termsEnum == if uidField in reader.terms then Some(reader.terms[uidField]) else None
    {
      var termsEnum: Option<map<Id, seq<int>>>;
      if uidField !in reader.terms {
        var allDocsDeleted := SoftDeletes in reader.docValues && reader.numDocs == 0;
        if (SoftDeletes !in reader.docValues || Tombstone !in reader.docValues) && !allDocsDeleted {
          return Failure(NotANoOpSegment);
        }
        termsEnum := None;
      } else {
        termsEnum := Some(reader.terms[uidField]);
      }
      if Version !in reader.docValues {
        return Failure(MissingVersionField);
      }
      var lookup := new PerThreadIDVersionAndSeqNoLookup.Init(uidField, termsEnum);
      r := Success(lookup);
    }

    /** `getDocID`: walks the postings for `id` and keeps the last one that is live. */
    method GetDocID(id: Id, context: LeafReaderContext) returns (docID: int)
      requires Valid()
      ensures docID == DocIdFor(termsEnum, id, context.reader.liveDocs)
      ensures docID != NO_MORE_DOCS ==>
        termsEnum.Some? && id in termsEnum.value && docID in termsEnum.value[id] && IsLive(context.reader.liveDocs, docID)
    {
      if termsEnum.Some? && id in termsEnum.value {
        var liveDocs := context.reader.liveDocs;
        var postings := termsEnum.value[id];
        docID := NO_MORE_DOCS;
        var k := 0;
        while k < |postings|
          invariant 0 <= k <= |postings|
          invariant docID == LastLive(postings[..k], liveDocs)
        {
          var d := postings[k];
          assert postings[..k + 1][..k] == postings[..k];
          k := k + 1;
          if liveDocs.Some? && d !in liveDocs.value {
            continue;
          }
          docID := d;
        }
        assert postings[..k] == postings;
        LastLiveIsLastLivePosting(postings, liveDocs);
      } else {
        docID := NO_MORE_DOCS;
      }
    }

    /**
     * `lookupVersion`: null when no live document has `id`; otherwise that document's id,
     * version and the context's doc base, with its sequence number and primary term when
     * `loadSeqNo` asks for them and the unassigned sentinels when it does not.
     */
    method LookupVersion(id: Id, loadSeqNo: bool, context: LeafReaderContext) returns (r: Result<Option<DocIdAndVersion>, LookupError>)
      requires Valid()
      ensures var docID := DocIdFor(termsEnum, id, context.reader.liveDocs);
        && (r == Success(None) <==> docID == NO_MORE_DOCS)
        && (r.Failure? <==> docID != NO_MORE_DOCS && FirstMissing(context.reader, VersionLookupFields(loadSeqNo), docID).Some?)
        && (r.Failure? ==> r.error == MissingDocValues(FirstMissing(context.reader, VersionLookupFields(loadSeqNo), docID).value, docID))
        && (r.Success? && r.value.Some? ==>
              var found := r.value.value;
              && found.docId == docID && found.docBase == context.docBase && found.reader == context.reader
              && ReadNumericDocValues(context.reader, Version, docID) == Success(found.version)
              && (loadSeqNo ==> ReadNumericDocValues(context.reader, SeqNo, docID) == Success(found.seqNo) &&
                                ReadNumericDocValues(context.reader, PrimaryTerm, docID) == Success(found.primaryTerm))
              && (!loadSeqNo ==> found.seqNo == UNASSIGNED_SEQ_NO && found.primaryTerm == UNASSIGNED_PRIMARY_TERM))
    {
      var docID := GetDocID(id, context);
      ghost var fields := VersionLookupFields(loadSeqNo);
      assert fields[|fields| - 1..] == [Version] && FirstMissing(context.reader, [], docID) == None;
      assert loadSeqNo ==> fields[1..] == [PrimaryTerm, Version];
      if docID != NO_MORE_DOCS {
        var seqNo: int;
        var term: int;
        if loadSeqNo {
          var s := ReadNumericDocValues(context.reader, SeqNo, docID);
          if s.Failure? {
            return Failure(s.error);
          }
          var t := ReadNumericDocValues(context.reader, PrimaryTerm, docID);
          if t.Failure? {
            return Failure(t.error);
          }
          seqNo, term := s.value, t.value;
        } else {
          seqNo, term := UNASSIGNED_SEQ_NO, UNASSIGNED_PRIMARY_TERM;
        }
        var v := ReadNumericDocValues(context.reader, Version, docID);
        if v.Failure? {
          assert fields[|fields| - 1] == Version;
          return Failure(v.error);
        }
        r := Success(Some(DocIdAndVersion(docID, v.value, seqNo, term, context.reader, context.docBase)));
      } else {
        r := Success(None);
      }
    }

    /** `lookupSeqNo`: null when no live document has `id`, else its doc id with its sequence number. */
    method LookupSeqNo(id: Id, context: LeafReaderContext) returns (r: Result<Option<DocIdAndSeqNo>, LookupError>)
      requires Valid()
      ensures var docID := DocIdFor(termsEnum, id, context.reader.liveDocs);
        && (r == Success(None) <==> docID == NO_MORE_DOCS)
        && (r.Failure? <==> docID != NO_MORE_DOCS && ReadNumericDocValues(context.reader, SeqNo, docID).Failure?)
        && (r.Failure? ==> r.error == MissingDocValues(SeqNo, docID))
        && (r.Success? && r.value.Some? ==>
              r.value.value == DocIdAndSeqNo(docID, ReadNumericDocValues(context.reader, SeqNo, docID).value, context))
    {
      var docID := GetDocID(id, context);
      if docID != NO_MORE_DOCS {
        var s := ReadNumericDocValues(context.reader, SeqNo, docID);
        if s.Failure? {
          return Failure(s.error);
        }
        r := Success(Some(DocIdAndSeqNo(docID, s.value, context)));
      } else {
        r := Success(None);
      }
    }
  }
}
