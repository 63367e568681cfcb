/**
 * The last check before bytes leave for a device: packages/printer-adapters/src/
 * submission.ts, lines 19-64. The patterns for the operation identifier, the digest and
 * the absolute path are given as answers.
 */
module Submission {
  import opened Records
  import opened Wrappers

  const MAX_POSITION := 999

  datatype Document = Document(documentId: Id, position: int, sha256: string, sizeBytes: int, copies: int)

  datatype Artifact = Artifact(documentId: Id, position: int, sha256: string, sizeBytes: int, pathIsAbsolute: bool, digestFits: bool)

  datatype PrintSubmission = PrintSubmission(
    operationIdFits: bool, documents: seq<Document>, physicalSheets: int, artifacts: seq<Artifact>)

  datatype SubmissionError = OperationIdInvalid | ManifestInvalid | ArtifactUnavailable

  /** The artifact is this document's, byte for byte as the manifest names it. */
  predicate Carries(a: Artifact, d: Document) {
    && a.documentId == d.documentId && a.position == d.position && a.sha256 == d.sha256 && a.sizeBytes == d.sizeBytes
    && a.pathIsAbsolute && a.digestFits && a.sizeBytes >= 1 && 0 <= a.position <= 999
  }

  predicate DistinctDocuments(documents: seq<Document>) {
    forall i, j :: 0 <= i < j < |documents| ==> documents[i].documentId != documents[j].documentId
  }

  predicate DistinctArtifacts(artifacts: seq<Artifact>) {
    forall i, j :: 0 <= i < j < |artifacts| ==>
      artifacts[i].documentId != artifacts[j].documentId && artifacts[i].position != artifacts[j].position
  }

  predicate HasDocument(documents: seq<Document>, a: Artifact) {
    exists i :: 0 <= i < |documents| && Carries(a, documents[i])
  }

  predicate HasArtifact(artifacts: seq<Artifact>, d: Document) {
    exists i :: 0 <= i < |artifacts| && Carries(artifacts[i], d)
  }

  /** What the order of the checks leaves of a submission. */
  predicate ManifestFits(s: PrintSubmission) {
    && |s.documents| == |s.artifacts| && s.artifacts != [] && s.physicalSheets >= 1
    && (forall i :: 0 <= i < |s.documents| ==> s.documents[i].copies >= 1)
    && DistinctDocuments(s.documents)
  }

  predicate ArtifactsFit(documents: seq<Document>, artifacts: seq<Artifact>) {
    DistinctArtifacts(artifacts) && forall i :: 0 <= i < |artifacts| ==> HasDocument(documents, artifacts[i])
  }

  // ---------- The check ----------

  /** `new Map(documents.map(…))`: a later document of the same name replaces an earlier one. */
  function ExpectedByDocument(documents: seq<Document>): map<Id, Document> {
    if documents == [] then map[]
    else
      var last := documents[|documents| - 1];
      ExpectedByDocument(documents[..|documents| - 1])[last.documentId := last]
  }

  predicate NamedAt(documents: seq<Document>, i: int, id: Id) {
    0 <= i < |documents| && documents[i].documentId == id
  }

  lemma {:induction false} ExpectedLookups(documents: seq<Document>, id: Id)
    ensures id in ExpectedByDocument(documents) <==> exists i :: NamedAt(documents, i, id)
    ensures id in ExpectedByDocument(documents) ==>
              exists i :: NamedAt(documents, i, id) && ExpectedByDocument(documents)[id] == documents[i]
  {
    if documents != [] {
      var n := |documents| - 1;
      var earlier := documents[..n];
      ExpectedLookups(earlier, id);
      if documents[n].documentId == id {
        assert NamedAt(documents, n, id);
      } else {
        forall i ensures NamedAt(documents, i, id) <==> NamedAt(earlier, i, id) {
        }
        if id in ExpectedByDocument(earlier) {
          var i :| NamedAt(earlier, i, id) && ExpectedByDocument(earlier)[id] == earlier[i];
          assert NamedAt(documents, i, id) && documents[i] == earlier[i];
        }
      }
    }
  }

  lemma DistinctSnoc(documents: seq<Document>)
    requires documents != []
    ensures var n := |documents| - 1;
            DistinctDocuments(documents) <==>
              DistinctDocuments(documents[..n]) && !exists i :: NamedAt(documents[..n], i, documents[n].documentId)
  {
    var n := |documents| - 1;
    var earlier := documents[..n];
    assert forall i :: 0 <= i < n ==> documents[i] == earlier[i];
    if DistinctDocuments(documents) {
      forall i ensures !NamedAt(earlier, i, documents[n].documentId) {
      }
    } else if DistinctDocuments(earlier) {
      var i, j :| 0 <= i < j < |documents| && documents[i].documentId == documents[j].documentId;
      assert j == n && NamedAt(earlier, i, documents[n].documentId);
    }
  }

  lemma {:induction false} ExpectedSize(documents: seq<Document>)
    ensures |ExpectedByDocument(documents)| <= |documents|
    ensures |ExpectedByDocument(documents)| == |documents| <==> DistinctDocuments(documents)
  {
    if documents != [] {
      var n := |documents| - 1;
      var earlier, last := documents[..n], documents[n];
      ExpectedSize(earlier);
      ExpectedLookups(earlier, last.documentId);
      DistinctSnoc(documents);
      var before, after := ExpectedByDocument(earlier), ExpectedByDocument(documents);
      assert after.Keys == before.Keys + {last.documentId};
      assert |after| == |after.Keys| && |before| == |before.Keys|;
    }
  }

  lemma LookupMeaning(documents: seq<Document>, a: Artifact)
    requires DistinctDocuments(documents)
    ensures HasDocument(documents, a) <==>
              a.documentId in ExpectedByDocument(documents) && Carries(a, ExpectedByDocument(documents)[a.documentId])
    ensures a.documentId in ExpectedByDocument(documents) ==>
              ExpectedByDocument(documents)[a.documentId].documentId == a.documentId
  {
    ExpectedLookups(documents, a.documentId);
    if HasDocument(documents, a) {
      var i :| 0 <= i < |documents| && Carries(a, documents[i]);
      assert NamedAt(documents, i, a.documentId);
      var j :| NamedAt(documents, j, a.documentId) && ExpectedByDocument(documents)[a.documentId] == documents[j];
      assert i == j;
    }
  }

  predicate DocumentSeen(artifacts: seq<Artifact>, i: nat, id: Id)
    requires i <= |artifacts|
  {
    exists k :: 0 <= k < i && artifacts[k].documentId == id
  }

  predicate PositionSeen(artifacts: seq<Artifact>, i: nat, position: int)
    requires i <= |artifacts|
  {
    exists k :: 0 <= k < i && artifacts[k].position == position
  }

  lemma SeenSnoc(artifacts: seq<Artifact>, i: nat)
    requires i < |artifacts|
    requires DistinctArtifacts(artifacts[..i])
    requires !DocumentSeen(artifacts, i, artifacts[i].documentId) && !PositionSeen(artifacts, i, artifacts[i].position)
    ensures forall id :: DocumentSeen(artifacts, i + 1, id) <==> DocumentSeen(artifacts, i, id) || id == artifacts[i].documentId
    ensures forall p :: PositionSeen(artifacts, i + 1, p) <==> PositionSeen(artifacts, i, p) || p == artifacts[i].position
    ensures DistinctArtifacts(artifacts[..i + 1])
  {
    forall id | DocumentSeen(artifacts, i + 1, id) ensures DocumentSeen(artifacts, i, id) || id == artifacts[i].documentId {
    }
  }

  /** The loop refuses artifact i only when nothing that follows could make the whole fit. */
  lemma RefusedForGood(documents: seq<Document>, artifacts: seq<Artifact>, i: nat)
    requires i < |artifacts|
    requires || !HasDocument(documents, artifacts[i])
             || DocumentSeen(artifacts, i, artifacts[i].documentId)
             || PositionSeen(artifacts, i, artifacts[i].position)
    ensures !ArtifactsFit(documents, artifacts)
  {
  }

  lemma EachFits(documents: seq<Document>, artifacts: seq<Artifact>)
    requires DistinctArtifacts(artifacts) && forall i :: 0 <= i < |artifacts| ==> HasDocument(documents, artifacts[i])
    ensures ArtifactsFit(documents, artifacts)
  {
  }

  method AssertSubmittable(s: PrintSubmission) returns (r: Result<(), SubmissionError>)
    ensures r.Success? <==> s.operationIdFits && ManifestFits(s) && ArtifactsFit(s.documents, s.artifacts)
    ensures r == Failure(OperationIdInvalid) <==> !s.operationIdFits
    ensures r == Failure(ManifestInvalid) <==> s.operationIdFits && !ManifestFits(s)
  {
    if !s.operationIdFits { return Failure(OperationIdInvalid); }
    if |s.documents| != |s.artifacts| || |s.artifacts| == 0 || s.physicalSheets < 1
       || exists i :: 0 <= i < |s.documents| && s.documents[i].copies < 1
    {
      return Failure(ManifestInvalid);
    }
    var expectedByDocument := ExpectedByDocument(s.documents);
    ExpectedSize(s.documents);
    if |expectedByDocument| != |s.documents| { return Failure(ManifestInvalid); }
    var seenDocuments: set<Id> := {};
    var seenPositions: set<int> := {};
    hide ManifestFits, DistinctDocuments, DistinctArtifacts, HasDocument, ExpectedByDocument, ArtifactsFit, DocumentSeen, PositionSeen;
    for i := 0 to |s.artifacts|
      invariant forall id :: id in seenDocuments <==> DocumentSeen(s.artifacts, i, id)
      invariant forall p :: p in seenPositions <==> PositionSeen(s.artifacts, i, p)
      invariant forall k :: 0 <= k < i ==> HasDocument(s.documents, s.artifacts[k])
      invariant DistinctArtifacts(s.artifacts[..i])
    {
      var artifact := s.artifacts[i];
      LookupMeaning(s.documents, artifact);
      if artifact.documentId !in expectedByDocument {
        RefusedForGood(s.documents, s.artifacts, i);
        return Failure(ArtifactUnavailable);
      }
      var expected := expectedByDocument[artifact.documentId];
      if artifact.documentId in seenDocuments || artifact.position in seenPositions
         || expected.position != artifact.position || expected.sha256 != artifact.sha256
         || expected.sizeBytes != artifact.sizeBytes || !artifact.pathIsAbsolute || artifact.sizeBytes < 1
         || !artifact.digestFits || artifact.position < 0 || artifact.position > MAX_POSITION
      {
        RefusedForGood(s.documents, s.artifacts, i);
        return Failure(ArtifactUnavailable);
      }
      SeenSnoc(s.artifacts, i);
      seenDocuments := seenDocuments + {artifact.documentId};
      seenPositions := seenPositions + {artifact.position};
    }
    assert s.artifacts[..|s.artifacts|] == s.artifacts;
    EachFits(s.documents, s.artifacts);
    return Success(());
  }

  // ---------- What passing it means ----------

  lemma {:induction false} NamesOfDistinct(artifacts: seq<Artifact>) returns (names: set<Id>)
    requires DistinctArtifacts(artifacts)
    ensures |names| == |artifacts|
    ensures forall id :: id in names <==> exists i :: 0 <= i < |artifacts| && artifacts[i].documentId == id
  {
    if artifacts == [] {
      names := {};
    } else {
      var n := |artifacts| - 1;
      var earlier := NamesOfDistinct(artifacts[..n]);
      names := earlier + {artifacts[n].documentId};
      assert artifacts[n].documentId !in earlier;
    }
  }

  lemma FullSubset(small: set<Id>, large: set<Id>)
    requires small <= large && |small| == |large|
    ensures small == large
  {
    assert large == small + (large - small);
    assert |large - small| == 0;
  }

  lemma ArtifactIsNamed(s: PrintSubmission, i: nat)
    requires i < |s.artifacts| && ArtifactsFit(s.documents, s.artifacts)
    ensures s.artifacts[i].documentId in ExpectedByDocument(s.documents)
  {
    ExpectedLookups(s.documents, s.artifacts[i].documentId);
    assert HasDocument(s.documents, s.artifacts[i]);
    var j :| 0 <= j < |s.documents| && Carries(s.artifacts[i], s.documents[j]);
    assert NamedAt(s.documents, j, s.artifacts[i].documentId);
  }

  lemma OnlyItsDocument(s: PrintSubmission, i: nat, k: nat)
    requires ManifestFits(s) && ArtifactsFit(s.documents, s.artifacts)
    requires i < |s.artifacts| && k < |s.documents| && s.artifacts[i].documentId == s.documents[k].documentId
    ensures Carries(s.artifacts[i], s.documents[k])
  {
    assert HasDocument(s.documents, s.artifacts[i]);
    var j :| 0 <= j < |s.documents| && Carries(s.artifacts[i], s.documents[j]);
    assert j == k;
  }

  /**
   * A submission that passes carries every document of the manifest exactly once: each
   * artifact is one document's, each document has its artifact, and no two share one.
   */
  lemma SubmittedOneToOne(s: PrintSubmission)
    requires ManifestFits(s) && ArtifactsFit(s.documents, s.artifacts)
    ensures forall i :: 0 <= i < |s.documents| ==> HasArtifact(s.artifacts, s.documents[i])
    ensures forall i, j, d :: 0 <= i < j < |s.artifacts| ==> !(Carries(s.artifacts[i], d) && Carries(s.artifacts[j], d))
  {
    var carried := NamesOfDistinct(s.artifacts);
    ExpectedSize(s.documents);
    var named := ExpectedByDocument(s.documents).Keys;
    assert |named| == |ExpectedByDocument(s.documents)|;
    forall id | id in carried ensures id in named {
      var i :| 0 <= i < |s.artifacts| && s.artifacts[i].documentId == id;
      ArtifactIsNamed(s, i);
    }
    FullSubset(carried, named);
    forall k | 0 <= k < |s.documents| ensures HasArtifact(s.artifacts, s.documents[k]) {
      ExpectedLookups(s.documents, s.documents[k].documentId);
      assert NamedAt(s.documents, k, s.documents[k].documentId);
      var i :| 0 <= i < |s.artifacts| && s.artifacts[i].documentId == s.documents[k].documentId;
      OnlyItsDocument(s, i, k);
    }
  }
}
