/** The columns of a stored capsule, three of which hold JSON text, and reading them back. */
module CapsuleColumns {
  import opened Json
  import opened Canonical
  import opened Sealing
  import opened Records

  datatype Columns = Columns(
    capsuleId: string, kind: string, state: string, fingerprint: string, faultOwner: string, domains: string,
    observationRef: string, evidence: string, baselineStrategy: string, observedStrategy: string,
    rootCause: Option<string>, repair: Option<string>, regressions: string, artifactRef: string, artifactHash: string,
    lineage: Lineage, revision: int, provenance: string, contentHash: string)

  function ColumnsOf(p: Capsule): Columns {
    Columns(
      p.capsuleId, p.kind.Name(), p.state, p.fingerprint, p.faultOwner, CanonicalText(TextArray(p.domains)),
      p.observationRef, CanonicalText(ReferenceArray(p.evidence)), p.baselineStrategy, p.observedStrategy, p.rootCause,
      p.repair, CanonicalText(TextArray(p.regressions)), p.artifactRef, p.artifactHash, p.lineage, p.revision, p.provenance,
      p.contentHash)
  }

  /******* Reading *******/

  function KindNamed(name: string): Option<CapsuleKind> {
    if name == "failure" then Some(FailureCapsule) else if name == "process" then Some(ProcessCapsule) else None
  }

  function ReadText(v: Json): Option<string> {
    if v.Str? then Some(v.s) else None
  }

  /** An object with exactly a reference and a content hash. */
  function ReadReference(v: Json): Option<Reference> {
    if !v.Obj? || |v.members| != 2 then None
    else match (Lookup(v.members, "ref"), Lookup(v.members, "content_hash"))
      case (Some(Str(ref)), Some(Str(hash))) => Some(Reference(ref, hash))
      case _ => None
  }

  function ReadAll<T>(items: seq<Json>, read: Json -> Option<T>): Option<seq<T>> {
    if items == [] then Some([])
    else match (ReadAll(items[..|items| - 1], read), read(items[|items| - 1]))
      case (Some(ts), Some(t)) => Some(ts + [t])
      case _ => None
  }

  function ReadArray<T>(text: string, read: Json -> Option<T>): Option<seq<T>> {
    match Loads(text)
    case Some(Arr(items)) => ReadAll(items, read)
    case _ => None
  }

  function FromColumns(k: Columns): Option<Capsule> {
    match (KindNamed(k.kind), ReadArray(k.domains, ReadText), ReadArray(k.evidence, ReadReference),
           ReadArray(k.regressions, ReadText))
    case (Some(kind), Some(domains), Some(evidence), Some(regressions)) =>
      Some(Capsule(
             k.capsuleId, kind, k.state, k.fingerprint, k.faultOwner, domains, k.observationRef, evidence, k.baselineStrategy,
             k.observedStrategy, k.rootCause, k.repair, regressions, k.artifactRef, k.artifactHash, k.lineage, k.revision,
             k.provenance, k.contentHash))
    case _ => None
  }

  /******* Reading undoes writing *******/

  lemma {:induction false} ReadAllItems<T>(items: seq<Json>, read: Json -> Option<T>, ts: seq<T>)
    requires |items| == |ts| && forall i | 0 <= i < |ts| :: read(items[i]) == Some(ts[i])
    ensures ReadAll(items, read) == Some(ts)
  {
    if ts != [] {
      var n := |ts| - 1;
      ReadAllItems(items[..n], read, ts[..n]);
      assert ts == ts[..n] + [ts[n]];
    }
  }

  lemma ArrayReadsBack<T>(items: seq<Json>, read: Json -> Option<T>, ts: seq<T>)
    requires |items| == |ts| && forall i | 0 <= i < |ts| :: read(Canon(items[i])) == Some(ts[i])
    ensures ReadArray(CanonicalText(Arr(items)), read) == Some(ts)
  {
    hide Loads, CanonicalText, ReadAll;
    LoadsCanonicalText(Arr(items));
    ReadAllItems(CanonItems(items), read, ts);
  }

  lemma TextsReadBack(ts: seq<string>)
    ensures ReadArray(CanonicalText(TextArray(ts)), ReadText) == Some(ts)
  {
    hide ReadArray, CanonicalText;
    ArrayReadsBack(seq(|ts|, i requires 0 <= i < |ts| => Str(ts[i])), ReadText, ts);
  }

  lemma CanonReference(r: Reference)
    ensures ReadReference(Canon(r.AsJson())) == Some(r)
  {
    var ref, hash := Member("ref", Str(r.ref)), Member("content_hash", Str(r.contentHash));
    assert KeyLess("content_hash", "ref") by { assert "content_hash"[0] == 'c' && "ref"[0] == 'r'; }
    assert !KeyLess("ref", "content_hash") by { assert "content_hash"[0] == 'c' && "ref"[0] == 'r'; }
    hide KeyLess;
    assert CanonMembers([ref, hash]) == [ref, hash] && [ref, hash][1..] == [hash] && [hash][1..] == [];
    assert Sort([hash]) == [hash];
    assert Insert(ref, [hash]) == [hash] + Insert(ref, []);
    assert Canon(r.AsJson()) == Obj([hash, ref]);
    assert [hash, ref][1..] == [ref] && "content_hash" != "ref";
    assert Lookup([ref], "ref") == Some(Str(r.ref));
  }

  lemma ReferencesReadBack(rs: seq<Reference>)
    ensures ReadArray(CanonicalText(ReferenceArray(rs)), ReadReference) == Some(rs)
  {
    hide ReadArray, CanonicalText, ReadReference, Canon, Reference.AsJson;
    forall i | 0 <= i < |rs| ensures ReadReference(Canon(rs[i].AsJson())) == Some(rs[i]) { CanonReference(rs[i]); }
    ArrayReadsBack(seq(|rs|, i requires 0 <= i < |rs| => rs[i].AsJson()), ReadReference, rs);
  }

  /** The columns of a capsule read back as that capsule, so what was valid when it was stored is valid when it is read. */
  lemma CapsuleReadsBack(p: Capsule)
    ensures FromColumns(ColumnsOf(p)) == Some(p)
  {
    hide ReadArray, CanonicalText, TextArray, ReferenceArray;
    TextsReadBack(p.domains);
    TextsReadBack(p.regressions);
    ReferencesReadBack(p.evidence);
    assert KindNamed(p.kind.Name()) == Some(p.kind) by { assert "failure"[0] == 'f' && "process"[0] == 'p'; }
  }

  /** So the columns tell capsules apart. */
  lemma ColumnsAreInjective(p: Capsule, q: Capsule)
    ensures ColumnsOf(p) == ColumnsOf(q) <==> p == q
  {
    hide *;
    CapsuleReadsBack(p);
    CapsuleReadsBack(q);
  }

  /** The text the query compares with is that of no references at all. */
  lemma EmptyEvidenceText(rs: seq<Reference>)
    ensures CanonicalText(ReferenceArray(rs)) == "[]" <==> rs == []
  {
    ReferencesReadBack(rs);
    ReferencesReadBack([]);
    assert CanonicalText(ReferenceArray([])) == "[]" by {
      assert ReferenceArray([]) == Arr([]);
      assert Emit(Arr([])) == "[" + "" + "]";
    }
    hide CanonicalText, ReadArray, ReferenceArray;
  }
}
