/**
 Building and verifying offline acceptance bundles.  The builder packs an explicit list of
 files and a manifest that names each by digest and size; the verifier is given the names and
 the commit it expects, and trusts nothing else: not the archive's own list, not a claim to be
 live, not an authority tuple without a sealed proof.
 */
module Bundle {
  import opened Bytes
  import opened Json
  import opened Canonical
  import opened Sealing
  import opened Sequences
  import opened Names
  import ChecksumText

  const SCHEMA: string := "testweaver.m4.offline-bundle/v1"
  const PROOF_SCHEMA: string := "testweaver.m4.external-sealed-authority/v1"
  const MANIFEST: string := "bundle-manifest.json"
  const LIVE: string := "LIVE_AGENTTEAMS_HERO"
  const ALLOWED: set<string> := {"ATTESTED_EXTERNAL_EXPORT", "PARTIAL", "FAIL", "BLOCKED", "NOT_OBSERVED", "NOT_AVAILABLE"}
  const MAX_MEMBER: nat := 8 * 1024 * 1024
  const MAX_TOTAL: nat := 32 * 1024 * 1024
  const MAX_RATIO: nat := 1000

  /******* Proofs and attestations *******/

  datatype Tuple = Tuple(campaignId: string, runId: string, traceId: string, pgRevision: string)

  /** The parts of an authority tuple a caller insists on. */
  datatype Expected = Expected(
    campaignId: Option<string>, runId: Option<string>, traceId: Option<string>, pgRevision: Option<string>)
  {
    predicate Allows(t: Tuple) {
      && (campaignId.Some? ==> campaignId.value == t.campaignId) && (runId.Some? ==> runId.value == t.runId)
      && (traceId.Some? ==> traceId.value == t.traceId) && (pgRevision.Some? ==> pgRevision.value == t.pgRevision)
    }
  }

  datatype Attestation = Attestation(
    sourceRef: string, sourceHash: string, attestationRef: string, attestationHash: string, sourceKind: string,
    manifestRef: string, manifestHash: string)

  function Unsealed(a: Attestation): seq<Member> {
    [Member("source_ref", Str(a.sourceRef)), Member("source_hash", Str(a.sourceHash)),
     Member("attestation_ref", Str(a.attestationRef)), Member("source_kind", Str(a.sourceKind)),
     Member("manifest_ref", Str(a.manifestRef)), Member("manifest_hash", Str(a.manifestHash))]
  }

  datatype Source = Source(
    sourceRef: string, sourceHash: string, manifestRef: string, manifestHash: string, sealRef: string, sealHash: string,
    sourceKind: string)

  /** A fact of a proof; `body` is what else it holds, with its markers and private fields judged by the scheme. */
  datatype Component = Component(
    status: string, ref: string, sourceRef: string, sourceHash: string, tuple: Tuple, body: Json, contentHash: string)

  datatype OracleFact = OracleFact(
    fact: Component, kind: string, identityRef: string, processRef: string, resultRef: string, resultHash: string,
    rootRef: string, rootHash: string, goldRef: Option<string>, readsResults: bool)

  datatype Proof = Proof(
    schema: string, proofId: string, tuple: Tuple, rootRef: string, rootHash: string, components: seq<Component>,
    oracles: seq<OracleFact>, source: Source, contentHash: string)

  datatype FileEntry = FileEntry(path: string, sha256: string, size: int)

  /** What the verifier looks at in a manifest; a proof stays the value it was read as. */
  datatype Manifest = Manifest(
    schema: string, classification: string, commit: string, attestation: Attestation, files: seq<FileEntry>,
    looseTuple: bool, proof: Option<Value>)

  /**
   What is kept abstract: digests and seals, the JSON reader and the bytes of a text, what a
   proof's value says, the size deflate gives, and the tests for untrusted markers and private
   fields.
   */
  datatype Env = Env(
    c: Scheme, h: Hasher, utf8: string -> Bytes, loads: Bytes -> Option<Value>, read: Value -> Option<Proof>,
    deflate: Bytes -> nat, sealSource: Source -> string, sealFact: Component -> string, sealOracle: OracleFact -> string,
    sealProof: Proof -> string, trusted: Proof -> bool, open: (Json, bool) -> bool)
  {
    /** A text that the proved reader reads is read from its bytes, and a line end behind it, in the same way. */
    ghost predicate Faithful() {
      forall t: string, v: Json :: Loads(t) == Some(v) && WellFormed(v) ==> loads(utf8(t + "\n")) == Some(Denote(v))
    }

    function SealAttestation(a: Attestation): string {
      c.Hash(Obj(Unsealed(a)))
    }

    function HashRef(b: Bytes): string {
      "sha256:" + h.digest(b)
    }

    predicate Opaque(s: string) {
      c.IsReference(s, 2000)
    }
  }

  predicate SafeName(name: string) {
    && name != "" && name[|name| - 1] != '/' && name[0] != '/' && '\\' !in name
    && (forall i | 0 <= i < |name| :: name[i] >= ' ')
    && (forall i | 0 <= i < |name| - 1 :: !(name[i] == '/' && name[i + 1] == '/'))
    && ".." !in ChecksumText.Components(name, "")
  }

  predicate SealedAttestation(env: Env, a: Attestation) {
    && a.sourceKind == "agentteams-native-export" && SafeName(a.sourceRef) && env.Opaque(a.attestationRef)
    && env.c.isHash(a.sourceHash) && env.c.isHash(a.attestationHash) && env.c.isHash(a.manifestHash)
    && a.attestationHash == env.SealAttestation(a) && SafeName(a.manifestRef)
  }

  /** The bytes an attestation or a source points at are there, not empty, and have the stated hashes. */
  predicate Backed(env: Env, files: map<string, Bytes>, sourceRef: string, sourceHash: string, manifestRef: string, manifestHash: string) {
    && manifestRef in files && sourceRef in files && files[sourceRef] != []
    && env.HashRef(files[sourceRef]) == sourceHash && env.HashRef(files[manifestRef]) == manifestHash
  }

  predicate FactOk(env: Env, f: Component, tuple: Tuple, sourceHash: string, gold: bool) {
    && env.open(f.body, gold) && f.status in {"VERIFIED", "PASS", "ACCEPTED"} && f.tuple == tuple
    && env.Opaque(f.ref) && env.Opaque(f.sourceRef) && env.c.isHash(f.sourceHash) && f.sourceHash == sourceHash
    && env.c.isHash(f.contentHash)
  }

  predicate ComponentOk(env: Env, f: Component, tuple: Tuple, sourceHash: string) {
    FactOk(env, f, tuple, sourceHash, false) && f.contentHash == env.sealFact(f.(contentHash := ""))
  }

  predicate OracleOk(env: Env, o: OracleFact, p: Proof) {
    && FactOk(env, o.fact, p.tuple, p.source.sourceHash, o.kind == "outcome")
    && o.fact.contentHash == env.sealOracle(o.(fact := o.fact.(contentHash := "")))
    && o.kind in {"outcome", "boundary"} && o.rootRef == p.rootRef && o.rootHash == p.rootHash
    && env.Opaque(o.identityRef) && env.Opaque(o.processRef) && env.Opaque(o.resultRef) && env.c.isHash(o.resultHash)
    && !o.readsResults && (o.goldRef.Some? ==> o.kind == "outcome" && env.Opaque(o.goldRef.value))
  }

  predicate Differ(x: OracleFact, y: OracleFact) {
    && x.kind != y.kind && x.identityRef != y.identityRef && x.processRef != y.processRef
    && x.resultRef != y.resultRef && x.resultHash != y.resultHash
  }

  predicate ProofOk(env: Env, p: Proof, expected: Option<Expected>, files: map<string, Bytes>, a: Attestation) {
    var s := p.source;
    && env.trusted(p) && env.c.isHash(p.contentHash) && p.contentHash == env.sealProof(p.(contentHash := ""))
    && p.schema == PROOF_SCHEMA && env.Opaque(p.proofId)
    && env.Opaque(p.tuple.campaignId) && env.Opaque(p.tuple.runId) && env.Opaque(p.tuple.traceId) && env.Opaque(p.tuple.pgRevision)
    && (expected.Some? ==> expected.value.Allows(p.tuple))
    && env.Opaque(p.rootRef) && env.c.isHash(p.rootHash)
    && s.sourceKind == "agentteams-native-sealed-authority" && SafeName(s.sourceRef) && SafeName(s.manifestRef)
    && env.c.isHash(s.sourceHash) && env.c.isHash(s.manifestHash) && env.Opaque(s.sealRef) && env.c.isHash(s.sealHash)
    && s.sealHash == env.sealSource(s.(sealHash := ""))
    && a.sourceRef == s.sourceRef && a.sourceHash == s.sourceHash && a.manifestRef == s.manifestRef && a.manifestHash == s.manifestHash
    && Backed(env, files, s.sourceRef, s.sourceHash, s.manifestRef, s.manifestHash)
    && |files[s.sourceRef]| <= MAX_MEMBER && |files[s.manifestRef]| <= MAX_MEMBER
    && |p.components| == 4 && (forall f | f in p.components :: ComponentOk(env, f, p.tuple, s.sourceHash))
    && |p.oracles| == 2 && (forall o | o in p.oracles :: OracleOk(env, o, p)) && Differ(p.oracles[0], p.oracles[1])
  }

  predicate ProofHolds(env: Env, v: Value, expected: Option<Expected>, files: map<string, Bytes>, a: Attestation) {
    v.ObjV? && env.read(v).Some? && ProofOk(env, env.read(v).value, expected, files, a)
  }

  /******* The manifest's text *******/

  function EntryMembers(e: FileEntry): seq<Member> {
    [Member("path", Str(e.path)), Member("sha256", Str(e.sha256)), Member("size", Int(e.size))]
  }

  function EntryJson(e: FileEntry): Json {
    Obj(EntryMembers(e))
  }

  function AttestationMembers(a: Attestation): seq<Member> {
    Unsealed(a) + [Member("attestation_hash", Str(a.attestationHash))]
  }

  function AttestationJson(a: Attestation): Json {
    Obj(AttestationMembers(a))
  }

  function Header(classification: string, commit: string, a: Attestation, files: seq<FileEntry>): seq<Member> {
    [Member("schema", Str(SCHEMA)), Member("classification", Str(classification)), Member("source_commit", Str(commit)),
     Member("raw_source_attestation", AttestationJson(a)),
     Member("files", Arr(seq(|files|, i requires 0 <= i < |files| => EntryJson(files[i]))))]
  }

  function Extra(downgraded: bool, proof: Option<Json>): seq<Member> {
    (if downgraded then [Member("downgraded_from", Str(LIVE))] else [])
    + (if proof.Some? then [Member("external_sealed_authority", proof.value)] else [])
  }

  function ManifestJson(
      classification: string, commit: string, a: Attestation, files: seq<FileEntry>, downgraded: bool, proof: Option<Json>): Json
  {
    Obj(Header(classification, commit, a, files) + Extra(downgraded, proof))
  }

  function TextAt(fields: map<string, Value>, key: string): Option<string> {
    if key in fields && fields[key].StrV? then Some(fields[key].s) else None
  }

  /** Python counts a truth value as a number. */
  function NumberAt(fields: map<string, Value>, key: string): Option<int> {
    if key !in fields then None
    else match fields[key]
      case IntV(n) => Some(n)
      case BoolV(b) => Some(if b then 1 else 0)
      case _ => None
  }

  function ReadEntry(v: Value): Option<FileEntry> {
    if !v.ObjV? then None
    else match (TextAt(v.fields, "path"), TextAt(v.fields, "sha256"), NumberAt(v.fields, "size"))
      case (Some(path), Some(sha256), Some(size)) => Some(FileEntry(path, sha256, size))
      case _ => None
  }

  function ReadEntries(vs: seq<Value>): Option<seq<FileEntry>> {
    if vs == [] then Some([])
    else match (ReadEntries(vs[..|vs| - 1]), ReadEntry(vs[|vs| - 1]))
      case (Some(es), Some(e)) => Some(es + [e])
      case _ => None
  }

  const ATTESTATION_FIELDS: set<string> := {
    "source_ref", "source_hash", "attestation_ref", "attestation_hash", "source_kind", "manifest_ref", "manifest_hash"
  }

  function ReadAttestation(v: Value): Option<Attestation> {
    if !v.ObjV? || v.fields.Keys != ATTESTATION_FIELDS then None
    else
      var f := v.fields;
      match (TextAt(f, "source_ref"), TextAt(f, "source_hash"), TextAt(f, "attestation_ref"), TextAt(f, "attestation_hash"),
             TextAt(f, "source_kind"), TextAt(f, "manifest_ref"), TextAt(f, "manifest_hash"))
      case (Some(a), Some(b), Some(c), Some(d), Some(e), Some(g), Some(h)) => Some(Attestation(a, b, c, d, e, g, h))
      case _ => None
  }

  /** A field that is missing or null counts as absent. */
  function ValueAt(fields: map<string, Value>, key: string): Option<Value> {
    if key in fields && fields[key] != NullV then Some(fields[key]) else None
  }

  /** None means that the verifier raises on the value's shape. */
  function ReadManifest(v: Value): Option<Manifest> {
    if !v.ObjV? then None
    else
      var f := v.fields;
      if "files" !in f || !f["files"].ArrV? || "raw_source_attestation" !in f then None
      else
        match (TextAt(f, "schema"), TextAt(f, "classification"), TextAt(f, "source_commit"), ReadEntries(f["files"].items),
               ReadAttestation(f["raw_source_attestation"]))
        case (Some(schema), Some(classification), Some(commit), Some(files), Some(a)) =>
          Some(Manifest(schema, classification, commit, a, files, "authority_tuple" in f, ValueAt(f, "external_sealed_authority")))
        case _ => None
  }

  function Decode(env: Env, text: Bytes): Option<Manifest> {
    match env.loads(text) case None => None case Some(v) => ReadManifest(v)
  }

  /******* The manifest's text reads back *******/

  /** Every member is found under its key, and nothing else is. */
  lemma FieldsOf(ms: seq<Member>)
    requires DistinctKeys(ms)
    ensures forall i | 0 <= i < |ms| :: ms[i].key in DenoteMembers(ms) && DenoteMembers(ms)[ms[i].key] == Denote(ms[i].value)
    ensures forall k | k in DenoteMembers(ms) :: exists i :: 0 <= i < |ms| && ms[i].key == k
  {
    hide Denote, DenoteMembers, DistinctKeys, Graph;
    MeaningIsGraph(ms);
    var f := DenoteMembers(ms);
    forall i | 0 <= i < |ms| ensures ms[i].key in f && f[ms[i].key] == Denote(ms[i].value) { InGraph(ms, i); }
    forall k | k in f ensures exists i :: 0 <= i < |ms| && ms[i].key == k { var i := GraphIndex(ms, (k, f[k])); }
  }

  lemma FieldAt(ms: seq<Member>, i: nat)
    requires DistinctKeys(ms) && i < |ms|
    ensures ms[i].key in DenoteMembers(ms) && DenoteMembers(ms)[ms[i].key] == Denote(ms[i].value)
  {
    hide *;
    FieldsOf(ms);
  }

  lemma DenoteObj(ms: seq<Member>)
    ensures Denote(Obj(ms)) == ObjV(DenoteMembers(ms))
  {
  }

  lemma EntryKeys(e: FileEntry)
    ensures DistinctKeys(EntryMembers(e)) && WellFormed(EntryJson(e))
  {
    var ms := EntryMembers(e);
    assert |ms[0].key| == 4 && |ms[1].key| == 6 && |ms[2].key| == 4 && ms[0].key[0] == 'p' && ms[2].key[0] == 's';
  }

  lemma EntryReadsBack(e: FileEntry)
    ensures WellFormed(EntryJson(e)) && ReadEntry(Denote(EntryJson(e))) == Some(e)
  {
    var ms := EntryMembers(e);
    EntryKeys(e);
    hide DenoteMembers, DistinctKeys, WellFormed;
    DenoteObj(ms);
    FieldAt(ms, 0);
    FieldAt(ms, 1);
    FieldAt(ms, 2);
  }

  lemma {:induction false} EntriesReadBack(files: seq<FileEntry>, vs: seq<Value>)
    requires |vs| == |files| && forall i | 0 <= i < |files| :: vs[i] == Denote(EntryJson(files[i]))
    ensures ReadEntries(vs) == Some(files)
  {
    hide EntryJson, Denote, ReadEntry;
    if files != [] {
      var n := |files| - 1;
      EntriesReadBack(files[..n], vs[..n]);
      EntryReadsBack(files[n]);
      assert files == files[..n] + [files[n]];
    }
  }

  lemma AttestationKeys(a: Attestation)
    ensures |AttestationMembers(a)| == 7 && DistinctKeys(AttestationMembers(a))
  {
    var ms := AttestationMembers(a);
    assert |ms[0].key| == 10 && |ms[1].key| == 11 && |ms[2].key| == 15 && |ms[3].key| == 11 && |ms[4].key| == 12;
    assert |ms[5].key| == 13 && |ms[6].key| == 16 && ms[1].key[7] == 'h' && ms[3].key[7] == 'k';
  }

  lemma AttestationText(a: Attestation, i: nat)
    requires i < 7
    ensures |AttestationMembers(a)| == 7 && AttestationMembers(a)[i].value.Str?
    ensures TextAt(DenoteMembers(AttestationMembers(a)), AttestationMembers(a)[i].key) == Some(AttestationMembers(a)[i].value.s)
  {
    AttestationKeys(a);
    FieldAt(AttestationMembers(a), i);
    hide DenoteMembers, DistinctKeys;
  }

  lemma AttestationFields(a: Attestation)
    ensures
      var f := DenoteMembers(AttestationMembers(a));
      && TextAt(f, "source_ref") == Some(a.sourceRef) && TextAt(f, "source_hash") == Some(a.sourceHash)
      && TextAt(f, "attestation_ref") == Some(a.attestationRef) && TextAt(f, "attestation_hash") == Some(a.attestationHash)
      && TextAt(f, "source_kind") == Some(a.sourceKind) && TextAt(f, "manifest_ref") == Some(a.manifestRef)
      && TextAt(f, "manifest_hash") == Some(a.manifestHash)
  {
    hide TextAt, DenoteMembers;
    var ms := AttestationMembers(a);
    AttestationText(a, 0);
    AttestationText(a, 1);
    AttestationText(a, 2);
    AttestationText(a, 3);
    AttestationText(a, 4);
    AttestationText(a, 5);
    AttestationText(a, 6);
    assert ms[0] == Member("source_ref", Str(a.sourceRef)) && ms[1] == Member("source_hash", Str(a.sourceHash));
    assert ms[2] == Member("attestation_ref", Str(a.attestationRef)) && ms[3] == Member("source_kind", Str(a.sourceKind));
    assert ms[4] == Member("manifest_ref", Str(a.manifestRef)) && ms[5] == Member("manifest_hash", Str(a.manifestHash));
    assert ms[6] == Member("attestation_hash", Str(a.attestationHash));
  }

  lemma AttestationKeySet(a: Attestation)
    ensures DenoteMembers(AttestationMembers(a)).Keys == ATTESTATION_FIELDS
  {
    var ms := AttestationMembers(a);
    AttestationKeys(a);
    AttestationNames(a);
    hide DenoteMembers, DistinctKeys, Denote, AttestationMembers;
    FieldsOf(ms);
    assert forall k :: k in DenoteMembers(ms) <==> exists i :: 0 <= i < |ms| && ms[i].key == k;
  }

  lemma AttestationNames(a: Attestation)
    ensures
      var ms := AttestationMembers(a);
      forall k :: k in ATTESTATION_FIELDS <==> exists i :: 0 <= i < |ms| && ms[i].key == k
  {
    var ms := AttestationMembers(a);
    assert ms[0].key == "source_ref" && ms[1].key == "source_hash" && ms[2].key == "attestation_ref" && ms[3].key == "source_kind";
    assert ms[4].key == "manifest_ref" && ms[5].key == "manifest_hash" && ms[6].key == "attestation_hash";
  }

  lemma AttestationReadsBack(a: Attestation)
    ensures WellFormed(AttestationJson(a)) && ReadAttestation(Denote(AttestationJson(a))) == Some(a)
  {
    AttestationIsWellFormed(a);
    DenoteObj(AttestationMembers(a));
    AttestationFields(a);
    AttestationKeySet(a);
    hide DenoteMembers, WellFormed, TextAt, AttestationMembers, Denote;
  }

  lemma AttestationIsWellFormed(a: Attestation)
    ensures WellFormed(AttestationJson(a))
  {
    AttestationKeys(a);
    hide DistinctKeys;
  }

  lemma ManifestKeys(classification: string, commit: string, a: Attestation, files: seq<FileEntry>, downgraded: bool, proof: Option<Json>)
    ensures
      var ms := Header(classification, commit, a, files) + Extra(downgraded, proof);
      && DistinctKeys(ms)
      && (forall i | 0 <= i < |ms| :: ms[i].key != "authority_tuple")
      && (proof.None? ==> forall i | 0 <= i < |ms| :: ms[i].key != "external_sealed_authority")
  {
    hide AttestationJson, EntryJson;
    var ms := Header(classification, commit, a, files) + Extra(downgraded, proof);
    assert |ms[0].key| == 6 && |ms[1].key| == 14 && |ms[2].key| == 13 && |ms[3].key| == 22 && |ms[4].key| == 5;
    assert |"downgraded_from"| == 15 && |"external_sealed_authority"| == 25 && |"authority_tuple"| == 15;
    assert "downgraded_from"[0] == 'd' && "authority_tuple"[0] == 'a';
  }

  lemma ManifestIsWellFormed(
      classification: string, commit: string, a: Attestation, files: seq<FileEntry>, downgraded: bool, proof: Option<Json>)
    requires proof.Some? ==> WellFormed(proof.value)
    ensures WellFormed(ManifestJson(classification, commit, a, files, downgraded, proof))
  {
    var ms := Header(classification, commit, a, files) + Extra(downgraded, proof);
    ManifestKeys(classification, commit, a, files, downgraded, proof);
    AttestationReadsBack(a);
    forall i | 0 <= i < |files| ensures WellFormed(EntryJson(files[i])) { EntryReadsBack(files[i]); }
    hide AttestationJson, EntryJson, DistinctKeys, ReadEntry, ReadAttestation, ManifestJson;
    assert WellFormed(ms[4].value);
  }

  lemma ManifestFields(
      classification: string, commit: string, a: Attestation, files: seq<FileEntry>, downgraded: bool, proof: Option<Json>)
    ensures
      var f := DenoteMembers(Header(classification, commit, a, files) + Extra(downgraded, proof));
      && TextAt(f, "schema") == Some(SCHEMA) && TextAt(f, "classification") == Some(classification)
      && TextAt(f, "source_commit") == Some(commit) && "raw_source_attestation" in f && "files" in f
      && f["raw_source_attestation"] == Denote(AttestationJson(a))
      && f["files"] == Denote(Arr(seq(|files|, i requires 0 <= i < |files| => EntryJson(files[i]))))
  {
    ManifestKeys(classification, commit, a, files, downgraded, proof);
    hide DenoteMembers, DistinctKeys, AttestationJson, EntryJson, Extra;
    var ms := Header(classification, commit, a, files) + Extra(downgraded, proof);
    FieldAt(ms, 0);
    FieldAt(ms, 1);
    FieldAt(ms, 2);
    FieldAt(ms, 3);
    FieldAt(ms, 4);
    assert ms[0] == Member("schema", Str(SCHEMA)) && ms[1] == Member("classification", Str(classification));
    assert ms[2] == Member("source_commit", Str(commit)) && ms[3] == Member("raw_source_attestation", AttestationJson(a));
  }

  lemma ManifestExtras(
      classification: string, commit: string, a: Attestation, files: seq<FileEntry>, downgraded: bool, proof: Option<Json>)
    requires proof.Some? ==> proof.value != Null
    ensures
      var f := DenoteMembers(Header(classification, commit, a, files) + Extra(downgraded, proof));
      && "authority_tuple" !in f
      && ValueAt(f, "external_sealed_authority") == match proof case None => None case Some(p) => Some(Denote(p))
  {
    var ms := Header(classification, commit, a, files) + Extra(downgraded, proof);
    ManifestKeys(classification, commit, a, files, downgraded, proof);
    hide DenoteMembers, DistinctKeys, AttestationJson, EntryJson, Header;
    FieldsOf(ms);
    if proof.Some? {
      assert ms[|ms| - 1] == Member("external_sealed_authority", proof.value);
      FieldAt(ms, |ms| - 1);
    }
  }

  lemma EntriesAreRead(files: seq<FileEntry>)
    ensures
      var v := Denote(Arr(seq(|files|, i requires 0 <= i < |files| => EntryJson(files[i]))));
      v.ArrV? && ReadEntries(v.items) == Some(files)
  {
    hide EntryJson, ReadEntries;
    EntriesReadBack(files, DenoteItems(seq(|files|, i requires 0 <= i < |files| => EntryJson(files[i]))));
  }

  /** The verifier reads in the manifest exactly what the builder wrote. */
  lemma ManifestReadsBack(
      classification: string, commit: string, a: Attestation, files: seq<FileEntry>, downgraded: bool, proof: Option<Json>)
    requires proof.Some? ==> WellFormed(proof.value) && proof.value != Null
    ensures WellFormed(ManifestJson(classification, commit, a, files, downgraded, proof))
    ensures
      ReadManifest(Denote(ManifestJson(classification, commit, a, files, downgraded, proof)))
      == Some(Manifest(SCHEMA, classification, commit, a, files, false, match proof case None => None case Some(p) => Some(Denote(p))))
  {
    ManifestIsWellFormed(classification, commit, a, files, downgraded, proof);
    ManifestFields(classification, commit, a, files, downgraded, proof);
    ManifestExtras(classification, commit, a, files, downgraded, proof);
    AttestationReadsBack(a);
    EntriesAreRead(files);
    DenoteObj(Header(classification, commit, a, files) + Extra(downgraded, proof));
    hide DenoteMembers, AttestationJson, EntryJson, ReadEntries, ReadAttestation, WellFormed, TextAt, ValueAt, Header, Extra, Denote;
  }

  /******* Archives *******/

  /** A member of a zip archive. */
  datatype Packed = Packed(name: string, content: Bytes, compressed: nat, link: bool)

  type Archive = seq<Packed>

  function MemberNames(archive: Archive): (ns: seq<string>)
    ensures |ns| == |archive| && forall i | 0 <= i < |archive| :: ns[i] == archive[i].name
  {
    seq(|archive|, i requires 0 <= i < |archive| => archive[i].name)
  }

  /** What reading each name gives; of two members with one name the last one wins. */
  function Contents(archive: Archive): (files: map<string, Bytes>)
    ensures forall n :: n in files <==> n in MemberNames(archive)
  {
    if archive == [] then map[] else Contents(archive[..|archive| - 1])[archive[|archive| - 1].name := archive[|archive| - 1].content]
  }

  function Total(archive: Archive): nat {
    if archive == [] then 0 else Total(archive[..|archive| - 1]) + |archive[|archive| - 1].content|
  }

  predicate MemberWithin(m: Packed) {
    var size := |m.content|;
    && size <= MAX_MEMBER && !(size > 0 && m.compressed == 0)
    && size <= MAX_RATIO * (if m.compressed > 1 then m.compressed else 1) && !m.link
  }

  predicate Within(archive: Archive) {
    Total(archive) <= MAX_TOTAL && forall m | m in archive :: MemberWithin(m)
  }

  function Without1(ns: seq<string>, n: string): seq<string> {
    if ns == [] then [] else (if ns[0] == n then [] else [ns[0]]) + Without1(ns[1..], n)
  }

  function EntryOf(env: Env, name: string, content: Bytes): FileEntry {
    FileEntry(name, env.h.digest(content), |content|)
  }

  predicate EntriesMatch(env: Env, entries: seq<FileEntry>, names: seq<string>, files: map<string, Bytes>) {
    && |entries| == |names|
    && forall i | 0 <= i < |names| :: names[i] in files && entries[i] == EntryOf(env, names[i], files[names[i]])
  }

  datatype Verified = Verified(classification: string, commit: string, files: seq<string>, proof: Option<Value>)

  predicate ManifestOk(env: Env, m: Manifest, names: seq<string>, files: map<string, Bytes>, commit: string, expected: Option<Expected>) {
    && m.schema == SCHEMA && m.commit == commit && (m.classification == LIVE || m.classification in ALLOWED)
    && !m.looseTuple && EntriesMatch(env, m.files, names, files)
    && SealedAttestation(env, m.attestation)
    && Backed(env, files, m.attestation.sourceRef, m.attestation.sourceHash, m.attestation.manifestRef, m.attestation.manifestHash)
    && (m.proof.Some? <==> m.classification == LIVE)
    && (m.proof.Some? ==> ProofHolds(env, m.proof.value, expected, files, m.attestation))
  }

  function Verify(env: Env, archive: Archive, names: seq<string>, commit: string, expected: Option<Expected>): Option<Verified> {
    var found := MemberNames(archive);
    if !(forall n | n in names :: SafeName(n)) || !NoRepeats(names) then None
    else if !NoRepeats(found) || !(forall n | n in found :: SafeName(n)) || !Within(archive) then None
    else if MANIFEST !in found || SortNames(Without1(found, MANIFEST)) != SortNames(names) then None
    else
      var files := Contents(archive);
      match Decode(env, files[MANIFEST])
      case None => None
      case Some(m) =>
        if ManifestOk(env, m, SortNames(names), files, commit, expected)
        then Some(Verified(m.classification, m.commit, SortNames(names), m.proof))
        else None
  }

  /******* Building *******/

  /** An allowlisted file: its archive name and the resolved path it is read from. */
  datatype File = File(name: string, path: string)

  /** One call of the builder; `disk` is what the paths hold. */
  datatype Order = Order(
    files: seq<File>, classification: string, commit: string, attestation: Attestation, tuple: Option<Expected>,
    source: Option<string>, proof: Option<Json>)
  {
    /** What the proof, if any, means. */
    function Meant(): (v: Option<Value>)
      ensures v.Some? <==> proof.Some?
    {
      match proof case None => None case Some(p) => Some(Denote(p))
    }
  }

  function FileNames(files: seq<File>): (ns: seq<string>)
    ensures |ns| == |files| && forall i | 0 <= i < |files| :: ns[i] == files[i].name
  {
    seq(|files|, i requires 0 <= i < |files| => files[i].name)
  }

  function SortedNames(files: seq<File>): (ns: seq<string>)
    ensures multiset(ns) == multiset(FileNames(files)) && forall n :: n in ns <==> n in FileNames(files)
  {
    SortKeepsNames(FileNames(files));
    assert forall n :: n in FileNames(files) <==> n in multiset(FileNames(files));
    assert forall n :: n in SortNames(FileNames(files)) <==> n in multiset(SortNames(FileNames(files)));
    SortNames(FileNames(files))
  }

  predicate Readable(disk: map<string, Bytes>, path: string) {
    path in disk && |disk[path]| <= MAX_MEMBER
  }

  function Payload(files: seq<File>, disk: map<string, Bytes>): (payload: map<string, Bytes>)
    requires forall f | f in files :: f.path in disk
    ensures forall n :: n in payload <==> n in FileNames(files)
  {
    if files == [] then map[]
    else
      assert files == files[..|files| - 1] + [files[|files| - 1]];
      Payload(files[..|files| - 1], disk)[files[|files| - 1].name := disk[files[|files| - 1].path]]
  }

  function Members(env: Env, names: seq<string>, payload: map<string, Bytes>): (archive: Archive)
    requires forall n | n in names :: n in payload
    ensures |archive| == |names|
    ensures forall i | 0 <= i < |names| :: archive[i] == Packed(names[i], payload[names[i]], env.deflate(payload[names[i]]), false)
  {
    seq(|names|, i requires 0 <= i < |names| => Packed(names[i], payload[names[i]], env.deflate(payload[names[i]]), false))
  }

  /** A claim to be LIVE without a proof is recorded as PARTIAL. */
  function Granted(o: Order): string {
    if o.classification == LIVE && o.proof.None? then "PARTIAL" else o.classification
  }

  predicate OrderOk(env: Env, o: Order, disk: map<string, Bytes>) {
    && (Granted(o) == LIVE || Granted(o) in ALLOWED)
    && (o.tuple.Some? || o.proof.Some? ==> o.classification == LIVE)
    && o.commit != "" && (forall i | 0 <= i < |o.commit| :: !env.c.space(o.commit[i]))
    && MANIFEST !in FileNames(o.files)
    && forall f | f in o.files :: SafeName(f.name) && Readable(disk, f.path)
  }

  predicate SourceOk(env: Env, o: Order, disk: map<string, Bytes>) {
    && o.source.Some? && Readable(disk, o.source.value)
    && (forall f | f in o.files :: f.path == o.source.value <==> f.name == o.attestation.sourceRef)
    && o.attestation.sourceRef in FileNames(o.files)
  }

  datatype Built = Built(archive: Archive, classification: string, commit: string, files: seq<string>, proof: Option<Value>)

  function EntriesFor(env: Env, names: seq<string>, payload: map<string, Bytes>): (es: seq<FileEntry>)
    requires forall n | n in names :: n in payload
    ensures |es| == |names| && forall i | 0 <= i < |names| :: es[i] == EntryOf(env, names[i], payload[names[i]])
  {
    seq(|names|, i requires 0 <= i < |names| => EntryOf(env, names[i], payload[names[i]]))
  }

  /** What the verifier is to read in the manifest of an order. */
  function ManifestFor(env: Env, o: Order, names: seq<string>, payload: map<string, Bytes>): Manifest
    requires forall n | n in names :: n in payload
  {
    Manifest(SCHEMA, Granted(o), o.commit, o.attestation, EntriesFor(env, names, payload), false, o.Meant())
  }

  function TextFor(env: Env, o: Order, names: seq<string>, payload: map<string, Bytes>): Bytes
    requires forall n | n in names :: n in payload
  {
    var downgraded := o.classification == LIVE && o.proof.None?;
    var v := ManifestJson(Granted(o), o.commit, o.attestation, EntriesFor(env, names, payload), downgraded, o.proof);
    env.utf8(CanonicalText(v) + "\n")
  }

  function Build(env: Env, o: Order, disk: map<string, Bytes>): Option<Built> {
    if !OrderOk(env, o, disk) then None
    else
      var payload, names, a := Payload(o.files, disk), SortedNames(o.files), o.attestation;
      var members := Members(env, names, payload);
      if Total(members) > MAX_TOTAL || !SealedAttestation(env, a) || !SourceOk(env, o, disk)
         || !Backed(env, payload, a.sourceRef, a.sourceHash, a.manifestRef, a.manifestHash) then None
      else if o.Meant().Some? && !ProofHolds(env, o.Meant().value, o.tuple, payload, a) then None
      else
        var text := TextFor(env, o, names, payload);
        Some(Built(members + [Packed(MANIFEST, text, env.deflate(text), false)], Granted(o), o.commit, names, o.Meant()))
  }

  /******* A built bundle verifies *******/

  lemma {:induction false} OneComponent(name: string, part: string)
    requires '/' !in name
    ensures ChecksumText.Components(name, part) == [part + name]
    decreases |name|
  {
    if name == "" {
      assert part + name == part;
    } else {
      OneComponent(name[1..], part + [name[0]]);
      assert part + [name[0]] + name[1..] == part + name;
    }
  }

  predicate Plain(c: char) {
    'a' <= c <= 'z' || c == '-' || c == '.'
  }

  lemma PlainNameIsSafe(name: string)
    requires name != "" && name != ".." && forall i | 0 <= i < |name| :: Plain(name[i])
    ensures SafeName(name)
  {
    OneComponent(name, "");
    assert "" + name == name;
  }

  lemma ManifestNameIsSafe()
    ensures SafeName(MANIFEST)
  {
    hide SafeName;
    assert forall i | 0 <= i < |MANIFEST| :: Plain(MANIFEST[i]);
    assert MANIFEST[0] == 'b';
    PlainNameIsSafe(MANIFEST);
  }

  lemma {:induction false} WithoutLast(ns: seq<string>, n: string)
    requires n !in ns
    ensures Without1(ns + [n], n) == ns && Without1(ns, n) == ns
  {
    if ns == [] {
      assert ns + [n] == [n] && [n][1..] == [];
    } else {
      assert (ns + [n])[1..] == ns[1..] + [n] && ns == [ns[0]] + ns[1..];
      WithoutLast(ns[1..], n);
    }
  }

  lemma {:induction false} ContentsOfMembers(env: Env, names: seq<string>, payload: map<string, Bytes>)
    requires NoRepeats(names) && forall n | n in names :: n in payload
    ensures Contents(Members(env, names, payload)) == map n | n in names :: payload[n]
  {
    var archive := Members(env, names, payload);
    if names == [] {
      assert archive == [];
    } else {
      var k := |names| - 1;
      assert names == names[..k] + [names[k]];
      ContentsOfMembers(env, names[..k], payload);
      assert Members(env, names[..k], payload) == archive[..k];
    }
  }

  function TextOf(env: Env, o: Order, disk: map<string, Bytes>): Bytes
    requires forall f | f in o.files :: f.path in disk
  {
    TextFor(env, o, SortedNames(o.files), Payload(o.files, disk))
  }

  /** The checks a successful build has made, and what it returns. */
  lemma BuildYields(env: Env, o: Order, disk: map<string, Bytes>)
    requires Build(env, o, disk).Some?
    ensures OrderOk(env, o, disk) && SealedAttestation(env, o.attestation) && SourceOk(env, o, disk)
    ensures forall f | f in o.files :: f.path in disk
    ensures
      var b, payload, a := Build(env, o, disk).value, Payload(o.files, disk), o.attestation;
      && Backed(env, payload, a.sourceRef, a.sourceHash, a.manifestRef, a.manifestHash)
      && (o.proof.Some? ==> ProofHolds(env, o.Meant().value, o.tuple, payload, a))
      && b.files == SortedNames(o.files) && b.classification == Granted(o) && b.proof == o.Meant() && b.commit == o.commit
      && b.archive == Members(env, b.files, payload) + [Packed(MANIFEST, TextOf(env, o, disk), env.deflate(TextOf(env, o, disk)), false)]
  {
    assert OrderOk(env, o, disk);
    assert forall f | f in o.files :: f.path in disk;
    hide OrderOk, SealedAttestation, SourceOk, Backed, ProofHolds, Payload, SortedNames, Total, Members, TextFor, Granted;
  }

  lemma OrderNames(env: Env, o: Order, disk: map<string, Bytes>)
    requires OrderOk(env, o, disk)
    ensures MANIFEST !in FileNames(o.files) && forall f | f in o.files :: SafeName(f.name)
  {
    hide SafeName;
  }

  lemma NamesOfMembers(env: Env, names: seq<string>, payload: map<string, Bytes>, last: Packed)
    requires forall n | n in names :: n in payload
    ensures MemberNames(Members(env, names, payload) + [last]) == names + [last.name]
    ensures Contents(Members(env, names, payload) + [last]) == Contents(Members(env, names, payload))[last.name := last.content]
  {
    var members := Members(env, names, payload);
    assert (members + [last])[..|members|] == members;
    hide Contents;
  }

  /** What the builder's archive holds. */
  lemma BuiltContents(env: Env, o: Order, disk: map<string, Bytes>)
    requires NoRepeats(FileNames(o.files)) && Build(env, o, disk).Some?
    ensures forall f | f in o.files :: f.path in disk
    ensures
      var b, payload := Build(env, o, disk).value, Payload(o.files, disk);
      && NoRepeats(b.files) && MANIFEST !in b.files && MANIFEST !in payload
      && MemberNames(b.archive) == b.files + [MANIFEST]
      && Contents(b.archive) == payload[MANIFEST := TextOf(env, o, disk)]
  {
    hide *;
    BuildYields(env, o, disk);
    OrderNames(env, o, disk);
    var b, payload, text := Build(env, o, disk).value, Payload(o.files, disk), TextOf(env, o, disk);
    NoRepeatsPermutes(FileNames(o.files), b.files);
    ContentsOfMembers(env, b.files, payload);
    NamesOfMembers(env, b.files, payload, Packed(MANIFEST, text, env.deflate(text), false));
    assert (map n | n in b.files :: payload[n]) == payload;
  }

  lemma BackedByMore(env: Env, files: map<string, Bytes>, text: Bytes, s: string, sh: string, m: string, mh: string)
    requires MANIFEST !in files && s in files && m in files
    ensures Backed(env, files[MANIFEST := text], s, sh, m, mh) == Backed(env, files, s, sh, m, mh)
  {
  }

  lemma ProofOverMore(
      env: Env, p: Proof, expected: Option<Expected>, other: Option<Expected>, files: map<string, Bytes>, text: Bytes, a: Attestation)
    requires MANIFEST !in files && ProofOk(env, p, expected, files, a)
    ensures ProofOk(env, p, other, files[MANIFEST := text], a) <==> (other.Some? ==> other.value.Allows(p.tuple))
  {
    BackedByMore(env, files, text, p.source.sourceRef, p.source.sourceHash, p.source.manifestRef, p.source.manifestHash);
    hide ComponentOk, OracleOk, Differ, SafeName, Env.Opaque;
  }

  /** A tuple the caller insists on is the proof's. */
  predicate Compatible(env: Env, o: Order, expected: Option<Expected>) {
    o.proof.Some? && expected.Some? ==> env.read(o.Meant().value).Some? && expected.value.Allows(env.read(o.Meant().value).value.tuple)
  }

  lemma HoldsOverMore(
      env: Env, o: Order, expected: Option<Expected>, files: map<string, Bytes>, text: Bytes, a: Attestation)
    requires o.proof.Some? && MANIFEST !in files && ProofHolds(env, o.Meant().value, o.tuple, files, a)
    ensures ProofHolds(env, o.Meant().value, expected, files[MANIFEST := text], a) <==> Compatible(env, o, expected)
  {
    hide ProofOk;
    ProofOverMore(env, env.read(o.Meant().value).value, o.tuple, expected, files, text, a);
  }

  lemma BuiltEntries(env: Env, o: Order, names: seq<string>, payload: map<string, Bytes>, text: Bytes)
    requires (forall n | n in names :: n in payload) && MANIFEST !in names
    ensures EntriesMatch(env, ManifestFor(env, o, names, payload).files, names, payload[MANIFEST := text])
  {
    hide EntryOf;
    forall i | 0 <= i < |names| ensures names[i] in payload && names[i] != MANIFEST { assert names[i] in names; }
  }

  lemma BuiltHeader(env: Env, o: Order, disk: map<string, Bytes>, names: seq<string>, payload: map<string, Bytes>)
    requires OrderOk(env, o, disk) && forall n | n in names :: n in payload
    ensures
      var m := ManifestFor(env, o, names, payload);
      && m.schema == SCHEMA && m.commit == o.commit && m.classification == Granted(o) && m.attestation == o.attestation
      && !m.looseTuple && m.proof == o.Meant()
      && (m.classification == LIVE || m.classification in ALLOWED) && (m.proof.Some? <==> m.classification == LIVE)
  {
    assert "PARTIAL" != LIVE by { assert |LIVE| == 20; }
  }

  lemma ManifestParts(
      env: Env, m: Manifest, names: seq<string>, files: map<string, Bytes>, commit: string, expected: Option<Expected>)
    requires m.schema == SCHEMA && m.commit == commit && (m.classification == LIVE || m.classification in ALLOWED)
    requires !m.looseTuple && EntriesMatch(env, m.files, names, files) && SealedAttestation(env, m.attestation)
    requires var a := m.attestation; Backed(env, files, a.sourceRef, a.sourceHash, a.manifestRef, a.manifestHash)
    requires m.proof.Some? <==> m.classification == LIVE
    ensures ManifestOk(env, m, names, files, commit, expected) <==>
              (m.proof.Some? ==> ProofHolds(env, m.proof.value, expected, files, m.attestation))
  {
    hide EntriesMatch, SealedAttestation, Backed, ProofHolds;
  }

  lemma RefsArePresent(env: Env, files: map<string, Bytes>, s: string, sh: string, m: string, mh: string)
    requires Backed(env, files, s, sh, m, mh)
    ensures s in files && m in files
  {
    hide Env.HashRef;
  }

  lemma BuiltManifest(env: Env, o: Order, disk: map<string, Bytes>, expected: Option<Expected>)
    requires NoRepeats(FileNames(o.files)) && Build(env, o, disk).Some?
    requires forall f | f in o.files :: f.path in disk
    ensures
      var b := Build(env, o, disk).value;
      var m := ManifestFor(env, o, SortedNames(o.files), Payload(o.files, disk));
      && b.files == SortedNames(o.files) && m.classification == b.classification && m.commit == o.commit && m.proof == b.proof
      && (ManifestOk(env, m, b.files, Contents(b.archive), o.commit, expected) <==> Compatible(env, o, expected))
  {
    hide *;
    BuildYields(env, o, disk);
    BuiltContents(env, o, disk);
    var b, payload, a, text := Build(env, o, disk).value, Payload(o.files, disk), o.attestation, TextOf(env, o, disk);
    RefsArePresent(env, payload, a.sourceRef, a.sourceHash, a.manifestRef, a.manifestHash);
    BackedByMore(env, payload, text, a.sourceRef, a.sourceHash, a.manifestRef, a.manifestHash);
    BuiltHeader(env, o, disk, b.files, payload);
    BuiltEntries(env, o, b.files, payload, text);
    ManifestParts(env, ManifestFor(env, o, b.files, payload), b.files, Contents(b.archive), o.commit, expected);
    if o.proof.Some? { HoldsOverMore(env, o, expected, payload, text, a); }
    CompatibleMeans(env, o, expected);
  }

  lemma CompatibleMeans(env: Env, o: Order, expected: Option<Expected>)
    ensures o.proof.None? ==> Compatible(env, o, expected)
  {
  }

  /** The verifier's checks, one after the other. */
  lemma VerifyParts(env: Env, archive: Archive, names: seq<string>, commit: string, expected: Option<Expected>, m: Manifest)
    requires (forall n | n in names :: SafeName(n)) && NoRepeats(names)
    requires NoRepeats(MemberNames(archive)) && (forall n | n in MemberNames(archive) :: SafeName(n))
    requires MANIFEST in MemberNames(archive) && SortNames(Without1(MemberNames(archive), MANIFEST)) == SortNames(names)
    requires MANIFEST in Contents(archive) && Decode(env, Contents(archive)[MANIFEST]) == Some(m)
    ensures Verify(env, archive, names, commit, expected) ==
              if Within(archive) && ManifestOk(env, m, SortNames(names), Contents(archive), commit, expected)
              then Some(Verified(m.classification, m.commit, SortNames(names), m.proof)) else None
  {
    hide ManifestOk, SortNames, Without1, Contents, Within, SafeName, MemberNames;
  }

  /**
   Builder and verifier agree.  What is built for some files and commit is accepted for the
   same names and commit exactly when sizes (the manifest included) and compression ratios
   are within the verifier's limits and the tuple it expects, if any, is the proof's; and it
   is accepted with the same classification and the same proof.
   */
  lemma BuiltBundleVerifies(env: Env, o: Order, disk: map<string, Bytes>, names: seq<string>, expected: Option<Expected>)
    requires env.Faithful() && NoRepeats(FileNames(o.files)) && Build(env, o, disk).Some?
    requires multiset(names) == multiset(FileNames(o.files)) && (o.proof.Some? ==> WellFormed(o.proof.value))
    ensures
      var b := Build(env, o, disk).value;
      var v := Verify(env, b.archive, names, o.commit, expected);
      && (v.Some? <==> Within(b.archive) && Compatible(env, o, expected))
      && (v.Some? ==> v.value == Verified(b.classification, o.commit, b.files, b.proof))
  {
    hide *;
    var b := Build(env, o, disk).value;
    BuildYields(env, o, disk);
    if o.proof.Some? { ProofIsNotNull(env, o, disk); }
    BuiltContents(env, o, disk);
    BuiltManifest(env, o, disk, expected);
    BuiltNamesAreSafe(env, o, disk, names);
    WithoutLast(b.files, MANIFEST);
    SortedIsSort(o.files);
    SortTwice(names, FileNames(o.files));
    DecodeText(env, o, disk);
    var m := ManifestFor(env, o, SortedNames(o.files), Payload(o.files, disk));
    assert MANIFEST in b.files + [MANIFEST];
    VerifyParts(env, b.archive, names, o.commit, expected, m);
  }

  lemma ProofIsNotNull(env: Env, o: Order, disk: map<string, Bytes>)
    requires (forall f | f in o.files :: f.path in disk) && o.proof.Some?
    requires ProofHolds(env, o.Meant().value, o.tuple, Payload(o.files, disk), o.attestation)
    ensures o.proof.value != Null
  {
    hide ProofOk, Payload;
  }

  lemma SortedIsSort(files: seq<File>)
    ensures SortedNames(files) == SortNames(FileNames(files))
  {
  }

  lemma DecodeText(env: Env, o: Order, disk: map<string, Bytes>)
    requires env.Faithful() && (o.proof.Some? ==> WellFormed(o.proof.value) && o.proof.value != Null)
    requires forall f | f in o.files :: f.path in disk
    ensures Decode(env, TextOf(env, o, disk)) == Some(ManifestFor(env, o, SortedNames(o.files), Payload(o.files, disk)))
  {
    hide *;
    var names, payload := SortedNames(o.files), Payload(o.files, disk);
    var es := EntriesFor(env, names, payload);
    var v := ManifestJson(Granted(o), o.commit, o.attestation, es, o.classification == LIVE && o.proof.None?, o.proof);
    ManifestReadsBack(Granted(o), o.commit, o.attestation, es, o.classification == LIVE && o.proof.None?, o.proof);
    LoadsKeepsMeaning(v);
    LoadsFaithfully(env, CanonicalText(v), Loads(CanonicalText(v)).value);
    DecodeIs(env, o, disk);
  }

  lemma LoadsFaithfully(env: Env, t: string, v: Json)
    requires env.Faithful() && Loads(t) == Some(v) && WellFormed(v)
    ensures env.loads(env.utf8(t + "\n")) == Some(Denote(v))
  {
    hide Loads, WellFormed, Denote;
  }

  lemma DecodeIs(env: Env, o: Order, disk: map<string, Bytes>)
    requires forall f | f in o.files :: f.path in disk
    ensures
      var names, payload := SortedNames(o.files), Payload(o.files, disk);
      var v := ManifestJson(
                 Granted(o), o.commit, o.attestation, EntriesFor(env, names, payload), o.classification == LIVE && o.proof.None?, o.proof);
      && TextOf(env, o, disk) == env.utf8(CanonicalText(v) + "\n")
      && (env.loads(env.utf8(CanonicalText(v) + "\n")) == Some(Denote(v)) ==> Decode(env, TextOf(env, o, disk)) == ReadManifest(Denote(v)))
      && ManifestFor(env, o, names, payload)
         == Manifest(SCHEMA, Granted(o), o.commit, o.attestation, EntriesFor(env, names, payload), false,
                     match o.proof case None => None case Some(p) => Some(Denote(p)))
  {
    hide ManifestJson, CanonicalText, Granted, EntriesFor, SortedNames, Payload, ReadManifest, Denote;
  }

  lemma SortTwice(names: seq<string>, others: seq<string>)
    requires multiset(names) == multiset(others)
    ensures SortNames(names) == SortNames(others) == SortNames(SortNames(others))
  {
    SortForgetsOrder(names, others);
    SortKeepsNames(others);
    SortForgetsOrder(others, SortNames(others));
  }

  lemma BuiltNamesAreSafe(env: Env, o: Order, disk: map<string, Bytes>, names: seq<string>)
    requires NoRepeats(FileNames(o.files)) && Build(env, o, disk).Some? && multiset(names) == multiset(FileNames(o.files))
    ensures
      var b := Build(env, o, disk).value;
      && NoRepeats(names) && (forall n | n in names :: SafeName(n))
      && NoRepeats(b.files + [MANIFEST]) && (forall n | n in b.files + [MANIFEST] :: SafeName(n))
      && b.classification == Granted(o) && b.proof == o.Meant()
  {
    hide *;
    BuildYields(env, o, disk);
    OrderNames(env, o, disk);
    BuiltContents(env, o, disk);
    ManifestNameIsSafe();
    NoRepeatsPermutes(FileNames(o.files), names);
    AppendFresh(Build(env, o, disk).value.files, MANIFEST);
    forall n | n in FileNames(o.files) ensures SafeName(n) {
      var i :| 0 <= i < |o.files| && FileNames(o.files)[i] == n;
      assert o.files[i] in o.files;
    }
    forall n | n in names ensures SafeName(n) {
      assert n in multiset(names);
      assert n in FileNames(o.files);
    }
  }

  lemma AppendFresh(ns: seq<string>, n: string)
    requires NoRepeats(ns) && n !in ns
    ensures NoRepeats(ns + [n]) && forall x :: x in ns + [n] <==> x in ns || x == n
  {
  }

  /******* Tampering *******/

  /** An accepted archive holds exactly the expected names and the manifest, each once. */
  lemma VerifiedNames(env: Env, archive: Archive, names: seq<string>, commit: string, expected: Option<Expected>)
    requires Verify(env, archive, names, commit, expected).Some?
    ensures multiset(MemberNames(archive)) == multiset(names) + multiset{MANIFEST} && NoRepeats(MemberNames(archive))
  {
    var found := MemberNames(archive);
    assert NoRepeats(found) && MANIFEST in found && SortNames(Without1(found, MANIFEST)) == SortNames(names);
    hide Verify, SortNames, MemberNames;
    SortForgetsOrder(Without1(found, MANIFEST), names);
    TakeOne(found, MANIFEST);
  }

  lemma RestHasNoRepeats(ns: seq<string>)
    requires NoRepeats(ns) && ns != []
    ensures NoRepeats(ns[1..]) && ns[0] !in ns[1..]
  {
    assert forall i | 0 <= i < |ns| - 1 :: ns[1..][i] == ns[i + 1];
  }

  lemma {:induction false} TakeOne(ns: seq<string>, n: string)
    requires NoRepeats(ns) && n in ns
    ensures multiset(ns) == multiset(Without1(ns, n)) + multiset{n}
  {
    RestHasNoRepeats(ns);
    hide NoRepeats;
    var rest := ns[1..];
    assert ns == [ns[0]] + rest;
    if ns[0] == n {
      WithoutLast(rest, n);
      assert [] + rest == rest;
    } else {
      TakeOne(rest, n);
    }
  }

  lemma VerifiedManifest(env: Env, archive: Archive, names: seq<string>, commit: string, expected: Option<Expected>)
    requires Verify(env, archive, names, commit, expected).Some?
    ensures
      var files := Contents(archive);
      && MANIFEST in files && Decode(env, files[MANIFEST]).Some?
      && ManifestOk(env, Decode(env, files[MANIFEST]).value, SortNames(names), files, commit, expected)
      && Verify(env, archive, names, commit, expected).value
         == var m := Decode(env, files[MANIFEST]).value; Verified(m.classification, m.commit, SortNames(names), m.proof)
  {
    hide ManifestOk, SortNames, Contents, Within, SafeName;
  }

  /**
   No member can be changed behind the manifest: two archives that are accepted for the same
   names and hold the same manifest bytes hold the same files.
   */
  lemma SameManifestSameContents(
      env: Env, x: Archive, y: Archive, names: seq<string>, commit: string, expected: Option<Expected>, other: Option<Expected>)
    requires env.h.Ideal() && Verify(env, x, names, commit, expected).Some? && Verify(env, y, names, commit, other).Some?
    requires MANIFEST in Contents(x) && MANIFEST in Contents(y) && Contents(x)[MANIFEST] == Contents(y)[MANIFEST]
    ensures Contents(x) == Contents(y)
  {
    hide *;
    VerifiedManifest(env, x, names, commit, expected);
    var m := Decode(env, Contents(x)[MANIFEST]).value;
    VerifiedManifest(env, y, names, commit, other);
    EntriesOfManifest(env, m, SortNames(names), Contents(x), commit, expected);
    EntriesOfManifest(env, m, SortNames(names), Contents(y), commit, other);
    forall n ensures n in Contents(x) <==> n in Contents(y) {
      VerifiedKeys(env, x, names, commit, expected, n);
      VerifiedKeys(env, y, names, commit, other, n);
    }
    forall n | n in Contents(x) ensures Contents(x)[n] == Contents(y)[n] {
      VerifiedKeys(env, x, names, commit, expected, n);
      if n != MANIFEST { EntryFixesContent(env, m.files, SortNames(names), Contents(x), Contents(y), n); }
    }
    assert Contents(x).Keys == Contents(y).Keys;
  }

  lemma EntriesOfManifest(
      env: Env, m: Manifest, names: seq<string>, files: map<string, Bytes>, commit: string, expected: Option<Expected>)
    requires ManifestOk(env, m, names, files, commit, expected)
    ensures EntriesMatch(env, m.files, names, files)
  {
    hide EntriesMatch, SealedAttestation, Backed, ProofHolds;
  }

  lemma VerifiedKeys(env: Env, archive: Archive, names: seq<string>, commit: string, expected: Option<Expected>, n: string)
    requires Verify(env, archive, names, commit, expected).Some?
    ensures n in Contents(archive) <==> n == MANIFEST || n in SortNames(names)
  {
    hide *;
    VerifiedNames(env, archive, names, commit, expected);
    SortKeepsNames(names);
    assert n in MemberNames(archive) <==> n in multiset(MemberNames(archive));
    assert n in SortNames(names) <==> n in multiset(SortNames(names));
  }

  lemma EntryFixesContent(
      env: Env, entries: seq<FileEntry>, names: seq<string>, files: map<string, Bytes>, others: map<string, Bytes>, n: string)
    requires env.h.Ideal() && EntriesMatch(env, entries, names, files) && EntriesMatch(env, entries, names, others) && n in names
    ensures n in files && n in others && files[n] == others[n]
  {
    var i :| 0 <= i < |names| && names[i] == n;
    assert entries[i] == EntryOf(env, n, files[n]) && entries[i] == EntryOf(env, n, others[n]);
  }

  /******* LIVE *******/

  predicate OneTuple(p: Proof) {
    && (forall f | f in p.components :: f.tuple == p.tuple) && (forall o | o in p.oracles :: o.fact.tuple == p.tuple)
    && |p.components| == 4 && |p.oracles| == 2 && Differ(p.oracles[0], p.oracles[1])
    && p.oracles[0].rootHash == p.oracles[1].rootHash == p.rootHash
  }

  lemma ProofHasOneTuple(env: Env, p: Proof, expected: Option<Expected>, files: map<string, Bytes>, a: Attestation)
    requires ProofOk(env, p, expected, files, a)
    ensures OneTuple(p)
  {
    assert p.oracles[0] in p.oracles && p.oracles[1] in p.oracles;
    hide Backed, Differ, SafeName, Env.Opaque;
  }

  /** Accepted as LIVE exactly with a proof, whose components and Oracles all carry one authority tuple. */
  lemma VerifiedLiveIsProved(env: Env, archive: Archive, names: seq<string>, commit: string, expected: Option<Expected>)
    requires Verify(env, archive, names, commit, expected).Some?
    ensures
      var v := Verify(env, archive, names, commit, expected).value;
      (v.classification == LIVE <==> v.proof.Some?)
      && (v.proof.Some? ==>
            && env.read(v.proof.value).Some? && OneTuple(env.read(v.proof.value).value)
            && (expected.Some? ==> expected.value.Allows(env.read(v.proof.value).value.tuple)))
  {
    VerifiedManifest(env, archive, names, commit, expected);
    var files := Contents(archive);
    var m := Decode(env, files[MANIFEST]).value;
    hide Verify, EntriesMatch, SealedAttestation, Backed, Contents, ProofOk, SortNames, Decode;
    if m.proof.Some? {
      ProofHasOneTuple(env, env.read(m.proof.value).value, expected, files, m.attestation);
      ProofMeetsExpectation(env, env.read(m.proof.value).value, expected, files, m.attestation);
    }
  }

  lemma ProofMeetsExpectation(env: Env, p: Proof, expected: Option<Expected>, files: map<string, Bytes>, a: Attestation)
    requires ProofOk(env, p, expected, files, a)
    ensures expected.Some? ==> expected.value.Allows(p.tuple)
  {
    hide Backed, Differ, SafeName, Env.Opaque, ComponentOk, OracleOk;
  }

  /** The builder never makes a LIVE bundle out of a claim alone. */
  lemma BuiltLiveIsProved(env: Env, o: Order, disk: map<string, Bytes>)
    requires Build(env, o, disk).Some?
    ensures
      var b := Build(env, o, disk).value;
      (b.classification == LIVE <==> b.proof.Some?)
      && (b.proof.Some? ==> b.proof == o.Meant() && env.read(b.proof.value).Some? && OneTuple(env.read(b.proof.value).value))
  {
    hide *;
    BuildYields(env, o, disk);
    GrantedIs(env, o, disk);
    var payload := Payload(o.files, disk);
    if o.proof.Some? { HoldsHasOneTuple(env, o.Meant().value, o.tuple, payload, o.attestation); }
  }

  lemma GrantedIs(env: Env, o: Order, disk: map<string, Bytes>)
    requires OrderOk(env, o, disk)
    ensures Granted(o) == LIVE <==> o.proof.Some?
  {
    assert "PARTIAL" != LIVE by { assert |LIVE| == 20; }
    hide SafeName, Readable;
  }

  lemma HoldsHasOneTuple(env: Env, v: Value, expected: Option<Expected>, files: map<string, Bytes>, a: Attestation)
    requires ProofHolds(env, v, expected, files, a)
    ensures env.read(v).Some? && OneTuple(env.read(v).value)
  {
    hide ProofOk, OneTuple;
    ProofHasOneTuple(env, env.read(v).value, expected, files, a);
  }

  /******* The verifier's loop over the members *******/

  method CheckSizes(archive: Archive) returns (ok: bool)
    ensures ok <==> Within(archive)
  {
    var total := 0;
    for i := 0 to |archive|
      invariant total == Total(archive[..i]) <= MAX_TOTAL
      invariant forall m | m in archive[..i] :: MemberWithin(m)
    {
      var m := archive[i];
      assert archive[..i + 1][..i] == archive[..i] && archive[..i + 1] == archive[..i] + [m];
      TotalGrows(archive, i + 1);
      assert m in archive;
      if |m.content| > MAX_MEMBER { return false; }
      total := total + |m.content|;
      if total > MAX_TOTAL { return false; }
      if !MemberWithin(m) { return false; }
    }
    assert archive[..|archive|] == archive;
    return true;
  }

  lemma {:induction false} TotalGrows(archive: Archive, i: nat)
    requires i <= |archive|
    ensures Total(archive[..i]) <= Total(archive)
    decreases |archive|
  {
    if i == |archive| {
      assert archive[..i] == archive;
    } else {
      assert archive[..|archive| - 1][..i] == archive[..i];
      TotalGrows(archive[..|archive| - 1], i);
    }
  }

  /** The builder's loop over the allowlist. */
  method ReadPayload(files: seq<File>, disk: map<string, Bytes>) returns (res: Option<map<string, Bytes>>)
    ensures res.Some? <==> forall f | f in files :: SafeName(f.name) && Readable(disk, f.path)
    ensures res.Some? ==> (forall f | f in files :: f.path in disk) && res.value == Payload(files, disk)
  {
    hide SafeName;
    var payload: map<string, Bytes> := map[];
    for i := 0 to |files|
      invariant forall f | f in files[..i] :: SafeName(f.name) && Readable(disk, f.path)
      invariant payload == Payload(files[..i], disk)
    {
      assert files[..i + 1][..i] == files[..i] && files[..i + 1] == files[..i] + [files[i]];
      if !SafeName(files[i].name) || !Readable(disk, files[i].path) {
        assert files[i] in files;
        return None;
      }
      payload := payload[files[i].name := disk[files[i].path]];
    }
    assert files[..|files|] == files;
    return Some(payload);
  }
}
