/** The receipt that binds a trained candidate: the trainer writes it beside the checkpoint files, and the
    evaluator verifies it against the directory and the manifest. Producer and verifier are modelled apart,
    and the theorems say exactly when they agree and what an accepted receipt excludes.

    Hashing, canonical JSON and JSON reading and writing are abstract functions; what is assumed of them is
    stated where it is needed. */
module CandidateReceipt {
  import opened Common

  type Bytes = seq<bv8>

  const TRAINING_RECEIPT := "vex-foundation-training-receipt.json"
  const EVALUATION_RECEIPT := "vex-foundation-evaluation-receipt.json"
  const RECEIPT_SCHEMA := "vexlife.foundation-training-receipt/v1"
  const IDENTITY_CLASS := "EXACT_REPOSITORY_PLUS_COMMIT_REVISION"
  const CUDA_PROFILE := "hardware.windows-x64.nvidia.cuda12-compatible"
  const MPS_PROFILE := "hardware.macos-arm64.apple-m4-pro.metal"

  /** Files of a directory by path relative to it, with '/' between the parts. */
  type Files = map<string, Bytes>

  datatype Manifest = Manifest(
    executionDevice: string, expectedHardwareProfileRef: string, precision: string,
    trainingRunRef: string, sourceModelRepo: string, sourceModelRevision: string,
    sourceModelSnapshotFingerprint: string, sourceManifestFingerprint: string,
    trainingDatasetSha256: string, heldoutDatasetSha256: string, other: Json)

  /** The fields only CUDA observations have are None on MPS. */
  datatype Observation = Observation(
    executionDevice: string, deviceType: string, deviceIndex: Option<int>, deviceName: string,
    platform: string, architecture: string, expectedHardwareProfileRef: string, torchVersion: string,
    precision: string, mpsBuilt: bool, mpsAvailable: bool, acceleratorMemoryBytes: Option<int>,
    cudaRuntimeVersion: Option<string>, computeCapability: Option<seq<int>>)

  datatype Receipt = Receipt(
    schemaVersion: string, trainingRunRef: string, priorModelIdentity: string, candidateModelIdentity: string,
    sourceModelRepo: string, sourceModelRevision: string, sourceModelSnapshotFingerprint: string,
    sourceModelSnapshotFingerprintObserved: bool, sourceModelIdentityClass: string,
    sourceManifestFingerprint: string, sourceManifestFingerprintObserved: bool, manifestFingerprint: string,
    trainingDatasetSha256: string, heldoutDatasetSha256: string,
    executionDevice: string, expectedHardwareProfileRef: string,
    executionObservation: Observation, embeddedObservationFingerprint: string,
    executionObservationFingerprint: string,
    changedParameterCount: int, candidateArtifactDigests: map<string, string>, candidateArtifactFingerprint: string,
    trainingActuallyExecuted: bool, modelWeightsChanged: bool)

  /** The documents that are fingerprinted through canonical JSON. */
  datatype Document =
    | ManifestDoc(manifest: Manifest)
    | ObservationDoc(observation: Observation)
    | ArtifactsDoc(digests: map<string, string>)
    | PriorDoc(repo: string, revision: string)
    | CandidateDoc(prior: string, run: string, artifacts: string)

  datatype Crypto = Crypto(sha: Bytes -> string, canonical: Document -> Bytes,
                           write: Receipt -> Bytes, read: Bytes -> Option<Receipt>)

  function Fingerprint(c: Crypto, d: Document): string { c.sha(c.canonical(d)) }

  /** A receipt read back is the receipt written, and digests are 64 lower-case hexadecimal digits. */
  ghost predicate Faithful(c: Crypto) {
    && (forall r :: c.read(c.write(r)) == Some(r))
    && forall b :: Hex64(c.sha(b))
  }

  /** No file of `a` collides with the file at the same path of `b`. */
  ghost predicate CollisionFree(c: Crypto, a: Files, b: Files) {
    forall path | path in a && path in b && c.sha(a[path]) == c.sha(b[path]) :: a[path] == b[path]
  }

  /** The fingerprints of these two documents do not collide. */
  predicate ToldApart(c: Crypto, a: Document, b: Document) {
    Fingerprint(c, a) == Fingerprint(c, b) ==> a == b
  }

  function PriorIdentity(c: Crypto, m: Manifest): string {
    "model-source.vexlife.sha256." + Fingerprint(c, PriorDoc(m.sourceModelRepo, m.sourceModelRevision))
  }

  function CandidateIdentity(c: Crypto, m: Manifest, artifacts: string): string {
    "model-candidate.vexlife.sha256." + Fingerprint(c, CandidateDoc(PriorIdentity(c, m), m.trainingRunRef, artifacts))
  }

  // ----- digests of a directory -----

  /** The last component of a path. */
  function BaseName(path: string): string {
    if path == "" then ""
    else if path[|path|-1] == '/' then ""
    else BaseName(path[..|path|-1]) + [path[|path|-1]]
  }

  /** Digests of all files whose name is not among the excluded ones. */
  function DigestsWithout(c: Crypto, files: Files, excluded: set<string>): map<string, string> {
    map path | path in files && BaseName(path) !in excluded :: c.sha(files[path])
  }

  function TrainerDigests(c: Crypto, files: Files): map<string, string> {
    DigestsWithout(c, files, {TRAINING_RECEIPT})
  }

  function EvaluatorDigests(c: Crypto, files: Files): map<string, string> {
    DigestsWithout(c, files, {TRAINING_RECEIPT, EVALUATION_RECEIPT})
  }

  /** The files that are not evidence. */
  function NonEvidence(files: Files): Files {
    map path | path in files && BaseName(path) !in {TRAINING_RECEIPT, EVALUATION_RECEIPT} :: files[path]
  }

  /** candidate_file_digests: the loop over the sorted listing of the directory; None when no file is left. */
  method CandidateFileDigests(c: Crypto, files: Files, listing: seq<string>, excluded: set<string>)
    returns (result: Option<map<string, string>>)
    requires forall path :: path in listing <==> path in files
    ensures var digests := DigestsWithout(c, files, excluded);
            result == if digests == map[] then None else Some(digests)
  {
    var digests: map<string, string> := map[];
    for k := 0 to |listing|
      invariant forall path :: path in digests <==> path in listing[..k] && BaseName(path) !in excluded
      invariant forall path :: path in digests ==> path in files && digests[path] == c.sha(files[path])
    {
      var path := listing[k];
      assert path in files;
      if BaseName(path) !in excluded {
        digests := digests[path := c.sha(files[path])];
      }
    }
    assert digests == DigestsWithout(c, files, excluded);
    result := if digests == map[] then None else Some(digests);
  }

  // ----- the trainer -----

  predicate Precision(p: string) { p in {"bf16", "fp16", "fp32"} }

  /** The part of the manifest check that the receipt depends on: a device with its own hardware profile. */
  predicate ManifestValid(m: Manifest) {
    && ((m.executionDevice == "CUDA" && m.expectedHardwareProfileRef == CUDA_PROFILE)
        || (m.executionDevice == "MPS" && m.expectedHardwareProfileRef == MPS_PROFILE))
    && Precision(m.precision)
  }

  /** What the host and the installed runtime answer; None stands for a query that failed or is missing. */
  datatype Host = Host(platform: string, architecture: string, torchVersion: string, probeWorks: bool,
                       mpsBuilt: bool, mpsAvailable: bool, chip: Option<string>, recommendedMemory: Option<int>,
                       cudaAvailable: bool, cudaVersion: string, deviceName: string, bf16: Option<bool>,
                       totalMemory: int, major: int, minor: int)

  function Lower(s: string): string {
    if s == "" then ""
    else [if 'A' <= s[0] <= 'Z' then ((s[0] as int - 'A' as int) + 'a' as int) as char else s[0]] + Lower(s[1..])
  }

  predicate OccursAt(s: string, part: string, k: int) {
    0 <= k <= |s| - |part| && s[k..k+|part|] == part
  }

  predicate Contains(s: string, part: string) {
    exists k :: 0 <= k <= |s| && OccursAt(s, part, k)
  }

  predicate StartsWith(s: string, prefix: string) { prefix <= s }

  /** observe_execution_device; None when it fails. */
  function Observe(h: Host, m: Manifest): Option<Observation> {
    if m.executionDevice == "MPS" then
      if h.platform != "darwin" || h.architecture != "arm64" || !h.mpsBuilt || !h.mpsAvailable || h.chip.None?
         || (m.expectedHardwareProfileRef == MPS_PROFILE && h.chip.value != "Apple M4 Pro") || !h.probeWorks
      then None
      else Some(Observation("MPS", "mps", None, h.chip.value, h.platform, h.architecture,
                            m.expectedHardwareProfileRef, h.torchVersion, m.precision, true, true,
                            h.recommendedMemory, None, None))
    else if m.executionDevice == "CUDA" then
      if h.platform != "win32" || h.architecture !in {"amd64", "x86_64"} || !h.cudaAvailable
         || !StartsWith(h.cudaVersion, "12.") || !Contains(Lower(h.deviceName), "nvidia")
         || (m.precision == "bf16" && h.bf16 == Some(false)) || !h.probeWorks
      then None
      else Some(Observation("CUDA", "cuda", Some(0), h.deviceName, h.platform, h.architecture,
                            m.expectedHardwareProfileRef, h.torchVersion, m.precision, false, false,
                            Some(h.totalMemory), Some(h.cudaVersion), Some([h.major, h.minor])))
    else None
  }

  /** The receipt of a successful execution over the saved checkpoint files. */
  function MakeReceipt(c: Crypto, m: Manifest, o: Observation, saved: Files, changedParameters: int): Receipt {
    var artifacts := TrainerDigests(c, saved);
    var fingerprint := Fingerprint(c, ArtifactsDoc(artifacts));
    Receipt(RECEIPT_SCHEMA, m.trainingRunRef, PriorIdentity(c, m), CandidateIdentity(c, m, fingerprint),
            m.sourceModelRepo, m.sourceModelRevision, m.sourceModelSnapshotFingerprint, false, IDENTITY_CLASS,
            m.sourceManifestFingerprint, false, Fingerprint(c, ManifestDoc(m)),
            m.trainingDatasetSha256, m.heldoutDatasetSha256, m.executionDevice, m.expectedHardwareProfileRef,
            o, Fingerprint(c, ObservationDoc(o)), Fingerprint(c, ObservationDoc(o)),
            changedParameters, artifacts, fingerprint, true, true)
  }

  /** A successful execution: the directory afterwards, or None when the trainer failed. `changed` holds the
      sizes of the changed tensors. */
  function Execute(c: Crypto, h: Host, m: Manifest, saved: Files, changed: seq<nat>): Option<Files> {
    var o := Observe(h, m);
    if o.None? || changed == [] || TrainerDigests(c, saved) == map[] then None
    else Some(saved[TRAINING_RECEIPT := c.write(MakeReceipt(c, m, o.value, saved, Sum(changed)))])
  }

  function Sum(sizes: seq<nat>): nat {
    if sizes == [] then 0 else sizes[0] + Sum(sizes[1..])
  }

  // ----- the evaluator -----

  predicate HostProvenance(o: Observation, m: Manifest) {
    && o.executionDevice == m.executionDevice
    && o.expectedHardwareProfileRef == m.expectedHardwareProfileRef
    && o.precision == m.precision
    && o.torchVersion != "" && o.deviceName != ""
    && if m.executionDevice == "MPS" then
         && o.deviceType == "mps" && o.platform == "darwin" && o.architecture == "arm64"
         && o.deviceName == "Apple M4 Pro" && o.mpsBuilt && o.mpsAvailable && o.cudaRuntimeVersion.None?
         && (o.acceleratorMemoryBytes.Some? ==> o.acceleratorMemoryBytes.value > 0)
       else
         && o.deviceType == "cuda" && o.platform == "win32" && o.architecture in {"amd64", "x86_64"}
         && Contains(Lower(o.deviceName), "nvidia")
         && o.cudaRuntimeVersion.Some? && StartsWith(o.cudaRuntimeVersion.value, "12.")
         && !o.mpsBuilt && !o.mpsAvailable
         && o.acceleratorMemoryBytes.Some? && o.acceleratorMemoryBytes.value > 0
         && o.computeCapability.Some? && |o.computeCapability.value| == 2
         && forall v | v in o.computeCapability.value :: v >= 0
  }

  predicate VerifyHost(c: Crypto, r: Receipt, m: Manifest) {
    && ManifestValid(m)
    && r.manifestFingerprint == Fingerprint(c, ManifestDoc(m))
    && r.executionDevice == m.executionDevice
    && r.expectedHardwareProfileRef == m.expectedHardwareProfileRef
    && Hex64(r.executionObservationFingerprint)
    && r.embeddedObservationFingerprint == r.executionObservationFingerprint
    && Fingerprint(c, ObservationDoc(r.executionObservation)) == r.executionObservationFingerprint
    && HostProvenance(r.executionObservation, m)
  }

  predicate VerifyReceipt(c: Crypto, r: Receipt, files: Files, m: Manifest) {
    && r.schemaVersion == RECEIPT_SCHEMA
    && r.trainingActuallyExecuted && r.modelWeightsChanged
    && r.changedParameterCount > 0
    && r.trainingRunRef == m.trainingRunRef
    && r.sourceModelRepo == m.sourceModelRepo && r.sourceModelRevision == m.sourceModelRevision
    && r.sourceModelSnapshotFingerprint == m.sourceModelSnapshotFingerprint
    && r.sourceManifestFingerprint == m.sourceManifestFingerprint
    && r.trainingDatasetSha256 == m.trainingDatasetSha256 && r.heldoutDatasetSha256 == m.heldoutDatasetSha256
    && r.sourceModelIdentityClass == IDENTITY_CLASS
    && !r.sourceModelSnapshotFingerprintObserved && !r.sourceManifestFingerprintObserved
    && VerifyHost(c, r, m)
    && r.priorModelIdentity == PriorIdentity(c, m)
    && r.candidateArtifactDigests != map[] && Hex64(r.candidateArtifactFingerprint)
    && EvaluatorDigests(c, files) != map[]
    && EvaluatorDigests(c, files) == r.candidateArtifactDigests
    && Fingerprint(c, ArtifactsDoc(EvaluatorDigests(c, files))) == r.candidateArtifactFingerprint
    && r.candidateModelIdentity == CandidateIdentity(c, m, r.candidateArtifactFingerprint)
  }

  /** verify_candidate_receipt_binding. */
  predicate Accepts(c: Crypto, files: Files, m: Manifest) {
    && TRAINING_RECEIPT in files
    && var r := c.read(files[TRAINING_RECEIPT]);
       r.Some? && VerifyReceipt(c, r.value, files, m)
  }

  // ----- when producer and verifier agree -----

  /** What the verifier demands of the observed host beyond what the trainer checks before it trains. */
  predicate HostDocumented(h: Host, m: Manifest) {
    && h.torchVersion != ""
    && if m.executionDevice == "MPS" then h.recommendedMemory.Some? ==> h.recommendedMemory.value > 0
       else h.totalMemory > 0 && h.major >= 0 && h.minor >= 0
  }

  predicate NoEvaluationFile(saved: Files) {
    forall path | path in saved :: BaseName(path) != EVALUATION_RECEIPT
  }

  lemma ObservedProvenance(h: Host, m: Manifest)
    requires ManifestValid(m) && Observe(h, m).Some?
    ensures HostProvenance(Observe(h, m).value, m) <==> HostDocumented(h, m)
  {
    var o := Observe(h, m).value;
    if m.executionDevice == "CUDA" {
      assert Lower("") == "";
      assert o.computeCapability.value == [h.major, h.minor];
      assert h.major in o.computeCapability.value && h.minor in o.computeCapability.value;
    }
  }

  lemma {:induction false} SumPositive(sizes: seq<nat>)
    requires sizes != [] && forall n | n in sizes :: n > 0
    ensures Sum(sizes) > 0
  {
    assert sizes[0] in sizes;
  }

  /** The parameters of changed tensors add up, in whatever parts they are taken. */
  lemma {:induction false} SumAppend(a: seq<nat>, b: seq<nat>, n: nat)
    ensures Sum(a + b) == Sum(a) + Sum(b) && Sum([n]) == n
  {
    if a == [] {
      assert a + b == b;
    } else {
      assert (a + b)[1..] == a[1..] + b;
      SumAppend(a[1..], b, n);
    }
  }

  lemma BaseNameOfReceipt()
    ensures BaseName(TRAINING_RECEIPT) == TRAINING_RECEIPT && BaseName(EVALUATION_RECEIPT) == EVALUATION_RECEIPT
  {
    BaseNamePlain(TRAINING_RECEIPT);
    BaseNamePlain(EVALUATION_RECEIPT);
  }

  lemma {:induction false} BaseNamePlain(name: string)
    requires '/' !in name
    ensures BaseName(name) == name
  {
    if name != "" {
      var init := name[..|name|-1];
      assert forall ch | ch in init :: ch in name;
      assert name[|name|-1] in name;
      BaseNamePlain(init);
    }
  }

  /** Writing a file whose name is excluded leaves the digests alone. */
  lemma EvidenceInvisible(c: Crypto, files: Files, path: string, content: Bytes)
    requires BaseName(path) in {TRAINING_RECEIPT, EVALUATION_RECEIPT}
    ensures EvaluatorDigests(c, files[path := content]) == EvaluatorDigests(c, files)
    ensures NonEvidence(files[path := content]) == NonEvidence(files)
  {
  }

  /** The two digest maps coincide exactly when no file carries the evaluation receipt's name. */
  lemma DigestsAgree(c: Crypto, saved: Files)
    ensures EvaluatorDigests(c, saved) == TrainerDigests(c, saved) <==> NoEvaluationFile(saved)
  {
    if path :| path in saved && BaseName(path) == EVALUATION_RECEIPT {
      NamesDiffer();
      assert path in TrainerDigests(c, saved) && path !in EvaluatorDigests(c, saved);
    }
  }

  lemma NamesDiffer()
    ensures TRAINING_RECEIPT != EVALUATION_RECEIPT
  {
    assert TRAINING_RECEIPT[15] == 't' && EVALUATION_RECEIPT[15] == 'e';
  }

  /** Trainer and evaluator agree, exactly: the receipt a successful execution writes is accepted on the
      unchanged directory if and only if the host is documented (a runtime version, positive accelerator
      memory or none on MPS, a compute capability) and no checkpoint file carries the evaluation
      receipt's name. */
  lemma ProducerVerifierAgree(c: Crypto, h: Host, m: Manifest, saved: Files, changed: seq<nat>)
    requires Faithful(c) && ManifestValid(m)
    requires forall n | n in changed :: n > 0
    requires Execute(c, h, m, saved, changed).Some?
    ensures Accepts(c, Execute(c, h, m, saved, changed).value, m) <==> HostDocumented(h, m) && NoEvaluationFile(saved)
  {
    var o := Observe(h, m).value;
    var r := MakeReceipt(c, m, o, saved, Sum(changed));
    var files := saved[TRAINING_RECEIPT := c.write(r)];
    BaseNameOfReceipt();
    EvidenceInvisible(c, saved, TRAINING_RECEIPT, c.write(r));
    DigestsAgree(c, saved);
    ObservedProvenance(h, m);
    SumPositive(changed);
    assert c.read(files[TRAINING_RECEIPT]) == Some(r);
    ReceiptVerifies(c, o, m, saved, Sum(changed), files);
  }

  lemma ReceiptVerifies(c: Crypto, o: Observation, m: Manifest, saved: Files, count: int, files: Files)
    requires Faithful(c) && ManifestValid(m) && count > 0 && TrainerDigests(c, saved) != map[]
    requires EvaluatorDigests(c, files) == EvaluatorDigests(c, saved)
    ensures VerifyReceipt(c, MakeReceipt(c, m, o, saved, count), files, m) <==>
              HostProvenance(o, m) && EvaluatorDigests(c, saved) == TrainerDigests(c, saved)
  {
    var r := MakeReceipt(c, m, o, saved, count);
    assert Hex64(r.executionObservationFingerprint) && Hex64(r.candidateArtifactFingerprint);
    assert VerifyHost(c, r, m) <==> HostProvenance(o, m);
  }

  // ----- what is observed, executed and accepted, by the fields -----

  /** A letter of a text in lower case comes from that letter or its capital. */
  lemma {:induction false} LowerIs(s: string, k: nat, small: char, capital: char)
    requires k < |s| == |Lower(s)|
    requires 'a' <= small <= 'z' && capital as int == small as int - 32
    ensures Lower(s)[k] == small <==> s[k] == small || s[k] == capital
  {
    if k > 0 {
      LowerLength(s[1..]);
      LowerIs(s[1..], k - 1, small, capital);
    }
  }

  lemma {:induction false} LowerLength(s: string)
    ensures |Lower(s)| == |s|
  {
    if s != "" {
      LowerLength(s[1..]);
    }
  }

  /** The name of an NVIDIA device, in any case, from one of its letters on. */
  ghost predicate NvidiaAt(s: string, k: int) {
    && 0 <= k <= |s| - 6
    && (s[k] == 'n' || s[k] == 'N') && (s[k+1] == 'v' || s[k+1] == 'V') && (s[k+2] == 'i' || s[k+2] == 'I')
    && (s[k+3] == 'd' || s[k+3] == 'D') && (s[k+4] == 'i' || s[k+4] == 'I') && (s[k+5] == 'a' || s[k+5] == 'A')
  }

  lemma SixAt(s: string, k: nat, a: char, b: char, c: char, d: char, e: char, f: char)
    requires k + 6 <= |s|
    ensures s[k..k+6] == [a, b, c, d, e, f] <==>
            s[k] == a && s[k+1] == b && s[k+2] == c && s[k+3] == d && s[k+4] == e && s[k+5] == f
  {
    assert s[k..k+6] == [s[k], s[k+1], s[k+2], s[k+3], s[k+4], s[k+5]];
  }

  lemma NvidiaHere(s: string, k: nat)
    requires k + 6 <= |s|
    ensures OccursAt(Lower(s), "nvidia", k) <==> NvidiaAt(s, k)
  {
    LowerLength(s);
    SixAt(Lower(s), k, 'n', 'v', 'i', 'd', 'i', 'a');
    LowerIs(s, k, 'n', 'N');
    LowerIs(s, k + 1, 'v', 'V');
    LowerIs(s, k + 2, 'i', 'I');
    LowerIs(s, k + 3, 'd', 'D');
    LowerIs(s, k + 4, 'i', 'I');
    LowerIs(s, k + 5, 'a', 'A');
    assert "nvidia" == ['n', 'v', 'i', 'd', 'i', 'a'];
  }

  lemma NvidiaExactly(s: string)
    ensures Contains(Lower(s), "nvidia") <==> exists k :: NvidiaAt(s, k)
  {
    LowerLength(s);
    forall k | 0 <= k <= |s| - 6 ensures OccursAt(Lower(s), "nvidia", k) <==> NvidiaAt(s, k) {
      NvidiaHere(s, k);
    }
    if k :| NvidiaAt(s, k) {
      assert OccursAt(Lower(s), "nvidia", k);
    }
  }

  /** A host on which the trainer gets an observation of the accelerator of a manifest. */
  ghost predicate CanTrain(h: Host, m: Manifest) {
    && h.probeWorks
    && if m.executionDevice == "MPS" then
         && h.platform == "darwin" && h.architecture == "arm64" && h.mpsBuilt && h.mpsAvailable && h.chip.Some?
         && (m.expectedHardwareProfileRef == "hardware.macos-arm64.apple-m4-pro.metal" ==> h.chip == Some("Apple M4 Pro"))
       else
         && m.executionDevice == "CUDA"
         && h.platform == "win32" && (h.architecture == "amd64" || h.architecture == "x86_64") && h.cudaAvailable
         && |h.cudaVersion| >= 3 && h.cudaVersion[..3] == "12."
         && (exists k :: NvidiaAt(h.deviceName, k))
         && !(m.precision == "bf16" && h.bf16 == Some(false))
  }

  lemma ObservedExactly(h: Host, m: Manifest)
    ensures Observe(h, m).Some? <==> CanTrain(h, m)
    ensures Observe(h, m).Some? ==>
              Observe(h, m).value ==
                if m.executionDevice == "MPS" then
                  Observation("MPS", "mps", None, h.chip.value, "darwin", "arm64", m.expectedHardwareProfileRef,
                              h.torchVersion, m.precision, true, true, h.recommendedMemory, None, None)
                else
                  Observation("CUDA", "cuda", Some(0), h.deviceName, "win32", h.architecture,
                              m.expectedHardwareProfileRef, h.torchVersion, m.precision, false, false,
                              Some(h.totalMemory), Some(h.cudaVersion), Some([h.major, h.minor]))
  {
    NvidiaExactly(h.deviceName);
  }

  /** An execution succeeds exactly when the accelerator can be observed, a parameter changed, and a checkpoint file
      was saved; then it adds its receipt and touches nothing else. */
  lemma ExecutedExactly(c: Crypto, h: Host, m: Manifest, saved: Files, changed: seq<nat>)
    ensures Execute(c, h, m, saved, changed).Some? <==>
              && CanTrain(h, m) && |changed| > 0
              && exists path :: path in saved && BaseName(path) != "vex-foundation-training-receipt.json"
    ensures Execute(c, h, m, saved, changed).Some? ==>
              var after := Execute(c, h, m, saved, changed).value;
              && "vex-foundation-training-receipt.json" in after
              && after - {"vex-foundation-training-receipt.json"} == saved - {"vex-foundation-training-receipt.json"}
  {
    ObservedExactly(h, m);
    var digests := TrainerDigests(c, saved);
    if path :| path in saved && BaseName(path) != TRAINING_RECEIPT {
      assert path in digests;
    } else {
      assert digests.Keys == {};
    }
  }

  /** The receipt it writes is that of what was observed, saved and changed. */
  lemma ExecutedWrites(c: Crypto, h: Host, m: Manifest, saved: Files, changed: seq<nat>, after: Files)
    requires Execute(c, h, m, saved, changed) == Some(after)
    ensures TRAINING_RECEIPT in after && Observe(h, m).Some?
    ensures after[TRAINING_RECEIPT] == c.write(MakeReceipt(c, m, Observe(h, m).value, saved, Sum(changed)))
  {
  }

  /** The members of an observation that the verifier does not read, as the trainer writes them. */
  function Unread(o: Observation): Observation {
    if o.executionDevice == "MPS" then o.(deviceIndex := None, computeCapability := None)
    else o.(deviceIndex := Some(0))
  }

  /** A host that would be observed like this. */
  function HostOf(o: Observation): Host {
    Host(o.platform, o.architecture, o.torchVersion, true, o.mpsBuilt, o.mpsAvailable, Some(o.deviceName),
         o.acceleratorMemoryBytes, true, if o.cudaRuntimeVersion.Some? then o.cudaRuntimeVersion.value else "",
         o.deviceName, None,
         if o.acceleratorMemoryBytes.Some? then o.acceleratorMemoryBytes.value else 0,
         if o.computeCapability.Some? && |o.computeCapability.value| == 2 then o.computeCapability.value[0] else 0,
         if o.computeCapability.Some? && |o.computeCapability.value| == 2 then o.computeCapability.value[1] else 0)
  }

  /** The verifier admits exactly the observations that the trainer could have made on a documented host, as far
      as it reads them. */
  lemma ProvenanceExactly(o: Observation, m: Manifest)
    requires ManifestValid(m)
    ensures HostProvenance(o, m) <==> exists h :: Observe(h, m) == Some(Unread(o)) && HostDocumented(h, m)
  {
    if HostProvenance(o, m) {
      if m.executionDevice == "CUDA" {
        var v := o.computeCapability.value;
        assert v == [v[0], v[1]] && v[0] in v && v[1] in v;
      }
      assert Observe(HostOf(o), m) == Some(Unread(o)) && HostDocumented(HostOf(o), m);
    }
    if h :| Observe(h, m) == Some(Unread(o)) && HostDocumented(h, m) {
      ObservedProvenance(h, m);
      assert HostProvenance(Unread(o), m);
    }
  }

  /** The files other than evidence are what the evaluator digests. */
  lemma NonEvidenceDigests(c: Crypto, files: Files)
    ensures TrainerDigests(c, NonEvidence(files)) == EvaluatorDigests(c, files)
    ensures EvaluatorDigests(c, files) == map[] <==> NonEvidence(files) == map[]
  {
    assert EvaluatorDigests(c, files).Keys == NonEvidence(files).Keys;
    if NonEvidence(files) == map[] {
      assert EvaluatorDigests(c, files).Keys == {};
    } else {
      assert NonEvidence(files).Keys != {};
    }
  }

  /** The verifier accepts a directory exactly when its receipt is, field by field, the one the trainer writes for
      the files that are not evidence, with an observation of a documented host and at least one changed parameter. */
  lemma AcceptsExactly(c: Crypto, files: Files, m: Manifest)
    requires Faithful(c)
    ensures Accepts(c, files, m) <==>
              && (m.precision == "bf16" || m.precision == "fp16" || m.precision == "fp32")
              && ((m.executionDevice == "CUDA"
                   && m.expectedHardwareProfileRef == "hardware.windows-x64.nvidia.cuda12-compatible")
                  || (m.executionDevice == "MPS"
                      && m.expectedHardwareProfileRef == "hardware.macos-arm64.apple-m4-pro.metal"))
              && NonEvidence(files) != map[]
              && "vex-foundation-training-receipt.json" in files
              && var read := c.read(files["vex-foundation-training-receipt.json"]);
                 && read.Some?
                 && var r := read.value;
                    && r.changedParameterCount > 0 && HostProvenance(r.executionObservation, m)
                    && r == MakeReceipt(c, m, r.executionObservation, NonEvidence(files), r.changedParameterCount)
  {
    NonEvidenceDigests(c, files);
  }

  /** What an accepted receipt claims: that the training of this very run was executed and changed weights, and that
      neither the snapshot nor the manifest of the source model was observed. */
  lemma AcceptedClaims(c: Crypto, files: Files, m: Manifest)
    requires Accepts(c, files, m)
    ensures var r := c.read(files["vex-foundation-training-receipt.json"]).value;
            && r.schemaVersion == "vexlife.foundation-training-receipt/v1"
            && r.trainingActuallyExecuted && r.modelWeightsChanged && r.changedParameterCount > 0
            && !r.sourceModelSnapshotFingerprintObserved && !r.sourceManifestFingerprintObserved
            && r.sourceModelIdentityClass == "EXACT_REPOSITORY_PLUS_COMMIT_REVISION"
            && r.trainingRunRef == m.trainingRunRef
            && r.sourceModelRepo == m.sourceModelRepo && r.sourceModelRevision == m.sourceModelRevision
            && r.trainingDatasetSha256 == m.trainingDatasetSha256
            && r.heldoutDatasetSha256 == m.heldoutDatasetSha256
            && ((r.executionDevice == "CUDA"
                 && m.expectedHardwareProfileRef == "hardware.windows-x64.nvidia.cuda12-compatible")
                || (r.executionDevice == "MPS"
                    && m.expectedHardwareProfileRef == "hardware.macos-arm64.apple-m4-pro.metal"))
            && (m.precision == "bf16" || m.precision == "fp16" || m.precision == "fp32")
            && r.executionObservation.executionDevice == m.executionDevice
            && r.executionObservation.torchVersion != "" && r.executionObservation.deviceName != ""
            && (m.executionDevice == "CUDA" ==>
                  r.executionObservation.acceleratorMemoryBytes.Some?
                  && r.executionObservation.acceleratorMemoryBytes.value > 0)
  {
  }

  /** What an accepted receipt is computed from: the digest of every file that is not evidence, and the fingerprints
      of the manifest, the observation, the artifacts and the two identities. */
  lemma AcceptedFingerprints(c: Crypto, files: Files, m: Manifest)
    requires Accepts(c, files, m)
    ensures var r := c.read(files["vex-foundation-training-receipt.json"]).value;
            var prior := "model-source.vexlife.sha256." + c.sha(c.canonical(PriorDoc(m.sourceModelRepo,
                                                                                     m.sourceModelRevision)));
            && (forall path :: path in r.candidateArtifactDigests <==>
                  && path in files && BaseName(path) != "vex-foundation-training-receipt.json"
                  && BaseName(path) != "vex-foundation-evaluation-receipt.json")
            && (forall path :: path in r.candidateArtifactDigests ==>
                  path in files && r.candidateArtifactDigests[path] == c.sha(files[path]))
            && r.candidateArtifactFingerprint == c.sha(c.canonical(ArtifactsDoc(r.candidateArtifactDigests)))
            && r.manifestFingerprint == c.sha(c.canonical(ManifestDoc(m)))
            && r.executionObservationFingerprint == c.sha(c.canonical(ObservationDoc(r.executionObservation)))
            && r.embeddedObservationFingerprint == r.executionObservationFingerprint
            && r.priorModelIdentity == prior
            && r.candidateModelIdentity ==
                 "model-candidate.vexlife.sha256."
                 + c.sha(c.canonical(CandidateDoc(prior, m.trainingRunRef, r.candidateArtifactFingerprint)))
  {
  }

  lemma {:induction false} BaseNameOf(directory: string, name: string)
    requires '/' !in name
    ensures BaseName(directory + "/" + name) == name
  {
    var path := directory + "/" + name;
    if name != "" {
      var init := name[..|name|-1];
      assert forall ch | ch in init :: ch in name;
      assert name[|name|-1] in name;
      BaseNameOf(directory, init);
      assert path[..|path|-1] == directory + "/" + init;
    }
  }

  /** Writing the evaluation receipt beside the candidate changes no verdict, for any directory at all. */
  lemma StillAccepted(c: Crypto, files: Files, m: Manifest, evaluation: Bytes)
    ensures Accepts(c, files[EVALUATION_RECEIPT := evaluation], m) <==> Accepts(c, files, m)
  {
    BaseNameOfReceipt();
    NamesDiffer();
    EvidenceInvisible(c, files, EVALUATION_RECEIPT, evaluation);
  }

  lemma SameDigestsSameFiles(c: Crypto, a: Files, b: Files)
    requires CollisionFree(c, a, b)
    requires EvaluatorDigests(c, a) == EvaluatorDigests(c, b)
    ensures NonEvidence(a) == NonEvidence(b)
  {
    var da, db := EvaluatorDigests(c, a), EvaluatorDigests(c, b);
    assert NonEvidence(a).Keys == da.Keys && db.Keys == NonEvidence(b).Keys;
    forall path | path in NonEvidence(a) ensures NonEvidence(a)[path] == NonEvidence(b)[path] {
      assert path in da && path in db;
      assert da[path] == c.sha(a[path]) && db[path] == c.sha(b[path]);
    }
  }

  lemma AcceptedDigests(c: Crypto, files: Files, m: Manifest)
    requires Accepts(c, files, m)
    ensures c.read(files[TRAINING_RECEIPT]).Some?
    ensures var r := c.read(files[TRAINING_RECEIPT]).value;
            && EvaluatorDigests(c, files) == r.candidateArtifactDigests
            && r.candidateArtifactFingerprint == Fingerprint(c, ArtifactsDoc(EvaluatorDigests(c, files)))
            && r.candidateModelIdentity == CandidateIdentity(c, m, r.candidateArtifactFingerprint)
            && r.manifestFingerprint == Fingerprint(c, ManifestDoc(m))
  {
  }

  /** Acceptance pins the candidate: unless two contents collide, two directories accepted with the same
      training receipt hold exactly the same non-evidence files, byte for byte. */
  lemma AcceptedUntouched(c: Crypto, a: Files, b: Files, m: Manifest)
    requires CollisionFree(c, a, b)
    requires Accepts(c, a, m) && Accepts(c, b, m) && a[TRAINING_RECEIPT] == b[TRAINING_RECEIPT]
    ensures NonEvidence(a) == NonEvidence(b)
  {
    AcceptedDigests(c, a, m);
    AcceptedDigests(c, b, m);
    SameDigestsSameFiles(c, a, b);
  }

  /** After an execution, an accepted directory with its receipt intact still holds the checkpoint as it was
      saved: nothing added, removed or changed. */
  lemma AcceptedAsSaved(c: Crypto, h: Host, m: Manifest, saved: Files, changed: seq<nat>, later: Files)
    requires Faithful(c) && CollisionFree(c, later, saved)
    requires Execute(c, h, m, saved, changed).Some?
    requires TRAINING_RECEIPT in later
    requires later[TRAINING_RECEIPT] == Execute(c, h, m, saved, changed).value[TRAINING_RECEIPT]
    requires Accepts(c, later, m)
    ensures NonEvidence(later) == NonEvidence(saved) && NoEvaluationFile(saved)
  {
    var r := MakeReceipt(c, m, Observe(h, m).value, saved, Sum(changed));
    assert c.read(c.write(r)) == Some(r);
    AcceptedDigests(c, later, m);
    EvaluatorNeverSeesEvaluation(c, later, saved);
    DigestsAgree(c, saved);
    SameDigestsSameFiles(c, later, saved);
  }

  lemma EvaluatorNeverSeesEvaluation(c: Crypto, later: Files, saved: Files)
    requires EvaluatorDigests(c, later) == TrainerDigests(c, saved)
    ensures NoEvaluationFile(saved)
  {
    NamesDiffer();
    forall path | path in saved ensures BaseName(path) != EVALUATION_RECEIPT {
      assert path in TrainerDigests(c, saved) <==> BaseName(path) != TRAINING_RECEIPT;
      assert path in EvaluatorDigests(c, later) ==> BaseName(path) != EVALUATION_RECEIPT;
    }
  }

  /** A receipt is accepted for one manifest only, unless their fingerprints collide. */
  lemma AcceptedForOneManifest(c: Crypto, files: Files, m: Manifest, n: Manifest)
    requires ToldApart(c, ManifestDoc(m), ManifestDoc(n))
    requires Accepts(c, files, m) && Accepts(c, files, n)
    ensures m == n
  {
    AcceptedDigests(c, files, m);
    AcceptedDigests(c, files, n);
  }

  function Identified(c: Crypto, m: Manifest, files: Files): Document {
    CandidateDoc(PriorIdentity(c, m), m.trainingRunRef, Fingerprint(c, ArtifactsDoc(EvaluatorDigests(c, files))))
  }

  /** The candidate identity stands for the checkpoint: two accepted directories of one manifest with the
      same candidate identity hold the same non-evidence files, unless something collides. */
  lemma IdentityDetermines(c: Crypto, a: Files, b: Files, m: Manifest)
    requires CollisionFree(c, a, b)
    requires ToldApart(c, Identified(c, m, a), Identified(c, m, b))
    requires ToldApart(c, ArtifactsDoc(EvaluatorDigests(c, a)), ArtifactsDoc(EvaluatorDigests(c, b)))
    requires Accepts(c, a, m) && Accepts(c, b, m)
    requires c.read(a[TRAINING_RECEIPT]).value.candidateModelIdentity ==
               c.read(b[TRAINING_RECEIPT]).value.candidateModelIdentity
    ensures NonEvidence(a) == NonEvidence(b)
  {
    AcceptedDigests(c, a, m);
    AcceptedDigests(c, b, m);
    PrefixCancel("model-candidate.vexlife.sha256.", Fingerprint(c, Identified(c, m, a)),
                 Fingerprint(c, Identified(c, m, b)));
    SameDigestsSameFiles(c, a, b);
  }

  lemma PrefixCancel(p: string, a: string, b: string)
    requires p + a == p + b
    ensures a == b
  {
    assert a == (p + a)[|p|..] && b == (p + b)[|p|..];
  }
}
