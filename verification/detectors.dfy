/** The four labelling functions, each a decision over an observation that the
    daemon obtains from the file system, the search path or the Kubernetes API.
    The observations are inputs here; a failed API call is `FetchFailed`. */
module Detectors {
  import opened Outcomes
  import CudaPattern

  const CudaKey: string := "capability.skippy.io/nvidia-cuda"
  const GpuKey: string := "capability.skippy.io/nvidia-gpu"
  const LocalityKey: string := "locality.skippy.io/type"
  const StorageKey: string := "data.skippy.io/storage-node"

  /** What opening and reading `/usr/local/cuda/version.txt` gives. */
  datatype FileRead = Missing | Unreadable | Contents(text: string)

  /** The result of a Kubernetes API call: its value, or a failure. Every failure
      is taken to be the `ApiException` the client raises; a transport error,
      which escapes the loop the same way, is not told apart. */
  datatype Fetched<+T> = Fetched(value: T) | FetchFailed

  /** Everything the four detectors look at in one cycle. `nodeLabels` is the
      `metadata.labels` of the node as `read_node` returns it (`None` when the
      node has no labels); `storagePods` is the number of `app=minio` pods
      scheduled on this node. */
  datatype Machine = Machine(
    versionFile: FileRead,
    smiOnPath: bool,
    nodeLabels: Fetched<Option<map<string, string>>>,
    storagePods: Fetched<nat>)

  /** get_cuda_version: the major CUDA version from the version file. A missing
      file proposes the key with value `None`; content the pattern does not match
      raises `AttributeError`, which the function does not catch. */
  function GetCudaVersion(f: FileRead): (r: DetectorOutcome)
    ensures f.Missing? <==> r == Label(CudaKey, None)
    ensures f.Unreadable? <==> r == Raise(OSError)
    ensures f.Contents? ==> (r == Raise(AttributeError) <==> forall k: nat :: !CudaPattern.MatchWithGroup(f.text, k))
    ensures f.Contents? && r.Label? ==>
      r.key == CudaKey && r.value.Some? && CudaPattern.MatchWithGroup(f.text, |r.value.value|) &&
      r.value.value == f.text[|CudaPattern.Prefix|..|CudaPattern.Prefix| + |r.value.value|]
    // the greedy group: no longer digit run lets the pattern match
    ensures f.Contents? && r.Label? ==> forall k: nat :: |r.value.value| < k ==> !CudaPattern.MatchWithGroup(f.text, k)
    // content the pattern matches always gives the label
    ensures f.Contents? ==> r.Label? || r == Raise(AttributeError)
    ensures !r.Abstain?
  {
    match f
    case Missing => Label(CudaKey, None)
    case Unreadable => Raise(OSError)
    case Contents(text) =>
      match CudaPattern.SearchVersion(text)
      case None => Raise(AttributeError)
      case Some(version) => Label(CudaKey, Some(version))
  }

  /** check_nvidia_gpu: the empty-string marker when `nvidia-smi` is on the search path. */
  function CheckNvidiaGpu(smiOnPath: bool): (r: DetectorOutcome)
    ensures r.Label? && r.key == GpuKey
    ensures r.value.Some? <==> smiOnPath
    ensures r.value.Some? ==> r.value.value == ""
  {
    if smiOnPath then Label(GpuKey, Some("")) else Label(GpuKey, None)
  }

  /** edge_label: abstains when the node already carries a locality type, whatever
      its value; otherwise proposes `edge`. Subscripting labels that are `None`
      raises `TypeError`; a failed `read_node` raises `ApiException`. */
  function EdgeLabel(node: Fetched<Option<map<string, string>>>): (r: DetectorOutcome)
    ensures node.FetchFailed? <==> r == Raise(ApiException)
    ensures node == Fetched(None) <==> r == Raise(TypeError)
    ensures r.Abstain? <==> node.Fetched? && node.value.Some? && LocalityKey in node.value.value
    ensures r.Label? ==> r.key == LocalityKey && r.value == Some("edge")
    // labels without a locality type: the lookup's KeyError is caught and `edge` proposed
    ensures node.Fetched? && node.value.Some? && LocalityKey !in node.value.value ==>
      r == Label(LocalityKey, Some("edge"))
  {
    match node
    case FetchFailed => Raise(ApiException)
    case Fetched(None) => Raise(TypeError)
    case Fetched(Some(labels)) =>
      if LocalityKey in labels then Abstain else Label(LocalityKey, Some("edge"))
  }

  /** storage_node_label: the empty-string marker when at least one storage pod
      runs on the node, `None` (remove the label) otherwise. */
  function StorageNodeLabel(pods: Fetched<nat>): (r: DetectorOutcome)
    ensures pods.FetchFailed? <==> r.Raise?
    ensures r.Raise? ==> r.error == ApiException
    ensures pods.Fetched? ==> r.Label? && r.key == StorageKey && (r.value.Some? <==> pods.value > 0)
    ensures r.Label? && r.value.Some? ==> r.value.value == ""
  {
    match pods
    case FetchFailed => Raise(ApiException)
    case Fetched(count) =>
      if count > 0 then Label(StorageKey, Some("")) else Label(StorageKey, None)
  }

  /** `labelling_functions`, in list order, applied to one cycle's observations. */
  function Detect(m: Machine): (outs: seq<DetectorOutcome>)
    ensures |outs| == 4
  {
    [GetCudaVersion(m.versionFile), CheckNvidiaGpu(m.smiOnPath),
     EdgeLabel(m.nodeLabels), StorageNodeLabel(m.storagePods)]
  }

  /** Each detector owns its key: no two of them can propose the same key, and
      only the locality detector can propose the locality key. */
  lemma DetectorKeysDistinct(m: Machine)
    ensures forall i, j :: 0 <= i < j < |Detect(m)| && Detect(m)[i].Label? && Detect(m)[j].Label? ==>
      Detect(m)[i].key != Detect(m)[j].key
    ensures forall i :: 0 <= i < |Detect(m)| && i != 2 && Detect(m)[i].Label? ==> Detect(m)[i].key != LocalityKey
  {
  }
}
