/** Interface identities, result codes and the call vocabulary shared by the
    wrapped Direct3D 12 command list and the D3D12CommandList proxy. */
module Com {

  /** Number of graphics command-list interface versions the proxy knows,
      ID3D12GraphicsCommandList through ID3D12GraphicsCommandList5. */
  const VersionCount: nat := 6

  /** An interface version of the graphics command list, 0 to 5. */
  type Level = k: nat | k < VersionCount

  /** The interface identifiers (IIDs) a caller can ask for. `ProxyClass` is
      the identifier of the proxy class itself; `Other` is every identifier
      the proxy does not represent. */
  datatype Iid =
    | ProxyClass
    | IUnknown
    | ID3D12Object
    | ID3D12DeviceChild
    | ID3D12CommandList
    | ID3D12GraphicsCommandList(version: Level)
    | Other(guid: nat)

  /** The three HRESULT values the protocol distinguishes. */
  datatype HResult = S_OK | E_POINTER | E_NOINTERFACE

  datatype Option<T> = None | Some(value: T)

  /** One representative pass-through operation per interface version; the
      arguments are opaque payloads handed on unchanged. */
  datatype Op =
    | DrawInstanced(vertexCountPerInstance: nat, instanceCount: nat,
                    startVertexLocation: nat, startInstanceLocation: nat)
    | SetViewInstanceMask(mask: nat)
    | WriteBufferImmediate(count: nat)
    | SetProtectedResourceSession(session: nat)
    | EndRenderPass
    | RSSetShadingRateImage(shadingRateImage: nat)

  /** The interface version that introduced an operation. */
  function OpLevel(op: Op): Level
  {
    match op
    case DrawInstanced(_, _, _, _) => 0
    case SetViewInstanceMask(_) => 1
    case WriteBufferImmediate(_) => 2
    case SetProtectedResourceSession(_) => 3
    case EndRenderPass => 4
    case RSSetShadingRateImage(_) => 5
  }

  /** A call received by the wrapped object. */
  datatype NativeCall =
    | QueryInterfaceCall(riid: Iid)
    | AddRefCall
    | ReleaseCall
    | Forwarded(op: Op)

  /** What the wrapped object agrees to expose: every command-list version up
      to `maxLevel`, the generic base identities, and the other identifiers in
      `others`. */
  datatype Config = Config(maxLevel: Level, others: set<nat>)

  predicate Supports(cfg: Config, riid: Iid)
  {
    match riid
    case ProxyClass => false
    case IUnknown => true
    case ID3D12Object => true
    case ID3D12DeviceChild => true
    case ID3D12CommandList => true
    case ID3D12GraphicsCommandList(k) => k <= cfg.maxLevel
    case Other(g) => g in cfg.others
  }

  /** The eleven identities the proxy answers for itself. */
  predicate IsOwnIdentity(riid: Iid)
  {
    match riid
    case ProxyClass => true
    case IUnknown => true
    case ID3D12Object => true
    case ID3D12DeviceChild => true
    case ID3D12CommandList => true
    case ID3D12GraphicsCommandList(_) => true
    case Other(_) => false
  }

  /** The upgrade lookup table: entry k names interface version k. */
  const IidTable: seq<Iid> := [
    ID3D12GraphicsCommandList(0),
    ID3D12GraphicsCommandList(1),
    ID3D12GraphicsCommandList(2),
    ID3D12GraphicsCommandList(3),
    ID3D12GraphicsCommandList(4),
    ID3D12GraphicsCommandList(5)
  ]

  /** The lookup table has one entry per version, in order, so a table index
      is the version it names. */
  lemma IidTableIsOrdered()
    ensures |IidTable| == VersionCount
    ensures forall k: Level :: IidTable[k] == ID3D12GraphicsCommandList(k)
  {
  }

  /** The version an identity query asks the proxy to upgrade to while it is
      at `level`: the table index of `riid` when that index lies strictly
      above `level`, and nothing for any other identity. */
  function UpgradeTarget(level: Level, riid: Iid): (r: Option<Level>)
    ensures r.Some? ==> level < r.value && IidTable[r.value] == riid
    ensures r.None? ==> forall k :: level < k < |IidTable| ==> IidTable[k] != riid
  {
    IidTableIsOrdered();
    if riid.ID3D12GraphicsCommandList? && level < riid.version
    then Some(riid.version)
    else None
  }
}
