# D3D12CommandList: a versioned interface proxy, modelled in Dafny

ReShade wraps every Direct3D 12 graphics command list the application creates
in a `D3D12CommandList` proxy. The proxy stands in for the family of
interfaces `ID3D12GraphicsCommandList` through `ID3D12GraphicsCommandList5`
(versions 0 to 5, each extending the previous one). It holds one reference
`_orig` to the wrapped command list, at the version recorded in
`_interface_version`. When a caller asks `QueryInterface` for a newer version,
the proxy upgrades itself in place. It keeps a local use count `_ref` beside
the wrapped object's own, authoritative reference count, and it forwards every
other call to `_orig`.

The project models this protocol and proves its properties.

- `com.dfy`, module `Com`: the interface identifiers, the three HRESULTs, the
  version lookup table, and `UpgradeTarget`, which names the version an
  identity query upgrades to.
- `wrapped.dfy`, module `Wrapped`: the wrapped command list as a class
  `Native`. It has a reference count, the highest version it implements, the
  other identifiers it answers, and a ghost log of the calls it receives.
  Interface pointers are `Iface` values. The storage behind a `void **`
  out-parameter is an `OutSlot`.
- `protocol.dfy`, module `Protocol`: the abstract state of a proxy. This is
  the version, both counts, a destroyed flag, a warning count and the wrapped
  object's call log. The module gives one transition function per proxy call,
  and lemmas about single calls.
- `traces.dfy`, module `Traces`: sequences of calls on the proxy, mixed with
  calls made on the wrapped object directly by other holders. Inductive
  lemmas about whole lifetimes.
- `command_list.dfy`, module `CommandList`: the class `D3D12CommandList`.
  Its methods mirror the C++ code: the table scan is a `while` loop, the
  reference swap and counter updates are field assignments, and `delete this`
  sets a ghost `destroyed` flag. Each method is proved to move
  `Snapshot()` exactly as the matching `Protocol` transition says.
- `scenarios.dfy`, module `Scenarios`: three client methods that drive a proxy
  through a concrete lifetime, using nothing but the contracts.

C `assert` statements are modelled as preconditions, since they are the
caller's obligation. This covers the version gates on the version-1 to
version-5 methods, and the `assert(_ref <= 0)` that `Release` reaches before
`delete this` (`Protocol.DestructionAssertHolds`). `Release` re-checks that
assertion in its body, and the verifier proves it from the precondition.

Notes on `Release`:

- It decrements both counts and destroys the proxy when either decremented
  count is 0.
- It logs the inconsistency warning when it destroys the proxy while the
  wrapped count is still nonzero. A proxy acquired once from a local count of
  0 and then released is therefore destroyed with a warning, even though
  another holder still has the wrapped object (`Scenarios.BypassingHolder`).
- Driving the wrapped count to 0 while the local count is still positive
  fails its debug assertion `_ref <= 0`. The model treats that assertion as a
  precondition, so that call cannot happen.
- An AddRef followed by a Release destroys the proxy exactly when the local
  count was 0 beforehand, whatever the wrapped count
  (`Protocol.AddRefThenRelease`).

## Model

| member | source | states |
|---|---|---|
| `Com.UpgradeTarget` | source/d3d12/d3d12_command_list.cpp:80-91 | an identity leads to an upgrade only when its table index lies strictly above the current version; the target is that index, and an identity absent from the table above the current version leads to none |
| `Com.IidTableIsOrdered` | source/d3d12/d3d12_command_list.cpp:80-87 | the table has one entry per version, and entry k is ID3D12GraphicsCommandList version k; `Com.UpgradeTarget` relies on it |
| `Com.IsOwnIdentity` | source/d3d12/d3d12_command_list.cpp:114-124 | the identities the proxy answers with itself: IUnknown, ID3D12Object, ID3D12DeviceChild, ID3D12CommandList, the proxy's own class and every ID3D12GraphicsCommandList version; `Protocol.QueryOwnIdentity` and `Protocol.QueryForwarded` state what the query does on each side |
| `Protocol.Upgrade` | source/d3d12/d3d12_command_list.cpp:78-107 | the transition of check_and_upgrade_interface; its properties are stated by `Protocol.UpgradeOnlyAbove`, `Protocol.UpgradeJumpsToRequested`, `Protocol.UpgradeRefused` and `Protocol.UpgradeMonotone`, and the loop is proved equal to it by `CommandList.D3D12CommandList.CheckAndUpgradeInterface` |
| `Protocol.UpgradeOnlyAbove` | source/d3d12/d3d12_command_list.cpp:89-106 | for an identity at or below the current version, a generic identity or an unknown one, the check returns true and changes nothing |
| `Protocol.UpgradeJumpsToRequested` | source/d3d12/d3d12_command_list.cpp:89-102 | an upgrade the wrapped object accepts jumps straight to the requested version; it makes one QueryInterface and one Release of the old reference; both counts end unchanged |
| `Protocol.UpgradeRefused` | source/d3d12/d3d12_command_list.cpp:93-95 | when the wrapped object refuses the higher version, the check returns false with the version and counts unchanged; QueryInterface answers E_NOINTERFACE without an AddRef and without writing the out-pointer |
| `Protocol.UpgradeMonotone` | source/d3d12/d3d12_command_list.cpp:89-102 | the version never decreases, becomes either the old version or the requested one, and stays within what the wrapped object implements |
| `Protocol.Query` | source/d3d12/d3d12_command_list.cpp:109-135 | the transition of QueryInterface; its properties are stated by `Protocol.QueryNullOutPointer`, `Protocol.QueryOwnIdentity`, `Protocol.QueryAgainNoRequery`, `Protocol.QueryUpgradesToRequested`, `Protocol.QueryForwarded` and `Protocol.UpgradeRefused` |
| `Protocol.QueryNullOutPointer` | source/d3d12/d3d12_command_list.cpp:111-112 | a null out-pointer gives E_POINTER with no state change and no call on the wrapped object |
| `Protocol.QueryOwnIdentity` | source/d3d12/d3d12_command_list.cpp:114-131 | for the proxy's own identities the query succeeds exactly when the upgrade check does; on success the new state is the upgraded state after one AddRef (level from the upgrade, local +1, wrapped +1) and the proxy itself is written; on failure it gives E_NOINTERFACE, writes nothing and ends in the check's state |
| `Protocol.QueryUpgradesToRequested` | source/d3d12/d3d12_command_list.cpp:89-131 | a query for a higher version the wrapped object implements is granted and leaves the proxy at exactly that version; the whole new state is given: both counts +1, and one QueryInterface, one Release and one AddRef logged |
| `Protocol.QueryAgainNoRequery` | source/d3d12/d3d12_command_list.cpp:114-131 | repeating a granted own-identity query does not query the wrapped object again; its only effect is one AddRef |
| `Protocol.QueryForwarded` | source/d3d12/d3d12_command_list.cpp:134 | any other identity is answered by the wrapped object alone: S_OK and the interface written when it implements the identity, otherwise E_NOINTERFACE and null written; the version and the local count do not change |
| `Protocol.AfterAddRef` | source/d3d12/d3d12_command_list.cpp:136-141 | the transition of AddRef; its effect is stated whole by `Protocol.AddRefMovesBothCounts` |
| `Protocol.AddRefMovesBothCounts` | source/d3d12/d3d12_command_list.cpp:136-141 | AddRef raises the local and the wrapped count by one, records one AddRef on the wrapped object, and changes nothing else (the new state is given whole) |
| `Protocol.AfterRelease` | source/d3d12/d3d12_command_list.cpp:142-159 | the transition of Release; its properties are stated by `Protocol.ReleaseOutcome`, `Protocol.ReleaseCount`, `Protocol.DestructionLeavesNoLocalUse` and `Protocol.AddRefThenRelease` |
| `Protocol.ReleaseOutcome` | source/d3d12/d3d12_command_list.cpp:142-159 | Release lowers both counts by one; the proxy survives iff both are nonzero, and Release then returns the wrapped count; otherwise the proxy is destroyed, Release returns 0, and a warning is logged iff the wrapped count is nonzero |
| `Protocol.ReleaseCount` | source/d3d12/d3d12_command_list.cpp:146-158 | Release returns 0 exactly when it destroys the proxy, and otherwise the wrapped object's count after the decrement |
| `Protocol.DestructionLeavesNoLocalUse` | source/d3d12/d3d12_command_list.cpp:146-153 | `Protocol.DestructionAssertHolds` holds exactly when a destroying Release leaves the local count at 0 or below, that is, for exactly the Release calls that pass `assert(_ref <= 0)` |
| `Protocol.AddRefThenRelease` | source/d3d12/d3d12_command_list.cpp:136-159 | AddRef then Release restores both counts and the version, and destroys the proxy (with a warning) exactly when the local count was 0 |
| `Protocol.AfterForward` | source/d3d12/d3d12_command_list.cpp:161-491 | the transition of a pass-through operation, defined only at or above the version that introduced the operation; its effect is stated by `Protocol.ForwardOnlyRecords` |
| `Protocol.ForwardOnlyRecords` | source/d3d12/d3d12_command_list.cpp:200-203 | a pass-through operation changes nothing but the wrapped object's call log |
| `Traces.RunLevelMonotone` | source/d3d12/d3d12_command_list.cpp:89-102 | over any sequence of calls the version never decreases and never exceeds what the wrapped object implements |
| `Traces.RunReachesOnlyRequestedLevels` | source/d3d12/d3d12_command_list.cpp:89-102 | every version a proxy reaches over a sequence of calls is either its starting version or one a caller asked QueryInterface for, with a non-null out-pointer |
| `Traces.RunDestroysAtMostOnce` | source/d3d12/d3d12_command_list.cpp:142-159 | over any sequence of calls a destroyed proxy stays destroyed; exactly one call destroyed it; at most one warning is logged |
| `Traces.RunThroughProxyKeepsDrift` | source/d3d12/d3d12_command_list.cpp:136-151 | when every call goes through the proxy, the wrapped and local counts move in step; if they start equal, no warning is ever logged |
| `Traces.ForwardBelowLevelIsFatal` | source/d3d12/d3d12_command_list.cpp:430-434 | a pass-through operation called below the version that introduced it stops the run; it is never a silent no-op |
| `Wrapped.Native.QueryInterface` | source/d3d12/d3d12_command_list.cpp:94 | the wrapped object's QueryInterface, as the proxy relies on it: success (+1 on its count, an interface pointer written) exactly for the identities it implements |
| `Wrapped.Native.AddRef` | source/d3d12/d3d12_command_list.cpp:140 | the wrapped object's AddRef returns its count after the increment |
| `Wrapped.Native.Release` | source/d3d12/d3d12_command_list.cpp:146 | the wrapped object's Release returns its count after the decrement |
| `Wrapped.Native.Execute` | source/d3d12/d3d12_command_list.cpp:395-396 | a forwarded operation needs an interface pointer of a version that has it, and only records the call |
| `CommandList.D3D12CommandList.constructor` | source/d3d12/d3d12_command_list.cpp:12-76 | the proxy starts at the version of the (non-null) pointer it is given, holding that pointer as `orig` |
| `CommandList.D3D12CommandList.CheckAndUpgradeInterface` | source/d3d12/d3d12_command_list.cpp:78-107 | the table scan from version + 1 upward produces exactly the transition `Protocol.Upgrade`; on an upgrade the held reference becomes the one the wrapped object returned |
| `CommandList.D3D12CommandList.QueryInterface` | source/d3d12/d3d12_command_list.cpp:109-135 | result, new state and out-pointer contents are exactly those of `Protocol.Query`; the out-pointer is left alone when nothing is written |
| `CommandList.D3D12CommandList.AddRef` | source/d3d12/d3d12_command_list.cpp:136-141 | the new state is `Protocol.AfterAddRef` of the old one, and the result is the wrapped object's count after the increment |
| `CommandList.D3D12CommandList.Release` | source/d3d12/d3d12_command_list.cpp:142-159 | the new state is `Protocol.AfterRelease` of the old one, the result is `Protocol.ReleaseCount`, and the proxy stays usable unless destroyed |
| `CommandList.D3D12CommandList.DrawInstanced` | source/d3d12/d3d12_command_list.cpp:200-203 | a version-0 operation: no version precondition; the call is forwarded unchanged |
| `CommandList.D3D12CommandList.SetViewInstanceMask` | source/d3d12/d3d12_command_list.cpp:418-422 | a version-1 operation: requires version >= 1; forwarded unchanged |
| `CommandList.D3D12CommandList.WriteBufferImmediate` | source/d3d12/d3d12_command_list.cpp:424-428 | a version-2 operation: requires version >= 2; forwarded unchanged |
| `CommandList.D3D12CommandList.SetProtectedResourceSession` | source/d3d12/d3d12_command_list.cpp:430-434 | a version-3 operation: requires version >= 3; forwarded unchanged |
| `CommandList.D3D12CommandList.EndRenderPass` | source/d3d12/d3d12_command_list.cpp:441-445 | a version-4 operation: requires version >= 4; forwarded unchanged |
| `CommandList.D3D12CommandList.RSSetShadingRateImage` | source/d3d12/d3d12_command_list.cpp:487-491 | a version-5 operation: requires version >= 5; forwarded unchanged |

## Left out

- The other pass-through operations (draw, copy, barrier, root-signature, query, raytracing and the rest) are left out. They are one-line forwards with nothing to decide. Each version is represented by one operation, which carries that version's precondition.
- `GetDevice` is left out. It forwards to the device object, and the device is not part of this model.
- `OMSetDepthBounds`, `ClearRenderTargetView`, `ClearDepthStencilView` and `ClearUnorderedAccessViewFloat` are left out, because their floating-point arguments are opaque payloads. The arguments of the representative operations are plain naturals, passed on unchanged.
- The constructor fields `_device`, `_nodeMask`, `_type`, `_commandAllocator` and `_initialState` are left out. They are stored but never read by the core.
- The six overloaded constructors become one constructor. It takes an interface pointer whose identifier fixes the version, because that identifier plays the role of the static pointer type. The `original != nullptr` assertion is enforced by the non-null type of the pointer.
- The initial value of `_ref` is a constructor parameter, because its declaration is not part of this model.
- Warning and trace text are left out, including `RESHADE_VERBOSE_LOG`. The warning is recorded only as a ghost counter.
- COM ABI details are left out: pointer casts, `__uuidof`, and HRESULT values other than S_OK, E_POINTER and E_NOINTERFACE. The wrapped object's QueryInterface answers only S_OK or E_NOINTERFACE.
- Thread safety is left out: the model is single-threaded, and so is the proxy, which takes no locks.
- CommandList.D3D12CommandList.AddRef: the 32-bit wrap-around of `ULONG` and `LONG` counts is not modelled, because both counts are unbounded integers. The same holds for Release.
- CommandList.D3D12CommandList.Release: `assert(_ref <= 0)` is a precondition. So the model does not cover a build where the assertion is compiled out and the proxy is destroyed anyway.
- The wrapped object's behaviour after its count reaches 0 is left out. Every call on it requires a positive count, because a freed object cannot be called.
- Freeing the proxy's storage is recorded as a ghost `destroyed` flag. No call is allowed on a destroyed proxy.
