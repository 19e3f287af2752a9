/** The D3D12CommandList proxy: it holds one reference `orig` to the wrapped
    command list at interface version `interfaceVersion`, keeps its own use
    count `localRef`, upgrades itself on demand and forwards every other call
    to `orig`. Each method's new state is the matching transition of module
    Protocol applied to the old state. */
module CommandList {
  import opened Com
  import opened Wrapped
  import opened Protocol

  class D3D12CommandList {
    var orig: Iface
    var interfaceVersion: Level
    var localRef: int
    /** Set once `delete this` has run. */
    ghost var destroyed: bool
    /** Inconsistency warnings logged so far. */
    ghost var warnings: nat

    /** `orig` is an interface pointer of exactly the version the proxy
        presents, and the wrapped object implements that version. */
    ghost predicate Valid()
      reads this
    {
      orig.iid == ID3D12GraphicsCommandList(interfaceVersion) &&
      interfaceVersion <= orig.obj.maxLevel
    }

    /** The proxy exists and so does the object it wraps. */
    ghost predicate Live()
      reads this, orig.obj
    {
      Valid() && !destroyed && orig.obj.refCount > 0
    }

    ghost function Snapshot(): State
      reads this, orig.obj
    {
      State(interfaceVersion, localRef, orig.obj.refCount, destroyed, warnings, orig.obj.calls)
    }

    /** The six constructors, one per static pointer type: the proxy starts
        at the version of the pointer it is given. */
    constructor (original: Iface, initialRef: int)
      requires original.iid.ID3D12GraphicsCommandList?
      requires original.iid.version <= original.obj.maxLevel
      ensures orig == original && interfaceVersion == original.iid.version
      ensures localRef == initialRef && !destroyed && warnings == 0
      ensures Valid()
    {
      orig := original;
      interfaceVersion := original.iid.version;
      localRef := initialRef;
      destroyed := false;
      warnings := 0;
    }

    /** Scans the lookup table above the current version for `riid`; on a
        match, asks the wrapped object for that interface and, when it
        agrees, swaps the held reference and jumps to the matched version. */
    method CheckAndUpgradeInterface(riid: Iid) returns (ok: bool)
      requires Live()
      modifies this, orig.obj
      ensures orig.obj == old(orig.obj) && Live()
      ensures var u := Upgrade(old(Snapshot()), orig.obj.Capabilities(), riid);
              ok == u.ok && Snapshot() == u.state
      ensures orig == if interfaceVersion == old(interfaceVersion) then old(orig)
                      else Iface(old(orig.obj), riid)
    {
      var newVersion: nat := interfaceVersion + 1;
      while newVersion < |IidTable|
        invariant interfaceVersion < newVersion <= |IidTable|
        invariant forall k :: interfaceVersion < k < newVersion ==> IidTable[k] != riid
        invariant orig == old(orig) && Snapshot() == old(Snapshot())
        decreases |IidTable| - newVersion
      {
        if riid == IidTable[newVersion] {
          var newInterface := new OutSlot();
          var hr := orig.obj.QueryInterface(riid, newInterface);
          if hr != S_OK {
            return false;
          }
          var _ := orig.obj.Release();
          orig := newInterface.value.iface;
          interfaceVersion := newVersion;
          break;
        }
        newVersion := newVersion + 1;
      }
      return true;
    }

    method QueryInterface(riid: Iid, ppvObj: OutSlot?) returns (hr: HResult)
      requires Live()
      modifies this, orig.obj, ppvObj
      ensures orig.obj == old(orig.obj) && Live()
      ensures var q := Query(old(Snapshot()), orig.obj.Capabilities(), riid, ppvObj == null);
              hr == q.hr && Snapshot() == q.state &&
              (q.written == WroteProxy ==> ppvObj != null && ppvObj.value == ToProxy(this)) &&
              (q.written == WroteNull ==> ppvObj != null && ppvObj.value == Null) &&
              (q.written.WroteInterface? ==>
                 ppvObj != null && ppvObj.value == ToInterface(Iface(orig.obj, q.written.iid)))
      ensures Query(old(Snapshot()), orig.obj.Capabilities(), riid, ppvObj == null).written == Unwritten ==>
                ppvObj == null || ppvObj.value == old(ppvObj.value)
      ensures orig == if interfaceVersion == old(interfaceVersion) then old(orig)
                      else Iface(old(orig.obj), riid)
    {
      if ppvObj == null {
        return E_POINTER;
      }
      if IsOwnIdentity(riid) {
        var ok := CheckAndUpgradeInterface(riid);
        if !ok {
          return E_NOINTERFACE;
        }
        var _ := AddRef();
        ppvObj.value := ToProxy(this);
        return S_OK;
      }
      hr := orig.obj.QueryInterface(riid, ppvObj);
    }

    /** Returns the wrapped object's count, not the local one. */
    method AddRef() returns (count: nat)
      requires Live()
      modifies this, orig.obj
      ensures orig == old(orig) && Live()
      ensures Snapshot() == AfterAddRef(old(Snapshot()))
      ensures count == orig.obj.refCount
    {
      localRef := localRef + 1;
      count := orig.obj.AddRef();
    }

    method Release() returns (count: nat)
      requires Live() && DestructionAssertHolds(Snapshot())
      modifies this, orig.obj
      ensures orig == old(orig) && Valid()
      ensures Snapshot() == AfterRelease(old(Snapshot()))
      ensures count == ReleaseCount(old(Snapshot()))
      ensures !destroyed ==> Live()
    {
      localRef := localRef - 1;
      var r := orig.obj.Release();
      if r != 0 && localRef != 0 {
        return r;
      } else if r != 0 {
        warnings := warnings + 1;
      }
      assert localRef <= 0;
      destroyed := true;
      return 0;
    }

    // One pass-through operation per interface version.

    method DrawInstanced(vertexCountPerInstance: nat, instanceCount: nat,
                         startVertexLocation: nat, startInstanceLocation: nat)
      requires Live()
      modifies orig.obj
      ensures Snapshot() == AfterForward(old(Snapshot()),
                Op.DrawInstanced(vertexCountPerInstance, instanceCount,
                                 startVertexLocation, startInstanceLocation))
    {
      orig.obj.Execute(orig, Op.DrawInstanced(vertexCountPerInstance, instanceCount,
                                              startVertexLocation, startInstanceLocation));
    }

    method SetViewInstanceMask(mask: nat)
      requires Live() && interfaceVersion >= 1
      modifies orig.obj
      ensures Snapshot() == AfterForward(old(Snapshot()), Op.SetViewInstanceMask(mask))
    {
      orig.obj.Execute(orig, Op.SetViewInstanceMask(mask));
    }

    method WriteBufferImmediate(count: nat)
      requires Live() && interfaceVersion >= 2
      modifies orig.obj
      ensures Snapshot() == AfterForward(old(Snapshot()), Op.WriteBufferImmediate(count))
    {
      orig.obj.Execute(orig, Op.WriteBufferImmediate(count));
    }

    method SetProtectedResourceSession(session: nat)
      requires Live() && interfaceVersion >= 3
      modifies orig.obj
      ensures Snapshot() == AfterForward(old(Snapshot()), Op.SetProtectedResourceSession(session))
    {
      orig.obj.Execute(orig, Op.SetProtectedResourceSession(session));
    }

    method EndRenderPass()
      requires Live() && interfaceVersion >= 4
      modifies orig.obj
      ensures Snapshot() == AfterForward(old(Snapshot()), Op.EndRenderPass)
    {
      orig.obj.Execute(orig, Op.EndRenderPass);
    }

    method RSSetShadingRateImage(shadingRateImage: nat)
      requires Live() && interfaceVersion >= 5
      modifies orig.obj
      ensures Snapshot() == AfterForward(old(Snapshot()), Op.RSSetShadingRateImage(shadingRateImage))
    {
      orig.obj.Execute(orig, Op.RSSetShadingRateImage(shadingRateImage));
    }
  }
}
