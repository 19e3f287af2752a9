/** The wrapped Direct3D 12 command list: an opaque, reference-counted object
    that owns the authoritative count, answers identity queries up to the
    highest interface version it implements, and executes forwarded calls. */
module Wrapped {
  import opened Com

  /** An interface pointer: the object it points into and the interface it
      was obtained for. */
  datatype Iface = Iface(obj: Native, iid: Iid)

  /** What a `void **` out-parameter holds. */
  datatype Ptr = Null | ToProxy(proxy: object) | ToInterface(iface: Iface)

  /** The storage an out-pointer points at. */
  class OutSlot {
    var value: Ptr

    constructor ()
      ensures value == Null
    {
      value := Null;
    }
  }

  class Native {
    /** The object's own reference count; the object is freed when it is 0. */
    var refCount: nat
    const maxLevel: Level
    const others: set<nat>
    /** Every call the object has received, oldest first. */
    ghost var calls: seq<NativeCall>

    constructor (count: nat, maxLevel: Level, others: set<nat>)
      ensures refCount == count && this.maxLevel == maxLevel && this.others == others
      ensures calls == []
    {
      refCount := count;
      this.maxLevel := maxLevel;
      this.others := others;
      calls := [];
    }

    function Capabilities(): Config
    {
      Config(maxLevel, others)
    }

    /** COM QueryInterface: on success hands out a new counted reference. */
    method QueryInterface(riid: Iid, ppvObj: OutSlot) returns (hr: HResult)
      requires refCount > 0
      modifies this, ppvObj
      ensures calls == old(calls) + [QueryInterfaceCall(riid)]
      ensures Supports(Capabilities(), riid) ==>
                hr == S_OK && refCount == old(refCount) + 1 &&
                ppvObj.value == ToInterface(Iface(this, riid))
      ensures !Supports(Capabilities(), riid) ==>
                hr == E_NOINTERFACE && refCount == old(refCount) && ppvObj.value == Null
    {
      calls := calls + [QueryInterfaceCall(riid)];
      if Supports(Capabilities(), riid) {
        refCount := refCount + 1;
        ppvObj.value := ToInterface(Iface(this, riid));
        hr := S_OK;
      } else {
        ppvObj.value := Null;
        hr := E_NOINTERFACE;
      }
    }

    /** COM AddRef: returns the count after the increment. */
    method AddRef() returns (count: nat)
      requires refCount > 0
      modifies this
      ensures refCount == old(refCount) + 1 && count == refCount
      ensures calls == old(calls) + [AddRefCall]
    {
      refCount := refCount + 1;
      calls := calls + [AddRefCall];
      count := refCount;
    }

    /** COM Release: returns the count after the decrement. */
    method Release() returns (count: nat)
      requires refCount > 0
      modifies this
      ensures refCount == old(refCount) - 1 && count == refCount
      ensures calls == old(calls) + [ReleaseCall]
    {
      refCount := refCount - 1;
      calls := calls + [ReleaseCall];
      count := refCount;
    }

    /** A pass-through operation, called through the interface pointer `via`,
        which must be of a version that has the operation. */
    method Execute(via: Iface, op: Op)
      requires refCount > 0
      requires via.obj == this && Supports(Capabilities(), via.iid)
      requires via.iid.ID3D12GraphicsCommandList? && OpLevel(op) <= via.iid.version
      modifies this
      ensures refCount == old(refCount)
      ensures calls == old(calls) + [Forwarded(op)]
    {
      calls := calls + [Forwarded(op)];
    }
  }
}
