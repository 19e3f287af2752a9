/** Clients that use only the contracts of D3D12CommandList and the wrapped
    object, on concrete lifetimes. */
module Scenarios {
  import opened Com
  import opened Wrapped
  import opened Protocol
  import opened CommandList

  /** A second holder keeps the wrapped object alive directly. The proxy
      starts with no local use, is acquired once, and the acquirer releases
      it: the local count reaches 0 while the wrapped count is 2, so the
      proxy is destroyed and the inconsistency warning is logged. */
  method BypassingHolder()
  {
    var native := new Native(1, 0, {});
    var proxy := new D3D12CommandList(Iface(native, ID3D12GraphicsCommandList(0)), 0);
    var count := proxy.AddRef();
    assert count == 2 && proxy.localRef == 1;
    count := native.AddRef();
    assert count == 3;
    count := proxy.Release();
    assert count == 0 && native.refCount == 2;
    assert proxy.destroyed && proxy.warnings == 1;
  }

  /** Every reference goes through the proxy: the last Release destroys it
      silently. */
  method ThroughProxyOnly()
  {
    var native := new Native(1, 2, {});
    var proxy := new D3D12CommandList(Iface(native, ID3D12GraphicsCommandList(2)), 1);
    var count := proxy.AddRef();
    count := proxy.Release();
    assert count == 1 && !proxy.destroyed;
    count := proxy.Release();
    assert count == 0 && native.refCount == 0;
    assert proxy.destroyed && proxy.warnings == 0;
  }

  /** An upgrade from version 1 straight to version 4, a refused request for
      version 5, and a repeated request for version 4 that does not query the
      wrapped object again; version-4 operations are then available. */
  method UpgradeOnDemand()
  {
    var native := new Native(1, 4, {7});
    var proxy := new D3D12CommandList(Iface(native, ID3D12GraphicsCommandList(1)), 1);
    var out := new OutSlot();

    var hr := proxy.QueryInterface(ID3D12GraphicsCommandList(4), out);
    assert hr == S_OK && out.value == ToProxy(proxy);
    assert proxy.interfaceVersion == 4 && proxy.orig == Iface(native, ID3D12GraphicsCommandList(4));
    assert native.refCount == 2 && proxy.localRef == 2;
    assert native.calls == [QueryInterfaceCall(ID3D12GraphicsCommandList(4)), ReleaseCall, AddRefCall];

    hr := proxy.QueryInterface(ID3D12GraphicsCommandList(5), out);
    assert hr == E_NOINTERFACE && proxy.interfaceVersion == 4;
    assert native.refCount == 2 && proxy.localRef == 2;

    var before := native.calls;
    hr := proxy.QueryInterface(ID3D12GraphicsCommandList(4), out);
    assert hr == S_OK && native.calls == before + [AddRefCall];

    hr := proxy.QueryInterface(ID3D12GraphicsCommandList(0), null);
    assert hr == E_POINTER;

    hr := proxy.QueryInterface(Other(7), out);
    assert hr == S_OK && out.value == ToInterface(Iface(native, Other(7)));
    assert proxy.localRef == 3 && native.refCount == 4;

    proxy.EndRenderPass();
    assert native.calls[|native.calls| - 1] == Forwarded(Op.EndRenderPass);
  }
}
