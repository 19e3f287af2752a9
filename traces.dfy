/** Sequences of calls on one proxy and on the object it wraps, and the
    properties that hold over a whole lifetime: the interface version only
    goes up, the proxy is destroyed at most once and warns at most once, and
    when every reference goes through the proxy its two counts never drift
    apart. */
module Traces {
  import opened Com
  import opened Protocol

  /** A call on the proxy, or a call on the wrapped object made directly by
      another holder that bypasses the proxy. */
  datatype Event =
    | ProxyAddRef
    | ProxyRelease
    | ProxyQuery(riid: Iid, outNull: bool)
    | ProxyForward(op: Op)
    | DirectAddRef
    | DirectRelease

  /** The state after one event, or None when the event is not allowed: a
      call on a destroyed proxy or on a freed object, a Release that fails the
      debug assertion, or a pass-through operation below its version. */
  function Step(s: State, cfg: Config, ev: Event): Option<State>
  {
    match ev
    case ProxyAddRef =>
      if Usable(s) then Some(AfterAddRef(s)) else None
    case ProxyRelease =>
      if Usable(s) && DestructionAssertHolds(s) then Some(AfterRelease(s)) else None
    case ProxyQuery(riid, outNull) =>
      if Usable(s) then Some(Query(s, cfg, riid, outNull).state) else None
    case ProxyForward(op) =>
      if Usable(s) && OpLevel(op) <= s.level then Some(AfterForward(s, op)) else None
    case DirectAddRef =>
      if s.wrapped > 0 then Some(AfterNativeAddRef(s)) else None
    case DirectRelease =>
      if s.wrapped > 0 then Some(AfterNativeRelease(s)) else None
  }

  function Run(s: State, cfg: Config, evs: seq<Event>): Option<State>
    decreases |evs|
  {
    if evs == [] then Some(s)
    else match Step(s, cfg, evs[0])
      case None => None
      case Some(t) => Run(t, cfg, evs[1..])
  }

  /** How many events of a run destroy the proxy. */
  function Destructions(s: State, cfg: Config, evs: seq<Event>): nat
    decreases |evs|
  {
    if evs == [] then 0
    else match Step(s, cfg, evs[0])
      case None => 0
      case Some(t) => (if !s.destroyed && t.destroyed then 1 else 0) + Destructions(t, cfg, evs[1..])
  }

  /** An event that reaches the wrapped object only through the proxy and
      hands out no reference to anything but the proxy. */
  predicate ThroughProxy(ev: Event)
  {
    match ev
    case ProxyAddRef => true
    case ProxyRelease => true
    case ProxyQuery(riid, _) => IsOwnIdentity(riid)
    case ProxyForward(_) => true
    case DirectAddRef => false
    case DirectRelease => false
  }

  /** One allowed event never lowers the version, never destroys twice and
      logs at most the one warning of the event that destroys the proxy. */
  lemma StepBounds(s: State, cfg: Config, ev: Event)
    requires Step(s, cfg, ev).Some?
    ensures var t := Step(s, cfg, ev).value;
            s.level <= t.level &&
            (s.level <= cfg.maxLevel ==> t.level <= cfg.maxLevel) &&
            (s.destroyed ==> t.destroyed && t.warnings == s.warnings) &&
            s.warnings <= t.warnings <= s.warnings + (if !s.destroyed && t.destroyed then 1 else 0)
  {
  }

  /** Only a non-null identity query for a version can move the version. */
  lemma StepChangesLevelOnlyByQuery(s: State, cfg: Config, ev: Event)
    requires Step(s, cfg, ev).Some?
    ensures var t := Step(s, cfg, ev).value;
            t.level == s.level || ev == ProxyQuery(ID3D12GraphicsCommandList(t.level), false)
  {
  }

  /** Over any run the interface version never decreases, and it stays within
      what the wrapped object supports. */
  lemma {:induction false} RunLevelMonotone(s: State, cfg: Config, evs: seq<Event>)
    requires Run(s, cfg, evs).Some?
    ensures s.level <= Run(s, cfg, evs).value.level
    ensures s.level <= cfg.maxLevel ==> Run(s, cfg, evs).value.level <= cfg.maxLevel
    decreases |evs|
  {
    if evs != [] {
      var t := Step(s, cfg, evs[0]).value;
      StepBounds(s, cfg, evs[0]);
      RunLevelMonotone(t, cfg, evs[1..]);
    }
  }

  /** A proxy is destroyed at most once: a destroyed proxy stays destroyed,
      exactly one event destroyed it if the run ends with it destroyed, and at
      most that event logged a warning. */
  lemma {:induction false} RunDestroysAtMostOnce(s: State, cfg: Config, evs: seq<Event>)
    requires Run(s, cfg, evs).Some?
    ensures var t := Run(s, cfg, evs).value;
            (s.destroyed ==> t.destroyed) &&
            Destructions(s, cfg, evs) == (if !s.destroyed && t.destroyed then 1 else 0) &&
            s.warnings <= t.warnings <= s.warnings + Destructions(s, cfg, evs)
    decreases |evs|
  {
    if evs != [] {
      var t := Step(s, cfg, evs[0]).value;
      StepBounds(s, cfg, evs[0]);
      RunDestroysAtMostOnce(t, cfg, evs[1..]);
    }
  }

  /** Every version a proxy reaches is one a caller asked QueryInterface
      for: nothing but an identity query moves the version. */
  lemma {:induction false} RunReachesOnlyRequestedLevels(s: State, cfg: Config, evs: seq<Event>)
    requires Run(s, cfg, evs).Some?
    ensures var t := Run(s, cfg, evs).value;
            t.level == s.level ||
            exists i :: 0 <= i < |evs| && evs[i] == ProxyQuery(ID3D12GraphicsCommandList(t.level), false)
    decreases |evs|
  {
    if evs != [] {
      var t := Step(s, cfg, evs[0]).value;
      StepChangesLevelOnlyByQuery(s, cfg, evs[0]);
      RunReachesOnlyRequestedLevels(t, cfg, evs[1..]);
      var u := Run(t, cfg, evs[1..]).value;
      if u.level != t.level {
        var i :| 0 <= i < |evs[1..]| && evs[1..][i] == ProxyQuery(ID3D12GraphicsCommandList(u.level), false);
        assert evs[i + 1] == evs[1..][i];
      }
    }
  }

  /** An event through the proxy moves both counts by the same amount. */
  lemma StepKeepsDrift(s: State, cfg: Config, ev: Event)
    requires ThroughProxy(ev) && Step(s, cfg, ev).Some?
    ensures var t := Step(s, cfg, ev).value;
            t.wrapped - t.local == s.wrapped - s.local &&
            (s.wrapped == s.local ==> t.warnings == s.warnings)
  {
  }

  /** When every call goes through the proxy, the wrapped count and the local
      count move in step; if they start equal, no inconsistency warning is
      ever logged. */
  lemma {:induction false} RunThroughProxyKeepsDrift(s: State, cfg: Config, evs: seq<Event>)
    requires forall i :: 0 <= i < |evs| ==> ThroughProxy(evs[i])
    requires Run(s, cfg, evs).Some?
    ensures var t := Run(s, cfg, evs).value;
            t.wrapped - t.local == s.wrapped - s.local &&
            (s.wrapped == s.local ==> t.warnings == s.warnings)
    decreases |evs|
  {
    if evs != [] {
      var t := Step(s, cfg, evs[0]).value;
      StepKeepsDrift(s, cfg, evs[0]);
      RunThroughProxyKeepsDrift(t, cfg, evs[1..]);
    }
  }

  /** Calling a pass-through operation below the version that introduced it
      is fatal: the run stops there, whatever follows. */
  lemma ForwardBelowLevelIsFatal(s: State, cfg: Config, op: Op, rest: seq<Event>)
    requires s.level < OpLevel(op)
    ensures Run(s, cfg, [ProxyForward(op)] + rest).None?
  {
  }
}
