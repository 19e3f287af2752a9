/** The proxy protocol as transitions on an abstract state: what one call of
    check_and_upgrade_interface, QueryInterface, AddRef, Release or a
    pass-through operation does to the interface version, the two counts, the
    destroyed flag, the warning count and the wrapped object's call log. */
module Protocol {
  import opened Com

  /** `level` is `_interface_version`, `local` is `_ref`, `wrapped` is the
      wrapped object's reference count, `calls` the wrapped object's calls. */
  datatype State = State(level: Level, local: int, wrapped: nat, destroyed: bool,
                         warnings: nat, calls: seq<NativeCall>)

  /** The proxy still exists and the object it wraps is still alive. */
  predicate Usable(s: State)
  {
    !s.destroyed && s.wrapped > 0
  }

  // What the wrapped object's own methods do to the state.

  function AfterNativeQuery(s: State, cfg: Config, riid: Iid): State
  {
    s.(wrapped := if Supports(cfg, riid) then s.wrapped + 1 else s.wrapped,
       calls := s.calls + [QueryInterfaceCall(riid)])
  }

  function AfterNativeAddRef(s: State): State
  {
    s.(wrapped := s.wrapped + 1, calls := s.calls + [AddRefCall])
  }

  function AfterNativeRelease(s: State): State
    requires s.wrapped > 0
  {
    s.(wrapped := s.wrapped - 1, calls := s.calls + [ReleaseCall])
  }

  // check_and_upgrade_interface

  datatype UpgradeResult = UpgradeResult(ok: bool, state: State)

  function Upgrade(s: State, cfg: Config, riid: Iid): UpgradeResult
  {
    match UpgradeTarget(s.level, riid)
    case None => UpgradeResult(true, s)
    case Some(k) =>
      var queried := AfterNativeQuery(s, cfg, riid);
      if Supports(cfg, riid)
      then UpgradeResult(true, AfterNativeRelease(queried).(level := k))
      else UpgradeResult(false, queried)
  }

  // AddRef and Release

  function AfterAddRef(s: State): State
  {
    AfterNativeAddRef(s.(local := s.local + 1))
  }

  /** The debug assertion `_ref <= 0` that Release makes before destroying
      the proxy: it is reached with both counts decremented, and it can fail
      only when the wrapped count reaches 0 first. */
  predicate DestructionAssertHolds(s: State)
  {
    s.wrapped == 1 ==> s.local - 1 <= 0
  }

  function AfterRelease(s: State): State
    requires s.wrapped > 0
  {
    var t := AfterNativeRelease(s.(local := s.local - 1));
    if t.wrapped != 0 && t.local != 0 then t
    else t.(destroyed := true,
            warnings := if t.wrapped != 0 then t.warnings + 1 else t.warnings)
  }

  /** The value Release returns: 0 exactly when the proxy is destroyed,
      otherwise the wrapped object's count after the decrement. */
  function ReleaseCount(s: State): (r: nat)
    requires s.wrapped > 0
    ensures r == 0 <==> AfterRelease(s).destroyed
    ensures r != 0 ==> r == s.wrapped - 1
  {
    var t := AfterRelease(s);
    if t.destroyed then 0 else t.wrapped
  }

  // QueryInterface

  /** What QueryInterface stores through its out-pointer. */
  datatype Written = Unwritten | WroteProxy | WroteInterface(iid: Iid) | WroteNull

  datatype QueryResult = QueryResult(hr: HResult, state: State, written: Written)

  function Query(s: State, cfg: Config, riid: Iid, outNull: bool): QueryResult
  {
    if outNull then QueryResult(E_POINTER, s, Unwritten)
    else if IsOwnIdentity(riid) then
      var u := Upgrade(s, cfg, riid);
      if u.ok then QueryResult(S_OK, AfterAddRef(u.state), WroteProxy)
      else QueryResult(E_NOINTERFACE, u.state, Unwritten)
    else if Supports(cfg, riid) then
      QueryResult(S_OK, AfterNativeQuery(s, cfg, riid), WroteInterface(riid))
    else
      QueryResult(E_NOINTERFACE, AfterNativeQuery(s, cfg, riid), WroteNull)
  }

  // Pass-through operations

  function AfterForward(s: State, op: Op): State
    requires OpLevel(op) <= s.level
  {
    s.(calls := s.calls + [Forwarded(op)])
  }

  // Properties of one call

  /** An identity at or below the current version, a generic identity or an
      unknown one never starts an upgrade: the check succeeds and changes
      nothing. */
  lemma UpgradeOnlyAbove(s: State, cfg: Config, riid: Iid)
    requires !(riid.ID3D12GraphicsCommandList? && s.level < riid.version)
    ensures Upgrade(s, cfg, riid) == UpgradeResult(true, s)
  {
  }

  /** A successful upgrade jumps straight to the requested version, swaps the
      held reference (one QueryInterface, then one Release of the old one) and
      leaves both counts as they were. */
  lemma UpgradeJumpsToRequested(s: State, cfg: Config, k: Level)
    requires s.level < k <= cfg.maxLevel
    ensures var u := Upgrade(s, cfg, ID3D12GraphicsCommandList(k));
            u.ok && u.state.level == k &&
            u.state.wrapped == s.wrapped && u.state.local == s.local &&
            u.state.destroyed == s.destroyed && u.state.warnings == s.warnings &&
            u.state.calls == s.calls + [QueryInterfaceCall(ID3D12GraphicsCommandList(k)), ReleaseCall]
  {
  }

  /** When the wrapped object refuses the higher version, the check fails and
      only the refused query is recorded; QueryInterface then answers
      E_NOINTERFACE without writing the out-pointer and without an AddRef. */
  lemma UpgradeRefused(s: State, cfg: Config, k: Level)
    requires s.level < k && cfg.maxLevel < k
    ensures var riid := ID3D12GraphicsCommandList(k);
            Upgrade(s, cfg, riid) ==
              UpgradeResult(false, s.(calls := s.calls + [QueryInterfaceCall(riid)])) &&
            Query(s, cfg, riid, false) ==
              QueryResult(E_NOINTERFACE, s.(calls := s.calls + [QueryInterfaceCall(riid)]), Unwritten)
  {
  }

  /** The version never goes down, and it never exceeds what the wrapped
      object supports unless it started above it. */
  lemma UpgradeMonotone(s: State, cfg: Config, riid: Iid)
    ensures var t := Upgrade(s, cfg, riid).state;
            s.level <= t.level &&
            (t.level == s.level || (riid.ID3D12GraphicsCommandList? && t.level == riid.version)) &&
            (s.level <= cfg.maxLevel ==> t.level <= cfg.maxLevel)
  {
  }

  /** A null out-pointer is refused before anything else happens. */
  lemma QueryNullOutPointer(s: State, cfg: Config, riid: Iid)
    ensures Query(s, cfg, riid, true) == QueryResult(E_POINTER, s, Unwritten)
  {
  }

  /** A query for one of the proxy's own identities runs the upgrade check
      first. When the check succeeds, the query makes exactly one AddRef on
      the upgraded state (both counts go up by one) and hands out the proxy
      itself; when it fails, the query ends in the check's state. */
  lemma QueryOwnIdentity(s: State, cfg: Config, riid: Iid)
    requires IsOwnIdentity(riid)
    ensures var q := Query(s, cfg, riid, false);
            var u := Upgrade(s, cfg, riid);
            (q.hr == S_OK <==> u.ok) &&
            (q.hr == S_OK ==>
               q.written == WroteProxy && q.state == AfterAddRef(u.state) &&
               q.state.local == s.local + 1 && q.state.wrapped == s.wrapped + 1) &&
            (q.hr != S_OK ==> q.hr == E_NOINTERFACE && q.written == Unwritten &&
                              q.state == u.state)
  {
  }

  /** A query for a higher version that the wrapped object implements is
      granted and leaves the proxy at exactly that version, having made one
      QueryInterface, one Release of the old reference and one AddRef. */
  lemma QueryUpgradesToRequested(s: State, cfg: Config, k: Level)
    requires s.level < k <= cfg.maxLevel
    ensures var riid := ID3D12GraphicsCommandList(k);
            var q := Query(s, cfg, riid, false);
            q.hr == S_OK && q.written == WroteProxy &&
            q.state == s.(level := k, local := s.local + 1, wrapped := s.wrapped + 1,
                          calls := s.calls + [QueryInterfaceCall(riid), ReleaseCall, AddRefCall])
  {
  }

  /** Asking again for an identity that has just been granted does not query
      the wrapped object again: the only call it makes is the AddRef. */
  lemma QueryAgainNoRequery(s: State, cfg: Config, riid: Iid)
    requires IsOwnIdentity(riid) && Query(s, cfg, riid, false).hr == S_OK
    ensures var t := Query(s, cfg, riid, false).state;
            Query(t, cfg, riid, false) == QueryResult(S_OK, AfterAddRef(t), WroteProxy)
  {
  }

  /** Any identity the proxy does not represent is answered by the wrapped
      object alone; the proxy's version and local count are untouched. */
  lemma QueryForwarded(s: State, cfg: Config, riid: Iid)
    requires !IsOwnIdentity(riid)
    ensures var q := Query(s, cfg, riid, false);
            q.state == AfterNativeQuery(s, cfg, riid) &&
            q.state.level == s.level && q.state.local == s.local &&
            q.hr == (if Supports(cfg, riid) then S_OK else E_NOINTERFACE) &&
            q.written == (if Supports(cfg, riid) then WroteInterface(riid) else WroteNull)
  {
  }

  /** AddRef moves both counts up by one, records one AddRef on the wrapped
      object and changes nothing else. */
  lemma AddRefMovesBothCounts(s: State)
    ensures AfterAddRef(s) ==
            s.(local := s.local + 1, wrapped := s.wrapped + 1, calls := s.calls + [AddRefCall])
  {
  }

  /** Release moves both counts down by one; the proxy survives exactly when
      neither count reached 0, and then Release returns the wrapped count.
      Otherwise the proxy is destroyed, Release returns 0, and a warning is
      logged exactly when the wrapped count is still nonzero. */
  lemma ReleaseOutcome(s: State)
    requires Usable(s)
    ensures var t := AfterRelease(s);
            t.local == s.local - 1 && t.wrapped == s.wrapped - 1 &&
            t.level == s.level && t.calls == s.calls + [ReleaseCall] &&
            (!t.destroyed <==> t.wrapped != 0 && t.local != 0) &&
            ReleaseCount(s) == (if t.destroyed then 0 else t.wrapped) &&
            t.warnings == s.warnings + (if t.destroyed && t.wrapped != 0 then 1 else 0)
  {
  }

  /** The debug assertion holds exactly for the Release calls after which a
      destroyed proxy has no local use left. */
  lemma DestructionLeavesNoLocalUse(s: State)
    requires Usable(s)
    ensures DestructionAssertHolds(s) <==>
            (AfterRelease(s).destroyed ==> AfterRelease(s).local <= 0)
  {
  }

  /** AddRef followed by Release leaves both counts as they were; the pair
      destroys the proxy exactly when the local count was 0 to begin with,
      and then a warning is logged. */
  lemma AddRefThenRelease(s: State)
    requires Usable(s)
    ensures DestructionAssertHolds(AfterAddRef(s))
    ensures var t := AfterRelease(AfterAddRef(s));
            t.wrapped == s.wrapped && t.local == s.local && t.level == s.level &&
            (t.destroyed <==> s.local == 0) &&
            t.warnings == s.warnings + (if s.local == 0 then 1 else 0)
  {
  }

  /** A pass-through operation changes nothing but the wrapped object's call
      log, and needs the version that introduced it. */
  lemma ForwardOnlyRecords(s: State, op: Op)
    requires OpLevel(op) <= s.level
    ensures var t := AfterForward(s, op);
            t.(calls := s.calls) == s && t.calls == s.calls + [Forwarded(op)]
  {
  }
}
