/** Rules that overlay the live configuration, expire and fail (guardcore/dynamicrules.go). */
module DynamicRules {
  import opened Texts

  /** The fields that a rule may change and a snapshot holds. */
  datatype Snapshot = Snapshot(
    blockedCountries: seq<string>,
    whitelistCountries: seq<string>,
    rateLimit: int,
    rateLimitWindow: int,
    endpointRateLimits: map<string, (int, int)>,
    blockCloudProviders: seq<string>,
    blockedUserAgents: seq<string>,
    enablePenetrationDetection: bool,
    enableIPBanning: bool,
    enableRateLimiting: bool,
    emergencyMode: bool,
    emergencyWhitelist: seq<string>,
    autoBanThreshold: int,
    autoBanDuration: int,
    enableRateLimitAutoBan: bool)

  datatype Rules = Rules(
    ruleId: string,
    version: int,
    expiresAt: Option<int>,
    blockedCountries: seq<string>,
    whitelistCountries: seq<string>,
    globalRateLimit: Option<int>,
    globalRateWindow: Option<int>,
    endpointRateLimits: map<string, (int, int)>,
    blockedCloudProviders: seq<string>,
    blockedUserAgents: seq<string>,
    enablePenetrationDetection: Option<bool>,
    enableIPBanning: Option<bool>,
    enableRateLimiting: Option<bool>,
    enableRateLimitAutoBan: Option<bool>,
    autoBanThreshold: Option<int>,
    autoBanDuration: Option<int>,
    emergencyMode: bool,
    emergencyWhitelist: seq<string>)

  /** What the application of a rule asks of its surroundings. */
  datatype Env = Env(
    upper: string -> string,
    knownProvider: string -> bool,
    compiles: string -> bool,
    resolvesCountries: bool)

  function Or<T>(override: Option<T>, live: T): T {
    if override.Some? then override.value else live
  }

  function Filter(keep: string -> bool, entries: seq<string>): seq<string> {
    if entries == [] then []
    else Filter(keep, entries[..|entries| - 1]) + if keep(entries[|entries| - 1]) then [entries[|entries| - 1]] else []
  }

  /** Country codes in upper case, each once, in the order first seen. */
  function NormalCountries(upper: string -> string, entries: seq<string>): seq<string> {
    if entries == [] then []
    else
      var before, code := NormalCountries(upper, entries[..|entries| - 1]), upper(entries[|entries| - 1]);
      if code in before then before else before + [code]
  }

  function Blocking(env: Env, r: Rules, f: Snapshot): Snapshot {
    f.(blockedCountries :=
         if env.resolvesCountries && r.blockedCountries != [] then NormalCountries(env.upper, r.blockedCountries)
         else f.blockedCountries,
       whitelistCountries :=
         if env.resolvesCountries && r.whitelistCountries != [] then NormalCountries(env.upper, r.whitelistCountries)
         else f.whitelistCountries,
       blockCloudProviders :=
         if r.blockedCloudProviders != [] then Filter(env.knownProvider, r.blockedCloudProviders)
         else f.blockCloudProviders,
       blockedUserAgents :=
         if r.blockedUserAgents != [] then Filter(env.compiles, r.blockedUserAgents) else f.blockedUserAgents)
  }

  lemma BlockingKeeps(env: Env, r: Rules, f: Snapshot)
    ensures var b := Blocking(env, r, f);
            b == f.(blockedCountries := b.blockedCountries, whitelistCountries := b.whitelistCountries,
                    blockCloudProviders := b.blockCloudProviders, blockedUserAgents := b.blockedUserAgents)
  {
    hide NormalCountries, Filter;
  }

  function Rates(r: Rules, f: Snapshot): Snapshot {
    var f1 := if r.globalRateLimit.Some? && r.globalRateLimit.value > 0
              then f.(rateLimit := r.globalRateLimit.value,
                      rateLimitWindow := if r.globalRateWindow.Some? && r.globalRateWindow.value > 0
                                         then r.globalRateWindow.value else f.rateLimitWindow)
              else f;
    if r.endpointRateLimits != map[] then f1.(endpointRateLimits := r.endpointRateLimits) else f1
  }

  function Toggles(r: Rules, f: Snapshot): Snapshot {
    f.(enablePenetrationDetection := Or(r.enablePenetrationDetection, f.enablePenetrationDetection),
       enableIPBanning := Or(r.enableIPBanning, f.enableIPBanning),
       enableRateLimiting := Or(r.enableRateLimiting, f.enableRateLimiting),
       enableRateLimitAutoBan := Or(r.enableRateLimitAutoBan, f.enableRateLimitAutoBan),
       autoBanThreshold := Or(r.autoBanThreshold, f.autoBanThreshold),
       autoBanDuration := Or(r.autoBanDuration, f.autoBanDuration))
  }

  function Emergency(r: Rules, f: Snapshot): Snapshot {
    if r.emergencyMode then
      f.(emergencyMode := true, emergencyWhitelist := r.emergencyWhitelist,
         autoBanThreshold := Max(1, f.autoBanThreshold / 2))
    else f
  }

  function Applied(env: Env, r: Rules, f: Snapshot): Snapshot {
    Emergency(r, Toggles(r, Rates(r, Blocking(env, r, f))))
  }

  // ---------------------------------------------------------------- the manager as a state machine

  datatype State = State(
    fields: Snapshot,
    revision: nat,
    current: Option<Rules>,
    base: Option<Snapshot>,
    skipped: Option<(string, int)>,
    warnings: nat,
    hydrated: bool)

  predicate Past(r: Rules, now: int) {
    r.expiresAt.Some? && now > r.expiresAt.value
  }

  predicate ValidDelivery(r: Rules) {
    && (r.autoBanThreshold.Some? ==> r.autoBanThreshold.value >= 1)
    && (r.autoBanDuration.Some? ==> r.autoBanDuration.value >= 1)
  }

  function Expire(s: State, now: int): State {
    if s.current.None? || !Past(s.current.value, now) then s
    else if s.base.Some? then s.(fields := s.base.value, revision := s.revision + 1, current := None, base := None)
    else s.(current := None, base := None)
  }

  predicate ShouldUpdate(s: State, r: Rules) {
    s.current.None? || !(r.ruleId == s.current.value.ruleId && r.version <= s.current.value.version)
  }

  /** One application; a panic part of the way restores every field. */
  function Apply(env: Env, s: State, r: Rules, panicked: bool): State {
    if panicked then s
    else
      s.(fields := Applied(env, r, s.fields), revision := s.revision + 1, current := Some(r),
         base := if s.current.None? && s.base.None? then Some(s.fields) else s.base)
  }

  function Deliver(env: Env, s: State, r: Rules, now: int, panicked: bool): State {
    if !ValidDelivery(r) then s
    else if Past(r, now) then
      if s.skipped == Some((r.ruleId, r.version)) then s
      else s.(skipped := Some((r.ruleId, r.version)), warnings := s.warnings + 1)
    else if !ShouldUpdate(s, r) then s
    else Apply(env, s, r, panicked)
  }

  function Hydrate(env: Env, s: State, stored: Option<Rules>, panicked: bool): State {
    if s.hydrated then s
    else
      var s1 := s.(hydrated := true);
      if stored.None? then s1 else Apply(env, s1, stored.value, panicked)
  }

  // ---------------------------------------------------------------- the objects

  class SecurityConfig {
    var blockedCountries: seq<string>
    var whitelistCountries: seq<string>
    var rateLimit: int
    var rateLimitWindow: int
    var endpointRateLimits: map<string, (int, int)>
    var blockCloudProviders: seq<string>
    var blockedUserAgents: seq<string>
    var enablePenetrationDetection: bool
    var enableIPBanning: bool
    var enableRateLimiting: bool
    var emergencyMode: bool
    var emergencyWhitelist: seq<string>
    var autoBanThreshold: int
    var autoBanDuration: int
    var enableRateLimitAutoBan: bool
    var revision: nat

    /** The fields as one value. */
    function Fields(): Snapshot
      reads this
    {
      Snapshot(
        blockedCountries, whitelistCountries, rateLimit, rateLimitWindow, endpointRateLimits, blockCloudProviders,
        blockedUserAgents, enablePenetrationDetection, enableIPBanning, enableRateLimiting, emergencyMode,
        emergencyWhitelist, autoBanThreshold, autoBanDuration, enableRateLimitAutoBan)
    }

    constructor (f: Snapshot)
      ensures Fields() == f && revision == 0
    {
      blockedCountries, whitelistCountries := f.blockedCountries, f.whitelistCountries;
      rateLimit, rateLimitWindow := f.rateLimit, f.rateLimitWindow;
      endpointRateLimits, blockCloudProviders := f.endpointRateLimits, f.blockCloudProviders;
      blockedUserAgents, enablePenetrationDetection := f.blockedUserAgents, f.enablePenetrationDetection;
      enableIPBanning, enableRateLimiting := f.enableIPBanning, f.enableRateLimiting;
      emergencyMode, emergencyWhitelist := f.emergencyMode, f.emergencyWhitelist;
      autoBanThreshold, autoBanDuration := f.autoBanThreshold, f.autoBanDuration;
      enableRateLimitAutoBan := f.enableRateLimitAutoBan;
      revision := 0;
    }

    method BumpRevision()
      modifies this`revision
      ensures revision == old(revision) + 1
    {
      revision := revision + 1;
    }

    method RestoreSnapshot(f: Snapshot)
      modifies this
      ensures Fields() == f && revision == old(revision)
    {
      RestoreLists(f);
      RestoreSettings(f);
    }

    method RestoreLists(f: Snapshot)
      modifies this`blockedCountries, this`whitelistCountries, this`endpointRateLimits,
        this`blockCloudProviders, this`blockedUserAgents, this`emergencyWhitelist
      ensures blockedCountries == f.blockedCountries
      ensures whitelistCountries == f.whitelistCountries
      ensures endpointRateLimits == f.endpointRateLimits
      ensures blockCloudProviders == f.blockCloudProviders
      ensures blockedUserAgents == f.blockedUserAgents
      ensures emergencyWhitelist == f.emergencyWhitelist
    {
      blockedCountries := f.blockedCountries;
      whitelistCountries := f.whitelistCountries;
      endpointRateLimits := f.endpointRateLimits;
      blockCloudProviders := f.blockCloudProviders;
      blockedUserAgents := f.blockedUserAgents;
      emergencyWhitelist := f.emergencyWhitelist;
    }

    method RestoreSettings(f: Snapshot)
      modifies this`rateLimit, this`rateLimitWindow, this`enablePenetrationDetection, this`enableIPBanning,
        this`enableRateLimiting, this`emergencyMode, this`autoBanThreshold, this`autoBanDuration,
        this`enableRateLimitAutoBan
      ensures rateLimit == f.rateLimit
      ensures rateLimitWindow == f.rateLimitWindow
      ensures enablePenetrationDetection == f.enablePenetrationDetection
      ensures enableIPBanning == f.enableIPBanning
      ensures enableRateLimiting == f.enableRateLimiting
      ensures emergencyMode == f.emergencyMode
      ensures autoBanThreshold == f.autoBanThreshold
      ensures autoBanDuration == f.autoBanDuration
      ensures enableRateLimitAutoBan == f.enableRateLimitAutoBan
    {
      rateLimit := f.rateLimit;
      rateLimitWindow := f.rateLimitWindow;
      enablePenetrationDetection := f.enablePenetrationDetection;
      enableIPBanning := f.enableIPBanning;
      enableRateLimiting := f.enableRateLimiting;
      emergencyMode := f.emergencyMode;
      autoBanThreshold := f.autoBanThreshold;
      autoBanDuration := f.autoBanDuration;
      enableRateLimitAutoBan := f.enableRateLimitAutoBan;
    }
  }

  method NormalizeCountryList(upper: string -> string, entries: seq<string>) returns (codes: seq<string>)
    ensures codes == NormalCountries(upper, entries)
  {
    codes := [];
    var seen: set<string> := {};
    assert entries[..0] == [];
    for i := 0 to |entries|
      invariant codes == NormalCountries(upper, entries[..i])
      invariant forall code :: code in seen <==> code in codes
    {
      assert entries[..i + 1][..i] == entries[..i];
      var code := upper(entries[i]);
      if code in seen {
        continue;
      }
      seen := seen + {code};
      codes := codes + [code];
    }
    assert entries[..|entries|] == entries;
  }

  method Keep(test: string -> bool, entries: seq<string>) returns (kept: seq<string>)
    ensures kept == Filter(test, entries)
  {
    kept := [];
    assert entries[..0] == [];
    for i := 0 to |entries|
      invariant kept == Filter(test, entries[..i])
    {
      assert entries[..i + 1][..i] == entries[..i];
      if test(entries[i]) {
        kept := kept + [entries[i]];
      }
    }
    assert entries[..|entries|] == entries;
  }

  class DynamicRuleManager {
    const cfg: SecurityConfig
    var currentRules: Option<Rules>
    var activeBase: Option<Snapshot>
    var lastSkipped: Option<(string, int)>
    var warnings: nat
    var hydrated: bool
    var applying: bool

    ghost function Abstract(): State
      reads this, cfg
    {
      State(cfg.Fields(), cfg.revision, currentRules, activeBase, lastSkipped, warnings, hydrated)
    }

    constructor (config: SecurityConfig)
      ensures cfg == config && !applying
      ensures Abstract() == State(config.Fields(), config.revision, None, None, None, 0, false)
    {
      cfg := config;
      currentRules, activeBase, lastSkipped := None, None, None;
      warnings, hydrated, applying := 0, false, false;
    }

    // The steps of an application.  `left` is the number of assignments that succeed before a
    // panic; the caller restores the fields.

    method ApplyBlockingRules(env: Env, r: Rules, left: nat) returns (panicked: bool, rest: nat)
      modifies cfg`blockedCountries, cfg`whitelistCountries, cfg`blockCloudProviders, cfg`blockedUserAgents
      ensures !panicked ==>
                && cfg.blockedCountries == Blocking(env, r, old(cfg.Fields())).blockedCountries
                && cfg.whitelistCountries == Blocking(env, r, old(cfg.Fields())).whitelistCountries
                && cfg.blockCloudProviders == Blocking(env, r, old(cfg.Fields())).blockCloudProviders
                && cfg.blockedUserAgents == Blocking(env, r, old(cfg.Fields())).blockedUserAgents
    {
      hide NormalCountries, Filter;
      rest := left;
      if env.resolvesCountries && |r.blockedCountries| > 0 {
        if rest == 0 { return true, 0; }
        cfg.blockedCountries := NormalizeCountryList(env.upper, r.blockedCountries);
        rest := rest - 1;
      }
      if env.resolvesCountries && |r.whitelistCountries| > 0 {
        if rest == 0 { return true, 0; }
        cfg.whitelistCountries := NormalizeCountryList(env.upper, r.whitelistCountries);
        rest := rest - 1;
      }
      if |r.blockedCloudProviders| > 0 {
        if rest == 0 { return true, 0; }
        cfg.blockCloudProviders := Keep(env.knownProvider, r.blockedCloudProviders);
        rest := rest - 1;
      }
      if |r.blockedUserAgents| > 0 {
        if rest == 0 { return true, 0; }
        cfg.blockedUserAgents := Keep(env.compiles, r.blockedUserAgents);
        rest := rest - 1;
      }
      panicked := false;
    }

    method ApplyRateLimitRules(r: Rules, left: nat) returns (panicked: bool, rest: nat)
      modifies cfg
      ensures cfg.revision == old(cfg.revision)
      ensures !panicked ==> cfg.Fields() == Rates(r, old(cfg.Fields()))
    {
      rest := left;
      if r.globalRateLimit.Some? && r.globalRateLimit.value > 0 {
        if rest == 0 { return true, 0; }
        cfg.rateLimit := r.globalRateLimit.value;
        rest := rest - 1;
        if r.globalRateWindow.Some? && r.globalRateWindow.value > 0 {
          if rest == 0 { return true, 0; }
          cfg.rateLimitWindow := r.globalRateWindow.value;
          rest := rest - 1;
        }
      }
      if r.endpointRateLimits != map[] {
        if rest == 0 { return true, 0; }
        cfg.endpointRateLimits := r.endpointRateLimits;
        rest := rest - 1;
      }
      panicked := false;
    }

    method OverrideSwitches(r: Rules, left: nat) returns (panicked: bool, rest: nat)
      modifies cfg`enablePenetrationDetection, cfg`enableIPBanning, cfg`enableRateLimiting
      ensures !panicked ==>
                && cfg.enablePenetrationDetection
                   == Or(r.enablePenetrationDetection, old(cfg.enablePenetrationDetection))
                && cfg.enableIPBanning == Or(r.enableIPBanning, old(cfg.enableIPBanning))
                && cfg.enableRateLimiting == Or(r.enableRateLimiting, old(cfg.enableRateLimiting))
    {
      rest := left;
      if r.enablePenetrationDetection.Some? {
        if rest == 0 { return true, 0; }
        cfg.enablePenetrationDetection := r.enablePenetrationDetection.value;
        rest := rest - 1;
      }
      if r.enableIPBanning.Some? {
        if rest == 0 { return true, 0; }
        cfg.enableIPBanning := r.enableIPBanning.value;
        rest := rest - 1;
      }
      if r.enableRateLimiting.Some? {
        if rest == 0 { return true, 0; }
        cfg.enableRateLimiting := r.enableRateLimiting.value;
        rest := rest - 1;
      }
      panicked := false;
    }

    method OverrideAutoBan(r: Rules, left: nat) returns (panicked: bool, rest: nat)
      modifies cfg`enableRateLimitAutoBan, cfg`autoBanThreshold, cfg`autoBanDuration
      ensures !panicked ==>
                && cfg.enableRateLimitAutoBan == Or(r.enableRateLimitAutoBan, old(cfg.enableRateLimitAutoBan))
                && cfg.autoBanThreshold == Or(r.autoBanThreshold, old(cfg.autoBanThreshold))
                && cfg.autoBanDuration == Or(r.autoBanDuration, old(cfg.autoBanDuration))
    {
      rest := left;
      if r.enableRateLimitAutoBan.Some? {
        if rest == 0 { return true, 0; }
        cfg.enableRateLimitAutoBan := r.enableRateLimitAutoBan.value;
        rest := rest - 1;
      }
      if r.autoBanThreshold.Some? {
        if rest == 0 { return true, 0; }
        cfg.autoBanThreshold := r.autoBanThreshold.value;
        rest := rest - 1;
      }
      if r.autoBanDuration.Some? {
        if rest == 0 { return true, 0; }
        cfg.autoBanDuration := r.autoBanDuration.value;
        rest := rest - 1;
      }
      panicked := false;
    }

    method ApplyFeatureToggles(r: Rules, left: nat) returns (panicked: bool, rest: nat)
      modifies cfg
      ensures cfg.revision == old(cfg.revision)
      ensures !panicked ==> cfg.Fields() == Toggles(r, old(cfg.Fields()))
    {
      panicked, rest := OverrideSwitches(r, left);
      if !panicked {
        panicked, rest := OverrideAutoBan(r, rest);
      }
    }

    method ActivateEmergencyMode(whitelist: seq<string>, left: nat) returns (panicked: bool)
      modifies cfg
      ensures cfg.revision == old(cfg.revision)
      ensures !panicked ==>
                cfg.Fields() == old(cfg.Fields()).(
                  emergencyMode := true, emergencyWhitelist := whitelist,
                  autoBanThreshold := Max(1, old(cfg.autoBanThreshold) / 2))
    {
      cfg.emergencyMode := true;
      if left == 0 { return true; }
      cfg.emergencyWhitelist := whitelist;
      if left == 1 { return true; }
      cfg.autoBanThreshold := Max(1, cfg.autoBanThreshold / 2);
      // the event that announces the lockdown may still panic
      panicked := left == 2;
    }

    method ApplyLists(env: Env, r: Rules, left: nat) returns (panicked: bool, rest: nat)
      modifies cfg
      ensures cfg.revision == old(cfg.revision)
      ensures !panicked ==> cfg.Fields() == Blocking(env, r, old(cfg.Fields()))
    {
      hide Blocking;
      BlockingKeeps(env, r, cfg.Fields());
      panicked, rest := ApplyBlockingRules(env, r, left);
    }

    method ApplySteps(env: Env, r: Rules, left: nat) returns (panicked: bool)
      modifies cfg
      ensures cfg.revision == old(cfg.revision)
      ensures !panicked ==> cfg.Fields() == Applied(env, r, old(cfg.Fields()))
    {
      hide Blocking, Rates, Toggles;
      var rest;
      panicked, rest := ApplyLists(env, r, left);
      if panicked { return; }
      panicked, rest := ApplyRateLimitRules(r, rest);
      if panicked { return; }
      panicked, rest := ApplyFeatureToggles(r, rest);
      if panicked { return; }
      if r.emergencyMode {
        panicked := ActivateEmergencyMode(r.emergencyWhitelist, rest);
      }
    }

    /** Everything the rule changes is changed, or nothing is. */
    method ApplyRulesLocked(env: Env, r: Rules, left: nat) returns (failed: bool)
      modifies this, cfg
      ensures old(applying) ==> failed
      ensures applying == old(applying)
      ensures if failed then Abstract() == old(Abstract())
              else
                && Abstract().(current := Some(r)) == Apply(env, old(Abstract()), r, false)
                && currentRules == old(currentRules)
    {
      hide Applied;
      if applying {
        return true;
      }
      applying := true;
      var snapshot := cfg.Fields();
      failed := ApplySteps(env, r, left);
      if failed {
        cfg.RestoreSnapshot(snapshot);
        applying := false;
        return;
      }
      if currentRules.None? && activeBase.None? {
        activeBase := Some(snapshot);
      }
      cfg.BumpRevision();
      applying := false;
    }

    method CheckRuleExpiry(now: int)
      modifies this, cfg
      ensures Abstract() == Expire(old(Abstract()), now) && applying == old(applying)
    {
      if currentRules.None? || currentRules.value.expiresAt.None? {
        return;
      }
      if !(now > currentRules.value.expiresAt.value) {
        return;
      }
      if activeBase.Some? {
        cfg.RestoreSnapshot(activeBase.value);
        cfg.BumpRevision();
      }
      currentRules := None;
      activeBase := None;
    }

    method RejectIfAlreadyExpired(r: Rules, now: int) returns (rejected: bool)
      modifies this`lastSkipped, this`warnings
      ensures rejected <==> Past(r, now)
      ensures if !rejected || old(lastSkipped) == Some((r.ruleId, r.version))
              then lastSkipped == old(lastSkipped) && warnings == old(warnings)
              else lastSkipped == Some((r.ruleId, r.version)) && warnings == old(warnings) + 1
    {
      if !(r.expiresAt.Some? && now > r.expiresAt.value) {
        return false;
      }
      if lastSkipped != Some((r.ruleId, r.version)) {
        lastSkipped := Some((r.ruleId, r.version));
        warnings := warnings + 1;
      }
      rejected := true;
    }

    /** One delivery, after the expiry check of the same update. */
    method UpdateRules(env: Env, fetched: Option<Rules>, expiryNow: int, now: int, left: nat) returns (failed: bool)
      requires !applying
      modifies this, cfg
      ensures !applying
      ensures var expired := Expire(old(Abstract()), expiryNow);
              Abstract() == if fetched.None? then expired else Deliver(env, expired, fetched.value, now, failed)
    {
      hide Applied;
      failed := false;
      CheckRuleExpiry(expiryNow);
      if fetched.None? {
        return;
      }
      var r := fetched.value;
      if r.autoBanThreshold.Some? && r.autoBanThreshold.value < 1 {
        return;
      }
      if r.autoBanDuration.Some? && r.autoBanDuration.value < 1 {
        return;
      }
      var rejected := RejectIfAlreadyExpired(r, now);
      if rejected {
        return;
      }
      if !(currentRules.None? || !(r.ruleId == currentRules.value.ruleId && r.version <= currentRules.value.version)) {
        return;
      }
      failed := ApplyRulesLocked(env, r, left);
      if failed {
        return;
      }
      currentRules := Some(r);
    }

    /** The last known rule, applied once; a stored rule that is invalid or expired is not offered. */
    method HydrateLastKnownRules(env: Env, stored: Option<Rules>, left: nat) returns (failed: bool)
      requires !applying
      modifies this, cfg
      ensures !applying && Abstract() == Hydrate(env, old(Abstract()), stored, failed)
    {
      hide Applied;
      failed := false;
      if hydrated {
        return;
      }
      hydrated := true;
      if stored.None? {
        return;
      }
      failed := ApplyRulesLocked(env, stored.value, left);
      if failed {
        return;
      }
      currentRules := Some(stored.value);
    }
  }

  // ---------------------------------------------------------------- whole runs

  /** Everything that happens to the manager; `Admin` is a change of the configuration by others. */
  datatype Event =
    | Expiry(now: int)
    | Delivery(rules: Rules, now: int, panicked: bool)
    | Hydration(stored: Option<Rules>, panicked: bool)
    | Admin(fields: Snapshot)

  /** Stored rules are validated when they are loaded; administrators keep the threshold positive. */
  predicate ValidEvent(e: Event) {
    && (e.Hydration? && e.stored.Some? ==> ValidDelivery(e.stored.value))
    && (e.Admin? ==> e.fields.autoBanThreshold >= 1)
  }

  function Happen(env: Env, s: State, e: Event): State {
    match e
    case Expiry(now) => Expire(s, now)
    case Delivery(r, now, panicked) => Deliver(env, s, r, now, panicked)
    case Hydration(stored, panicked) => Hydrate(env, s, stored, panicked)
    case Admin(fields) => s.(fields := fields, revision := s.revision + 1)
  }

  /** The state, and the fields as they last were while no rule was active. */
  datatype Tracked = Tracked(state: State, before: Snapshot)

  function Track(env: Env, t: Tracked, e: Event): Tracked {
    Tracked(Happen(env, t.state, e), if t.state.current.None? then t.state.fields else t.before)
  }

  function Run(env: Env, t: Tracked, events: seq<Event>): Tracked
    decreases |events|
  {
    if events == [] then t else Run(env, Track(env, t, events[0]), events[1..])
  }

  predicate ValidEvents(events: seq<Event>) {
    forall i :: 0 <= i < |events| ==> ValidEvent(events[i])
  }

  predicate Inv(t: Tracked) {
    && (t.state.base.None? <==> t.state.current.None?)
    && (t.state.current.Some? ==> t.state.base == Some(t.before))
    && t.state.fields.autoBanThreshold >= 1 && t.before.autoBanThreshold >= 1
  }

  lemma AppliedThreshold(env: Env, r: Rules, f: Snapshot)
    requires ValidDelivery(r) && f.autoBanThreshold >= 1
    ensures Applied(env, r, f).autoBanThreshold
         == var live := Or(r.autoBanThreshold, f.autoBanThreshold); if r.emergencyMode then Max(1, live / 2) else live
    ensures Applied(env, r, f).autoBanThreshold >= 1
  {
    hide NormalCountries, Filter;
  }

  lemma InvKept(env: Env, t: Tracked, e: Event)
    requires Inv(t) && ValidEvent(e)
    ensures Inv(Track(env, t, e))
  {
    hide Applied;
    if e.Delivery? && ValidDelivery(e.rules) {
      AppliedThreshold(env, e.rules, t.state.fields);
    }
    if e.Hydration? && e.stored.Some? {
      AppliedThreshold(env, e.stored.value, t.state.fields);
    }
  }

  /** Over every run: a base is kept exactly while a rule is active, it is the configuration as it
      was before the first of the rules active since, and the ban threshold stays positive. */
  lemma {:induction false} RunKeeps(env: Env, t: Tracked, events: seq<Event>)
    requires Inv(t) && ValidEvents(events)
    ensures Inv(Run(env, t, events))
    decreases |events|
  {
    hide Inv, Track, ValidEvent;
    if events != [] {
      InvKept(env, t, events[0]);
      RunKeeps(env, Track(env, t, events[0]), events[1..]);
    }
  }

  predicate Idle(s: State) {
    s.current.None? && s.base.None? && s.fields.autoBanThreshold >= 1
  }

  /** However many rules were delivered, failed or followed one another, the expiry of the active one
      puts every field back to what it was before the first of them. */
  lemma ExpiryRestores(env: Env, start: State, events: seq<Event>, now: int)
    requires Idle(start) && ValidEvents(events)
    ensures var t := Run(env, Tracked(start, start.fields), events);
            var after := Expire(t.state, now);
            t.state.current.Some? && Past(t.state.current.value, now) ==>
              after.fields == t.before && Idle(after) && after.revision == t.state.revision + 1
  {
    hide Run;
    RunKeeps(env, Tracked(start, start.fields), events);
  }

  predicate NoAdmin(events: seq<Event>) {
    forall i :: 0 <= i < |events| ==> !events[i].Admin?
  }

  predicate Traceless(t: Tracked, initial: Snapshot) {
    Inv(t) && t.before == initial && (t.state.current.None? ==> t.state.fields == initial)
  }

  lemma {:induction false} TracelessRun(env: Env, t: Tracked, events: seq<Event>, initial: Snapshot)
    requires Traceless(t, initial) && ValidEvents(events) && NoAdmin(events)
    ensures Traceless(Run(env, t, events), initial)
    decreases |events|
  {
    hide Applied, ValidEvent;
    if events != [] {
      InvKept(env, t, events[0]);
      TracelessRun(env, Track(env, t, events[0]), events[1..], initial);
    }
  }

  /** Rules leave no trace: unless somebody else changes the configuration, it is the initial one
      whenever no rule is active. */
  lemma NoTrace(env: Env, start: State, events: seq<Event>)
    requires Idle(start) && ValidEvents(events) && NoAdmin(events)
    ensures var t := Run(env, Tracked(start, start.fields), events);
            t.state.current.None? ==> t.state.fields == start.fields
  {
    hide Run;
    TracelessRun(env, Tracked(start, start.fields), events, start.fields);
  }

  predicate Fails(e: Event) {
    (e.Delivery? || e.Hydration?) && e.panicked
  }

  /** However many applications fail, no field, no revision, no active rule and no base changes. */
  lemma {:induction false} FailuresChangeNothing(env: Env, t: Tracked, events: seq<Event>)
    requires forall i :: 0 <= i < |events| ==> Fails(events[i])
    ensures var after := Run(env, t, events).state;
            && after.fields == t.state.fields && after.revision == t.state.revision
            && after.current == t.state.current && after.base == t.state.base
    decreases |events|
  {
    hide Applied;
    if events != [] {
      assert Fails(events[0]);
      FailuresChangeNothing(env, Track(env, t, events[0]), events[1..]);
    }
  }

  /** The active rule delivered again, at its version or an older one, is not applied again. */
  lemma ReplayIgnored(env: Env, s: State, r: Rules, now: int, panicked: bool)
    requires s.current.Some? && r.ruleId == s.current.value.ruleId && r.version <= s.current.value.version
    ensures var after := Deliver(env, s, r, now, panicked);
            after.fields == s.fields && after.revision == s.revision && after.current == s.current
              && after.base == s.base
  {
  }

  /** Any number of replays of the active rule leaves the threshold where one application put it. */
  lemma {:induction false} ReplaysNeverHalve(env: Env, t: Tracked, events: seq<Event>)
    requires t.state.current.Some?
    requires forall i :: 0 <= i < |events| ==>
               events[i].Delivery? && events[i].rules.ruleId == t.state.current.value.ruleId
               && events[i].rules.version <= t.state.current.value.version
    ensures Run(env, t, events).state.fields == t.state.fields
    decreases |events|
  {
    hide Applied;
    if events != [] {
      ReplayIgnored(env, t.state, events[0].rules, events[0].now, events[0].panicked);
      ReplaysNeverHalve(env, Track(env, t, events[0]), events[1..]);
    }
  }

  lemma ChangeBumpsRevision(env: Env, s: State, e: Event)
    ensures Happen(env, s, e).revision >= s.revision
    ensures Happen(env, s, e).fields != s.fields ==> Happen(env, s, e).revision > s.revision
  {
    hide Applied;
  }

  /** Whoever looks at the revision between events notices: if at the end of a run it is that of the start,
      no field differed after any of the events.  Inside an event a failed application changes fields and
      restores them; that an administrator's change comes with a new revision is assumed. */
  lemma {:induction false} RevisionTells(env: Env, t: Tracked, events: seq<Event>, k: nat)
    requires k <= |events|
    ensures Run(env, t, events).state.revision >= t.state.revision
    ensures Run(env, t, events).state.revision == t.state.revision ==>
              Run(env, t, events[..k]).state.fields == t.state.fields
    decreases |events|
  {
    hide Happen;
    if events != [] {
      var next := Track(env, t, events[0]);
      ChangeBumpsRevision(env, t.state, events[0]);
      RevisionTells(env, next, events[1..], if k == 0 then 0 else k - 1);
      if k > 0 {
        assert events[..k][0] == events[0] && events[..k][1..] == events[1..][..k - 1];
      }
    }
  }

  // ---------------------------------------------------------------- country lists

  lemma {:induction false} CountriesDistinct(upper: string -> string, entries: seq<string>)
    ensures var codes := NormalCountries(upper, entries);
            && (forall i, j :: 0 <= i < j < |codes| ==> codes[i] != codes[j])
            && (forall k :: 0 <= k < |entries| ==> upper(entries[k]) in codes)
            && (forall code :: code in codes ==> exists k :: 0 <= k < |entries| && upper(entries[k]) == code)
  {
    if entries != [] {
      var n := |entries| - 1;
      CountriesDistinct(upper, entries[..n]);
      var before, codes := NormalCountries(upper, entries[..n]), NormalCountries(upper, entries);
      forall k | 0 <= k < |entries| ensures upper(entries[k]) in codes {
        if k < n {
          assert entries[..n][k] == entries[k];
        }
      }
      forall code | code in codes ensures exists k :: 0 <= k < |entries| && upper(entries[k]) == code {
        if code in before {
          var k :| 0 <= k < n && upper(entries[..n][k]) == code;
          assert upper(entries[k]) == code;
        } else {
          assert upper(entries[n]) == code;
        }
      }
    }
  }
}
