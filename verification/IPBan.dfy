/** The ban cache of one process: exact addresses, networks, eviction and expiry
    (guardcore/ipban.go:14-182, 184-306, 325-345), without Redis. */
module IPBan {
  import opened KeyOrder
  import opened Texts

  const CACHE_TTL_CAP := 3600.0
  const CACHE_TTL_CAP_SECONDS := 3600
  const CACHE_MAX_SIZE: nat := 10000

  // ---------------------------------------------------------------- addresses

  /** An address as a number of `bits` bits; a network as the range of its addresses. */
  datatype Addr = Addr(bits: nat, value: nat)

  datatype Network = Network(bits: nat, low: nat, high: nat)

  predicate Contains(n: Network, a: Addr) {
    n.bits == a.bits && n.low <= a.value <= n.high
  }

  predicate Overlaps(n: Network, m: Network) {
    n.bits == m.bits && n.low <= m.high && m.low <= n.high
  }

  /** Taken as given: the canonical text of an address and the parsing of addresses and prefixes. */
  datatype Env = Env(
    canonical: string -> string,
    parseAddr: string -> Option<Addr>,
    parsePrefix: string -> Option<Network>,
    trusted: seq<Network>)

  ghost predicate Lawful(env: Env) {
    && (forall s :: env.canonical(env.canonical(s)) == env.canonical(s))
    && (forall s :: env.parsePrefix(s).Some? ==> env.parsePrefix(s).value.low <= env.parsePrefix(s).value.high)
  }

  const LOOPBACK := [Network(32, 0x7F00_0000, 0x7FFF_FFFF), Network(128, 1, 1)]

  function ParseNetwork(env: Env, value: string): Option<Network> {
    if '/' in value then env.parsePrefix(value)
    else
      var a := env.parseAddr(env.canonical(value));
      if a.None? then None else Some(Network(a.value.bits, a.value.value, a.value.value))
  }

  predicate OverlapsAny(n: Network, networks: seq<Network>) {
    exists i :: 0 <= i < |networks| && Overlaps(n, networks[i])
  }

  predicate ContainedInAny(a: Addr, networks: seq<Network>) {
    exists i :: 0 <= i < |networks| && Contains(networks[i], a)
  }

  /** Loopback and trusted-proxy addresses must never be banned. */
  predicate Protected(env: Env, a: Addr) {
    ContainedInAny(a, LOOPBACK) || ContainedInAny(a, env.trusted)
  }

  predicate RefusedTarget(env: Env, ip: string) {
    var n := ParseNetwork(env, ip);
    n.Some? && (OverlapsAny(n.value, LOOPBACK) || OverlapsAny(n.value, env.trusted))
  }

  /** A network that overlaps no protected one contains no protected address. */
  lemma UnprotectedNetwork(env: Env, n: Network, a: Addr)
    requires Contains(n, a) && !OverlapsAny(n, LOOPBACK) && !OverlapsAny(n, env.trusted)
    ensures !Protected(env, a)
  {
    hide ContainedInAny, OverlapsAny;
    SharedAddress(n, a, LOOPBACK);
    SharedAddress(n, a, env.trusted);
  }

  lemma SharedAddress(n: Network, a: Addr, networks: seq<Network>)
    requires Contains(n, a)
    ensures ContainedInAny(a, networks) ==> OverlapsAny(n, networks)
  {
    if ContainedInAny(a, networks) {
      var i :| 0 <= i < |networks| && Contains(networks[i], a);
      assert Overlaps(n, networks[i]);
    }
  }

  // ---------------------------------------------------------------- the cache as a value

  datatype Entry = Entry(expiry: real, inserted: real)

  datatype NetworkBan = NetworkBan(network: Network, expiry: real)

  datatype Cache = Cache(banned: map<string, Entry>, order: seq<string>, networks: seq<NetworkBan>, evictions: nat)

  predicate LiveEntry(e: Entry, now: real) {
    now <= e.expiry && now <= e.inserted + CACHE_TTL_CAP
  }

  predicate LiveBan(b: NetworkBan, now: real) {
    now < b.expiry
  }

  function Live(networks: seq<NetworkBan>, now: real): seq<NetworkBan> {
    if networks == [] then []
    else
      var n := |networks| - 1;
      Live(networks[..n], now) + if LiveBan(networks[n], now) then [networks[n]] else []
  }

  /** Every cached address stands in the order exactly once, and nothing else does. */
  ghost predicate Ordered(c: Cache) {
    Distinct(c.order) && forall key :: key in c.order <==> key in c.banned
  }

  function Evict(c: Cache, key: string): Cache {
    if key in c.banned || |c.banned| < CACHE_MAX_SIZE || c.order == [] then c
    else c.(banned := c.banned - {c.order[0]}, order := c.order[1..], evictions := c.evictions + 1)
  }

  function SetEntry(c: Cache, key: string, e: Entry): Cache {
    var room := Evict(c, key);
    room.(banned := room.banned[key := e], order := if key in room.banned then room.order else room.order + [key])
  }

  function Purge(c: Cache, key: string): Cache {
    if key in c.banned then c.(banned := c.banned - {key}, order := Without(c.order, key)) else c
  }

  function Clamp(duration: int): real {
    if duration <= CACHE_TTL_CAP_SECONDS then duration as real else CACHE_TTL_CAP
  }

  datatype Outcome = Applied | Refused | Failed

  /** What banning does, and what it answers. */
  function BanOutcome(env: Env, ip: string, duration: int): Outcome {
    var key := env.canonical(ip);
    if duration <= 0 then Failed
    else if RefusedTarget(env, key) then Refused
    else if '/' in key then if env.parsePrefix(key).Some? then Applied else Failed
    else if env.parseAddr(key).Some? then Applied
    else Failed
  }

  function Ban(env: Env, c: Cache, ip: string, duration: int, now: real, inserted: real): Cache {
    var key := env.canonical(ip);
    if !BanOutcome(env, ip, duration).Applied? then c
    else if '/' in key then c.(networks := c.networks + [NetworkBan(env.parsePrefix(key).value, now + Clamp(duration))])
    else SetEntry(c, key, Entry(now + Clamp(duration), inserted))
  }

  function Unban(env: Env, c: Cache, ip: string): Cache {
    Purge(c, env.canonical(ip))
  }

  predicate CoveredBy(networks: seq<NetworkBan>, a: Addr, now: real) {
    exists i :: 0 <= i < |networks| && LiveBan(networks[i], now) && Contains(networks[i].network, a)
  }

  /** The address has a live entry of its own, or a live network entry covers it. */
  predicate Banned(env: Env, c: Cache, ip: string, now: real) {
    var key := env.canonical(ip);
    || (key in c.banned && LiveEntry(c.banned[key], now))
    || (env.parseAddr(key).Some? && CoveredBy(c.networks, env.parseAddr(key).value, now))
  }

  /** A lookup drops the entry it finds dead, and then the dead networks. */
  function Lookup(env: Env, c: Cache, ip: string, now: real): Cache {
    var key := env.canonical(ip);
    if key in c.banned && LiveEntry(c.banned[key], now) then c
    else
      var purged := Purge(c, key);
      if env.parseAddr(key).None? then purged else purged.(networks := Live(c.networks, now))
  }

  // ---------------------------------------------------------------- the order

  lemma PurgeOrdered(c: Cache, key: string)
    requires Ordered(c)
    ensures Ordered(Purge(c, key)) && |Purge(c, key).banned| <= |c.banned|
  {
    hide Distinct, Without;
    WithoutSpec(c.order, key);
    if key in c.banned {
      assert c.banned.Keys == Purge(c, key).banned.Keys + {key};
    }
  }

  lemma OrderedAnyNetworks(c: Cache, networks: seq<NetworkBan>)
    requires Ordered(c)
    ensures Ordered(c.(networks := networks))
  {
  }

  lemma FullCache(c: Cache)
    requires Ordered(c) && |c.banned| > 0
    ensures c.order != [] && c.order[0] in c.banned
  {
    var other :| other in c.banned;
    assert other in c.order;
  }

  lemma EvictOrdered(c: Cache, key: string)
    requires Ordered(c) && |c.banned| <= CACHE_MAX_SIZE
    ensures Ordered(Evict(c, key)) && (key in Evict(c, key).banned <==> key in c.banned)
    ensures key !in c.banned ==> |Evict(c, key).banned| < CACHE_MAX_SIZE
    ensures key in c.banned ==> Evict(c, key) == c
  {
    hide Distinct;
    if key !in c.banned && |c.banned| >= CACHE_MAX_SIZE {
      FullCache(c);
      DistinctTail(c.order);
      var victim := c.order[0];
      var after := c.banned - {victim};
      assert c.banned.Keys == after.Keys + {victim};
      assert |c.banned.Keys| == |c.banned| && |after.Keys| == |after|;
    }
  }

  /** Storing an entry keeps the order exact and the cache within its bound. */
  lemma SetOrdered(c: Cache, key: string, e: Entry)
    requires Ordered(c) && |c.banned| <= CACHE_MAX_SIZE
    ensures Ordered(SetEntry(c, key, e)) && |SetEntry(c, key, e).banned| <= CACHE_MAX_SIZE
  {
    hide Distinct, Evict;
    EvictOrdered(c, key);
    var room := Evict(c, key);
    var after := room.banned[key := e];
    assert |after.Keys| == |after| && |room.banned.Keys| == |room.banned|;
    if key in room.banned {
      assert after.Keys == room.banned.Keys;
    } else {
      assert after.Keys == room.banned.Keys + {key};
      DistinctSnoc(room.order, key);
    }
  }

  // ---------------------------------------------------------------- the manager

  class IPBanManager {
    var bannedIPs: map<string, Entry>
    var lruOrder: seq<string>
    var bannedNetworks: array<NetworkBan>
    var networkCount: nat
    var evictions: nat

    ghost predicate Valid()
      reads this, bannedNetworks
    {
      networkCount <= bannedNetworks.Length && Ordered(Abstract()) && |bannedIPs| <= CACHE_MAX_SIZE
    }

    ghost function Abstract(): Cache
      reads this, bannedNetworks
      requires networkCount <= bannedNetworks.Length
    {
      Cache(bannedIPs, lruOrder, bannedNetworks[..networkCount], evictions)
    }

    constructor ()
      ensures Valid() && fresh(bannedNetworks) && Abstract() == Cache(map[], [], [], 0)
    {
      bannedIPs, lruOrder, evictions, networkCount := map[], [], 0, 0;
      bannedNetworks := new NetworkBan[0];
      new;
      assert bannedNetworks[..networkCount] == [];
    }

    method LocalSet(ip: string, expiry: real, inserted: real)
      requires Valid()
      modifies this`bannedIPs, this`lruOrder, this`evictions
      ensures Valid() && Abstract() == SetEntry(old(Abstract()), ip, Entry(expiry, inserted))
    {
      hide Ordered;
      SetOrdered(Abstract(), ip, Entry(expiry, inserted));
      if ip !in bannedIPs && |bannedIPs| >= CACHE_MAX_SIZE {
        FullCache(Abstract());
        var victim := lruOrder[0];
        lruOrder := lruOrder[1..];
        bannedIPs := bannedIPs - {victim};
        evictions := evictions + 1;
      }
      if ip !in bannedIPs {
        lruOrder := lruOrder + [ip];
      }
      bannedIPs := bannedIPs[ip := Entry(expiry, inserted)];
    }

    /** The entry's place in the order is closed up. */
    method Forget(ip: string)
      requires Valid() && ip in bannedIPs
      modifies this`bannedIPs, this`lruOrder
      ensures Valid() && Abstract() == Purge(old(Abstract()), ip)
    {
      hide Ordered, Without;
      PurgeOrdered(Abstract(), ip);
      bannedIPs := bannedIPs - {ip};
      lruOrder := RemoveKey(lruOrder, ip);
    }

    method LocalPurge(ip: string)
      requires Valid()
      modifies this`bannedIPs, this`lruOrder
      ensures Valid() && Abstract() == Purge(old(Abstract()), ip)
    {
      if ip in bannedIPs {
        Forget(ip);
      }
    }

    method LocalGet(ip: string, now: real) returns (hit: bool)
      requires Valid()
      modifies this`bannedIPs, this`lruOrder
      ensures Valid() && (hit <==> ip in old(bannedIPs) && LiveEntry(old(bannedIPs)[ip], now))
      ensures Abstract() == if hit then old(Abstract()) else Purge(old(Abstract()), ip)
    {
      if ip !in bannedIPs {
        return false;
      }
      var entry := bannedIPs[ip];
      if now > entry.expiry || now > entry.inserted + CACHE_TTL_CAP {
        Forget(ip);
        return false;
      }
      return true;
    }

    method AppendNetwork(b: NetworkBan)
      requires Valid()
      modifies this`bannedNetworks, this`networkCount
      ensures Valid() && fresh(bannedNetworks)
      ensures Abstract() == old(Abstract()).(networks := old(Abstract()).networks + [b])
    {
      var grown := new NetworkBan[networkCount + 1];
      for i := 0 to networkCount
        invariant networkCount == old(networkCount) && bannedNetworks == old(bannedNetworks)
        invariant bannedNetworks[..] == old(bannedNetworks[..])
        invariant forall k :: 0 <= k < i ==> grown[k] == bannedNetworks[k]
      {
        grown[i] := bannedNetworks[i];
      }
      grown[networkCount] := b;
      ghost var before := bannedNetworks[..networkCount];
      bannedNetworks := grown;
      networkCount := networkCount + 1;
      assert bannedNetworks[..networkCount] == before + [b];
    }

    method BanIP(env: Env, given: string, duration: int, now: real, inserted: real) returns (outcome: Outcome)
      requires Valid()
      modifies this
      ensures Valid() && (fresh(bannedNetworks) || bannedNetworks == old(bannedNetworks))
      ensures outcome == BanOutcome(env, given, duration)
      ensures Abstract() == Ban(env, old(Abstract()), given, duration, now, inserted)
    {
      hide SetEntry, Ordered, OverlapsAny;
      var ip := env.canonical(given);
      if duration <= 0 {
        return Failed;
      }
      if RefusedTarget(env, ip) {
        return Refused;
      }
      if '/' in ip {
        var network := env.parsePrefix(ip);
        if network.None? {
          return Failed;
        }
        AppendNetwork(NetworkBan(network.value, now + Clamp(duration)));
        return Applied;
      }
      if env.parseAddr(ip).None? {
        return Failed;
      }
      LocalSet(ip, now + Clamp(duration), inserted);
      outcome := Applied;
    }

    /** The dead entries are dropped from the array in place while it is searched. */
    method CheckNetworkCache(a: Addr, now: real) returns (hit: bool)
      requires Valid()
      modifies this`networkCount, bannedNetworks
      ensures Valid() && bannedNetworks == old(bannedNetworks)
      ensures hit <==> CoveredBy(old(Abstract()).networks, a, now)
      ensures Abstract() == old(Abstract()).(networks := Live(old(Abstract()).networks, now))
    {
      hide Ordered, Live, CoveredBy, Compacted;
      ghost var before := bannedNetworks[..networkCount];
      hit := false;
      var active := 0;
      CompactStart(before, a, now);
      for i := 0 to networkCount
        invariant networkCount == old(networkCount) && bannedNetworks == old(bannedNetworks) && active <= i
        invariant Compacted(bannedNetworks[..networkCount], before, i, active, now)
        invariant hit <==> CoveredBy(before[..i], a, now)
        invariant bannedIPs == old(bannedIPs) && lruOrder == old(lruOrder) && evictions == old(evictions)
      {
        var entry := bannedNetworks[i];
        CompactStep(bannedNetworks[..networkCount], before, i, active, now);
        CoveredSnoc(before, i, a, now);
        if entry.expiry <= now {
          continue;
        }
        ghost var s := bannedNetworks[..networkCount];
        bannedNetworks[active] := entry;
        assert bannedNetworks[..networkCount] == s[active := entry];
        active := active + 1;
        if !hit && entry.network.bits == a.bits && entry.network.low <= a.value <= entry.network.high {
          hit := true;
        }
      }
      CompactEnd(bannedNetworks[..networkCount], before, active, now);
      assert before[..networkCount] == before;
      assert bannedNetworks[..active] == bannedNetworks[..networkCount][..active];
      OrderedAnyNetworks(old(Abstract()), Live(before, now));
      networkCount := active;
    }

    method IsIPBanned(env: Env, given: string, now: real) returns (banned: bool)
      requires Valid()
      modifies this`bannedIPs, this`lruOrder, this`networkCount, bannedNetworks
      ensures Valid() && bannedNetworks == old(bannedNetworks)
      ensures banned <==> Banned(env, old(Abstract()), given, now)
      ensures Abstract() == Lookup(env, old(Abstract()), given, now)
    {
      hide Ordered, Live, Purge, CoveredBy;
      var ip := env.canonical(given);
      var hit := LocalGet(ip, now);
      if hit {
        return true;
      }
      var a := env.parseAddr(ip);
      if a.None? {
        return false;
      }
      PurgeKeepsNetworks(old(Abstract()), ip);
      banned := CheckNetworkCache(a.value, now);
    }

    method UnbanIP(env: Env, given: string)
      requires Valid()
      modifies this`bannedIPs, this`lruOrder
      ensures Valid() && Abstract() == Unban(env, old(Abstract()), given)
    {
      LocalPurge(env.canonical(given));
    }
  }

  /** The first `i` entries have been compacted to the first `active` places, the others are as they were. */
  ghost predicate Compacted(s: seq<NetworkBan>, before: seq<NetworkBan>, i: nat, active: nat, now: real) {
    && active <= i <= |before| == |s|
    && s[..active] == Live(before[..i], now) && s[i..] == before[i..]
  }

  lemma CompactStart(before: seq<NetworkBan>, a: Addr, now: real)
    ensures Compacted(before, before, 0, 0, now) && !CoveredBy(before[..0], a, now)
  {
  }

  lemma CompactStep(s: seq<NetworkBan>, before: seq<NetworkBan>, i: nat, active: nat, now: real)
    requires i < |before| && Compacted(s, before, i, active, now)
    ensures s[i] == before[i]
    ensures if LiveBan(before[i], now) then Compacted(s[active := before[i]], before, i + 1, active + 1, now)
            else Compacted(s, before, i + 1, active, now)
  {
    assert s[i] == s[i..][0] == before[i..][0];
    assert before[..i + 1][..i] == before[..i] && before[..i + 1][i] == before[i];
    assert s[i + 1..] == s[i..][1..] == before[i..][1..] == before[i + 1..];
    var t := s[active := before[i]];
    assert t[..active + 1] == s[..active] + [before[i]];
    assert t[i + 1..] == s[i + 1..];
  }

  lemma CompactEnd(s: seq<NetworkBan>, before: seq<NetworkBan>, active: nat, now: real)
    requires Compacted(s, before, |before|, active, now)
    ensures active <= |s| && s[..active] == Live(before, now)
  {
    assert before[..|before|] == before;
  }

  lemma PurgeKeepsNetworks(c: Cache, key: string)
    ensures Purge(c, key).networks == c.networks
  {
  }

  lemma CoveredSnoc(networks: seq<NetworkBan>, i: nat, a: Addr, now: real)
    requires i < |networks|
    ensures CoveredBy(networks[..i + 1], a, now)
       <==> CoveredBy(networks[..i], a, now) || (LiveBan(networks[i], now) && Contains(networks[i].network, a))
  {
    if CoveredBy(networks[..i + 1], a, now) {
      var k :| 0 <= k < i + 1 && LiveBan(networks[..i + 1][k], now) && Contains(networks[..i + 1][k].network, a);
      if k < i {
        assert networks[..i][k] == networks[k];
      }
    }
    if CoveredBy(networks[..i], a, now) {
      var k :| 0 <= k < i && LiveBan(networks[..i][k], now) && Contains(networks[..i][k].network, a);
      assert networks[..i + 1][k] == networks[k];
    }
    if LiveBan(networks[i], now) && Contains(networks[i].network, a) {
      assert networks[..i + 1][i] == networks[i];
    }
  }

  // ---------------------------------------------------------------- whole runs

  datatype Event =
    | Banning(ip: string, duration: int, now: real, inserted: real)
    | Unbanning(ip: string)
    | LookingUp(ip: string, now: real)

  function Happen(env: Env, c: Cache, e: Event): Cache {
    match e
    case Banning(ip, duration, now, inserted) => Ban(env, c, ip, duration, now, inserted)
    case Unbanning(ip) => Unban(env, c, ip)
    case LookingUp(ip, now) => Lookup(env, c, ip, now)
  }

  function Run(env: Env, events: seq<Event>): Cache {
    if events == [] then Cache(map[], [], [], 0)
    else Happen(env, Run(env, events[..|events| - 1]), events[|events| - 1])
  }

  /** What every event keeps: an exact order, the bound, and nothing protected in the cache. */
  ghost predicate Inv(env: Env, c: Cache) {
    && Ordered(c) && |c.banned| <= CACHE_MAX_SIZE
    && (forall key :: key in c.banned ==> Bannable(env, key))
    && (forall i :: 0 <= i < |c.networks| ==> BannableNetwork(env, c.networks[i].network))
  }

  /** The text of an address that may be banned. */
  predicate Bannable(env: Env, key: string) {
    env.canonical(key) == key && env.parseAddr(key).Some? && !Protected(env, env.parseAddr(key).value)
  }

  predicate BannableNetwork(env: Env, n: Network) {
    !OverlapsAny(n, LOOPBACK) && !OverlapsAny(n, env.trusted)
  }

  lemma AppliedIsBannable(env: Env, ip: string, duration: int)
    requires Lawful(env) && BanOutcome(env, ip, duration).Applied?
    ensures var key := env.canonical(ip);
            if '/' in key then env.parsePrefix(key).Some? && BannableNetwork(env, env.parsePrefix(key).value)
            else Bannable(env, key)
  {
    hide OverlapsAny, Protected;
    var key := env.canonical(ip);
    if '/' !in key {
      var a := env.parseAddr(key).value;
      assert env.canonical(key) == key;
      UnprotectedNetwork(env, Network(a.bits, a.value, a.value), a);
    }
  }

  lemma {:induction false} LiveIsPart(networks: seq<NetworkBan>, now: real)
    ensures forall b :: b in Live(networks, now) ==> b in networks && LiveBan(b, now)
    ensures forall b :: b in networks && LiveBan(b, now) ==> b in Live(networks, now)
  {
    if networks != [] {
      var n := |networks| - 1;
      LiveIsPart(networks[..n], now);
      assert networks == networks[..n] + [networks[n]];
    }
  }

  lemma SetKeepsOthers(c: Cache, key: string, e: Entry)
    ensures var after := SetEntry(c, key, e);
            && after.networks == c.networks && key in after.banned && after.banned[key] == e
            && (forall k :: k in after.banned ==> k == key || (k in c.banned && after.banned[k] == c.banned[k]))
            && (forall k :: k in c.banned && k !in after.banned ==> k !in Evict(c, key).banned)
  {
  }

  lemma InvKept(env: Env, c: Cache, e: Event)
    requires Lawful(env) && Inv(env, c)
    ensures Inv(env, Happen(env, c, e))
  {
    hide Ordered, Bannable, BannableNetwork, Lawful, SetEntry, LiveEntry, LiveBan, Live, BanOutcome;
    match e {
      case Banning(ip, duration, now, inserted) =>
        var key := env.canonical(ip);
        if BanOutcome(env, ip, duration).Applied? {
          AppliedIsBannable(env, ip, duration);
          OrderedAnyNetworks(c, Ban(env, c, ip, duration, now, inserted).networks);
          if '/' !in key {
            SetOrdered(c, key, Entry(now + Clamp(duration), inserted));
            SetKeepsOthers(c, key, Entry(now + Clamp(duration), inserted));
          }
        }
      case Unbanning(ip) =>
        PurgeOrdered(c, env.canonical(ip));
      case LookingUp(ip, now) =>
        PurgeOrdered(c, env.canonical(ip));
        LiveInv(env, c, now);
        LiveInv(env, Purge(c, env.canonical(ip)), now);
    }
  }

  lemma LiveInv(env: Env, c: Cache, now: real)
    requires Inv(env, c)
    ensures Inv(env, c.(networks := Live(c.networks, now)))
  {
    hide Bannable, BannableNetwork, LiveBan, Live;
    LiveIsPart(c.networks, now);
    forall i | 0 <= i < |Live(c.networks, now)| ensures BannableNetwork(env, Live(c.networks, now)[i].network) {
      assert Live(c.networks, now)[i] in c.networks;
    }
  }

  lemma {:induction false} RunKeeps(env: Env, events: seq<Event>)
    requires Lawful(env)
    ensures Inv(env, Run(env, events))
  {
    if events != [] {
      hide Lawful, Inv, Happen;
      RunKeeps(env, events[..|events| - 1]);
      InvKept(env, Run(env, events[..|events| - 1]), events[|events| - 1]);
    }
  }

  /** After any run: the order lists each cached address exactly once, the cache is within its bound, and
      nothing reported banned is a loopback or trusted-proxy address. */
  lemma NeverSelfDoS(env: Env, events: seq<Event>, ip: string, now: real)
    requires Lawful(env)
    ensures var c := Run(env, events);
            && Ordered(c) && |c.banned| <= CACHE_MAX_SIZE
            && (Banned(env, c, ip, now) ==>
                  env.parseAddr(env.canonical(ip)).Some? && !Protected(env, env.parseAddr(env.canonical(ip)).value))
  {
    hide Ordered, Protected, OverlapsAny, LiveEntry, Lawful, Run;
    RunKeeps(env, events);
    var c, key := Run(env, events), env.canonical(ip);
    if env.parseAddr(key).Some? && CoveredBy(c.networks, env.parseAddr(key).value, now) {
      var a := env.parseAddr(key).value;
      var i :| 0 <= i < |c.networks| && LiveBan(c.networks[i], now) && Contains(c.networks[i].network, a);
      UnprotectedNetwork(env, c.networks[i].network, a);
    }
  }

  // ---------------------------------------------------------------- the verdict as a matter of history

  /** The full cache throws an address out to make room for another. */
  predicate ThrownOut(env: Env, c: Cache, e: Event, key: string) {
    && e.Banning? && BanOutcome(env, e.ip, e.duration).Applied? && '/' !in env.canonical(e.ip)
    && key in c.banned && key !in Evict(c, env.canonical(e.ip)).banned
  }

  /** The entry that the past bans, unbans and evictions of an address leave. */
  function LastEntry(env: Env, events: seq<Event>, key: string): Option<Entry> {
    if events == [] then None
    else
      var before, e := LastEntry(env, events[..|events| - 1], key), events[|events| - 1];
      match e
      case Banning(ip, duration, now, inserted) =>
        if BanOutcome(env, ip, duration).Applied? && env.canonical(ip) == key && '/' !in key
        then Some(Entry(now + Clamp(duration), inserted))
        else if ThrownOut(env, Run(env, events[..|events| - 1]), e, key) then None
        else before
      case Unbanning(ip) => if env.canonical(ip) == key then None else before
      case LookingUp(_, _) => before
  }

  /** Every network ever banned. */
  function NetworkHistory(env: Env, events: seq<Event>): seq<NetworkBan> {
    if events == [] then []
    else
      var before, e := NetworkHistory(env, events[..|events| - 1]), events[|events| - 1];
      if e.Banning? && BanOutcome(env, e.ip, e.duration).Applied? && '/' in env.canonical(e.ip)
      then before + [NetworkBan(env.parsePrefix(env.canonical(e.ip)).value, e.now + Clamp(e.duration))]
      else before
  }

  /** No lookup is later than `now`. */
  predicate LookedUpBy(events: seq<Event>, now: real) {
    forall i :: 0 <= i < |events| && events[i].LookingUp? ==> events[i].now <= now
  }

  /** The cache and the history agree on what is live at `now` and later. */
  ghost predicate Agree(env: Env, c: Cache, events: seq<Event>, now: real) {
    && (forall key :: key in c.banned ==> LastEntry(env, events, key) == Some(c.banned[key]))
    && (forall key ::
          LastEntry(env, events, key).Some? && LiveEntry(LastEntry(env, events, key).value, now) ==> key in c.banned)
    && (forall b :: b in c.networks ==> b in NetworkHistory(env, events))
    && (forall b :: b in NetworkHistory(env, events) && LiveBan(b, now) ==> b in c.networks)
  }

  lemma BanAgrees(env: Env, before: seq<Event>, e: Event, now: real)
    requires Agree(env, Run(env, before), before, now) && e.Banning?
    ensures Agree(env, Happen(env, Run(env, before), e), before + [e], now)
  {
    hide BanOutcome, LiveEntry, LiveBan, SetEntry, Run, Evict;
    var events, c := before + [e], Run(env, before);
    assert events[..|events| - 1] == before && events[|events| - 1] == e;
    SetKeepsOthers(c, env.canonical(e.ip), Entry(e.now + Clamp(e.duration), e.inserted));
    EvictedGone(c, env.canonical(e.ip), Entry(e.now + Clamp(e.duration), e.inserted));
  }

  /** What is thrown out is gone, unless it is what comes in. */
  lemma EvictedGone(c: Cache, key: string, e: Entry)
    ensures forall k :: k in SetEntry(c, key, e).banned ==> k == key || k in Evict(c, key).banned
  {
  }

  lemma UnbanAgrees(env: Env, c: Cache, before: seq<Event>, e: Event, now: real)
    requires Agree(env, c, before, now) && e.Unbanning?
    ensures Agree(env, Happen(env, c, e), before + [e], now)
  {
    hide BanOutcome, LiveEntry, LiveBan, Without;
    var events := before + [e];
    assert events[..|events| - 1] == before && events[|events| - 1] == e;
  }

  lemma LookupAgrees(env: Env, c: Cache, before: seq<Event>, e: Event, now: real)
    requires Agree(env, c, before, now) && e.LookingUp? && e.now <= now
    ensures Agree(env, Happen(env, c, e), before + [e], now)
  {
    hide BanOutcome, Without, Live;
    var events := before + [e];
    assert events[..|events| - 1] == before && events[|events| - 1] == e;
    LiveIsPart(c.networks, e.now);
  }

  lemma {:induction false} RunAgrees(env: Env, events: seq<Event>, now: real)
    requires LookedUpBy(events, now)
    ensures Agree(env, Run(env, events), events, now)
  {
    hide Agree, Happen;
    if events == [] {
      NothingYet(env, now);
    } else {
      var before, e := events[..|events| - 1], events[|events| - 1];
      assert forall i :: 0 <= i < |before| ==> before[i] == events[i];
      RunAgrees(env, before, now);
      assert before + [e] == events;
      match e {
        case Banning(_, _, _, _) => BanAgrees(env, before, e, now);
        case Unbanning(_) => UnbanAgrees(env, Run(env, before), before, e, now);
        case LookingUp(_, _) => LookupAgrees(env, Run(env, before), before, e, now);
      }
    }
  }

  lemma NothingYet(env: Env, now: real)
    ensures Agree(env, Run(env, []), [], now)
  {
  }

  /** Purging and compacting do not show: an address is reported banned exactly when its last ban since it
      was last unbanned or thrown out is live, or some network ever banned is live and contains it. */
  lemma BannedByHistory(env: Env, events: seq<Event>, ip: string, now: real)
    requires LookedUpBy(events, now)
    ensures var key := env.canonical(ip);
            var own := LastEntry(env, events, key);
            Banned(env, Run(env, events), ip, now) <==>
              || (own.Some? && LiveEntry(own.value, now))
              || (env.parseAddr(key).Some? && CoveredBy(NetworkHistory(env, events), env.parseAddr(key).value, now))
  {
    hide LiveEntry, LiveBan, LastEntry, NetworkHistory, Run, LookedUpBy;
    RunAgrees(env, events, now);
    var c, key := Run(env, events), env.canonical(ip);
    if env.parseAddr(key).Some? {
      SameCover(c.networks, NetworkHistory(env, events), env.parseAddr(key).value, now);
    }
  }

  lemma SameCover(s: seq<NetworkBan>, t: seq<NetworkBan>, a: Addr, now: real)
    requires forall b :: b in s ==> b in t
    requires forall b :: b in t && LiveBan(b, now) ==> b in s
    ensures CoveredBy(s, a, now) <==> CoveredBy(t, a, now)
  {
    if CoveredBy(s, a, now) {
      var i :| 0 <= i < |s| && LiveBan(s[i], now) && Contains(s[i].network, a);
      assert s[i] in t;
    }
    if CoveredBy(t, a, now) {
      var i :| 0 <= i < |t| && LiveBan(t[i], now) && Contains(t[i].network, a);
      assert t[i] in s;
    }
  }

  // ---------------------------------------------------------------- few addresses

  /** The addresses that were ever asked to be banned. */
  function Asked(env: Env, events: seq<Event>): set<string> {
    set i | 0 <= i < |events| && events[i].Banning? :: env.canonical(events[i].ip)
  }

  lemma AskedSnoc(env: Env, before: seq<Event>, e: Event)
    ensures Asked(env, before + [e]) == Asked(env, before) + if e.Banning? then {env.canonical(e.ip)} else {}
  {
    var events := before + [e];
    assert events[|before|] == e;
    forall i | 0 <= i < |before| ensures events[i] == before[i] {
    }
  }

  lemma {:induction false} CachedWereAsked(env: Env, events: seq<Event>)
    ensures Run(env, events).banned.Keys <= Asked(env, events)
  {
    hide BanOutcome, Asked, LiveEntry, Live;
    if events != [] {
      var before, e := events[..|events| - 1], events[|events| - 1];
      assert events == before + [e];
      CachedWereAsked(env, before);
      AskedSnoc(env, before, e);
    }
  }

  /** As long as no more addresses are banned than the cache holds, none is thrown out. */
  lemma FewStay(env: Env, before: seq<Event>, e: Event, key: string)
    requires |Asked(env, before + [e])| <= CACHE_MAX_SIZE
    ensures !ThrownOut(env, Run(env, before), e, key)
  {
    hide Run, Asked, BanOutcome;
    var c := Run(env, before);
    CachedWereAsked(env, before);
    AskedSnoc(env, before, e);
    if e.Banning? && env.canonical(e.ip) !in c.banned {
      var asked := Asked(env, before + [e]);
      assert c.banned.Keys + {env.canonical(e.ip)} <= asked;
      assert asked == c.banned.Keys + {env.canonical(e.ip)} + (asked - (c.banned.Keys + {env.canonical(e.ip)}));
      assert |c.banned.Keys| == |c.banned|;
    }
  }
}
