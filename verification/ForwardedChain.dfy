/** Resolving the client from a forwarded chain (guardcore/ipextraction.go:68-141, 284-364,
    guardcore/headerexclusions.go:63-98). */
module ForwardedChain {
  import opened Texts

  /** Taken as given: trimming, canonical texts, address parsing and which peers are trusted. */
  datatype Env = Env(
    trim: string -> string,
    canonical: string -> string,
    parse: string -> Option<string>,
    trusted: string -> bool,
    proxiesConfigured: bool)

  /** The empty text is no address, and trimming leaves it empty. */
  ghost predicate Lawful(env: Env) {
    env.parse("") == None && env.trim("") == ""
  }

  predicate IsPort(s: string) {
    s != "" && AllDigits(s)
  }

  function StripPort(value: string): string {
    if value != "" && value[0] == '[' then
      var closing := IndexByte(value, ']');
      if closing < 0 then value
      else
        var rest := value[closing + 1..];
        if rest != "" && !(rest[0] == ':' && IsPort(rest[1..])) then value else value[1..closing]
    else
      var pieces := Split(value, ':');
      if |pieces| == 2 && IsPort(pieces[1]) then pieces[0] else value
  }

  function Entry(env: Env, part: string): string {
    StripPort(env.trim(part))
  }

  function Entries(env: Env, parts: seq<string>): seq<string> {
    if parts == [] then [] else [Entry(env, parts[0])] + Entries(env, parts[1..])
  }

  /** The entries of a chain, trimmed and without ports. */
  function Chain(env: Env, forwardedFor: string): seq<string> {
    Entries(env, Split(forwardedFor, ','))
  }

  predicate Metachar(s: string) {
    exists i :: 0 <= i < |s| && s[i] in "*?[]\\"
  }

  /** An address as it is written in a chain; `parse` gives its canonical text. */
  function Address(env: Env, entry: string): Option<string> {
    if env.parse(entry).None? || Metachar(entry) then None else env.parse(entry)
  }

  predicate Listed(env: Env, entry: string) {
    env.trusted(env.canonical(entry))
  }

  /** How many of the entries are no configured proxies. */
  function Unlisted(env: Env, entries: seq<string>): nat {
    if entries == [] then 0
    else Unlisted(env, entries[..|entries| - 1]) + if Listed(env, entries[|entries| - 1]) then 0 else 1
  }

  /** The rightmost entry that is no configured proxy. */
  function RightToLeft(env: Env, entries: seq<string>): Option<string> {
    if entries == [] then None
    else
      var last := entries[|entries| - 1];
      if Listed(env, last) then RightToLeft(env, entries[..|entries| - 1]) else Address(env, last)
  }

  /** The client that a list of entries, at least as many as the depth, resolves to. */
  function Selected(env: Env, entries: seq<string>, depth: nat): Option<string>
    requires 1 <= depth <= |entries|
  {
    if env.proxiesConfigured && Unlisted(env, entries[|entries| - depth + 1..]) > 0 then RightToLeft(env, entries)
    else Address(env, entries[|entries| - depth])
  }

  function Resolve(env: Env, peer: string, forwardedFor: string, depth: nat): string
    requires depth >= 1
  {
    var entries := Chain(env, forwardedFor);
    if forwardedFor == "" || |entries| < depth || Selected(env, entries, depth).None? then peer
    else Selected(env, entries, depth).value
  }

  // ---------------------------------------------------------------- the loops

  method ForwardedHeaderIPs(env: Env, forwardedFor: string) returns (ips: seq<string>)
    ensures ips == Chain(env, forwardedFor)
  {
    hide Split, Entry;
    var parts := Split(forwardedFor, ',');
    ips := [];
    for i := 0 to |parts|
      invariant ips + Entries(env, parts[i..]) == Entries(env, parts)
    {
      assert parts[i..][1..] == parts[i + 1..];
      ips := ips + [Entry(env, parts[i])];
    }
    assert parts[|parts|..] == [];
  }

  method RightSideUnlistedCount(env: Env, ips: seq<string>, depth: nat) returns (count: nat)
    requires 1 <= depth <= |ips|
    ensures count == Unlisted(env, ips[|ips| - depth + 1..])
  {
    var right := ips[|ips| - depth + 1..];
    count := 0;
    assert right[..0] == [];
    for i := 0 to |right|
      invariant count == Unlisted(env, right[..i])
    {
      assert right[..i + 1][..i] == right[..i];
      if !env.trusted(env.canonical(right[i])) {
        count := count + 1;
      }
    }
    assert right[..|right|] == right;
  }

  method ResolveRightToLeft(env: Env, ips: seq<string>) returns (client: Option<string>)
    ensures client == RightToLeft(env, ips)
  {
    var i: nat := |ips|;
    assert ips[..|ips|] == ips;
    while i > 0
      invariant i <= |ips| && RightToLeft(env, ips) == RightToLeft(env, ips[..i])
    {
      assert ips[..i][..i - 1] == ips[..i - 1];
      i := i - 1;
      if env.trusted(env.canonical(ips[i])) {
        continue;
      }
      return Address(env, ips[i]);
    }
    assert ips[..0] == [];
    client := None;
  }

  method ResolveClientIP(env: Env, peer: string, forwardedFor: string, depth: nat) returns (client: string)
    requires depth >= 1
    ensures client == Resolve(env, peer, forwardedFor, depth)
  {
    hide Split, Entries, Unlisted, RightToLeft, Address;
    if forwardedFor == "" {
      return peer;
    }
    var ips := ForwardedHeaderIPs(env, forwardedFor);
    if |ips| < depth {
      return peer;
    }
    if env.proxiesConfigured {
      var unlisted := RightSideUnlistedCount(env, ips, depth);
      if unlisted > 0 {
        var resolved := ResolveRightToLeft(env, ips);
        return if resolved.Some? then resolved.value else peer;
      }
    }
    var selected := Address(env, ips[|ips| - depth]);
    client := if selected.Some? then selected.value else peer;
  }

  // ---------------------------------------------------------------- what a client can prepend

  lemma {:induction false} EntriesConcat(env: Env, a: seq<string>, b: seq<string>)
    ensures Entries(env, a + b) == Entries(env, a) + Entries(env, b)
    ensures |Entries(env, a)| == |a|
  {
    hide Entry;
    if a == [] {
      assert a + b == b;
    } else {
      assert (a + b)[1..] == a[1..] + b;
      EntriesConcat(env, a[1..], b);
    }
  }

  lemma ChainConcat(env: Env, x: string, chain: string)
    ensures Chain(env, x + "," + chain) == Chain(env, x) + Chain(env, chain)
  {
    hide Split, Entries;
    SplitConcat(x, chain, ',');
    assert x + [','] + chain == x + "," + chain;
    EntriesConcat(env, Split(x, ','), Split(chain, ','));
  }

  /** If some entry of the suffix is unlisted, what stands before the suffix does not matter. */
  lemma {:induction false} RightmostInSuffix(env: Env, before: seq<string>, after: seq<string>)
    requires Unlisted(env, after) > 0
    ensures RightToLeft(env, before + after) == RightToLeft(env, after)
    decreases |after|
  {
    hide Address, Listed;
    var n := |after| - 1;
    assert (before + after)[..|before| + n] == before + after[..n];
    assert (before + after)[|before + after| - 1] == after[n];
    if Listed(env, after[n]) {
      RightmostInSuffix(env, before, after[..n]);
    }
  }

  lemma SuffixAgain(before: seq<string>, after: seq<string>, k: nat)
    requires k <= |after|
    ensures (before + after)[|before + after| - k..] == after[|after| - k..]
    ensures k > 0 ==> (before + after)[|before + after| - k] == after[|after| - k]
  {
  }

  /** Whatever a client writes in front of a chain that already has the configured number of entries, the
      resolved client stays the same, in the depth-selected case and in the walk alike. */
  lemma PrefixIgnored(env: Env, peer: string, x: string, chain: string, depth: nat)
    requires Lawful(env) && depth >= 1 && |Chain(env, chain)| >= depth
    ensures Resolve(env, peer, x + "," + chain, depth) == Resolve(env, peer, chain, depth)
  {
    hide Entries, Split, Chain, Selected, Lawful;
    var before, after := Chain(env, x), Chain(env, chain);
    ChainConcat(env, x, chain);
    assert |x + "," + chain| > 0;
    SameSelected(env, before, after, depth);
    if chain == "" {
      EmptyChain(env);
      NothingSelected(env);
    }
  }

  lemma SameSelected(env: Env, before: seq<string>, after: seq<string>, depth: nat)
    requires 1 <= depth <= |after|
    ensures Selected(env, before + after, depth) == Selected(env, after, depth)
  {
    hide Unlisted, RightToLeft, Address;
    SuffixAgain(before, after, depth - 1);
    SuffixAgain(before, after, depth);
    var left, right := after[..|after| - depth + 1], after[|after| - depth + 1..];
    assert after == left + right && before + after == before + left + right;
    if Unlisted(env, right) > 0 {
      RightmostInSuffix(env, left, right);
      RightmostInSuffix(env, before + left, right);
    }
  }

  lemma NothingSelected(env: Env)
    requires env.parse("").None?
    ensures Selected(env, [""], 1) == None
  {
    assert [""][1..] == [];
  }

  lemma EmptyChain(env: Env)
    requires Lawful(env)
    ensures Chain(env, "") == [""] && env.parse("").None?
  {
    hide Split;
    NoPieces(',');
    NoPieces(':');
    assert Entry(env, "") == "";
    assert [""][1..] == [];
    assert Entries(env, [""]) == [Entry(env, "")] + Entries(env, [""][1..]);
  }

  lemma NoPieces(sep: char)
    ensures Split("", sep) == [""]
  {
  }

  /** The walk finds the rightmost entry that is no configured proxy. */
  lemma {:induction false} RightToLeftSpec(env: Env, entries: seq<string>)
    ensures if Unlisted(env, entries) == 0 then RightToLeft(env, entries) == None
            else exists i :: Rightmost(env, entries, i) && RightToLeft(env, entries) == Address(env, entries[i])
    decreases |entries|
  {
    hide Address, Listed;
    if entries != [] {
      var n := |entries| - 1;
      if Listed(env, entries[n]) {
        var rest := entries[..n];
        RightToLeftSpec(env, rest);
        if Unlisted(env, rest) > 0 {
          var i :| Rightmost(env, rest, i) && RightToLeft(env, rest) == Address(env, rest[i]);
          assert Rightmost(env, entries, i);
        }
      } else {
        assert Rightmost(env, entries, n);
      }
    }
  }

  /** The last entry that is no configured proxy. */
  predicate Rightmost(env: Env, entries: seq<string>, i: int) {
    0 <= i < |entries| && !Listed(env, entries[i]) && forall j :: i < j < |entries| ==> Listed(env, entries[j])
  }

  /** The client, or the peer when there is none. */
  function OrPeer(client: Option<string>, peer: string): string {
    if client.Some? then client.value else peer
  }

  /** A chain shorter than the configured depth resolves to the peer.  With a prefix long enough it
      resolves to its own rightmost entry that is no configured proxy, whatever the prefix; only if all
      its entries are proxies, or none are configured, the prefix is resolved with the depth that is left. */
  lemma ShortChain(env: Env, peer: string, x: string, chain: string, depth: nat)
    requires depth >= 1 && |Chain(env, chain)| < depth
    ensures Resolve(env, peer, chain, depth) == peer
    ensures var before, after := Chain(env, x), Chain(env, chain);
            Resolve(env, peer, x + "," + chain, depth) ==
            if |before| + |after| < depth then peer
            else if env.proxiesConfigured && Unlisted(env, after) > 0 then OrPeer(RightToLeft(env, after), peer)
            else OrPeer(Selected(env, before, depth - |after|), peer)
  {
    hide Chain, Selected, Unlisted, RightToLeft;
    var before, after := Chain(env, x), Chain(env, chain);
    ChainConcat(env, x, chain);
    assert |x + "," + chain| > 0;
    if |before| + |after| >= depth {
      ShortSuffix(env, before, after, depth);
    }
  }

  lemma ShortSuffix(env: Env, before: seq<string>, after: seq<string>, depth: nat)
    requires |after| < depth <= |before| + |after|
    ensures Selected(env, before + after, depth) ==
            if env.proxiesConfigured && Unlisted(env, after) > 0 then RightToLeft(env, after)
            else Selected(env, before, depth - |after|)
  {
    hide Unlisted, RightToLeft, Address;
    var k := |before| + |after| - depth;
    var right := before[k + 1..];
    assert (before + after)[|before + after| - depth + 1..] == right + after;
    UnlistedConcat(env, right, after);
    if Unlisted(env, after) > 0 {
      RightmostInSuffix(env, before, after);
    } else {
      ListedSuffix(env, before, after);
    }
  }

  lemma {:induction false} UnlistedConcat(env: Env, a: seq<string>, b: seq<string>)
    ensures Unlisted(env, a + b) == Unlisted(env, a) + Unlisted(env, b)
    decreases |b|
  {
    hide Listed;
    if b == [] {
      assert a + b == a;
    } else {
      var n := |b| - 1;
      assert (a + b)[..|a| + n] == a + b[..n];
      assert (a + b)[|a + b| - 1] == b[n];
      UnlistedConcat(env, a, b[..n]);
    }
  }

  /** Configured proxies at the end are walked over. */
  lemma {:induction false} ListedSuffix(env: Env, before: seq<string>, after: seq<string>)
    requires Unlisted(env, after) == 0
    ensures RightToLeft(env, before + after) == RightToLeft(env, before)
    decreases |after|
  {
    hide Address, Listed;
    if after == [] {
      assert before + after == before;
    } else {
      var n := |after| - 1;
      assert (before + after)[..|before| + n] == before + after[..n];
      assert (before + after)[|before + after| - 1] == after[n];
      ListedSuffix(env, before, after[..n]);
    }
  }

  /** One entry in front of a chain of configured proxies that is one entry short is the client. */
  lemma PrefixCounts(env: Env, peer: string, first: string, chain: string, depth: nat)
    requires depth == |Chain(env, chain)| + 1 && Chain(env, first) == [first] && Address(env, first).Some?
    requires !env.proxiesConfigured || Unlisted(env, Chain(env, chain)) == 0
    ensures Resolve(env, peer, chain, depth) == peer
    ensures Resolve(env, peer, first + "," + chain, depth) == Address(env, first).value
  {
    hide Chain, Address, Resolve;
    ShortChain(env, peer, first, chain, depth);
  }

  // ---------------------------------------------------------------- one identity for a request

  class RequestState {
    var clientIP: string

    constructor ()
      ensures clientIP == ""
    {
      clientIP := "";
    }

    /** The first resolution is kept: whatever is asked later, the request keeps its identity. */
    method ExtractClientIP(
      env: Env, host: string, forwardedFor: string, depth: nat, unixSocket: bool)
      returns (client: string)
      requires depth >= 1
      modifies this
      ensures old(clientIP) != "" ==> client == old(clientIP) == clientIP
      ensures old(clientIP) == "" ==>
                client == if host == "" then if unixSocket then Resolve(env, "unknown", forwardedFor, depth) else ""
                          else if !env.proxiesConfigured || !env.trusted(host) then env.canonical(host)
                          else Resolve(env, env.canonical(host), forwardedFor, depth)
      ensures clientIP == if old(clientIP) == "" && host != "" && env.proxiesConfigured then client else old(clientIP)
    {
      if clientIP != "" {
        return clientIP;
      }
      if host == "" {
        if unixSocket {
          client := ResolveClientIP(env, "unknown", forwardedFor, depth);
          return;
        }
        return "";
      }
      var peer := env.canonical(host);
      if !env.proxiesConfigured {
        return peer;
      }
      if !env.trusted(host) {
        clientIP := peer;
        return peer;
      }
      client := ResolveClientIP(env, peer, forwardedFor, depth);
      clientIP := client;
    }
  }
}
