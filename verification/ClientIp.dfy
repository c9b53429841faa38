/** Resolution of the caller's address behind trusted proxies: `TrustedClientIpResolver` of
  * app/security/ip.py.  Reading an address from text is a parameter. */
module ClientIp {
  import opened Wrappers
  import opened IpAddresses
  import opened Text

  type Parser = string -> Option<Address>

  ghost predicate Sound(parse: Parser) {
    forall text: string :: parse(text).Some? ==> parse(text).value.Valid()
  }

  // ---- Header text ------------------------------------------------------------------------

  /** `[part.strip() for part in value.split(",")]`, never empty. */
  function Parts(value: string): (parts: seq<string>)
    ensures |parts| >= 1
  {
    PartsFrom(value, [])
  }

  function PartsFrom(value: string, current: string): (parts: seq<string>)
    ensures |parts| >= 1
    decreases |value|
  {
    if value == [] then [Strip(current)]
    else if value[0] == ',' then [Strip(current)] + PartsFrom(value[1..], [])
    else PartsFrom(value[1..], current + [value[0]])
  }

  function AllParts(values: seq<string>): (parts: seq<string>)
    ensures |parts| >= |values|
  {
    if values == [] then [] else Parts(values[0]) + AllParts(values[1..])
  }

  lemma {:induction false} AllPartsJoins(front: seq<string>, values: seq<string>)
    ensures AllParts(front + values) == AllParts(front) + AllParts(values)
  {
    if front == [] {
      assert front + values == values;
    } else {
      assert (front + values)[1..] == front[1..] + values;
      AllPartsJoins(front[1..], values);
    }
  }

  /** Every part is an address. */
  predicate Parseable(parse: Parser, parts: seq<string>) {
    forall i :: 0 <= i < |parts| ==> parts[i] != "" && parse(parts[i]).Some?
  }

  function Chain(parse: Parser, parts: seq<string>): (chain: seq<Address>)
    requires Sound(parse) && Parseable(parse, parts)
    ensures |chain| == |parts| && forall i :: 0 <= i < |chain| ==> chain[i] == NormalizeIp(parse(parts[i]).value)
    ensures forall a :: a in chain ==> a.Valid()
  {
    seq(|parts|, i requires 0 <= i < |parts| => NormalizeIp(parse(parts[i]).value))
  }

  // ---- The chain --------------------------------------------------------------------------

  predicate ValidNetworks(networks: seq<Network>) {
    forall n :: n in networks ==> n.Valid()
  }

  /** Which hops of a chain are trusted proxies. */
  function Trust(trusted: seq<Network>, chain: seq<Address>): (trust: seq<bool>)
    requires ValidNetworks(trusted)
    ensures |trust| == |chain| && forall i :: 0 <= i < |chain| ==> trust[i] == InNetworks(chain[i], trusted)
  {
    seq(|chain|, i requires 0 <= i < |chain| => InNetworks(chain[i], trusted))
  }

  /** The last hop from the right that no proxy vouches past: everything right of it is trusted,
    * and it is itself untrusted unless it is the leftmost. */
  ghost predicate IsClient(trust: seq<bool>, hop: int) {
    0 <= hop < |trust| && (forall i :: hop < i < |trust| ==> trust[i]) && (hop == 0 || !trust[hop])
  }

  /** The hop a caller is found at, peeling from the right. */
  function ClientOf(trust: seq<bool>): (hop: nat)
    requires trust != []
    ensures IsClient(trust, hop)
  {
    var last := |trust| - 1;
    if last == 0 || !trust[last] then last else ClientOf(trust[..last])
  }

  lemma ClientIsUnique(trust: seq<bool>, hop: int, other: int)
    requires IsClient(trust, hop) && IsClient(trust, other)
    ensures hop == other
  {
    assert !(hop < other);
    assert !(other < hop);
  }

  /** Hops left of an untrusted one are never reached. */
  lemma PrependedHops(front: seq<bool>, trust: seq<bool>)
    requires trust != [] && !trust[ClientOf(trust)]
    ensures ClientOf(front + trust) == |front| + ClientOf(trust)
  {
    var hop, longer := ClientOf(trust), front + trust;
    assert forall i :: |front| <= i < |longer| ==> longer[i] == trust[i - |front|];
    assert IsClient(longer, |front| + hop);
    ClientIsUnique(longer, ClientOf(longer), |front| + hop);
  }

  // ---- The resolver -----------------------------------------------------------------------

  /** The header values that are read: the given ones, else the one found among the headers. */
  function Values(headers: Option<map<string, string>>, forwarded: seq<string>): seq<string> {
    if forwarded != [] then forwarded
    else if headers.None? then []
    else
      var lower := if "x-forwarded-for" in headers.value then headers.value["x-forwarded-for"] else "";
      if lower != "" then [lower]
      else if "X-Forwarded-For" in headers.value then [headers.value["X-Forwarded-For"]]
      else []
  }

  /** The client named by the parts of a chain behind a trusted peer. */
  ghost function ClientIn(trusted: seq<Network>, parse: Parser, parts: seq<string>): (r: Option<Address>)
    requires ValidNetworks(trusted) && Sound(parse) && parts != []
    ensures r.Some? ==> r.value.Valid()
  {
    if Parseable(parse, parts) then
      var chain := Chain(parse, parts);
      Some(chain[ClientOf(Trust(trusted, chain))])
    else None
  }

  ghost function Resolution(trusted: seq<Network>, parse: Parser, peerHost: Option<string>, values: seq<string>)
    : (r: Option<Address>)
    requires ValidNetworks(trusted) && Sound(parse)
    ensures r.Some? ==> r.value.Valid()
  {
    if peerHost.None? || parse(peerHost.value).None? then None
    else
      var peer := NormalizeIp(parse(peerHost.value).value);
      if !InNetworks(peer, trusted) then Some(peer)
      else if values == [] then None
      else ClientIn(trusted, parse, AllParts(values))
  }

  class TrustedClientIpResolver {
    const trusted: seq<Network>

    constructor (cidrs: seq<Network>)
      requires ValidNetworks(cidrs)
      ensures ValidNetworks(trusted) && |trusted| == |cidrs|
      ensures forall i :: 0 <= i < |cidrs| ==> trusted[i] == NormalizeNetwork(cidrs[i])
    {
      trusted := seq(|cidrs|, i requires 0 <= i < |cidrs| => NormalizeNetwork(cidrs[i]));
    }

    method Resolve(parse: Parser, peerHost: Option<string>, headers: Option<map<string, string>>,
                   forwarded: seq<string>)
      returns (client: Option<Address>)
      requires ValidNetworks(trusted) && Sound(parse)
      ensures client == Resolution(trusted, parse, peerHost, Values(headers, forwarded))
    {
      if peerHost.None? || parse(peerHost.value).None? {
        return None;
      }
      var peer := NormalizeIp(parse(peerHost.value).value);
      if !InNetworks(peer, trusted) {
        return Some(peer);
      }
      var values := forwarded;
      if values == [] && headers.Some? {
        var lower := if "x-forwarded-for" in headers.value then headers.value["x-forwarded-for"] else "";
        if lower != "" {
          values := values + [lower];
        } else if "X-Forwarded-For" in headers.value {
          values := values + [headers.value["X-Forwarded-For"]];
        }
      }
      assert values == Values(headers, forwarded);
      if values == [] {
        return None;
      }
      var parts := AllParts(values);
      if !Parseable(parse, parts) {
        return None;
      }
      client := Peel(peer, Chain(parse, parts));
    }

    /** The loop of `resolve` over the chain behind a trusted peer. */
    method Peel(peer: Address, chain: seq<Address>) returns (client: Option<Address>)
      requires ValidNetworks(trusted) && chain != [] && InNetworks(peer, trusted)
      ensures client == Some(chain[ClientOf(Trust(trusted, chain))])
    {
      ghost var trust := Trust(trusted, chain);
      var current, next := peer, |chain|;
      while next > 0
        invariant 0 <= next <= |chain|
        invariant current == if next == |chain| then peer else chain[next]
        invariant forall i :: next < i < |chain| ==> trust[i]
      {
        if !InNetworks(current, trusted) {
          break;
        }
        next := next - 1;
        current := chain[next];
      }
      ClientIsUnique(trust, next, ClientOf(trust));
      return Some(current);
    }
  }

  // ---- What the resolver promises ---------------------------------------------------------

  /** An untrusted peer decides alone; nothing it forwards is read. */
  lemma UntrustedPeerIsTheClient(trusted: seq<Network>, parse: Parser, peerHost: string, values: seq<string>)
    requires ValidNetworks(trusted) && Sound(parse) && parse(peerHost).Some?
    requires !InNetworks(NormalizeIp(parse(peerHost).value), trusted)
    ensures Resolution(trusted, parse, Some(peerHost), values) == Some(NormalizeIp(parse(peerHost).value))
  {
  }

  /** A part that parses. */
  predicate IsAddress(parse: Parser, part: string) {
    part != "" && parse(part).Some?
  }

  /** Behind a trusted peer there is a client exactly when some values were forwarded and every part of them
    * is an address; it is the rightmost that is no proxy, or the leftmost if all are. */
  lemma TrustedPeerIff(trusted: seq<Network>, parse: Parser, peerHost: string, values: seq<string>)
    requires ValidNetworks(trusted) && Sound(parse) && parse(peerHost).Some?
    requires InNetworks(NormalizeIp(parse(peerHost).value), trusted)
    ensures var parts, r := AllParts(values), Resolution(trusted, parse, Some(peerHost), values);
            && (r.Some? <==> values != [] && AllAddresses(parse, parts))
            && (r.Some? ==> NamesClient(trusted, parse, parts, r.value))
  {
    var parts := AllParts(values);
    ParseableIff(parse, parts);
    if values != [] {
      assert Resolution(trusted, parse, Some(peerHost), values) == ClientIn(trusted, parse, parts);
      if Parseable(parse, parts) { ClientInIs(trusted, parse, parts); }
    }
  }

  predicate AllAddresses(parse: Parser, parts: seq<string>) {
    forall part :: part in parts ==> IsAddress(parse, part)
  }

  /** The address is that of the client part. */
  ghost predicate NamesClient(trusted: seq<Network>, parse: Parser, parts: seq<string>, client: Address)
    requires ValidNetworks(trusted) && Sound(parse)
  {
    exists hop :: IsClientPart(trusted, parse, parts, hop) && client == NormalizeIp(parse(parts[hop]).value)
  }

  lemma ClientInIs(trusted: seq<Network>, parse: Parser, parts: seq<string>)
    requires ValidNetworks(trusted) && Sound(parse) && parts != [] && Parseable(parse, parts)
    ensures ClientIn(trusted, parse, parts).Some? && NamesClient(trusted, parse, parts, ClientIn(trusted, parse, parts).value)
  {
    var trust := Trust(trusted, Chain(parse, parts));
    var hop := ClientOf(trust);
    assert IsClient(trust, hop);
    ParseableIff(parse, parts);
    assert IsClientPart(trusted, parse, parts, hop);
  }

  lemma ParseableIff(parse: Parser, parts: seq<string>)
    ensures Parseable(parse, parts) <==> AllAddresses(parse, parts)
  {
    if AllAddresses(parse, parts) {
      forall i | 0 <= i < |parts|
        ensures parts[i] != "" && parse(parts[i]).Some?
      {
        assert parts[i] in parts;
      }
    }
  }

  /** All parts right of this one are trusted proxies, and it is not, unless it is the first. */
  ghost predicate IsClientPart(trusted: seq<Network>, parse: Parser, parts: seq<string>, hop: int)
    requires ValidNetworks(trusted) && Sound(parse)
  {
    && 0 <= hop < |parts| && parse(parts[hop]).Some?
    && (forall i :: hop < i < |parts| ==> parse(parts[i]).Some? && InNetworks(NormalizeIp(parse(parts[i]).value), trusted))
    && (hop == 0 || !InNetworks(NormalizeIp(parse(parts[hop]).value), trusted))
  }

  /** Without a peer, or with one that is no address, there is no client. */
  lemma NoPeerNoClient(trusted: seq<Network>, parse: Parser, peerHost: Option<string>, values: seq<string>)
    requires ValidNetworks(trusted) && Sound(parse) && (peerHost.Some? ==> parse(peerHost.value).None?)
    ensures Resolution(trusted, parse, peerHost, values) == None
  {
  }

  /** A value without a comma is one part, without the blanks around it; `PartsJoin` does the rest. */
  lemma {:induction false} OnePart(value: string)
    requires ',' !in value
    ensures Parts(value) == [Strip(value)]
  {
    OnePartFrom(value, []);
    assert [] + value == value;
  }

  lemma {:induction false} OnePartFrom(value: string, current: string)
    requires ',' !in value
    ensures PartsFrom(value, current) == [Strip(current + value)]
    decreases |value|
  {
    if value == [] {
      assert current + value == current;
    } else {
      assert value[0] in value && forall c :: c in value[1..] ==> c in value;
      OnePartFrom(value[1..], current + [value[0]]);
      assert current + [value[0]] + value[1..] == current + value;
    }
  }

  /** The given values come first; of the headers only X-Forwarded-For is read, under two spellings. */
  lemma ValuesAre(headers: map<string, string>, forwarded: seq<string>)
    ensures forwarded != [] ==> Values(Some(headers), forwarded) == forwarded && Values(None, forwarded) == forwarded
    ensures Values(None, []) == []
    ensures "x-forwarded-for" in headers && headers["x-forwarded-for"] != "" ==>
              Values(Some(headers), []) == [headers["x-forwarded-for"]]
    ensures ("x-forwarded-for" in headers ==> headers["x-forwarded-for"] == "") ==>
              Values(Some(headers), []) == if "X-Forwarded-For" in headers then [headers["X-Forwarded-For"]] else []
  {
  }

  lemma ParseableJoins(parse: Parser, front: seq<string>, parts: seq<string>)
    ensures Parseable(parse, front + parts) <==> Parseable(parse, front) && Parseable(parse, parts)
  {
    var joined := front + parts;
    assert forall i :: 0 <= i < |parts| ==> joined[|front| + i] == parts[i];
    assert forall i :: 0 <= i < |front| ==> joined[i] == front[i];
  }

  lemma ChainJoins(parse: Parser, front: seq<string>, parts: seq<string>)
    requires Sound(parse) && Parseable(parse, front) && Parseable(parse, parts) && Parseable(parse, front + parts)
    ensures Chain(parse, front + parts) == Chain(parse, front) + Chain(parse, parts)
  {
  }

  lemma TrustJoins(trusted: seq<Network>, front: seq<Address>, chain: seq<Address>)
    requires ValidNetworks(trusted)
    ensures Trust(trusted, front + chain) == Trust(trusted, front) + Trust(trusted, chain)
  {
  }

  lemma PrependedChain(trusted: seq<Network>, front: seq<Address>, chain: seq<Address>)
    requires ValidNetworks(trusted) && chain != []
    ensures var was, now := ClientOf(Trust(trusted, chain)), ClientOf(Trust(trusted, front + chain));
            !InNetworks(chain[was], trusted) ==> (front + chain)[now] == chain[was]
  {
    var trust := Trust(trusted, chain);
    TrustJoins(trusted, front, chain);
    if !trust[ClientOf(trust)] { PrependedHops(Trust(trusted, front), trust); }
  }

  lemma PrependedParts(trusted: seq<Network>, parse: Parser, front: seq<string>, parts: seq<string>)
    requires ValidNetworks(trusted) && Sound(parse) && parts != []
    ensures var was, now := ClientIn(trusted, parse, parts), ClientIn(trusted, parse, front + parts);
            && (now.Some? <==> was.Some? && Parseable(parse, front))
            && (now.Some? && !InNetworks(was.value, trusted) ==> now == was)
  {
    ParseableJoins(parse, front, parts);
    if Parseable(parse, front + parts) {
      ChainJoins(parse, front, parts);
      PrependedChain(trusted, Chain(parse, front), Chain(parse, parts));
    }
  }

  /** Whatever parseable values are prepended left of an untrusted hop, the client stays the same;
    * a value that does not parse makes the whole chain unusable. */
  lemma PrependedValues(trusted: seq<Network>, parse: Parser, peerHost: string, front: seq<string>, values: seq<string>)
    requires ValidNetworks(trusted) && Sound(parse) && parse(peerHost).Some? && values != []
    requires InNetworks(NormalizeIp(parse(peerHost).value), trusted)
    ensures var was := Resolution(trusted, parse, Some(peerHost), values);
            var now := Resolution(trusted, parse, Some(peerHost), front + values);
            && (now.Some? <==> was.Some? && Parseable(parse, AllParts(front)))
            && (now.Some? && !InNetworks(was.value, trusted) ==> now == was)
  {
    var parts, more := AllParts(values), AllParts(front);
    AllPartsJoins(front, values);
    PrependedParts(trusted, parse, more, parts);
    assert front + values != [];
  }

  lemma {:induction false} PartsFromJoins(x: string, y: string, current: string)
    ensures PartsFrom(x + "," + y, current) == PartsFrom(x, current) + PartsFrom(y, [])
    decreases |x|
  {
    var all := x + "," + y;
    if x == [] {
      assert all[0] == ',' && all[1..] == y;
    } else {
      assert all[0] == x[0] && all[1..] == x[1..] + "," + y;
      PartsFromJoins(x[1..], y, if x[0] == ',' then [] else current + [x[0]]);
    }
  }

  /** Values joined by a comma in one header read like separate ones. */
  lemma PartsJoin(x: string, y: string)
    ensures Parts(x + "," + y) == Parts(x) + Parts(y)
  {
    PartsFromJoins(x, y, []);
  }

  /** So the same holds of what is prepended to the value of a single header, as proxies do. */
  lemma PrependedInOneValue(trusted: seq<Network>, parse: Parser, peerHost: string, front: string, value: string)
    requires ValidNetworks(trusted) && Sound(parse) && parse(peerHost).Some?
    requires InNetworks(NormalizeIp(parse(peerHost).value), trusted)
    ensures var was := Resolution(trusted, parse, Some(peerHost), [value]);
            var now := Resolution(trusted, parse, Some(peerHost), [front + "," + value]);
            && (now.Some? <==> was.Some? && Parseable(parse, Parts(front)))
            && (now.Some? && !InNetworks(was.value, trusted) ==> now == was)
  {
    OneValue(value);
    OneValue(front + "," + value);
    PartsJoin(front, value);
    PrependedParts(trusted, parse, Parts(front), Parts(value));
  }

  lemma OneValue(value: string)
    ensures AllParts([value]) == Parts(value)
  {
    assert AllParts([value]) == Parts(value) + AllParts([]);
  }
}
