/** The allow-list rules an administrator edits, and the middleware that enforces them:
  * app/security/service.py and app/security/middleware.py. */
module IpRules {
  import opened Wrappers
  import opened IpAddresses
  import opened ClientIp

  type RuleId = nat

  datatype Rule = Rule(cidr: Network, enabled: bool)

  type Rules = map<RuleId, Rule>

  datatype Settings = Settings(allowlistEnabled: bool, failClosed: bool, bypass: seq<Network>)

  predicate ValidSettings(s: Settings) {
    ValidNetworks(s.bypass)
  }

  /** Stored networks are normalised; the CIDR column is unique. */
  predicate ValidRules(rules: Rules) {
    && (forall id :: id in rules ==> rules[id].cidr.Valid() && NormalizeNetwork(rules[id].cidr) == rules[id].cidr)
    && (forall id, other :: id in rules && other in rules && rules[id].cidr == rules[other].cidr ==> id == other)
  }

  predicate Stored(rules: Rules, cidr: Network) {
    exists id :: id in rules && rules[id].cidr == cidr
  }

  // ---- Enforcement ------------------------------------------------------------------------

  /** Some enabled rule's network contains the address. */
  predicate Matches(rules: Rules, ip: Address)
    requires ValidRules(rules)
  {
    exists id :: id in rules && rules[id].enabled && rules[id].cidr.Contains(ip)
  }

  predicate Bypasses(s: Settings, ip: Option<Address>)
    requires ValidSettings(s)
  {
    ip.Some? && InNetworks(ip.value, s.bypass)
  }

  /** Whether the middleware lets a request through. */
  predicate Admits(s: Settings, rules: Rules, ip: Option<Address>, databaseUp: bool)
    requires ValidSettings(s) && ValidRules(rules)
  {
    || !s.allowlistEnabled
    || Bypasses(s, ip)
    || (if databaseUp then ip.Some? && Matches(rules, ip.value) else !s.failClosed)
  }

  /** With the allow-list off everybody is admitted, and so is a bypassing address; otherwise the rules
    * decide, or the failure policy if they cannot be read. */
  lemma AdmitsIff(s: Settings, rules: Rules, ip: Option<Address>)
    requires ValidSettings(s) && ValidRules(rules)
    ensures Admits(s, rules, ip, true) <==>
              || !s.allowlistEnabled
              || exists a :: ip == Some(a) && ((exists n :: n in s.bypass && n.Contains(a))
                                               || (exists id :: id in rules && rules[id].enabled && rules[id].cidr.Contains(a)))
    ensures Admits(s, rules, ip, false) <==>
              !s.allowlistEnabled || !s.failClosed || exists a :: ip == Some(a) && exists n :: n in s.bypass && n.Contains(a)
  {
    if ip.Some? { InNetworksIff(ip.value, s.bypass); }
  }

  lemma InNetworksIff(a: Address, networks: seq<Network>)
    requires ValidNetworks(networks)
    ensures InNetworks(a, networks) <==> exists n :: n in networks && n.Contains(a)
  {
    if n :| n in networks && n.Contains(a) {
      var i :| 0 <= i < |networks| && networks[i] == n;
    }
  }

  // ---- Changes ----------------------------------------------------------------------------

  datatype Outcome = Done | Conflict | NotFound

  datatype Change =
    | Create(id: RuleId, cidr: Network, enabled: bool)
    | Update(id: RuleId, newCidr: Option<Network>, newEnabled: Option<bool>, actor: Option<Address>)
    | Delete(id: RuleId, actor: Option<Address>)

  predicate ValidChange(change: Change) {
    match change
    case Create(_, cidr, _) => cidr.Valid()
    case Update(_, cidr, _, _) => cidr.Some? ==> cidr.value.Valid()
    case Delete(_, _) => true
  }

  /** The rules once the change has been made. */
  function Changed(rules: Rules, change: Change): Rules
    requires ValidChange(change) && ValidRules(rules) && (!change.Create? ==> change.id in rules)
  {
    match change
    case Create(id, cidr, enabled) =>
      rules[id := Rule(NormalizeNetwork(cidr), enabled)]
    case Update(id, cidr, enabled, _) =>
      rules[id := Rule(if cidr.Some? then NormalizeNetwork(cidr.value) else rules[id].cidr,
                       if enabled.Some? then enabled.value else rules[id].enabled)]
    case Delete(id, _) => rules - {id}
  }

  /** What a change answers, told from the rules it would leave: a network is stored once, and
    * whoever edits or deletes a rule must still be admitted afterwards. */
  ghost function Verdict(s: Settings, rules: Rules, change: Change): Outcome
    requires ValidSettings(s) && ValidRules(rules) && ValidChange(change)
  {
    if change.Create? then
      if Stored(rules, NormalizeNetwork(change.cidr)) then Conflict else Done
    else if change.id !in rules then NotFound
    else if ValidRules(Changed(rules, change)) && Admits(s, Changed(rules, change), change.actor, true) then Done
    else Conflict
  }

  /** The address passes the rules beside this one, or this one. */
  ghost predicate PassesWith(s: Settings, rules: Rules, id: RuleId, cidr: Network, enabled: bool, ip: Option<Address>)
    requires ValidSettings(s) && ValidRules(rules) && cidr.Valid()
  {
    exists a :: ip == Some(a) &&
      (|| (exists n :: n in s.bypass && n.Contains(a))
       || (enabled && cidr.Contains(a))
       || (exists other :: other in rules && other != id && rules[other].enabled && rules[other].cidr.Contains(a)))
  }

  /** When an edit is made: its network is no other rule's, and the acting address passes the rules that
    * remain with the edited one among them. */
  lemma UpdateIff(s: Settings, rules: Rules, id: RuleId, cidr: Option<Network>, enabled: Option<bool>, actor: Option<Address>)
    requires ValidSettings(s) && ValidRules(rules) && (cidr.Some? ==> cidr.value.Valid()) && id in rules
    ensures var next := if cidr == None then rules[id].cidr else NormalizeNetwork(cidr.value);
            var on := if enabled == None then rules[id].enabled else enabled.value;
            Verdict(s, rules, Update(id, cidr, enabled, actor)).Done? <==>
              && (forall other :: other in rules && other != id ==> rules[other].cidr != next)
              && (s.allowlistEnabled ==> PassesWith(s, rules, id, next, on, actor))
  {
    var change := Update(id, cidr, enabled, actor);
    var rule := Changed(rules, change)[id];
    UpdatedRulesValidIff(rules, id, rule);
    if cidr.Some? { NormalizeNetworkTwice(cidr.value); }
    if actor.Some? {
      InNetworksIff(actor.value, s.bypass);
      RetargetedMatches(rules, id, rule, actor.value);
      OthersMatch(rules, id, actor.value);
    }
  }

  lemma UpdatedRulesValidIff(rules: Rules, id: RuleId, rule: Rule)
    requires ValidRules(rules) && id in rules && rule.cidr.Valid() && NormalizeNetwork(rule.cidr) == rule.cidr
    ensures ValidRules(rules[id := rule]) <==> forall other :: other in rules && other != id ==> rules[other].cidr != rule.cidr
  {
    var changed := rules[id := rule];
    if ValidRules(changed) {
      assert forall other :: other in rules && other != id ==> other in changed && changed[other] == rules[other];
      assert changed[id] == rule;
    }
  }

  lemma OthersMatch(rules: Rules, id: RuleId, a: Address)
    requires ValidRules(rules)
    ensures Matches(rules - {id}, a) <==>
              exists other :: other in rules && other != id && rules[other].enabled && rules[other].cidr.Contains(a)
  {
    var left := rules - {id};
    if other :| other in rules && other != id && rules[other].enabled && rules[other].cidr.Contains(a) {
      assert other in left && left[other] == rules[other];
    }
  }

  /** When a rule is deleted: the acting address passes the others. */
  lemma DeleteIff(s: Settings, rules: Rules, id: RuleId, actor: Option<Address>)
    requires ValidSettings(s) && ValidRules(rules) && id in rules
    ensures Verdict(s, rules, Delete(id, actor)).Done? <==>
              (s.allowlistEnabled ==> PassesWith(s, rules, id, rules[id].cidr, false, actor))
  {
    if actor.Some? {
      InNetworksIff(actor.value, s.bypass);
      OthersMatch(rules, id, actor.value);
    }
  }

  class IpSecurityService {
    const settings: Settings
    var rules: Rules

    ghost predicate Valid()
      reads this
    {
      ValidSettings(settings) && ValidRules(rules)
    }

    constructor (settings: Settings)
      requires ValidSettings(settings)
      ensures this.settings == settings && rules == map[] && Valid()
    {
      this.settings := settings;
      rules := map[];
    }

    /** `create_rule`, whose row gets an unused identifier. */
    method CreateRule(id: RuleId, cidr: Network, enabled: bool) returns (outcome: Outcome)
      requires Valid() && cidr.Valid() && id !in rules
      modifies this
      ensures Valid() && outcome == Verdict(settings, old(rules), Create(id, cidr, enabled))
      ensures outcome.Done? <==> forall other :: other in old(rules) ==> old(rules)[other].cidr != NormalizeNetwork(cidr)
      ensures rules == if outcome.Done? then old(rules)[id := Rule(NormalizeNetwork(cidr), enabled)] else old(rules)
    {
      var normalized := NormalizeNetwork(cidr);
      if Stored(rules, normalized) {
        return Conflict;
      }
      NormalizeNetworkTwice(cidr);
      rules := rules[id := Rule(normalized, enabled)];
      return Done;
    }

    method UpdateRule(id: RuleId, cidr: Option<Network>, enabled: Option<bool>, currentIp: Option<Address>)
      returns (outcome: Outcome)
      requires Valid() && (cidr.Some? ==> cidr.value.Valid())
      modifies this
      ensures Valid() && outcome == Verdict(settings, old(rules), Update(id, cidr, enabled, currentIp))
      ensures outcome.NotFound? <==> id !in old(rules)
      ensures var was := old(rules);
              outcome.Done? ==>
                && id in was && id in rules && rules == was[id := rules[id]]
                && rules[id].cidr == (if cidr == None then was[id].cidr else NormalizeNetwork(cidr.value))
                && rules[id].enabled == (if enabled == None then was[id].enabled else enabled.value)
      ensures !outcome.Done? ==> rules == old(rules)
    {
      if id !in rules {
        return NotFound;
      }
      var rule := rules[id];
      var nextCidr := if cidr.Some? then NormalizeNetwork(cidr.value) else rule.cidr;
      ghost var change := Update(id, cidr, enabled, currentIp);
      if nextCidr != rule.cidr {
        if Stored(rules, nextCidr) {
          DuplicateIsInvalid(rules, change);
          return Conflict;
        }
      }
      var nextEnabled := if enabled.Some? then enabled.value else rule.enabled;
      UpdateStaysValid(rules, change);
      var safe := GuardLockout(id, currentIp, nextCidr, nextEnabled);
      if !safe {
        return Conflict;
      }
      rules := rules[id := Rule(nextCidr, nextEnabled)];
      return Done;
    }

    method DeleteRule(id: RuleId, currentIp: Option<Address>) returns (outcome: Outcome)
      requires Valid()
      modifies this
      ensures Valid() && outcome == Verdict(settings, old(rules), Delete(id, currentIp))
      ensures outcome.NotFound? <==> id !in old(rules)
      ensures rules == if outcome.Done? then old(rules) - {id} else old(rules)
    {
      if id !in rules {
        return NotFound;
      }
      var safe := GuardLockout(id, currentIp, rules[id].cidr, false);
      if !safe {
        return Conflict;
      }
      rules := rules - {id};
      return Done;
    }

    /** `_guard_lockout`: it lists the networks that would remain and looks the address up in them.
      * It accepts exactly when enforcement would admit that address under the new rules. */
    method GuardLockout(id: RuleId, currentIp: Option<Address>, targetCidr: Network, targetEnabled: bool)
      returns (safe: bool)
      requires Valid() && targetCidr.Valid() && NormalizeNetwork(targetCidr) == targetCidr && id in rules
      ensures !targetEnabled ==> safe == Admits(settings, rules - {id}, currentIp, true)
      ensures var changed := rules[id := Rule(targetCidr, targetEnabled)];
              ValidRules(changed) ==> safe == Admits(settings, changed, currentIp, true)
    {
      if !settings.allowlistEnabled {
        return true;
      }
      if currentIp.Some? && InNetworks(currentIp.value, settings.bypass) {
        return true;
      }
      if currentIp.None? {
        return false;
      }
      var networks := EnabledNetworks(id);
      RemainingMatches(rules, id, networks, currentIp.value);
      RetargetedMatches(rules, id, Rule(targetCidr, targetEnabled), currentIp.value);
      InMore(networks, targetCidr, currentIp.value);
      if targetEnabled {
        networks := networks + [NormalizeNetwork(targetCidr)];
      }
      return InNetworks(currentIp.value, networks);
    }

    /** The networks of the enabled rules but one, in some order. */
    method EnabledNetworks(except: RuleId) returns (networks: seq<Network>)
      requires Valid()
      ensures ValidNetworks(networks)
      ensures forall n :: n in networks <==>
                            exists id :: id in rules && id != except && rules[id].enabled && rules[id].cidr == n
    {
      networks := [];
      var left := rules.Keys;
      while left != {}
        invariant left <= rules.Keys && ValidNetworks(networks)
        invariant forall n :: n in networks <==> exists id :: id in rules && id !in left && id != except
                                                              && rules[id].enabled && rules[id].cidr == n
        decreases |left|
      {
        var id :| id in left;
        left := left - {id};
        if id != except && rules[id].enabled {
          networks := networks + [NormalizeNetwork(rules[id].cidr)];
        }
      }
    }

    /** `_enforce_allowlist`; it is only asked when the allow-list is on. */
    method EnforceAllowlist(clientIp: Option<Address>, databaseUp: bool) returns (admitted: bool)
      requires Valid() && settings.allowlistEnabled
      ensures admitted == Admits(settings, rules, clientIp, databaseUp)
      ensures clientIp.Some? && InNetworks(clientIp.value, settings.bypass) ==> admitted
      ensures !(clientIp.Some? && InNetworks(clientIp.value, settings.bypass)) ==>
                admitted == if databaseUp then
                              clientIp.Some? && exists id :: id in rules && rules[id].enabled && rules[id].cidr.Contains(clientIp.value)
                            else !settings.failClosed
    {
      if clientIp.Some? && InNetworks(clientIp.value, settings.bypass) {
        return true;
      }
      if !databaseUp {
        return !settings.failClosed;
      }
      return clientIp.Some? && Matches(rules, clientIp.value);
    }
  }

  lemma RemainingMatches(rules: Rules, except: RuleId, networks: seq<Network>, ip: Address)
    requires ValidRules(rules) && ValidNetworks(networks)
    requires forall n :: n in networks <==>
                           exists id :: id in rules && id != except && rules[id].enabled && rules[id].cidr == n
    ensures InNetworks(ip, networks) <==> Matches(rules - {except}, ip)
  {
    var left := rules - {except};
    if InNetworks(ip, networks) {
      var i :| 0 <= i < |networks| && networks[i].Contains(ip);
      assert networks[i] in networks;
      var id :| id in rules && id != except && rules[id].enabled && rules[id].cidr == networks[i];
      assert id in left && left[id].cidr.Contains(ip);
    }
    if Matches(left, ip) {
      var id :| id in left && left[id].enabled && left[id].cidr.Contains(ip);
      assert rules[id].cidr in networks;
    }
  }

  lemma RetargetedMatches(rules: Rules, id: RuleId, rule: Rule, ip: Address)
    requires ValidRules(rules) && rule.cidr.Valid()
    ensures ValidRules(rules[id := rule]) ==>
              (Matches(rules[id := rule], ip) <==> Matches(rules - {id}, ip) || (rule.enabled && rule.cidr.Contains(ip)))
  {
    var changed, left := rules[id := rule], rules - {id};
    assert forall other :: other in left ==> other in changed && changed[other] == left[other];
    assert changed[id] == rule;
  }

  lemma InMore(networks: seq<Network>, more: Network, ip: Address)
    requires ValidNetworks(networks) && more.Valid()
    ensures InNetworks(ip, networks + [more]) <==> InNetworks(ip, networks) || more.Contains(ip)
  {
    var all := networks + [more];
    assert forall i :: 0 <= i < |networks| ==> all[i] == networks[i];
    assert all[|networks|] == more;
  }

  lemma DuplicateIsInvalid(rules: Rules, change: Change)
    requires ValidRules(rules) && ValidChange(change) && change.Update? && change.id in rules
    requires var next := Changed(rules, change)[change.id].cidr; next != rules[change.id].cidr && Stored(rules, next)
    ensures !ValidRules(Changed(rules, change))
  {
    var changed := Changed(rules, change);
    var id :| id in rules && rules[id].cidr == changed[change.id].cidr;
    assert id in changed && changed[id].cidr == changed[change.id].cidr;
  }

  lemma UpdateStaysValid(rules: Rules, change: Change)
    requires ValidRules(rules) && ValidChange(change) && change.Update? && change.id in rules
    requires var next := Changed(rules, change)[change.id].cidr; next == rules[change.id].cidr || !Stored(rules, next)
    ensures ValidRules(Changed(rules, change))
  {
    if change.newCidr.Some? { NormalizeNetworkTwice(change.newCidr.value); }
  }

  // ---- Whole runs -------------------------------------------------------------------------

  ghost function Apply(s: Settings, rules: Rules, change: Change): Rules
    requires ValidSettings(s) && ValidRules(rules) && ValidChange(change)
  {
    if Verdict(s, rules, change).Done? then Changed(rules, change) else rules
  }

  ghost predicate Possible(s: Settings, rules: Rules, changes: seq<Change>)
    requires ValidSettings(s)
    decreases |changes|
  {
    ValidRules(rules) &&
    (changes == [] ||
     (&& ValidChange(changes[0])
      && (changes[0].Create? ==> changes[0].id !in rules)
      && Possible(s, Apply(s, rules, changes[0]), changes[1..])))
  }

  ghost function ApplyAll(s: Settings, rules: Rules, changes: seq<Change>): Rules
    requires ValidSettings(s) && Possible(s, rules, changes)
    decreases |changes|
  {
    if changes == [] then rules else ApplyAll(s, Apply(s, rules, changes[0]), changes[1..])
  }

  /** One change keeps the stored networks normalised and distinct. */
  lemma ChangeKeepsRulesValid(s: Settings, rules: Rules, change: Change)
    requires ValidSettings(s) && ValidRules(rules) && ValidChange(change) && (change.Create? ==> change.id !in rules)
    ensures ValidRules(Apply(s, rules, change))
  {
    if change.Create? { NormalizeNetworkTwice(change.cidr); }
  }

  /** A new rule never takes access away. */
  lemma CreateOnlyAdds(s: Settings, rules: Rules, change: Change, ip: Option<Address>)
    requires ValidSettings(s) && ValidRules(rules) && ValidChange(change) && change.Create? && change.id !in rules
    requires Admits(s, rules, ip, true)
    ensures ValidRules(Apply(s, rules, change)) && Admits(s, Apply(s, rules, change), ip, true)
  {
    ChangeKeepsRulesValid(s, rules, change);
    if Verdict(s, rules, change).Done? && ip.Some? && Matches(rules, ip.value) {
      var id :| id in rules && rules[id].enabled && rules[id].cidr.Contains(ip.value);
      assert id in Changed(rules, change) && Changed(rules, change)[id] == rules[id];
    }
  }

  /** An administrator who makes every edit and deletion of a run, however many rules others add
    * meanwhile and whichever changes are refused, is admitted after all of them. */
  lemma {:induction false} NoRunLocksOutItsEditor(s: Settings, rules: Rules, changes: seq<Change>, ip: Option<Address>)
    requires ValidSettings(s) && Possible(s, rules, changes) && Admits(s, rules, ip, true)
    requires forall change :: change in changes ==> change.Create? || change.actor == ip
    ensures ValidRules(ApplyAll(s, rules, changes)) && Admits(s, ApplyAll(s, rules, changes), ip, true)
    decreases |changes|
  {
    if changes != [] {
      assert changes[0] in changes;
      if changes[0].Create? { CreateOnlyAdds(s, rules, changes[0], ip); }
      NoRunLocksOutItsEditor(s, Apply(s, rules, changes[0]), changes[1..], ip);
    }
  }

  /** The guard looks at the acting address only: deleting the one rule that admits somebody else
    * goes through. */
  lemma OthersCanBeLockedOut(mine: Address, theirs: Address)
    requires mine.Valid() && theirs.Valid() && mine.version.V4? && theirs.version.V4? && mine != theirs
    ensures var s := Settings(true, true, []);
            var rules := map[0 := Rule(Network(V4, mine.bits, 32), true), 1 := Rule(Network(V4, theirs.bits, 32), true)];
            var change := Delete(1, Some(mine));
            && ValidRules(rules) && Admits(s, rules, Some(theirs), true) && Verdict(s, rules, change).Done?
            && !Admits(s, Changed(rules, change), Some(theirs), true)
  {
    var s := Settings(true, true, []);
    var rules := map[0 := Rule(Network(V4, mine.bits, 32), true), 1 := Rule(Network(V4, theirs.bits, 32), true)];
    HostNetwork(mine);
    HostNetwork(theirs);
    assert rules[1].enabled && rules[1].cidr.Contains(theirs);
    var left := rules - {1};
    assert left == map[0 := rules[0]] && left[0].cidr.Contains(mine) && !left[0].cidr.Contains(theirs);
  }

  lemma HostNetwork(a: Address)
    requires a.Valid() && a.version.V4?
    ensures Network(V4, a.bits, 32).Valid()
    ensures forall b: Address :: Network(V4, a.bits, 32).Contains(b) <==> b == a
  {
    assert Pow2(0) == 1;
    forall bits: nat ensures Masked(bits, 0) == bits {}
  }
}
