/** The loops of internal/config/validate.go over servers, groups and slots. */
module PortLoops {
  import opened Common
  import opened Ordering
  import opened Ports
  import opened PortProblems

  ghost predicate Tracks(m: map<int, Claim>, claims: seq<Claim>) {
    forall p :: FirstAt(claims, p) == if p in m then Some(m[p]) else None
  }

  method NamesOf<V>(m: map<string, V>) returns (names: seq<string>)
    ensures Sorted(names) && Lists(names, m)
  {
    names := SortedNames(m.Keys);
    assert forall n :: n in names <==> n in Elements(names);
  }

  /** The problems found, with the names in sorted order. */
  ghost predicate ReportsServers(servers: map<string, int>, errs: seq<Problem>) {
    exists names :: Sorted(names) && Lists(names, servers) && errs == ServerProblems(servers, names)
  }

  ghost predicate ReportsGroups(servers: map<string, int>, groups: map<string, Group>, errs: seq<Problem>) {
    exists names, owners :: Sorted(names) && Lists(names, groups) && OwnersOf(Known(servers, owners))
      && errs == GroupProblems(Known(servers, owners), groups, names)
  }

  /** Exactly the problems that the servers have, in order of their names. */
  method ValidateServers(servers: map<string, int>) returns (errs: seq<Problem>)
    ensures forall p :: p in errs <==> ServerDue(servers, p)
    ensures Ordered(errs)
    ensures ReportsServers(servers, errs)
  {
    var order := NamesOf(servers);
    errs := ValidateNamedServers(servers, order);
    ServersInOrder(servers, order);
    forall p
      ensures p in errs <==> ServerDue(servers, p)
    {
      ServersReported(servers, order, p);
    }
  }

  method ValidateNamedServers(servers: map<string, int>, order: seq<string>) returns (errs: seq<Problem>)
    requires forall n | n in order :: n in servers
    ensures errs == ServerProblems(servers, order)
  {
    errs := [];
    var portOwners: map<int, string> := map[];
    for i := 0 to |order|
      invariant errs == ServerProblems(servers, order[..i])
      invariant forall p | p > 0 :: FirstOwner(servers, order[..i], p) == if p in portOwners then Some(portOwners[p]) else None
    {
      var name := order[i];
      var port := servers[name];
      assert order[..i + 1][..i] == order[..i];
      var owner := if port in portOwners then Some(portOwners[port]) else None;
      errs := errs + (RangeProblem(name, port) + OwnerProblem(name, port, owner));
      if port > 0 && port !in portOwners {
        portOwners := portOwners[port := name];
      }
    }
    assert order[..|order|] == order;
  }

  /** The positive ports of the declared servers, each with the first owner met. */
  method ServerPorts(servers: map<string, int>) returns (owners: map<int, string>)
    ensures OwnersOf(Known(servers, owners))
  {
    owners := map[];
    var todo := servers.Keys;
    while todo != {}
      invariant todo <= servers.Keys
      invariant forall p :: p in owners <==> p > 0 && exists n :: n in servers && n !in todo && servers[n] == p
      invariant forall p | p in owners :: owners[p] in servers && servers[owners[p]] == p
    {
      var name :| name in todo;
      if servers[name] > 0 && servers[name] !in owners { owners := owners[servers[name] := name]; }
      todo := todo - {name};
    }
  }

  /** Reports what a claim collides with, and records it if no claim had the port. */
  method TakePort(known: Known, groupPorts: map<int, Claim>, c: Claim, ghost before: seq<Claim>)
    returns (found: seq<Problem>, now: map<int, Claim>)
    requires c.port > 0 && Tracks(groupPorts, before)
    ensures found == ClaimProblems(known, before, c)
    ensures Tracks(now, before + [c])
  {
    found := [];
    if c.port in known.owners { found := found + [TakenByServer(c, known.owners[c.port])]; }
    assert (before + [c])[..|before|] == before;
    assert FirstAt(before, c.port) == if c.port in groupPorts then Some(groupPorts[c.port]) else None;
    if c.port in groupPorts {
      found := found + [TakenByClaim(c, groupPorts[c.port])];
      now := groupPorts;
    } else {
      now := groupPorts[c.port := c];
    }
  }

  method TakeSlots(known: Known, groupPorts: map<int, Claim>, n: string, g: Group,
                   ghost before: seq<Claim>)
    returns (found: seq<Problem>, now: map<int, Claim>)
    requires Tracks(groupPorts, before)
    ensures found == SlotProblems(known, before, n, g, SlotCount(g))
    ensures Tracks(now, before + SlotClaims(n, g, SlotCount(g)))
  {
    found, now := [], groupPorts;
    assert before + [] == before;
    if g.basePort > 0 && g.count >= 2 {
      for i := 0 to g.count
        invariant found == SlotProblems(known, before, n, g, i)
        invariant Tracks(now, before + SlotClaims(n, g, i))
      {
        var more;
        more, now := TakeSlot(known, now, n, g, i + 1, before + SlotClaims(n, g, i));
        SlotClaimsSnoc(before, n, g, i + 1);
        found := found + more;
      }
    }
  }

  method TakeSlot(known: Known, groupPorts: map<int, Claim>, n: string, g: Group, k: nat,
                  ghost taken: seq<Claim>)
    returns (found: seq<Problem>, now: map<int, Claim>)
    requires k > 0 && g.basePort > 0 && Tracks(groupPorts, taken)
    ensures found == OneSlotProblems(known, taken, n, g, k)
    ensures Tracks(now, taken + [SlotClaim(n, g, k)])
  {
    found, now := TakePort(known, groupPorts, SlotClaim(n, g, k), taken);
    if g.template != "" {
      if SynthName(g.template, k) in known.servers {
        found := found + [NameTaken(n, k, SynthName(g.template, k))];
      }
    }
  }

  /**
   * Exactly the problems that the groups have, in order of their names; of several
   * servers on a claimed port one is named.
   */
  ghost predicate TellsGroups(servers: map<string, int>, groups: map<string, Group>, errs: seq<Problem>) {
    && (forall p: Problem | !p.TakenByServer? :: p in errs <==> GroupDue(servers, groups, p))
    && (forall p | p in errs :: GroupDue(servers, groups, p))
    && (forall c | Wants(groups, c) && ServerHas(servers, c.port) ::
          exists server :: TakenByServer(c, server) in errs && forall s | TakenByServer(c, s) in errs :: s == server)
    && Ordered(errs)
  }

  /** The problem is due, and of the servers on a port the recorded owner is named. */
  ghost predicate Told(known: Known, groups: map<string, Group>, p: Problem) {
    GroupDue(known.servers, groups, p) && (p.TakenByServer? ==> p.claim.port in known.owners && known.owners[p.claim.port] == p.server)
  }

  lemma NamesOneServer(known: Known, groups: map<string, Group>, errs: seq<Problem>, c: Claim)
    requires OwnersOf(known) && Wants(groups, c) && ServerHas(known.servers, c.port)
    requires forall p :: p in errs <==> Told(known, groups, p)
    ensures exists server :: TakenByServer(c, server) in errs && forall s | TakenByServer(c, s) in errs :: s == server
  {
    assert Told(known, groups, TakenByServer(c, known.owners[c.port]));
    forall s | TakenByServer(c, s) in errs
      ensures s == known.owners[c.port]
    {
      assert Told(known, groups, TakenByServer(c, s));
    }
  }

  lemma TellsIf(known: Known, groups: map<string, Group>, errs: seq<Problem>)
    requires OwnersOf(known) && Ordered(errs) && forall p :: p in errs <==> Told(known, groups, p)
    ensures TellsGroups(known.servers, groups, errs)
  {
    hide GroupDue, Ordered, OwnersOf, Wants, ServerHas;
    forall c | Wants(groups, c) && ServerHas(known.servers, c.port)
      ensures exists server :: TakenByServer(c, server) in errs && forall s | TakenByServer(c, s) in errs :: s == server
    {
      NamesOneServer(known, groups, errs, c);
    }
  }

  lemma GroupsTell(known: Known, groups: map<string, Group>, names: seq<string>)
    requires OwnersOf(known) && Sorted(names) && Lists(names, groups)
    ensures TellsGroups(known.servers, groups, GroupProblems(known, groups, names))
  {
    hide GroupProblems, TellsGroups;
    var errs := GroupProblems(known, groups, names);
    GroupsInOrder(known, groups, names);
    forall p
      ensures p in errs <==> Told(known, groups, p)
    {
      GroupsReported(known, groups, names, p);
    }
    TellsIf(known, groups, errs);
  }

  method ValidateSlotGroups(servers: map<string, int>, groups: map<string, Group>) returns (errs: seq<Problem>)
    ensures TellsGroups(servers, groups, errs)
    ensures ReportsGroups(servers, groups, errs)
  {
    if groups == map[] {
      NoGroups(servers);
      return [];
    }
    var owners := ServerPorts(servers);
    var order := NamesOf(groups);
    errs := ValidateNamedGroups(Known(servers, owners), groups, order);
    GroupsTell(Known(servers, owners), groups, order);
  }

  /** Every configuration has owners for its ports. */
  lemma AnyOwners(servers: map<string, int>) returns (owners: map<int, string>)
    ensures OwnersOf(Known(servers, owners))
  {
    var ports := set n | n in servers && servers[n] > 0 :: servers[n];
    owners := map p | p in ports :: OwnerOf(servers, p);
  }

  ghost function OwnerOf(servers: map<string, int>, port: int): (n: string)
    requires ServerHas(servers, port)
    ensures n in servers && servers[n] == port
  {
    var n :| n in servers && servers[n] == port;
    n
  }

  lemma NoGroups(servers: map<string, int>)
    ensures ReportsGroups(servers, map[], [])
  {
    var names: seq<string> := [];
    var groups: map<string, Group> := map[];
    var owners := AnyOwners(servers);
    assert Sorted(names) && Lists(names, groups) && GroupProblems(Known(servers, owners), groups, names) == [];
  }

  /**
   * The two validators together: they are silent, and no group has a negative port,
   * exactly on sane configurations.
   */
  method ValidatePorts(servers: map<string, int>, groups: map<string, Group>) returns (errs: seq<Problem>)
    ensures errs == [] && NonNegative(groups) <==> Sane(servers, groups)
  {
    var serverErrs := ValidateServers(servers);
    var groupErrs := ValidateSlotGroups(servers, groups);
    ghost var serverNames :| Sorted(serverNames) && Lists(serverNames, servers) && serverErrs == ServerProblems(servers, serverNames);
    ghost var groupNames, owners :| Sorted(groupNames) && Lists(groupNames, groups) && OwnersOf(Known(servers, owners))
      && groupErrs == GroupProblems(Known(servers, owners), groups, groupNames);
    QuietMeansSane(Known(servers, owners), groups, serverNames, groupNames);
    BothEmpty(serverErrs, groupErrs);
    errs := serverErrs + groupErrs;
  }

  method ValidateNamedGroups(known: Known, groups: map<string, Group>, order: seq<string>)
    returns (errs: seq<Problem>)
    requires forall n | n in order :: n in groups
    ensures errs == GroupProblems(known, groups, order)
  {
    errs := [];
    var groupPorts: map<int, Claim> := map[];
    for i := 0 to |order|
      invariant errs == GroupProblems(known, groups, order[..i])
      invariant Tracks(groupPorts, Claims(groups, order[..i]))
    {
      assert order[..i + 1][..i] == order[..i];
      var found;
      found, groupPorts := ValidateGroup(known, groupPorts, order[i], groups[order[i]], Claims(groups, order[..i]));
      errs := errs + found;
    }
    assert order[..|order|] == order;
  }

  method ValidateGroup(known: Known, groupPorts: map<int, Claim>, name: string, group: Group,
                       ghost before: seq<Claim>)
    returns (errs: seq<Problem>, now: map<int, Claim>)
    requires Tracks(groupPorts, before)
    ensures errs == OneGroupProblems(known, before, name, group)
    ensures Tracks(now, before + GroupClaims(name, group))
  {
    var listener, slots;
    listener, now := TakeListener(known, groupPorts, name, group, before);
    ghost var between := before + ListenerClaims(name, group);
    slots, now := TakeSlots(known, now, name, group, between);
    assert between + SlotClaims(name, group, SlotCount(group)) == before + GroupClaims(name, group);
    errs := FieldProblems(name, group) + listener + slots;
  }

  method TakeListener(known: Known, groupPorts: map<int, Claim>, n: string, g: Group,
                      ghost before: seq<Claim>)
    returns (found: seq<Problem>, now: map<int, Claim>)
    requires Tracks(groupPorts, before)
    ensures found == ListenerProblems(known, before, n, g)
    ensures Tracks(now, before + ListenerClaims(n, g))
  {
    if g.groupPort > 0 {
      found, now := TakePort(known, groupPorts, Claim(Listener(n), g.groupPort), before);
    } else {
      found, now := [], groupPorts;
      assert before + [] == before;
    }
  }
}
