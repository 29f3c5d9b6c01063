/** The port rules of internal/config/validate.go for MCP servers and slot groups. */
module Ports {
  import opened Common
  import opened Ordering

  const MIN_PORT := 6275
  const MAX_PORT := 6325

  datatype Group = Group(template: string, basePort: int, count: int, groupPort: int, defaultsPort: Option<int>)

  /** Who listens on a port: a declared server, a group, or the i-th slot of a group, from 1. */
  datatype Holder = Server(name: string) | Listener(name: string) | SlotOf(name: string, i: int)

  datatype Claim = Claim(holder: Holder, port: int)

  datatype Field = Port | Template | BasePort | GroupPort | Count

  datatype Problem =
    | Missing(section: string, field: Field)
    | OutOfRange(section: string, field: Field, port: int)
    | TooFew(section: string)
    | DefaultsSetPort(section: string)
    | ServerTaken(section: string, port: int, owner: string)
    | TakenByServer(claim: Claim, server: string)
    | TakenByClaim(claim: Claim, first: Claim)
    | NameTaken(section: string, slot: nat, synthName: string)

  function Decimal(n: nat): string {
    (if n < 10 then [] else Decimal(n / 10)) + [('0' as int + n % 10) as char]
  }

  function SynthName(template: string, i: nat): string {
    template + "-" + Decimal(i)
  }

  predicate InRange(port: int) {
    MIN_PORT <= port <= MAX_PORT
  }

  // ---- Declarative rules -------------------------------------------------

  /** h listens on port. */
  predicate Holds(servers: map<string, int>, groups: map<string, Group>, h: Holder, port: int) {
    match h
    case Server(n) => n in servers && port == servers[n]
    case Listener(n) => n in groups && port == groups[n].groupPort
    case SlotOf(n, i) => n in groups && 1 <= i <= groups[n].count && port == groups[n].basePort + i - 1
  }

  ghost predicate InWindow(servers: map<string, int>, groups: map<string, Group>) {
    forall h, p | Holds(servers, groups, h, p) :: InRange(p)
  }

  ghost predicate PairwiseDistinct(servers: map<string, int>, groups: map<string, Group>) {
    forall h, k, p | Holds(servers, groups, h, p) && Holds(servers, groups, k, p) :: h == k
  }

  predicate NameFree(servers: map<string, int>, g: Group, i: nat) {
    SynthName(g.template, i) !in servers
  }

  /** None of the first k synthesized slot names is a declared server. */
  predicate NamesFree(servers: map<string, int>, g: Group, k: nat) {
    forall i: nat | 1 <= i <= k :: NameFree(servers, g, i)
  }

  predicate FieldsSet(g: Group) {
    g.template != "" && g.count >= 2 && !(g.defaultsPort.Some? && g.defaultsPort.value > 0)
  }

  ghost predicate Sane(servers: map<string, int>, groups: map<string, Group>) {
    && InWindow(servers, groups)
    && PairwiseDistinct(servers, groups)
    && (forall n | n in groups :: FieldsSet(groups[n]))
    && (forall n | n in groups :: NamesFree(servers, groups[n], groups[n].count))
  }

  ghost predicate NonNegative(groups: map<string, Group>) {
    forall n | n in groups :: groups[n].basePort >= 0 && groups[n].groupPort >= 0
  }

  // ---- What the validators report ----------------------------------------

  function FirstOwner(servers: map<string, int>, names: seq<string>, port: int): Option<string>
    requires forall n | n in names :: n in servers
  {
    if names == [] then None else
      var prev := FirstOwner(servers, names[..|names| - 1], port);
      if prev.Some? then prev
      else if servers[names[|names| - 1]] == port then Some(names[|names| - 1]) else None
  }

  function RangeProblem(name: string, port: int): seq<Problem> {
    if port == 0 then [Missing(name, Port)]
    else if !InRange(port) then [OutOfRange(name, Port, port)]
    else []
  }

  function OwnerProblem(name: string, port: int, owner: Option<string>): seq<Problem> {
    if port > 0 && owner.Some? then [ServerTaken(name, port, owner.value)] else []
  }

  function OneServerProblems(servers: map<string, int>, before: seq<string>, n: string): seq<Problem>
    requires n in servers && forall m | m in before :: m in servers
  {
    RangeProblem(n, servers[n]) + OwnerProblem(n, servers[n], FirstOwner(servers, before, servers[n]))
  }

  function ServerProblems(servers: map<string, int>, names: seq<string>): seq<Problem>
    requires forall n | n in names :: n in servers
  {
    if names == [] then [] else
      ServerProblems(servers, names[..|names| - 1])
      + OneServerProblems(servers, names[..|names| - 1], names[|names| - 1])
  }

  function RequiredProblems(n: string, g: Group): seq<Problem> {
    (if g.template == "" then [Missing(n, Template)] else [])
    + (if g.basePort == 0 then [Missing(n, BasePort)] else [])
    + (if g.groupPort == 0 then [Missing(n, GroupPort)] else [])
    + (if g.count == 0 then [Missing(n, Count)] else if g.count < 2 then [TooFew(n)] else [])
  }

  function WindowProblems(n: string, g: Group): seq<Problem> {
    (if g.groupPort > 0 && !InRange(g.groupPort) then [OutOfRange(n, GroupPort, g.groupPort)] else [])
    + (if g.basePort > 0 && g.count >= 2 then
         if g.basePort < MIN_PORT then [OutOfRange(n, BasePort, g.basePort)]
         else if g.basePort + g.count - 1 > MAX_PORT then [OutOfRange(n, BasePort, g.basePort + g.count - 1)]
         else []
       else [])
    + (if g.defaultsPort.Some? && g.defaultsPort.value > 0 then [DefaultsSetPort(n)] else [])
  }

  function FieldProblems(n: string, g: Group): seq<Problem> {
    RequiredProblems(n, g) + WindowProblems(n, g)
  }

  function ListenerClaims(n: string, g: Group): seq<Claim> {
    if g.groupPort > 0 then [Claim(Listener(n), g.groupPort)] else []
  }

  function SlotClaims(n: string, g: Group, k: nat): seq<Claim> {
    if k == 0 then [] else SlotClaims(n, g, k - 1) + [SlotClaim(n, g, k)]
  }

  function SlotCount(g: Group): nat {
    if g.basePort > 0 && g.count >= 2 then g.count else 0
  }

  function GroupClaims(n: string, g: Group): seq<Claim> {
    ListenerClaims(n, g) + SlotClaims(n, g, SlotCount(g))
  }

  function Claims(groups: map<string, Group>, names: seq<string>): seq<Claim>
    requires forall n | n in names :: n in groups
  {
    if names == [] then [] else
      Claims(groups, names[..|names| - 1]) + GroupClaims(names[|names| - 1], groups[names[|names| - 1]])
  }

  function FirstAt(claims: seq<Claim>, port: int): Option<Claim> {
    if claims == [] then None else
      var prev := FirstAt(claims[..|claims| - 1], port);
      if prev.Some? then prev
      else if claims[|claims| - 1].port == port then Some(claims[|claims| - 1]) else None
  }

  predicate ServerHas(servers: map<string, int>, port: int) {
    exists n :: n in servers && servers[n] == port
  }

  /** The declared servers, with one of the owners of each of their positive ports. */
  datatype Known = Known(servers: map<string, int>, owners: map<int, string>)

  ghost predicate OwnersOf(known: Known) {
    && (forall p :: p in known.owners <==> p > 0 && ServerHas(known.servers, p))
    && (forall p | p in known.owners :: known.owners[p] in known.servers && known.servers[known.owners[p]] == p)
  }

  function ClaimProblems(known: Known, before: seq<Claim>, c: Claim): seq<Problem> {
    (if c.port in known.owners then [TakenByServer(c, known.owners[c.port])] else [])
    + (var owner := FirstAt(before, c.port); if owner.Some? then [TakenByClaim(c, owner.value)] else [])
  }

  function NameProblem(servers: map<string, int>, n: string, g: Group, i: nat): seq<Problem> {
    if g.template != "" && !NameFree(servers, g, i) then [NameTaken(n, i, SynthName(g.template, i))] else []
  }

  function ListenerProblems(known: Known, before: seq<Claim>, n: string, g: Group): seq<Problem> {
    if g.groupPort > 0 then ClaimProblems(known, before, Claim(Listener(n), g.groupPort)) else []
  }

  function SlotClaim(n: string, g: Group, k: nat): Claim {
    Claim(SlotOf(n, k), g.basePort + k - 1)
  }

  function OneSlotProblems(known: Known, taken: seq<Claim>, n: string, g: Group, k: nat): seq<Problem> {
    ClaimProblems(known, taken, SlotClaim(n, g, k)) + NameProblem(known.servers, n, g, k)
  }

  function SlotProblems(known: Known, before: seq<Claim>, n: string, g: Group, k: nat): seq<Problem> {
    if k == 0 then [] else
      SlotProblems(known, before, n, g, k - 1) + OneSlotProblems(known, before + SlotClaims(n, g, k - 1), n, g, k)
  }

  function OneGroupProblems(known: Known, before: seq<Claim>, n: string, g: Group): seq<Problem> {
    FieldProblems(n, g) + ListenerProblems(known, before, n, g)
    + SlotProblems(known, before + ListenerClaims(n, g), n, g, SlotCount(g))
  }

  function GroupProblems(known: Known, groups: map<string, Group>, names: seq<string>): seq<Problem>
    requires forall n | n in names :: n in groups
  {
    if names == [] then [] else
      var front, n := names[..|names| - 1], names[|names| - 1];
      GroupProblems(known, groups, front) + OneGroupProblems(known, Claims(groups, front), n, groups[n])
  }

  // ---- When they report nothing ------------------------------------------

  function PortsOf(servers: map<string, int>, names: seq<string>): seq<int>
    requires forall n | n in names :: n in servers
  {
    seq(|names|, i requires 0 <= i < |names| => assert names[i] in names; servers[names[i]])
  }

  function ClaimPorts(claims: seq<Claim>): seq<int> {
    seq(|claims|, i requires 0 <= i < |claims| => claims[i].port)
  }

  lemma NoDupSnoc<T>(a: seq<T>, x: T)
    ensures NoDup(a + [x]) <==> NoDup(a) && x !in a
  {
    var all := a + [x];
    assert forall i | 0 <= i < |a| :: all[i] == a[i];
    if x in a {
      var i :| 0 <= i < |a| && a[i] == x;
      assert all[i] == all[|a|];
    } else {
      assert forall i | 0 <= i < |a| :: a[i] != x;
    }
  }

  lemma {:induction false} NoOwner(servers: map<string, int>, names: seq<string>, port: int)
    requires forall n | n in names :: n in servers
    ensures FirstOwner(servers, names, port).None? <==> port !in PortsOf(servers, names)
  {
    if names != [] {
      var front, n := names[..|names| - 1], names[|names| - 1];
      NoOwner(servers, front, port);
      assert PortsOf(servers, names) == PortsOf(servers, front) + [servers[n]];
    }
  }

  predicate ServersFine(servers: map<string, int>, names: seq<string>)
    requires forall n | n in names :: n in servers
  {
    (forall n | n in names :: InRange(servers[n])) && NoDup(PortsOf(servers, names))
  }

  lemma ServersFineStep(servers: map<string, int>, names: seq<string>, n: string)
    requires n in servers && forall m | m in names :: m in servers
    ensures ServersFine(servers, names + [n]) <==> ServersFine(servers, names) && OneServerProblems(servers, names, n) == []
  {
    NoOwner(servers, names, servers[n]);
    assert PortsOf(servers, names + [n]) == PortsOf(servers, names) + [servers[n]];
    NoDupSnoc(PortsOf(servers, names), servers[n]);
  }

  lemma {:induction false} ServersQuiet(servers: map<string, int>, names: seq<string>)
    requires forall n | n in names :: n in servers
    ensures ServerProblems(servers, names) == [] <==> ServersFine(servers, names)
  {
    if names != [] {
      var front, n := names[..|names| - 1], names[|names| - 1];
      assert names == front + [n];
      ServersQuiet(servers, front);
      ServersFineStep(servers, front, n);
    }
  }

  lemma {:induction false} NoFirst(claims: seq<Claim>, port: int)
    ensures FirstAt(claims, port).None? <==> port !in ClaimPorts(claims)
  {
    if claims != [] {
      var front := claims[..|claims| - 1];
      NoFirst(front, port);
      assert ClaimPorts(claims) == ClaimPorts(front) + [claims[|claims| - 1].port];
    }
  }

  /** No claim repeats the port of another one or of a server. */
  predicate NoClash(known: Known, claims: seq<Claim>) {
    (forall p | p in ClaimPorts(claims) :: p !in known.owners) && NoDup(ClaimPorts(claims))
  }

  lemma NoClashStep(known: Known, claims: seq<Claim>, c: Claim)
    ensures NoClash(known, claims + [c]) <==> NoClash(known, claims) && ClaimProblems(known, claims, c) == []
  {
    NoFirst(claims, c.port);
    var ports := ClaimPorts(claims);
    assert ClaimPorts(claims + [c]) == ports + [c.port];
    NoDupSnoc(ports, c.port);
    assert forall p :: p in ports + [c.port] <==> p in ports || p == c.port;
  }

  lemma OneSlotQuiet(known: Known, taken: seq<Claim>, n: string, g: Group, k: nat)
    requires g.template != ""
    ensures NoClash(known, taken) && OneSlotProblems(known, taken, n, g, k) == [] <==>
      NoClash(known, taken + [SlotClaim(n, g, k)]) && NameFree(known.servers, g, k)
  {
    NoClashStep(known, taken, SlotClaim(n, g, k));
  }

  lemma SlotClaimsSnoc(before: seq<Claim>, n: string, g: Group, k: nat)
    requires k > 0
    ensures before + SlotClaims(n, g, k) == before + SlotClaims(n, g, k - 1) + [SlotClaim(n, g, k)]
  {
  }

  lemma {:induction false} SlotsQuiet(known: Known, before: seq<Claim>, n: string, g: Group, k: nat)
    requires g.template != ""
    ensures NoClash(known, before) && SlotProblems(known, before, n, g, k) == [] <==>
      NoClash(known, before + SlotClaims(n, g, k)) && NamesFree(known.servers, g, k)
  {
    if k == 0 {
      assert before + [] == before;
    } else {
      SlotsQuiet(known, before, n, g, k - 1);
      SlotClaimsSnoc(before, n, g, k);
      OneSlotQuiet(known, before + SlotClaims(n, g, k - 1), n, g, k);
      NamesFreeStep(known.servers, g, k);
    }
  }

  lemma NamesFreeStep(servers: map<string, int>, g: Group, k: nat)
    requires k > 0
    ensures NamesFree(servers, g, k) <==> NamesFree(servers, g, k - 1) && NameFree(servers, g, k)
  {
  }

  /** The rules one group must meet by itself. */
  predicate GroupFine(servers: map<string, int>, g: Group) {
    && FieldsSet(g) && g.basePort != 0 && g.groupPort != 0
    && (g.groupPort > 0 ==> InRange(g.groupPort))
    && (g.basePort > 0 ==> InRange(g.basePort) && InRange(g.basePort + g.count - 1))
    && (g.basePort > 0 ==> NamesFree(servers, g, g.count))
  }

  lemma FieldsQuiet(n: string, g: Group)
    ensures FieldProblems(n, g) == [] <==>
      && FieldsSet(g) && g.basePort != 0 && g.groupPort != 0
      && (g.groupPort > 0 ==> InRange(g.groupPort))
      && (g.basePort > 0 ==> InRange(g.basePort) && InRange(g.basePort + g.count - 1))
  {
  }

  predicate AllFine(servers: map<string, int>, groups: map<string, Group>, names: seq<string>)
    requires forall n | n in names :: n in groups
  {
    forall n | n in names :: GroupFine(servers, groups[n])
  }

  lemma AllFineStep(servers: map<string, int>, groups: map<string, Group>, names: seq<string>, n: string)
    requires n in groups && forall m | m in names :: m in groups
    ensures AllFine(servers, groups, names + [n]) <==> AllFine(servers, groups, names) && GroupFine(servers, groups[n])
  {
    assert forall m :: m in names + [n] <==> m in names || m == n;
  }

  lemma BothEmpty<T>(a: seq<T>, b: seq<T>)
    ensures a + b == [] <==> a == [] && b == []
  {
  }

  predicate GroupsFine(known: Known, groups: map<string, Group>, names: seq<string>)
    requires forall n | n in names :: n in groups
  {
    NoClash(known, Claims(groups, names)) && AllFine(known.servers, groups, names)
  }

  lemma GroupsFineStep(known: Known, groups: map<string, Group>, names: seq<string>, n: string)
    requires n in groups && forall m | m in names :: m in groups
    ensures GroupsFine(known, groups, names + [n]) <==>
      GroupsFine(known, groups, names) && OneGroupProblems(known, Claims(groups, names), n, groups[n]) == []
  {
    var claims := Claims(groups, names);
    assert (names + [n])[..|names|] == names;
    assert Claims(groups, names + [n]) == claims + GroupClaims(n, groups[n]);
    OneGroupQuiet(known, claims, n, groups[n]);
    AllFineStep(known.servers, groups, names, n);
  }

  lemma GroupProblemsSplit(known: Known, groups: map<string, Group>, names: seq<string>)
    requires names != [] && forall n | n in names :: n in groups
    ensures var front, n := names[..|names| - 1], names[|names| - 1];
      && names == front + [n] && n in groups && (forall m | m in front :: m in groups)
      && GroupProblems(known, groups, names)
           == GroupProblems(known, groups, front) + OneGroupProblems(known, Claims(groups, front), n, groups[n])
  {
    hide OneGroupProblems, Claims;
  }

  lemma NoGroupsQuiet(known: Known, groups: map<string, Group>)
    ensures GroupProblems(known, groups, []) == [] && GroupsFine(known, groups, [])
  {
  }

  lemma {:induction false} GroupsQuiet(known: Known, groups: map<string, Group>, names: seq<string>)
    requires forall n | n in names :: n in groups
    ensures GroupProblems(known, groups, names) == [] <==> GroupsFine(known, groups, names)
  {
    hide OneGroupProblems, GroupProblems, GroupsFine, Claims;
    if names == [] {
      NoGroupsQuiet(known, groups);
    } else {
      var front, n := names[..|names| - 1], names[|names| - 1];
      GroupProblemsSplit(known, groups, names);
      GroupsQuiet(known, groups, front);
      GroupsFineStep(known, groups, front, n);
      BothEmpty(GroupProblems(known, groups, front), OneGroupProblems(known, Claims(groups, front), n, groups[n]));
    }
  }

  lemma OneGroupQuiet(known: Known, before: seq<Claim>, n: string, g: Group)
    ensures NoClash(known, before) && OneGroupProblems(known, before, n, g) == [] <==>
      NoClash(known, before + GroupClaims(n, g)) && GroupFine(known.servers, g)
  {
    FieldsQuiet(n, g);
    var between := before + ListenerClaims(n, g);
    if g.groupPort > 0 {
      NoClashStep(known, before, Claim(Listener(n), g.groupPort));
    } else {
      assert between == before;
    }
    assert before + GroupClaims(n, g) == between + SlotClaims(n, g, SlotCount(g));
    if g.template != "" { SlotsQuiet(known, between, n, g, SlotCount(g)); }
  }

  // ---- From claims to holders --------------------------------------------

  predicate ClaimedBy(n: string, g: Group, c: Claim) {
    match c.holder
    case Server(_) => false
    case Listener(m) => m == n && g.groupPort > 0 && c.port == g.groupPort
    case SlotOf(m, i) => m == n && 1 <= i <= SlotCount(g) && c.port == g.basePort + i - 1
  }

  predicate Claimed(groups: map<string, Group>, names: seq<string>, c: Claim)
    requires forall n | n in names :: n in groups
  {
    c.holder.name in names && ClaimedBy(c.holder.name, groups[c.holder.name], c)
  }

  lemma {:induction false} SlotClaimsAre(n: string, g: Group, k: nat)
    ensures |SlotClaims(n, g, k)| == k
    ensures forall j | 0 <= j < k :: SlotClaims(n, g, k)[j] == Claim(SlotOf(n, j + 1), g.basePort + j)
  {
    if k > 0 { SlotClaimsAre(n, g, k - 1); }
  }

  /** The claims are those of the groups, each once. */
  lemma GroupClaimsAre(n: string, g: Group)
    ensures NoDup(GroupClaims(n, g))
    ensures forall c :: c in GroupClaims(n, g) <==> ClaimedBy(n, g, c)
  {
    var listener, slots := ListenerClaims(n, g), SlotClaims(n, g, SlotCount(g));
    SlotClaimsAre(n, g, SlotCount(g));
    NoDupAppend(listener, slots);
    forall c: Claim | c.holder.SlotOf? && ClaimedBy(n, g, c)
      ensures c in slots
    {
      assert slots[c.holder.i - 1] == c;
    }
  }

  lemma {:induction false} ClaimsAre(groups: map<string, Group>, names: seq<string>)
    requires NoDup(names) && forall n | n in names :: n in groups
    ensures forall c :: c in Claims(groups, names) <==> Claimed(groups, names, c)
    ensures NoDup(Claims(groups, names))
  {
    if names != [] {
      var front, n := names[..|names| - 1], names[|names| - 1];
      assert names == front + [n];
      ClaimsAre(groups, front);
      GroupClaimsAre(n, groups[n]);
      NoDupAppend(Claims(groups, front), GroupClaims(n, groups[n]));
    }
  }

  lemma NoDupAppend<T>(a: seq<T>, b: seq<T>)
    requires NoDup(a) && NoDup(b) && forall x | x in a :: x !in b
    ensures NoDup(a + b)
  {
    var all := a + b;
    forall i, j | 0 <= i < j < |all|
      ensures all[i] != all[j]
    {
      if i < |a| && |a| <= j {
        assert all[i] in a && all[j] in b;
      }
    }
  }

  ghost predicate Lists<V>(names: seq<string>, m: map<string, V>) {
    NoDup(names) && forall n :: n in names <==> n in m
  }

  lemma NoClashMeans(known: Known, groups: map<string, Group>, names: seq<string>)
    requires OwnersOf(known) && Lists(names, groups)
    ensures NoClash(known, Claims(groups, names)) <==>
      && (forall c | Claimed(groups, names, c) :: !ServerHas(known.servers, c.port))
      && (forall c, d | Claimed(groups, names, c) && Claimed(groups, names, d) && c.port == d.port :: c == d)
  {
    var claims := Claims(groups, names);
    ClaimsAre(groups, names);
    ClaimPortsAre(claims);
    forall c | c in claims
      ensures c.port in known.owners <==> ServerHas(known.servers, c.port)
    {
      assert c.port > 0;
    }
    if NoClash(known, claims) {
      forall c | c in claims
        ensures !ServerHas(known.servers, c.port)
      {
        assert c.port in ClaimPorts(claims);
      }
    }
  }

  lemma ClaimPortsAre(claims: seq<Claim>)
    requires NoDup(claims)
    ensures forall p :: p in ClaimPorts(claims) <==> exists c :: c in claims && c.port == p
    ensures NoDup(ClaimPorts(claims)) <==> forall c, d | c in claims && d in claims && c.port == d.port :: c == d
  {
    var ports := ClaimPorts(claims);
    forall c | c in claims
      ensures c.port in ports
    {
      var j :| 0 <= j < |claims| && claims[j] == c;
      assert ports[j] == c.port;
    }
    forall p | p in ports
      ensures exists c :: c in claims && c.port == p
    {
      var j :| 0 <= j < |ports| && ports[j] == p;
      assert claims[j] in claims;
    }
    if NoDup(ports) {
      forall c, d | c in claims && d in claims && c.port == d.port
        ensures c == d
      {
        var j :| 0 <= j < |claims| && claims[j] == c;
        var k :| 0 <= k < |claims| && claims[k] == d;
        assert ports[j] == ports[k];
      }
    } else {
      var j, k :| 0 <= j < k < |ports| && ports[j] == ports[k];
      assert claims[j] in claims && claims[k] in claims && claims[j] != claims[k];
    }
  }

  lemma ClaimedIsHeld(servers: map<string, int>, groups: map<string, Group>, names: seq<string>, c: Claim)
    requires Lists(names, groups) && NonNegative(groups)
    requires forall n | n in groups :: FieldsSet(groups[n]) && groups[n].basePort != 0 && groups[n].groupPort != 0
    ensures Claimed(groups, names, c) <==> !c.holder.Server? && Holds(servers, groups, c.holder, c.port)
  {
  }

  /**
   * Unless a group has a negative port, which neither validator looks for, they
   * report nothing exactly when all ports lie in the window and differ, the required
   * fields are set, and no synthesized slot name is a declared server.
   */
  lemma QuietMeansSane(known: Known, groups: map<string, Group>, serverNames: seq<string>, groupNames: seq<string>)
    requires OwnersOf(known) && Lists(serverNames, known.servers) && Lists(groupNames, groups)
    ensures ServerProblems(known.servers, serverNames) == [] && GroupProblems(known, groups, groupNames) == [] && NonNegative(groups)
      <==> Sane(known.servers, groups)
  {
    ServersQuiet(known.servers, serverNames);
    ServersFineMeans(known.servers, serverNames);
    GroupsQuiet(known, groups, groupNames);
    NoClashMeans(known, groups, groupNames);
    if Sane(known.servers, groups) {
      SaneIsQuiet(known.servers, groups, groupNames);
    } else if ServerProblems(known.servers, serverNames) == [] && GroupProblems(known, groups, groupNames) == [] && NonNegative(groups) {
      QuietIsSane(known.servers, groups, groupNames);
    }
  }

  lemma ServersFineMeans(servers: map<string, int>, names: seq<string>)
    requires Lists(names, servers)
    ensures ServersFine(servers, names) <==>
      && (forall n | n in servers :: InRange(servers[n]))
      && (forall m, n | m in servers && n in servers && servers[m] == servers[n] :: m == n)
  {
    var ports := PortsOf(servers, names);
    if NoDup(ports) {
      forall m, n | m in servers && n in servers && servers[m] == servers[n]
        ensures m == n
      {
        var i :| 0 <= i < |names| && names[i] == m;
        var j :| 0 <= j < |names| && names[j] == n;
        assert ports[i] == ports[j];
      }
    } else {
      var i, j :| 0 <= i < j < |ports| && ports[i] == ports[j];
      assert names[i] in servers && names[j] in servers;
    }
  }

  lemma SaneIsQuiet(servers: map<string, int>, groups: map<string, Group>, names: seq<string>)
    requires Lists(names, groups) && Sane(servers, groups)
    ensures NonNegative(groups) && forall n | n in groups :: GroupFine(servers, groups[n])
    ensures forall n | n in servers :: InRange(servers[n])
    ensures forall m, n | m in servers && n in servers && servers[m] == servers[n] :: m == n
    ensures forall c | Claimed(groups, names, c) :: !ServerHas(servers, c.port)
    ensures forall c, d | Claimed(groups, names, c) && Claimed(groups, names, d) && c.port == d.port :: c == d
  {
    forall n | n in groups
      ensures groups[n].basePort > 0 && groups[n].groupPort > 0 && GroupFine(servers, groups[n])
    {
      assert Holds(servers, groups, Listener(n), groups[n].groupPort);
      assert Holds(servers, groups, SlotOf(n, 1), groups[n].basePort);
      assert Holds(servers, groups, SlotOf(n, groups[n].count), groups[n].basePort + groups[n].count - 1);
    }
    forall n | n in servers ensures InRange(servers[n]) {
      assert Holds(servers, groups, Server(n), servers[n]);
    }
    forall m, n | m in servers && n in servers && servers[m] == servers[n] ensures m == n {
      assert Holds(servers, groups, Server(m), servers[m]) && Holds(servers, groups, Server(n), servers[m]);
      assert Server(m) == Server(n);
    }
    forall c | Claimed(groups, names, c)
      ensures !c.holder.Server? && Holds(servers, groups, c.holder, c.port) && !ServerHas(servers, c.port)
    {
      ClaimedIsHeld(servers, groups, names, c);
      if n :| n in servers && servers[n] == c.port {
        assert Holds(servers, groups, Server(n), c.port);
      }
    }
    assert forall c, d | Claimed(groups, names, c) && Claimed(groups, names, d) && c.port == d.port :: c.holder == d.holder;
  }

  lemma QuietIsSane(servers: map<string, int>, groups: map<string, Group>, names: seq<string>)
    requires Lists(names, groups) && NonNegative(groups)
    requires forall n | n in groups :: GroupFine(servers, groups[n])
    requires forall n | n in servers :: InRange(servers[n])
    requires forall m, n | m in servers && n in servers && servers[m] == servers[n] :: m == n
    requires forall c | Claimed(groups, names, c) :: !ServerHas(servers, c.port)
    requires forall c, d | Claimed(groups, names, c) && Claimed(groups, names, d) && c.port == d.port :: c == d
    ensures Sane(servers, groups)
  {
    forall h, p | Holds(servers, groups, h, p)
      ensures InRange(p) && (h.Server? <==> ServerHas(servers, p)) && (!h.Server? ==> Claimed(groups, names, Claim(h, p)))
    {
      if h.Server? {
        assert servers[h.name] == p;
      } else {
        assert GroupFine(servers, groups[h.name]);
        assert Claimed(groups, names, Claim(h, p));
      }
    }
    forall h, k, p | Holds(servers, groups, h, p) && Holds(servers, groups, k, p)
      ensures h == k
    {
      if !h.Server? {
        assert !ServerHas(servers, p) && Claim(h, p) == Claim(k, p);
      }
    }
  }

  /** What the validators let through is inside the window exactly when no group has a negative port. */
  lemma QuietNeedsNonNegative(known: Known, groups: map<string, Group>, serverNames: seq<string>, groupNames: seq<string>)
    requires OwnersOf(known) && Lists(serverNames, known.servers) && Lists(groupNames, groups)
    requires ServerProblems(known.servers, serverNames) == [] && GroupProblems(known, groups, groupNames) == []
    ensures InWindow(known.servers, groups) <==> NonNegative(groups)
  {
    QuietMeansSane(known, groups, serverNames, groupNames);
    GroupsQuiet(known, groups, groupNames);
    if InWindow(known.servers, groups) {
      forall n | n in groups
        ensures groups[n].basePort >= 0 && groups[n].groupPort >= 0
      {
        assert GroupFine(known.servers, groups[n]);
        assert Holds(known.servers, groups, Listener(n), groups[n].groupPort);
        assert Holds(known.servers, groups, SlotOf(n, 1), groups[n].basePort);
      }
    }
  }

  /** A group with a negative base port passes, and its slots lie outside the window. */
  lemma NegativePortSlipsThrough()
    ensures var groups := map["browser" := Group("browser", -5, 2, 6300, None)];
      && ServerProblems(map[], []) == [] && GroupProblems(Known(map[], map[]), groups, ["browser"]) == []
      && Holds(map[], groups, SlotOf("browser", 1), -5) && !InWindow(map[], groups)
  {
    var groups := map["browser" := Group("browser", -5, 2, 6300, None)];
    var names := ["browser"];
    var g := groups["browser"];
    assert Claims(groups, names) == [] + GroupClaims("browser", g) == [Claim(Listener("browser"), 6300)] by {
      assert names[..0] == [];
    }
    assert NoClash(Known(map[], map[]), Claims(groups, names));
    GroupsQuiet(Known(map[], map[]), groups, names);
    assert Holds(map[], groups, SlotOf("browser", 1), -5);
  }

  // ---- Counting ----------------------------------------------------------

  function Total(groups: map<string, Group>, names: seq<string>): int
    requires forall n | n in names :: n in groups
  {
    if names == [] then 0 else
      Total(groups, names[..|names| - 1]) + groups[names[|names| - 1]].count + 1
  }

  lemma {:induction false} IntervalBound(s: set<int>, lo: int, hi: int)
    requires lo <= hi + 1 && forall x | x in s :: lo <= x <= hi
    ensures |s| <= hi - lo + 1
    decreases hi - lo + 1
  {
    if lo > hi {
      assert forall x :: x !in s;
      assert s == {};
    } else {
      IntervalBound(s - {hi}, lo, hi - 1);
    }
  }

  lemma {:induction false} ClaimCount(groups: map<string, Group>, names: seq<string>)
    requires forall n | n in names :: n in groups
    requires forall n | n in groups :: groups[n].groupPort > 0 && groups[n].basePort > 0 && groups[n].count >= 2
    ensures |Claims(groups, names)| == Total(groups, names)
  {
    if names != [] {
      var n := names[|names| - 1];
      assert forall m | m in names[..|names| - 1] :: m in names;
      ClaimCount(groups, names[..|names| - 1]);
      SlotClaimsAre(n, groups[n], SlotCount(groups[n]));
    }
  }

  /** A sane configuration uses no more ports than the window has. */
  lemma WindowBoundsCounts(servers: map<string, int>, groups: map<string, Group>, serverNames: seq<string>, groupNames: seq<string>)
    requires Lists(serverNames, servers) && Lists(groupNames, groups) && Sane(servers, groups)
    ensures |serverNames| + Total(groups, groupNames) <= MAX_PORT - MIN_PORT + 1 == 51
  {
    var claims := Claims(groups, groupNames);
    SaneIsQuiet(servers, groups, groupNames);
    ClaimsAre(groups, groupNames);
    ClaimPortsAre(claims);
    forall n | n in groups
      ensures groups[n].groupPort > 0 && groups[n].basePort > 0
    {
      assert GroupFine(servers, groups[n]);
    }
    ClaimCount(groups, groupNames);
    var a, b := PortsOf(servers, serverNames), ClaimPorts(claims);
    forall i | 0 <= i < |a| ensures InRange(a[i]) && ServerHas(servers, a[i]) {
      assert serverNames[i] in serverNames;
    }
    forall i | 0 <= i < |b| ensures InRange(b[i]) && !ServerHas(servers, b[i]) {
      assert claims[i] in claims;
      ClaimedIsHeld(servers, groups, groupNames, claims[i]);
    }
    forall i, j | 0 <= i < j < |a| ensures a[i] != a[j] {
      assert serverNames[i] in serverNames && serverNames[j] in serverNames;
    }
    NoDupAppend(a, b);
    NoDupCardinality(a + b);
    IntervalBound(Elements(a + b), MIN_PORT, MAX_PORT);
  }
}
