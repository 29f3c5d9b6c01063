/** Which problems internal/config/validate.go reports about ports, told from the configuration. */
module PortProblems {
  import opened Common
  import opened Ordering
  import opened Ports

  /** The server or group a problem is reported under. */
  function SectionOf(p: Problem): string {
    match p
    case Missing(n, _) => n
    case OutOfRange(n, _, _) => n
    case TooFew(n) => n
    case DefaultsSetPort(n) => n
    case ServerTaken(n, _, _) => n
    case TakenByServer(c, _) => c.holder.name
    case TakenByClaim(c, _) => c.holder.name
    case NameTaken(n, _, _) => n
  }

  // ---- Servers -----------------------------------------------------------

  /** Of the servers on a port, the first in the order of names. */
  predicate FirstOn(servers: map<string, int>, port: int, owner: string) {
    && owner in servers && servers[owner] == port
    && forall m | m in servers && servers[m] == port :: Leq(owner, m)
  }

  /** The problem is one that the servers have. */
  predicate ServerDue(servers: map<string, int>, p: Problem) {
    match p
    case Missing(n, f) => f == Port && n in servers && servers[n] == 0
    case OutOfRange(n, f, port) => f == Port && n in servers && port == servers[n] != 0 && !(6275 <= port <= 6325)
    case ServerTaken(n, port, owner) => n in servers && port == servers[n] > 0 && n != owner && FirstOn(servers, port, owner)
    case _ => false
  }

  lemma {:induction false} ServerProblemsAre(servers: map<string, int>, names: seq<string>, p: Problem)
    requires forall n | n in names :: n in servers
    ensures p in ServerProblems(servers, names) <==>
      exists k | 0 <= k < |names| :: p in OneServerProblems(servers, names[..k], names[k])
  {
    if names != [] {
      var n := |names| - 1;
      ServerProblemsAre(servers, names[..n], p);
      assert forall k | 0 <= k <= n :: names[..n][..k] == names[..k];
      assert forall k | 0 <= k < n :: names[..n][k] == names[k];
    }
  }

  /** The first owner among names is the one that no earlier one shares its port with. */
  lemma {:induction false} FirstOwnerIs(servers: map<string, int>, names: seq<string>, port: int)
    requires forall n | n in names :: n in servers
    ensures match FirstOwner(servers, names, port)
      case None => forall i | 0 <= i < |names| :: servers[names[i]] != port
      case Some(o) => exists j | 0 <= j < |names| ::
        names[j] == o && servers[o] == port && forall i | 0 <= i < j :: servers[names[i]] != port
  {
    if names != [] {
      var front := names[..|names| - 1];
      FirstOwnerIs(servers, front, port);
      assert forall i | 0 <= i < |front| :: front[i] == names[i];
      if FirstOwner(servers, front, port).Some? {
        var o := FirstOwner(servers, front, port).value;
        var j :| 0 <= j < |front| && front[j] == o && servers[o] == port && forall i | 0 <= i < j :: servers[front[i]] != port;
        assert names[j] == o;
      }
    }
  }

  /** Over sorted names the owner met first is the first in order, if it is another one. */
  lemma OwnerBefore(servers: map<string, int>, names: seq<string>, k: nat, owner: string)
    requires Sorted(names) && Lists(names, servers) && k < |names|
    ensures var port := servers[names[k]];
      FirstOwner(servers, names[..k], port) == Some(owner) <==> names[k] != owner && FirstOn(servers, port, owner)
  {
    var port, front := servers[names[k]], names[..k];
    FirstOwnerIs(servers, front, port);
    if FirstOwner(servers, front, port) == Some(owner) {
      var j :| 0 <= j < k && front[j] == owner && servers[owner] == port && forall i | 0 <= i < j :: servers[front[i]] != port;
      assert forall i | 0 <= i < j :: front[i] == names[i];
      EarliestIsFirst(servers, names, j, port);
    }
    if names[k] != owner && FirstOn(servers, port, owner) {
      FirstIsBefore(servers, names, k, owner);
      var i: nat :| i < k && names[i] == owner;
      assert front[i] == owner;
      var o := FirstOwner(servers, front, port).value;
      var j :| 0 <= j < k && front[j] == o && servers[o] == port && forall i | 0 <= i < j :: servers[front[i]] != port;
      assert Leq(owner, o);
      if j < i { assert Leq(names[j], names[i]); }
      LeqIfSame(owner, o, j, i);
    }
  }

  lemma LeqIfSame(owner: string, o: string, j: int, i: int)
    requires Leq(owner, o) && (j < i ==> Leq(o, owner)) && (i == j ==> o == owner) && j <= i
    ensures o == owner
  {
    if j < i { LeqAntisymmetric(owner, o); }
  }

  lemma EarliestIsFirst(servers: map<string, int>, names: seq<string>, j: nat, port: int)
    requires Sorted(names) && Lists(names, servers) && j < |names| && servers[names[j]] == port
    requires forall i | 0 <= i < j :: servers[names[i]] != port
    ensures FirstOn(servers, port, names[j])
  {
    assert names[j] in servers;
    forall m | m in servers && servers[m] == port
      ensures Leq(names[j], m)
    {
      assert m in names;
      var i: nat :| i < |names| && names[i] == m;
      if i == j { LeqTotal(m, m); }
    }
  }

  lemma FirstIsBefore(servers: map<string, int>, names: seq<string>, k: nat, owner: string)
    requires Sorted(names) && Lists(names, servers) && k < |names|
    requires names[k] != owner && FirstOn(servers, servers[names[k]], owner)
    ensures exists i: nat :: i < k && names[i] == owner
  {
    assert owner in names;
    var i: nat :| i < |names| && names[i] == owner;
    assert names[k] in servers && Leq(owner, names[k]);
    if k < i { LeqAntisymmetric(owner, names[k]); }
  }

  lemma OneServerDue(servers: map<string, int>, names: seq<string>, k: nat, p: Problem)
    requires Sorted(names) && Lists(names, servers) && k < |names|
    ensures names[k] in servers && forall m | m in names[..k] :: m in servers
    ensures p in OneServerProblems(servers, names[..k], names[k]) <==> ServerDue(servers, p) && SectionOf(p) == names[k]
  {
    assert names[k] in names && forall m | m in names[..k] :: m in names;
    var port := servers[names[k]];
    var owner := FirstOwner(servers, names[..k], port);
    if owner.Some? { OwnerBefore(servers, names, k, owner.value); }
    if p.ServerTaken? { OwnerBefore(servers, names, k, p.owner); }
  }

  /** The servers' problems are reported, each of them, and no other. */
  lemma ServersReported(servers: map<string, int>, names: seq<string>, p: Problem)
    requires Sorted(names) && Lists(names, servers)
    ensures p in ServerProblems(servers, names) <==> ServerDue(servers, p)
  {
    ServerProblemsAre(servers, names, p);
    if ServerDue(servers, p) {
      assert SectionOf(p) in names;
      var k :| 0 <= k < |names| && names[k] == SectionOf(p);
      OneServerDue(servers, names, k, p);
    }
    if k :| 0 <= k < |names| && p in OneServerProblems(servers, names[..k], names[k]) {
      OneServerDue(servers, names, k, p);
    }
  }

  // ---- Groups ------------------------------------------------------------

  /** A group wants the port for its listener or for one of its slots. */
  predicate Wants(groups: map<string, Group>, c: Claim) {
    match c.holder
    case Server(_) => false
    case Listener(n) => n in groups && c.port == groups[n].groupPort > 0
    case SlotOf(n, i) =>
      && n in groups && groups[n].basePort > 0 && groups[n].count >= 2
      && 1 <= i <= groups[n].count && c.port == groups[n].basePort + i - 1
  }

  /** Claims are made in the order of groups, and in each first for the listener and then slot by slot. */
  predicate ClaimedBefore(c: Claim, d: Claim) {
    var m, n := c.holder.name, d.holder.name;
    if m != n then Leq(m, n)
    else if c.holder.SlotOf? && d.holder.SlotOf? then c.holder.i < d.holder.i
    else c.holder.Listener? && d.holder.SlotOf?
  }

  /** The problem is one of a group's own fields. */
  predicate FieldDue(groups: map<string, Group>, p: Problem) {
    match p
    case Missing(n, f) => n in groups && (
      match f
      case Port => false
      case Template => groups[n].template == ""
      case BasePort => groups[n].basePort == 0
      case GroupPort => groups[n].groupPort == 0
      case Count => groups[n].count == 0)
    case OutOfRange(n, f, port) => n in groups && (
      match f
      case GroupPort => port == groups[n].groupPort > 0 && !(6275 <= port <= 6325)
      case BasePort =>
        && groups[n].basePort > 0 && groups[n].count >= 2
        && (if groups[n].basePort < 6275 then port == groups[n].basePort else port == groups[n].basePort + groups[n].count - 1 > 6325)
      case _ => false)
    case TooFew(n) => n in groups && groups[n].count < 2 && groups[n].count != 0
    case DefaultsSetPort(n) => n in groups && groups[n].defaultsPort.Some? && groups[n].defaultsPort.value > 0
    case _ => false
  }

  /** A server has the name that a slot of a group is given. */
  predicate NameDue(servers: map<string, int>, groups: map<string, Group>, n: string, i: nat, name: string) {
    && n in groups && groups[n].template != "" && groups[n].basePort > 0 && groups[n].count >= 2
    && 1 <= i <= groups[n].count && name == groups[n].template + "-" + Decimal(i) && name in servers
  }

  /** The problem is one that the groups have; which of several servers on a port is named is not said. */
  ghost predicate GroupDue(servers: map<string, int>, groups: map<string, Group>, p: Problem) {
    match p
    case TakenByServer(c, server) => Wants(groups, c) && server in servers && servers[server] == c.port
    case TakenByClaim(c, d) => Wants(groups, c) && c != d && FirstClaim(groups, c.port, d)
    case NameTaken(n, i, name) => NameDue(servers, groups, n, i, name)
    case _ => FieldDue(groups, p)
  }

  /** d is the first claim on the port. */
  ghost predicate FirstClaim(groups: map<string, Group>, port: int, d: Claim) {
    && Wants(groups, d) && d.port == port
    && forall e | Wants(groups, e) && e.port == port :: e == d || ClaimedBefore(d, e)
  }

  // ---- What each group reports by itself ---------------------------------

  predicate AboutClaims(p: Problem) {
    p.TakenByServer? || p.TakenByClaim?
  }

  lemma InEither<T>(a: seq<T>, b: seq<T>, x: T)
    ensures x in a + b <==> x in a || x in b
  {
  }

  lemma InChosen<T>(c: bool, y: T, x: T)
    ensures x in (if c then [y] else []) <==> c && x == y
  {
  }

  lemma InFour<T>(a: seq<T>, b: seq<T>, c: seq<T>, d: seq<T>, x: T)
    ensures x in a + b + c + d <==> x in a || x in b || x in c || x in d
  {
    InEither(a, b, x);
    InEither(a + b, c, x);
    InEither(a + b + c, d, x);
  }

  lemma RequiredAre(n: string, g: Group, p: Problem)
    ensures p in RequiredProblems(n, g) <==>
      || (g.template == "" && p == Missing(n, Template)) || (g.basePort == 0 && p == Missing(n, BasePort))
      || (g.groupPort == 0 && p == Missing(n, GroupPort)) || (g.count < 2 && p == if g.count == 0 then Missing(n, Count) else TooFew(n))
  {
    InChosen(g.template == "", Missing(n, Template), p);
    InChosen(g.basePort == 0, Missing(n, BasePort), p);
    InChosen(g.groupPort == 0, Missing(n, GroupPort), p);
    InChosen(g.count < 2, if g.count == 0 then Missing(n, Count) else TooFew(n), p);
    InFour(if g.template == "" then [Missing(n, Template)] else [],
      if g.basePort == 0 then [Missing(n, BasePort)] else [],
      if g.groupPort == 0 then [Missing(n, GroupPort)] else [],
      if g.count < 2 then [if g.count == 0 then Missing(n, Count) else TooFew(n)] else [], p);
  }

  lemma RequiredReport(groups: map<string, Group>, n: string, p: Problem)
    requires n in groups
    ensures p in RequiredProblems(n, groups[n]) <==> (p.Missing? || p.TooFew?) && FieldDue(groups, p) && SectionOf(p) == n
  {
    hide RequiredProblems;
    RequiredAre(n, groups[n], p);
  }

  lemma WindowReport(groups: map<string, Group>, n: string, p: Problem)
    requires n in groups
    ensures p in WindowProblems(n, groups[n]) <==> (p.OutOfRange? || p.DefaultsSetPort?) && FieldDue(groups, p) && SectionOf(p) == n
  {
  }

  lemma FieldsReport(groups: map<string, Group>, n: string, p: Problem)
    requires n in groups
    ensures p in FieldProblems(n, groups[n]) <==> FieldDue(groups, p) && SectionOf(p) == n
  {
    RequiredReport(groups, n, p);
    WindowReport(groups, n, p);
    InEither(RequiredProblems(n, groups[n]), WindowProblems(n, groups[n]), p);
  }

  lemma NextSlotReports(known: Known, before: seq<Claim>, n: string, g: Group, k: nat, p: Problem)
    requires k > 0
    ensures p in SlotProblems(known, before, n, g, k) <==>
      p in SlotProblems(known, before, n, g, k - 1) || InSlot(known, before, n, g, k, p)
  {
    InEither(SlotProblems(known, before, n, g, k - 1), OneSlotProblems(known, before + SlotClaims(n, g, k - 1), n, g, k), p);
  }

  predicate InSlot(known: Known, before: seq<Claim>, n: string, g: Group, i: nat, p: Problem)
    requires i > 0
  {
    p in OneSlotProblems(known, before + SlotClaims(n, g, i - 1), n, g, i)
  }

  /** Of what one slot reports the name is what is not about its claim. */
  lemma SlotName(known: Known, groups: map<string, Group>, before: seq<Claim>, n: string, i: nat, p: Problem)
    requires n in groups && 1 <= i <= SlotCount(groups[n]) && !AboutClaims(p)
    ensures InSlot(known, before, n, groups[n], i, p) <==>
      p.NameTaken? && p.section == n && p.slot == i && NameDue(known.servers, groups, n, i, p.synthName)
  {
  }

  lemma NoSlots(known: Known, before: seq<Claim>, n: string, g: Group, p: Problem)
    ensures p !in SlotProblems(known, before, n, g, 0)
  {
  }

  lemma NextSlotName(known: Known, groups: map<string, Group>, before: seq<Claim>, n: string, k: nat, p: Problem)
    requires n in groups && 1 <= k <= SlotCount(groups[n]) && !AboutClaims(p)
    ensures p in SlotProblems(known, before, n, groups[n], k) <==>
      || p in SlotProblems(known, before, n, groups[n], k - 1)
      || (p.NameTaken? && p.section == n && p.slot == k && NameDue(known.servers, groups, n, p.slot, p.synthName))
  {
    NextSlotReports(known, before, n, groups[n], k, p);
    SlotName(known, groups, before, n, k, p);
  }

  lemma {:induction false} NamesUpTo(known: Known, groups: map<string, Group>, before: seq<Claim>, n: string, k: nat, p: Problem)
    requires n in groups && k <= SlotCount(groups[n]) && !AboutClaims(p)
    ensures p in SlotProblems(known, before, n, groups[n], k) <==>
      p.NameTaken? && p.section == n && 1 <= p.slot <= k && NameDue(known.servers, groups, n, p.slot, p.synthName)
  {
    hide NameDue, SlotProblems;
    if k == 0 {
      NoSlots(known, before, n, groups[n], p);
    } else {
      NamesUpTo(known, groups, before, n, k - 1, p);
      NextSlotName(known, groups, before, n, k, p);
    }
  }

  lemma NamesReport(known: Known, groups: map<string, Group>, before: seq<Claim>, n: string, p: Problem)
    requires n in groups && !AboutClaims(p)
    ensures p in SlotProblems(known, before, n, groups[n], SlotCount(groups[n])) <==>
      p.NameTaken? && p.section == n && NameDue(known.servers, groups, n, p.slot, p.synthName)
  {
    NamesUpTo(known, groups, before, n, SlotCount(groups[n]), p);
  }

  lemma ListenerAboutClaims(known: Known, before: seq<Claim>, n: string, g: Group, p: Problem)
    requires !AboutClaims(p)
    ensures p !in ListenerProblems(known, before, n, g)
  {
  }

  /** The three parts of what a group reports. */
  lemma InGroup(known: Known, before: seq<Claim>, n: string, g: Group, p: Problem)
    ensures p in OneGroupProblems(known, before, n, g) <==>
      || p in FieldProblems(n, g) || p in ListenerProblems(known, before, n, g)
      || p in SlotProblems(known, before + ListenerClaims(n, g), n, g, SlotCount(g))
  {
    var fields, listener := FieldProblems(n, g), ListenerProblems(known, before, n, g);
    InEither(fields, listener, p);
    InEither(fields + listener, SlotProblems(known, before + ListenerClaims(n, g), n, g, SlotCount(g)), p);
  }

  /** What a group reports apart from claims, whatever was claimed before. */
  lemma OwnDue(known: Known, groups: map<string, Group>, before: seq<Claim>, n: string, p: Problem)
    requires n in groups && !AboutClaims(p)
    ensures p in OneGroupProblems(known, before, n, groups[n]) <==> GroupDue(known.servers, groups, p) && SectionOf(p) == n
  {
    InGroup(known, before, n, groups[n], p);
    FieldsReport(groups, n, p);
    ListenerAboutClaims(known, before, n, groups[n], p);
    NamesReport(known, groups, before + ListenerClaims(n, groups[n]), n, p);
  }

  // ---- Claims that collide -----------------------------------------------

  /** The k-th claim reports p, given the claims before it. */
  predicate ClashAt(known: Known, claims: seq<Claim>, k: int, p: Problem) {
    0 <= k < |claims| && p in ClaimProblems(known, claims[..k], claims[k])
  }

  ghost predicate Collides(known: Known, claims: seq<Claim>, p: Problem) {
    exists k :: ClashAt(known, claims, k, p)
  }

  lemma ClashStays(known: Known, claims: seq<Claim>, c: Claim, k: int, p: Problem)
    ensures k != |claims| ==> (ClashAt(known, claims + [c], k, p) <==> ClashAt(known, claims, k, p))
    ensures ClashAt(known, claims + [c], |claims|, p) <==> p in ClaimProblems(known, claims, c)
  {
    var all := claims + [c];
    assert all[..|claims|] == claims;
    if 0 <= k < |claims| { assert all[..k] == claims[..k] && all[k] == claims[k]; }
  }

  lemma CollidesSnoc(known: Known, claims: seq<Claim>, c: Claim, p: Problem)
    ensures Collides(known, claims + [c], p) <==> Collides(known, claims, p) || p in ClaimProblems(known, claims, c)
  {
    ClashStays(known, claims, c, |claims|, p);
    if k :| ClashAt(known, claims, k, p) { ClashStays(known, claims, c, k, p); }
    if k :| ClashAt(known, claims + [c], k, p) { ClashStays(known, claims, c, k, p); }
  }

  /** Of what a slot reports only the name is not about its claim. */
  lemma SlotClash(known: Known, taken: seq<Claim>, n: string, g: Group, k: nat, p: Problem)
    requires AboutClaims(p)
    ensures p in OneSlotProblems(known, taken, n, g, k) <==> p in ClaimProblems(known, taken, SlotClaim(n, g, k))
  {
  }

  lemma NextSlotCollides(known: Known, before: seq<Claim>, n: string, g: Group, k: nat, p: Problem)
    requires k > 0 && AboutClaims(p)
    ensures Collides(known, before + SlotClaims(n, g, k), p) <==>
      Collides(known, before + SlotClaims(n, g, k - 1), p) || InSlot(known, before, n, g, k, p)
  {
    var taken := before + SlotClaims(n, g, k - 1);
    SlotClaimsSnoc(before, n, g, k);
    CollidesSnoc(known, taken, SlotClaim(n, g, k), p);
    SlotClash(known, taken, n, g, k, p);
  }

  lemma {:induction false} SlotsCollide(known: Known, before: seq<Claim>, n: string, g: Group, k: nat, p: Problem)
    requires AboutClaims(p)
    ensures Collides(known, before + SlotClaims(n, g, k), p) <==>
      Collides(known, before, p) || p in SlotProblems(known, before, n, g, k)
  {
    hide Collides, SlotProblems, InSlot;
    if k == 0 {
      NoSlots(known, before, n, g, p);
      assert before + [] == before;
    } else {
      SlotsCollide(known, before, n, g, k - 1, p);
      NextSlotReports(known, before, n, g, k, p);
      NextSlotCollides(known, before, n, g, k, p);
    }
  }

  lemma ListenerCollides(known: Known, before: seq<Claim>, n: string, g: Group, p: Problem)
    ensures Collides(known, before + ListenerClaims(n, g), p) <==>
      Collides(known, before, p) || p in ListenerProblems(known, before, n, g)
  {
    if g.groupPort > 0 {
      CollidesSnoc(known, before, Claim(Listener(n), g.groupPort), p);
    } else {
      assert before + ListenerClaims(n, g) == before;
    }
  }

  lemma GroupClaimsSplit(before: seq<Claim>, n: string, g: Group)
    ensures before + GroupClaims(n, g) == before + ListenerClaims(n, g) + SlotClaims(n, g, SlotCount(g))
  {
  }

  lemma GroupCollides(known: Known, before: seq<Claim>, n: string, g: Group, p: Problem)
    requires AboutClaims(p)
    ensures Collides(known, before + GroupClaims(n, g), p) <==>
      Collides(known, before, p) || p in OneGroupProblems(known, before, n, g)
  {
    InGroup(known, before, n, g, p);
    FieldsReport(map[n := g], n, p);
    ListenerCollides(known, before, n, g, p);
    SlotsCollide(known, before + ListenerClaims(n, g), n, g, SlotCount(g), p);
    GroupClaimsSplit(before, n, g);
  }

  lemma {:induction false} GroupsCollide(known: Known, groups: map<string, Group>, names: seq<string>, p: Problem)
    requires (forall n | n in names :: n in groups) && AboutClaims(p)
    ensures p in GroupProblems(known, groups, names) <==> Collides(known, Claims(groups, names), p)
  {
    if names != [] {
      var front, n := names[..|names| - 1], names[|names| - 1];
      GroupsCollide(known, groups, front, p);
      GroupCollides(known, Claims(groups, front), n, groups[n], p);
    }
  }

  lemma {:induction false} GroupsOwn(known: Known, groups: map<string, Group>, names: seq<string>, p: Problem)
    requires (forall n | n in names :: n in groups) && !AboutClaims(p)
    ensures p in GroupProblems(known, groups, names) <==> GroupDue(known.servers, groups, p) && SectionOf(p) in names
  {
    if names != [] {
      var front, n := names[..|names| - 1], names[|names| - 1];
      assert names == front + [n];
      GroupsOwn(known, groups, front, p);
      hide OneGroupProblems, GroupDue;
      OwnDue(known, groups, Claims(groups, front), n, p);
    }
  }

  // ---- The first claim on a port -----------------------------------------

  predicate InOrder(claims: seq<Claim>) {
    forall i, j | 0 <= i < j < |claims| :: ClaimedBefore(claims[i], claims[j])
  }

  lemma NotBothBefore(c: Claim, d: Claim)
    ensures !(ClaimedBefore(c, d) && ClaimedBefore(d, c))
  {
    if c.holder.name != d.holder.name && ClaimedBefore(c, d) && ClaimedBefore(d, c) {
      LeqAntisymmetric(c.holder.name, d.holder.name);
    }
  }

  lemma InOrderAppend(a: seq<Claim>, b: seq<Claim>)
    requires InOrder(a) && InOrder(b)
    requires forall i, j | 0 <= i < |a| && 0 <= j < |b| :: ClaimedBefore(a[i], b[j])
    ensures InOrder(a + b)
  {
  }

  lemma GroupClaimsInOrder(n: string, g: Group)
    ensures InOrder(GroupClaims(n, g)) && forall i | 0 <= i < |GroupClaims(n, g)| :: GroupClaims(n, g)[i].holder.name == n
  {
    SlotClaimsAre(n, g, SlotCount(g));
  }

  lemma {:induction false} ClaimsInOrder(groups: map<string, Group>, names: seq<string>)
    requires Sorted(names) && NoDup(names) && forall n | n in names :: n in groups
    ensures InOrder(Claims(groups, names))
    ensures forall i | 0 <= i < |Claims(groups, names)| :: Claims(groups, names)[i].holder.name in names
  {
    if names != [] {
      var front, n := names[..|names| - 1], names[|names| - 1];
      assert names == front + [n];
      ClaimsInOrder(groups, front);
      GroupClaimsInOrder(n, groups[n]);
      var a, b := Claims(groups, front), GroupClaims(n, groups[n]);
      forall i, j | 0 <= i < |a| && 0 <= j < |b|
        ensures ClaimedBefore(a[i], b[j])
      {
        var k :| 0 <= k < |front| && front[k] == a[i].holder.name;
        assert names[k] == front[k];
      }
      InOrderAppend(a, b);
    }
  }

  lemma {:induction false} FirstAtIs(claims: seq<Claim>, port: int)
    ensures match FirstAt(claims, port)
      case None => forall i | 0 <= i < |claims| :: claims[i].port != port
      case Some(d) => exists j | 0 <= j < |claims| ::
        claims[j] == d && d.port == port && forall i | 0 <= i < j :: claims[i].port != port
  {
    if claims != [] {
      var front := claims[..|claims| - 1];
      FirstAtIs(front, port);
      assert forall i | 0 <= i < |front| :: front[i] == claims[i];
      if FirstAt(front, port).Some? {
        var d := FirstAt(front, port).value;
        var j :| 0 <= j < |front| && front[j] == d && d.port == port && forall i | 0 <= i < j :: front[i].port != port;
        assert claims[j] == d;
      }
    }
  }

  /** The claims, listed in order. */
  ghost predicate AllClaims(groups: map<string, Group>, claims: seq<Claim>) {
    InOrder(claims) && forall c :: c in claims <==> Wants(groups, c)
  }

  /** The claim met first on a port is the first in order. */
  lemma TakenFirst(groups: map<string, Group>, claims: seq<Claim>, k: nat, d: Claim)
    requires AllClaims(groups, claims) && k < |claims|
    ensures FirstAt(claims[..k], claims[k].port) == Some(d) <==> FirstClaim(groups, claims[k].port, d) && claims[k] != d
  {
    var port, front := claims[k].port, claims[..k];
    FirstAtIs(front, port);
    if FirstAt(front, port) == Some(d) {
      var j :| 0 <= j < k && front[j] == d && d.port == port && forall i | 0 <= i < j :: front[i].port != port;
      assert forall i | 0 <= i < k :: front[i] == claims[i];
      EarliestClaim(groups, claims, j, port);
      NotBothBefore(claims[j], claims[k]);
    }
    if FirstClaim(groups, port, d) && claims[k] != d {
      var i := PlaceOf(groups, claims, k, d);
      assert front[i] == d;
      var e := FirstAt(front, port).value;
      var j :| 0 <= j < k && front[j] == e && e.port == port && forall h | 0 <= h < j :: front[h].port != port;
      assert claims[j] == e && claims[j] in claims;
      if j < i { NotBothBefore(claims[j], claims[i]); }
    }
  }

  lemma EarliestClaim(groups: map<string, Group>, claims: seq<Claim>, j: nat, port: int)
    requires AllClaims(groups, claims) && j < |claims| && claims[j].port == port
    requires forall i | 0 <= i < j :: claims[i].port != port
    ensures FirstClaim(groups, port, claims[j])
  {
    assert claims[j] in claims;
    forall e | Wants(groups, e) && e.port == port
      ensures e == claims[j] || ClaimedBefore(claims[j], e)
    {
      assert e in claims;
      var i: nat :| i < |claims| && claims[i] == e;
    }
  }

  lemma PlaceOf(groups: map<string, Group>, claims: seq<Claim>, k: nat, d: Claim) returns (i: nat)
    requires AllClaims(groups, claims) && k < |claims| && FirstClaim(groups, claims[k].port, d) && claims[k] != d
    ensures i < k && claims[i] == d
  {
    assert d in claims && claims[k] in claims;
    i :| i < |claims| && claims[i] == d;
    if k < i { NotBothBefore(claims[k], claims[i]); }
  }

  /** What a claim reports, given the claims before it. */
  ghost predicate ClashDue(known: Known, groups: map<string, Group>, p: Problem) {
    match p
    case TakenByServer(c, server) => c.port in known.owners && server == known.owners[c.port]
    case TakenByClaim(c, d) => c != d && FirstClaim(groups, c.port, d)
    case _ => false
  }

  lemma OneClash(known: Known, groups: map<string, Group>, claims: seq<Claim>, k: nat, p: Problem)
    requires AllClaims(groups, claims) && AboutClaims(p) && k < |claims|
    ensures p in ClaimProblems(known, claims[..k], claims[k]) <==> p.claim == claims[k] && ClashDue(known, groups, p)
  {
    if p.TakenByClaim? { TakenFirst(groups, claims, k, p.first); }
  }

  lemma CollidingClaims(known: Known, groups: map<string, Group>, claims: seq<Claim>, p: Problem)
    requires AllClaims(groups, claims) && AboutClaims(p)
    ensures Collides(known, claims, p) <==> p.claim in claims && ClashDue(known, groups, p)
  {
    if k :| ClashAt(known, claims, k, p) { OneClash(known, groups, claims, k, p); }
    if p.claim in claims {
      var k: nat :| k < |claims| && claims[k] == p.claim;
      OneClash(known, groups, claims, k, p);
      assert ClashAt(known, claims, k, p) <==> ClashDue(known, groups, p);
    }
  }

  lemma ListedClaims(groups: map<string, Group>, names: seq<string>)
    requires Sorted(names) && Lists(names, groups)
    ensures AllClaims(groups, Claims(groups, names))
  {
    ClaimsInOrder(groups, names);
    ClaimsAre(groups, names);
    forall c
      ensures c in Claims(groups, names) <==> Wants(groups, c)
    {
      assert c in Claims(groups, names) <==> Claimed(groups, names, c);
    }
  }

  /** What is reported of groups: every problem they have, and no other; of the servers on a claimed port one is named. */
  lemma GroupsReported(known: Known, groups: map<string, Group>, names: seq<string>, p: Problem)
    requires OwnersOf(known) && Sorted(names) && Lists(names, groups)
    ensures p in GroupProblems(known, groups, names) <==>
      GroupDue(known.servers, groups, p) && (p.TakenByServer? ==> p.claim.port in known.owners && known.owners[p.claim.port] == p.server)
  {
    hide GroupProblems, Collides, AllClaims, Claims;
    if AboutClaims(p) {
      ListedClaims(groups, names);
      GroupsCollide(known, groups, names, p);
      var claims := Claims(groups, names);
      CollidingClaims(known, groups, claims, p);
    } else {
      GroupsOwn(known, groups, names, p);
    }
  }

  // ---- In which order ----------------------------------------------------

  /** The place of a problem in the report about one server or group. */
  function Rank(p: Problem): int {
    match p
    case Missing(_, f) => (match f case BasePort => 1 case GroupPort => 2 case Count => 3 case _ => 0)
    case TooFew(_) => 3
    case OutOfRange(_, f, _) => (match f case GroupPort => 4 case BasePort => 5 case _ => 0)
    case DefaultsSetPort(_) => 6
    case ServerTaken(_, _, _) => 1
    case TakenByServer(c, _) => if c.holder.SlotOf? then 6 + 3 * c.holder.i else 7
    case TakenByClaim(c, _) => if c.holder.SlotOf? then 7 + 3 * c.holder.i else 8
    case NameTaken(_, i, _) => 8 + 3 * i
  }

  /** By name, and under one name by rank. */
  predicate Precedes(p: Problem, q: Problem) {
    if SectionOf(p) != SectionOf(q) then Leq(SectionOf(p), SectionOf(q)) else Rank(p) < Rank(q)
  }

  predicate Ordered(errs: seq<Problem>) {
    forall i, j | 0 <= i < j < |errs| :: Precedes(errs[i], errs[j])
  }

  predicate Within(errs: seq<Problem>, n: string, lo: int, hi: int) {
    Ordered(errs) && forall i | 0 <= i < |errs| :: SectionOf(errs[i]) == n && lo <= Rank(errs[i]) < hi
  }

  lemma OrderedAppend(a: seq<Problem>, b: seq<Problem>)
    requires Ordered(a) && Ordered(b)
    requires forall i, j | 0 <= i < |a| && 0 <= j < |b| :: Precedes(a[i], b[j])
    ensures Ordered(a + b)
  {
  }

  lemma WithinJoin(a: seq<Problem>, b: seq<Problem>, n: string, lo: int, mid: int, hi: int)
    requires Within(a, n, lo, mid) && Within(b, n, mid, hi) && lo <= mid <= hi
    ensures Within(a + b, n, lo, hi)
  {
    OrderedAppend(a, b);
  }

  /** At most one problem. */
  lemma WithinFew(errs: seq<Problem>, n: string, lo: int)
    requires |errs| <= 1 && (errs != [] ==> SectionOf(errs[0]) == n && Rank(errs[0]) == lo)
    ensures Within(errs, n, lo, lo + 1)
  {
  }

  lemma RequiredInOrder(n: string, g: Group)
    ensures Within(RequiredProblems(n, g), n, 0, 4)
  {
    hide Within;
    var a := if g.template == "" then [Missing(n, Template)] else [];
    var b := if g.basePort == 0 then [Missing(n, BasePort)] else [];
    var c := if g.groupPort == 0 then [Missing(n, GroupPort)] else [];
    var d := if g.count == 0 then [Missing(n, Count)] else if g.count < 2 then [TooFew(n)] else [];
    WithinFew(a, n, 0);
    WithinFew(b, n, 1);
    WithinFew(c, n, 2);
    WithinFew(d, n, 3);
    WithinJoin(a, b, n, 0, 1, 2);
    WithinJoin(a + b, c, n, 0, 2, 3);
    WithinJoin(a + b + c, d, n, 0, 3, 4);
  }

  lemma WindowInOrder(n: string, g: Group)
    ensures Within(WindowProblems(n, g), n, 4, 7)
  {
    hide Within;
    var a := if g.groupPort > 0 && !InRange(g.groupPort) then [OutOfRange(n, GroupPort, g.groupPort)] else [];
    var b := if g.basePort > 0 && g.count >= 2 then
        if g.basePort < MIN_PORT then [OutOfRange(n, BasePort, g.basePort)]
        else if g.basePort + g.count - 1 > MAX_PORT then [OutOfRange(n, BasePort, g.basePort + g.count - 1)]
        else []
      else [];
    var c := if g.defaultsPort.Some? && g.defaultsPort.value > 0 then [DefaultsSetPort(n)] else [];
    WithinFew(a, n, 4);
    WithinFew(b, n, 5);
    WithinFew(c, n, 6);
    WithinJoin(a, b, n, 4, 5, 6);
    WithinJoin(a + b, c, n, 4, 6, 7);
  }

  lemma ClashesInOrder(known: Known, before: seq<Claim>, c: Claim, lo: int)
    requires Rank(TakenByServer(c, "")) == lo
    ensures Within(ClaimProblems(known, before, c), c.holder.name, lo, lo + 2)
  {
    hide Within;
    var a := if c.port in known.owners then [TakenByServer(c, known.owners[c.port])] else [];
    var owner := FirstAt(before, c.port);
    var b := if owner.Some? then [TakenByClaim(c, owner.value)] else [];
    WithinFew(a, c.holder.name, lo);
    WithinFew(b, c.holder.name, lo + 1);
    WithinJoin(a, b, c.holder.name, lo, lo + 1, lo + 2);
    assert ClaimProblems(known, before, c) == a + b;
  }

  lemma OneSlotInOrder(known: Known, taken: seq<Claim>, n: string, g: Group, k: nat)
    ensures Within(OneSlotProblems(known, taken, n, g, k), n, 6 + 3 * k, 9 + 3 * k)
  {
    hide Within, ClaimProblems;
    ClashesInOrder(known, taken, SlotClaim(n, g, k), 6 + 3 * k);
    WithinFew(NameProblem(known.servers, n, g, k), n, 8 + 3 * k);
    WithinJoin(ClaimProblems(known, taken, SlotClaim(n, g, k)), NameProblem(known.servers, n, g, k), n, 6 + 3 * k, 8 + 3 * k, 9 + 3 * k);
  }

  lemma NextSlotInOrder(known: Known, before: seq<Claim>, n: string, g: Group, k: nat)
    requires k > 0 && Within(SlotProblems(known, before, n, g, k - 1), n, 9, 6 + 3 * k)
    ensures Within(SlotProblems(known, before, n, g, k), n, 9, 9 + 3 * k)
  {
    hide Within, OneSlotProblems;
    var taken := before + SlotClaims(n, g, k - 1);
    OneSlotInOrder(known, taken, n, g, k);
    WithinJoin(SlotProblems(known, before, n, g, k - 1), OneSlotProblems(known, taken, n, g, k), n, 9, 6 + 3 * k, 9 + 3 * k);
  }

  lemma NoSlotsInOrder(known: Known, before: seq<Claim>, n: string, g: Group)
    ensures Within(SlotProblems(known, before, n, g, 0), n, 9, 9)
  {
  }

  lemma {:induction false} SlotsInOrder(known: Known, before: seq<Claim>, n: string, g: Group, k: nat)
    ensures Within(SlotProblems(known, before, n, g, k), n, 9, 9 + 3 * k)
  {
    hide Within, SlotProblems;
    if k == 0 {
      NoSlotsInOrder(known, before, n, g);
    } else {
      SlotsInOrder(known, before, n, g, k - 1);
      NextSlotInOrder(known, before, n, g, k);
    }
  }

  lemma OneGroupInOrder(known: Known, before: seq<Claim>, n: string, g: Group)
    ensures Within(OneGroupProblems(known, before, n, g), n, 0, 9 + 3 * SlotCount(g))
  {
    hide SlotProblems, RequiredProblems, WindowProblems, ClaimProblems, SlotCount;
    var fields, listener := FieldProblems(n, g), ListenerProblems(known, before, n, g);
    var slots := SlotProblems(known, before + ListenerClaims(n, g), n, g, SlotCount(g));
    RequiredInOrder(n, g);
    WindowInOrder(n, g);
    WithinJoin(RequiredProblems(n, g), WindowProblems(n, g), n, 0, 4, 7);
    if g.groupPort > 0 { ClashesInOrder(known, before, Claim(Listener(n), g.groupPort), 7); }
    WithinJoin(fields, listener, n, 0, 7, 9);
    SlotsInOrder(known, before + ListenerClaims(n, g), n, g, SlotCount(g));
    WithinJoin(fields + listener, slots, n, 0, 9, 9 + 3 * SlotCount(g));
  }

  predicate AllUnder(errs: seq<Problem>, names: seq<string>) {
    forall i | 0 <= i < |errs| :: SectionOf(errs[i]) in names
  }

  /** What is reported under one more name comes after the rest. */
  lemma NextSection(errs: seq<Problem>, own: seq<Problem>, names: seq<string>, n: string, hi: int)
    requires Ordered(errs) && AllUnder(errs, names) && Within(own, n, 0, hi)
    requires n !in names && forall m | m in names :: Leq(m, n)
    ensures Ordered(errs + own) && AllUnder(errs + own, names + [n])
  {
    OrderedAppend(errs, own);
  }

  lemma SortedFront(names: seq<string>)
    requires Sorted(names) && NoDup(names) && names != []
    ensures var front, n := names[..|names| - 1], names[|names| - 1];
      names == front + [n] && Sorted(front) && NoDup(front) && n !in front && forall m | m in front :: Leq(m, n)
  {
  }

  lemma {:induction false} GroupsInOrder(known: Known, groups: map<string, Group>, names: seq<string>)
    requires Sorted(names) && NoDup(names) && forall n | n in names :: n in groups
    ensures Ordered(GroupProblems(known, groups, names)) && AllUnder(GroupProblems(known, groups, names), names)
  {
    if names != [] {
      var front, n := names[..|names| - 1], names[|names| - 1];
      SortedFront(names);
      GroupsInOrder(known, groups, front);
      OneGroupInOrder(known, Claims(groups, front), n, groups[n]);
      NextSection(GroupProblems(known, groups, front), OneGroupProblems(known, Claims(groups, front), n, groups[n]),
        front, n, 9 + 3 * SlotCount(groups[n]));
    }
  }

  lemma OneServerInOrder(servers: map<string, int>, before: seq<string>, n: string)
    requires n in servers && forall m | m in before :: m in servers
    ensures Within(OneServerProblems(servers, before, n), n, 0, 2)
  {
    WithinFew(RangeProblem(n, servers[n]), n, 0);
    WithinFew(OwnerProblem(n, servers[n], FirstOwner(servers, before, servers[n])), n, 1);
    WithinJoin(RangeProblem(n, servers[n]), OwnerProblem(n, servers[n], FirstOwner(servers, before, servers[n])), n, 0, 1, 2);
  }

  lemma {:induction false} ServersInOrder(servers: map<string, int>, names: seq<string>)
    requires Sorted(names) && NoDup(names) && forall n | n in names :: n in servers
    ensures Ordered(ServerProblems(servers, names)) && AllUnder(ServerProblems(servers, names), names)
  {
    if names != [] {
      var front, n := names[..|names| - 1], names[|names| - 1];
      SortedFront(names);
      ServersInOrder(servers, front);
      OneServerInOrder(servers, front, n);
      NextSection(ServerProblems(servers, front), OneServerProblems(servers, front, n), front, n, 2);
    }
  }

  // ---- One report --------------------------------------------------------

  lemma NotBothPrecede(p: Problem, q: Problem)
    ensures !(Precedes(p, q) && Precedes(q, p))
  {
    if SectionOf(p) != SectionOf(q) && Precedes(p, q) && Precedes(q, p) {
      LeqAntisymmetric(SectionOf(p), SectionOf(q));
    }
  }

  lemma LastIsLast(a: seq<Problem>, p: Problem)
    requires Ordered(a) && a != [] && p in a
    ensures p == a[|a| - 1] || Precedes(p, a[|a| - 1])
    ensures p in a[..|a| - 1] <==> p != a[|a| - 1]
  {
    var n := |a| - 1;
    var i :| 0 <= i < |a| && a[i] == p;
    if i < n { NotBothPrecede(p, a[n]); assert a[..n][i] == p; }
    if p in a[..n] {
      var j :| 0 <= j < n && a[..n][j] == p;
      NotBothPrecede(a[j], a[n]);
    }
  }

  lemma OrderedFront(a: seq<Problem>)
    requires Ordered(a) && a != []
    ensures Ordered(a[..|a| - 1])
  {
  }

  /** An ordered report is determined by the problems in it. */
  lemma {:induction false} OneReport(a: seq<Problem>, b: seq<Problem>)
    requires Ordered(a) && Ordered(b) && forall p :: p in a <==> p in b
    ensures a == b
  {
    hide Ordered, Precedes;
    assert |a| > 0 ==> a[0] in b;
    assert |b| > 0 ==> b[0] in a;
    if a != [] && b != [] {
      var m, n := |a| - 1, |b| - 1;
      OrderedFront(a);
      OrderedFront(b);
      assert a[m] in b && b[n] in a;
      LastIsLast(a, b[n]);
      LastIsLast(b, a[m]);
      NotBothPrecede(a[m], b[n]);
      forall p
        ensures p in a[..m] <==> p in b[..n]
      {
        if p in a { LastIsLast(a, p); }
        if p in b { LastIsLast(b, p); }
      }
      OneReport(a[..m], b[..n]);
      assert a == a[..m] + [a[m]] && b == b[..n] + [b[n]];
    }
  }

  // ---- Names of slots ----------------------------------------------------

  /** The value of a row of decimal digits. */
  function Value(s: string): int {
    if s == "" then 0 else 10 * Value(s[..|s| - 1]) + (s[|s| - 1] as int - '0' as int)
  }

  /** A slot's number is written in decimal digits without leading zeros. */
  lemma {:induction false} DecimalReads(n: nat)
    ensures Decimal(n) != "" && Value(Decimal(n)) == n
    ensures (forall c | c in Decimal(n) :: '0' <= c <= '9') && (n > 0 ==> Decimal(n)[0] != '0')
  {
    var d := ('0' as int + n % 10) as char;
    if n >= 10 {
      DecimalReads(n / 10);
      assert (Decimal(n / 10) + [d])[..|Decimal(n / 10)|] == Decimal(n / 10);
    } else {
      assert ([] + [d])[..0] == "";
    }
  }
}
