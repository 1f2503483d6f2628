/**
 What the container queries promise: ListGrouped's groups and Search's sorted filter, stated
 on the list alone, without maps, loops or sorting steps.
 */
module Grouping {
  import opened Text
  import opened Models
  import opened Ordering

  // ---------- Orders ----------

  /** Priority and name, the sort key of containers and of groups. */
  datatype RankKey = RankKey(priority: int, name: string)

  predicate RankLess(a: RankKey, b: RankKey) {
    if a.priority != b.priority then a.priority < b.priority else StrLess(a.name, b.name)
  }

  function ContainerRank(c: Container): RankKey { RankKey(c.labels.priority, c.name) }

  function GroupRank(g: ContainerGroup): RankKey { RankKey(g.priority, g.name) }

  function ByPriority(): (Container, Container) -> bool {
    (x: Container, y: Container) => RankLess(ContainerRank(x), ContainerRank(y))
  }

  function ByName(): (Container, Container) -> bool {
    (x: Container, y: Container) => StrLess(x.name, y.name)
  }

  function ByStatus(): (Container, Container) -> bool {
    (x: Container, y: Container) => StrLess(x.state, y.state)
  }

  function NewestFirst(): (Container, Container) -> bool {
    (x: Container, y: Container) => x.created > y.created
  }

  function GroupsByPriority(): (ContainerGroup, ContainerGroup) -> bool {
    (x: ContainerGroup, y: ContainerGroup) => RankLess(GroupRank(x), GroupRank(y))
  }

  /** The comparison sortContainers picks. */
  function SortOrder(sortBy: string): (Container, Container) -> bool {
    match sortBy
    case "name" => ByName()
    case "status" => ByStatus()
    case "created" => NewestFirst()
    case _ => ByPriority()
  }

  lemma StringOrder()
    ensures forall x :: !StrLess(x, x)
    ensures forall x, y, z :: StrLess(x, y) && StrLess(y, z) ==> StrLess(x, z)
    ensures forall x, y, z :: !StrLess(x, y) && !StrLess(y, z) ==> !StrLess(x, z)
  {
    forall x ensures !StrLess(x, x) { StrLessIrreflexive(x); }
    forall x, y, z | StrLess(x, y) && StrLess(y, z) ensures StrLess(x, z) { StrLessTransitive(x, y, z); }
    forall x, y, z | !StrLess(x, y) && !StrLess(y, z) ensures !StrLess(x, z) {
      StrLessTotal(x, y);
      StrLessTotal(y, z);
      if StrLess(x, z) {
        if StrLess(y, x) { StrLessTransitive(y, x, z); }
      }
    }
  }

  lemma RankOrder()
    ensures forall a :: !RankLess(a, a)
    ensures forall a, b, c :: RankLess(a, b) && RankLess(b, c) ==> RankLess(a, c)
    ensures forall a, b, c :: !RankLess(a, b) && !RankLess(b, c) ==> !RankLess(a, c)
    ensures forall a, b :: !RankLess(a, b) && !RankLess(b, a) ==> a == b
  {
    StringOrder();
    forall a, b | !RankLess(a, b) && !RankLess(b, a) ensures a == b { StrLessTotal(a.name, b.name); }
  }

  /** Every comparison handed to sort.Slice is a strict weak order, as the library demands. */
  lemma OrdersAreWeak(sortBy: string)
    ensures StrictWeakOrder(SortOrder(sortBy))
    ensures StrictWeakOrder(ByPriority())
    ensures StrictWeakOrder(GroupsByPriority())
    ensures StrictWeakOrder(RankLess)
  {
    RankOrder();
    StringOrder();
    assert StrictWeakOrder(ByName());
    assert StrictWeakOrder(ByStatus());
    assert StrictWeakOrder(NewestFirst());
    assert StrictWeakOrder(ByPriority());
  }

  // ---------- ListGrouped ----------

  function InGroup(name: string): Container -> bool {
    (c: Container) => c.labels.GroupName() == name
  }

  ghost predicate LeastPriority(cs: seq<Container>, p: int) {
    && (exists c | c in cs :: c.labels.priority == p)
    && (forall c | c in cs :: p <= c.labels.priority)
  }

  /**
   g shows exactly the containers of the list that carry its name, sorted by priority and
   name; it has the icon of the first of them in the list and the least of their priorities.
   */
  ghost predicate IsGroupOf(list: seq<Container>, g: ContainerGroup) {
    var members := Filter(list, InGroup(g.name));
    && members != []
    && g.icon == members[0].labels.icon
    && LeastPriority(members, g.priority)
    && SortedPermutation(ByPriority(), members, g.containers)
  }

  ghost predicate HasGroup(groups: seq<ContainerGroup>, name: string) {
    exists g | g in groups :: g.name == name
  }

  /** What ListGrouped returns for a list: one group per group name, in strict order of priority and name. */
  ghost predicate IsGrouping(list: seq<Container>, groups: seq<ContainerGroup>) {
    && StrictlySorted(GroupsByPriority(), groups)
    && (forall g {:trigger IsGroupOf(list, g)} | g in groups :: IsGroupOf(list, g))
    && (forall c {:trigger HasGroup(groups, c.labels.GroupName())} | c in list ::
          HasGroup(groups, c.labels.GroupName()))
  }

  function Flatten(groups: seq<ContainerGroup>): seq<Container> {
    if groups == [] then []
    else Flatten(groups[..|groups| - 1]) + groups[|groups| - 1].containers
  }

  function NamedBy(p: string -> bool): ContainerGroup -> bool {
    (g: ContainerGroup) => p(g.name)
  }

  // ---------- Canonicity ----------

  lemma LeastUnique(a: seq<Container>, b: seq<Container>, p: int, q: int)
    requires LeastPriority(a, p) && LeastPriority(b, q) && multiset(a) == multiset(b)
    ensures p == q
  {
    MembersFromMultiset(a, b);
  }

  lemma GroupsOfOneName(a: seq<Container>, b: seq<Container>, g: ContainerGroup, h: ContainerGroup)
    requires multiset(a) == multiset(b) && IsGroupOf(a, g) && IsGroupOf(b, h) && g.name == h.name
    ensures GroupRank(g) == GroupRank(h) && multiset(g.containers) == multiset(h.containers)
    ensures a == b ==> g.icon == h.icon
    ensures TiesAreEqual(ByPriority(), g.containers) ==> g.containers == h.containers
  {
    FilterPermutation(a, b, InGroup(g.name));
    LeastUnique(Filter(a, InGroup(g.name)), Filter(b, InGroup(g.name)), g.priority, h.priority);
    if TiesAreEqual(ByPriority(), g.containers) {
      SortedUnique(ByPriority(), g.containers, h.containers);
    }
  }

  lemma MatchingGroup(a: seq<Container>, ga: seq<ContainerGroup>, b: seq<Container>, gb: seq<ContainerGroup>,
                      g: ContainerGroup)
    returns (h: ContainerGroup)
    requires multiset(a) == multiset(b) && IsGrouping(a, ga) && IsGrouping(b, gb) && g in ga
    ensures h in gb && h.name == g.name && GroupRank(h) == GroupRank(g)
  {
    assert IsGroupOf(a, g);
    var c := Filter(a, InGroup(g.name))[0];
    assert c in Filter(a, InGroup(g.name));
    MembersFromMultiset(a, b);
    assert HasGroup(gb, c.labels.GroupName());
    h :| h in gb && h.name == c.labels.GroupName();
    assert IsGroupOf(b, h);
    GroupsOfOneName(a, b, g, h);
  }

  function Ranks(groups: seq<ContainerGroup>): (r: seq<RankKey>)
    ensures |r| == |groups|
  {
    seq(|groups|, i requires 0 <= i < |groups| => GroupRank(groups[i]))
  }

  lemma RanksSubset(a: seq<Container>, ga: seq<ContainerGroup>, b: seq<Container>, gb: seq<ContainerGroup>, r: RankKey)
    requires multiset(a) == multiset(b) && IsGrouping(a, ga) && IsGrouping(b, gb) && r in Ranks(ga)
    ensures r in Ranks(gb)
  {
    var i :| 0 <= i < |ga| && Ranks(ga)[i] == r;
    var h := MatchingGroup(a, ga, b, gb, ga[i]);
    var j :| 0 <= j < |gb| && gb[j] == h;
    assert Ranks(gb)[j] == r;
  }

  lemma RanksEqual(a: seq<Container>, ga: seq<ContainerGroup>, b: seq<Container>, gb: seq<ContainerGroup>)
    requires multiset(a) == multiset(b) && IsGrouping(a, ga) && IsGrouping(b, gb)
    ensures Ranks(ga) == Ranks(gb)
  {
    forall r ensures r in Ranks(ga) <==> r in Ranks(gb) {
      if r in Ranks(ga) { RanksSubset(a, ga, b, gb, r); }
      if r in Ranks(gb) { RanksSubset(b, gb, a, ga, r); }
    }
    OrdersAreWeak("");
    RanksSorted(ga);
    RanksSorted(gb);
    StrictlySortedUnique(RankLess, Ranks(ga), Ranks(gb));
  }

  lemma RanksSorted(groups: seq<ContainerGroup>)
    requires StrictlySorted(GroupsByPriority(), groups)
    ensures StrictlySorted(RankLess, Ranks(groups))
  {
    forall i, j | 0 <= i < j < |groups| ensures RankLess(Ranks(groups)[i], Ranks(groups)[j]) {
      assert GroupsByPriority()(groups[i], groups[j]);
    }
  }

  /**
   Whatever order the group map is walked in and wherever the sorts put ties, two results for
   the same containers agree on everything but the order of ties; and for a list in another
   order nothing but icons (and ties) can differ.
   */
  lemma Canonical(a: seq<Container>, ga: seq<ContainerGroup>, b: seq<Container>, gb: seq<ContainerGroup>)
    requires multiset(a) == multiset(b) && IsGrouping(a, ga) && IsGrouping(b, gb)
    ensures |ga| == |gb|
    ensures forall i | 0 <= i < |ga| ::
              && ga[i].name == gb[i].name && ga[i].priority == gb[i].priority
              && multiset(ga[i].containers) == multiset(gb[i].containers)
              && (a == b ==> ga[i].icon == gb[i].icon)
              && (TiesAreEqual(ByPriority(), ga[i].containers) ==> ga[i].containers == gb[i].containers)
  {
    RanksEqual(a, ga, b, gb);
    assert |Ranks(ga)| == |Ranks(gb)|;
    forall i | 0 <= i < |ga|
      ensures ga[i].name == gb[i].name && ga[i].priority == gb[i].priority
      ensures multiset(ga[i].containers) == multiset(gb[i].containers)
      ensures a == b ==> ga[i].icon == gb[i].icon
      ensures TiesAreEqual(ByPriority(), ga[i].containers) ==> ga[i].containers == gb[i].containers
    {
      assert Ranks(ga)[i] == Ranks(gb)[i];
      assert IsGroupOf(a, ga[i]) && IsGroupOf(b, gb[i]);
      GroupsOfOneName(a, b, ga[i], gb[i]);
    }
  }

  lemma SameRanksSorted(s: seq<Container>, t: seq<Container>)
    requires Sorted(ByPriority(), s) && |t| == |s|
    requires forall k | 0 <= k < |s| :: ContainerRank(t[k]) == ContainerRank(s[k])
    ensures Sorted(ByPriority(), t)
  {
    forall m, n | 0 <= m < n < |t| ensures !ByPriority()(t[n], t[m]) {
      assert !ByPriority()(s[n], s[m]);
    }
  }

  lemma SwapTies(s: seq<Container>, i: nat, j: nat) returns (t: seq<Container>)
    requires Sorted(ByPriority(), s) && i < j < |s|
    requires s[i] != s[j] && ContainerRank(s[i]) == ContainerRank(s[j])
    ensures Sorted(ByPriority(), t) && multiset(t) == multiset(s) && t != s
  {
    hide Sorted;
    t := s[i := s[j]][j := s[i]];
    SameRanksSorted(s, t);
    assert t[i] != s[i];
  }

  /** Exchanging two different containers of equal rank gives another valid group. */
  lemma ExchangeTies(list: seq<Container>, g: ContainerGroup, i: nat, j: nat) returns (h: ContainerGroup)
    requires IsGroupOf(list, g) && i < j < |g.containers|
    requires g.containers[i] != g.containers[j] && ContainerRank(g.containers[i]) == ContainerRank(g.containers[j])
    ensures IsGroupOf(list, h) && h != g && GroupRank(h) == GroupRank(g)
  {
    var t := SwapTies(g.containers, i, j);
    h := g.(containers := t);
  }

  lemma ReplaceGroup(list: seq<Container>, groups: seq<ContainerGroup>, k: nat, h: ContainerGroup)
    requires IsGrouping(list, groups) && k < |groups|
    requires IsGroupOf(list, h) && GroupRank(h) == GroupRank(groups[k])
    ensures IsGrouping(list, groups[k := h])
  {
    var other := groups[k := h];
    forall i, j | 0 <= i < j < |other| ensures GroupsByPriority()(other[i], other[j]) {
      assert GroupsByPriority()(groups[i], groups[j]);
    }
    forall g | g in other ensures IsGroupOf(list, g) {
      assert g in groups || g == h;
      assert g in groups ==> IsGroupOf(list, g);
    }
    forall c | c in list ensures HasGroup(other, c.labels.GroupName()) {
      assert HasGroup(groups, c.labels.GroupName());
      var g :| g in groups && g.name == c.labels.GroupName();
      var i :| 0 <= i < |groups| && groups[i] == g;
      assert other[i] in other && other[i].name == g.name;
    }
  }

  lemma AnotherGrouping(list: seq<Container>, groups: seq<ContainerGroup>, k: nat, i: nat, j: nat)
    returns (other: seq<ContainerGroup>)
    requires IsGrouping(list, groups) && k < |groups| && i < j < |groups[k].containers|
    requires groups[k].containers[i] != groups[k].containers[j]
    requires ContainerRank(groups[k].containers[i]) == ContainerRank(groups[k].containers[j])
    ensures IsGrouping(list, other) && other != groups
  {
    assert IsGroupOf(list, groups[k]);
    var h := ExchangeTies(list, groups[k], i, j);
    ReplaceGroup(list, groups, k, h);
    other := groups[k := h];
    assert other[k] != groups[k];
  }

  lemma TiedPair(s: seq<Container>) returns (i: nat, j: nat)
    requires !TiesAreEqual(ByPriority(), s)
    ensures i < j < |s| && s[i] != s[j] && ContainerRank(s[i]) == ContainerRank(s[j])
  {
    var x, y :| x in s && y in s && !ByPriority()(x, y) && !ByPriority()(y, x) && x != y;
    var m :| 0 <= m < |s| && s[m] == x;
    var n :| 0 <= n < |s| && s[n] == y;
    RankOrder();
    i, j := if m < n then m else n, if m < n then n else m;
  }

  /** No two different containers of this group name share priority and name. */
  ghost predicate NoTiesIn(list: seq<Container>, name: string) {
    forall x, y | x in list && y in list && x.labels.GroupName() == name && y.labels.GroupName() == name
                  && ContainerRank(x) == ContainerRank(y) :: x == y
  }

  ghost predicate NoTies(list: seq<Container>) {
    forall x, y | x in list && y in list && x.labels.GroupName() == y.labels.GroupName()
                  && ContainerRank(x) == ContainerRank(y) :: x == y
  }

  lemma GroupHolds(list: seq<Container>, g: ContainerGroup)
    requires IsGroupOf(list, g)
    ensures forall x :: x in g.containers <==> x in list && x.labels.GroupName() == g.name
    ensures g.containers != []
  {
    var members := Filter(list, InGroup(g.name));
    hide Filter, Sorted, LeastPriority;
    MembersFromMultiset(members, g.containers);
  }

  lemma TiedRanks(x: Container, y: Container)
    ensures !ByPriority()(x, y) && !ByPriority()(y, x) <==> ContainerRank(x) == ContainerRank(y)
  {
    RankOrder();
  }

  /** Ties in a group are ties in the list. */
  lemma TiesInGroup(list: seq<Container>, g: ContainerGroup)
    requires IsGroupOf(list, g)
    ensures TiesAreEqual(ByPriority(), g.containers) <==> NoTiesIn(list, g.name)
  {
    hide IsGroupOf, ByPriority, ContainerRank;
    GroupHolds(list, g);
    forall x, y ensures !ByPriority()(x, y) && !ByPriority()(y, x) <==> ContainerRank(x) == ContainerRank(y) {
      TiedRanks(x, y);
    }
  }

  lemma TiesInGroups(list: seq<Container>, groups: seq<ContainerGroup>)
    requires IsGrouping(list, groups)
    ensures (forall g | g in groups :: TiesAreEqual(ByPriority(), g.containers)) <==> NoTies(list)
  {
    hide IsGroupOf, StrictlySorted, TiesAreEqual, ByPriority, ContainerRank;
    forall g | g in groups ensures TiesAreEqual(ByPriority(), g.containers) <==> NoTiesIn(list, g.name) {
      assert IsGroupOf(list, g);
      TiesInGroup(list, g);
    }
    if forall g | g in groups :: TiesAreEqual(ByPriority(), g.containers) {
      forall x | x in list ensures NoTiesIn(list, x.labels.GroupName()) {
        assert HasGroup(groups, x.labels.GroupName());
        var g :| g in groups && g.name == x.labels.GroupName();
      }
    }
  }

  lemma UniqueIffGroupsUntied(list: seq<Container>, groups: seq<ContainerGroup>)
    requires IsGrouping(list, groups)
    ensures (forall other | IsGrouping(list, other) :: other == groups)
       <==> (forall g | g in groups :: TiesAreEqual(ByPriority(), g.containers))
  {
    if forall g | g in groups :: TiesAreEqual(ByPriority(), g.containers) {
      forall other | IsGrouping(list, other) ensures other == groups {
        Canonical(list, groups, list, other);
      }
    } else {
      var g :| g in groups && !TiesAreEqual(ByPriority(), g.containers);
      var k :| 0 <= k < |groups| && groups[k] == g;
      var i, j := TiedPair(g.containers);
      var other := AnotherGrouping(list, groups, k, i, j);
    }
  }

  /**
   The result is determined to the last position exactly when no two different containers of the
   list share group name, priority and name.
   */
  lemma UniqueIffNoTies(list: seq<Container>, groups: seq<ContainerGroup>)
    requires IsGrouping(list, groups)
    ensures (forall other | IsGrouping(list, other) :: other == groups) <==> NoTies(list)
  {
    hide IsGrouping, TiesAreEqual, NoTies;
    UniqueIffGroupsUntied(list, groups);
    TiesInGroups(list, groups);
  }

  // ---------- Partition ----------

  lemma DistinctNames(list: seq<Container>, groups: seq<ContainerGroup>, i: nat, j: nat)
    requires IsGrouping(list, groups) && i < j < |groups|
    ensures groups[i].name != groups[j].name
  {
    assert GroupsByPriority()(groups[i], groups[j]);
    assert IsGroupOf(list, groups[i]) && IsGroupOf(list, groups[j]);
    if groups[i].name == groups[j].name {
      GroupsOfOneName(list, list, groups[i], groups[j]);
      RankOrder();
    }
  }

  /** How often the selected groups among the first n show a container. */
  function ShownTimes(groups: seq<ContainerGroup>, n: nat, p: string -> bool, x: Container): nat
    requires n <= |groups|
  {
    multiset(Flatten(Filter(groups[..n], NamedBy(p))))[x]
  }

  lemma ShownTimesNone(groups: seq<ContainerGroup>, p: string -> bool, x: Container)
    ensures ShownTimes(groups, 0, p, x) == 0
  {
    assert Filter(groups[..0], NamedBy(p)) == [];
  }

  lemma FlattenSnoc(groups: seq<ContainerGroup>, g: ContainerGroup, x: Container)
    ensures multiset(Flatten(groups + [g]))[x] == multiset(Flatten(groups))[x] + multiset(g.containers)[x]
  {
    assert (groups + [g])[..|groups|] == groups;
  }

  lemma ShownTimesSnoc(groups: seq<ContainerGroup>, n: nat, p: string -> bool, x: Container)
    requires n < |groups|
    ensures ShownTimes(groups, n + 1, p, x)
         == ShownTimes(groups, n, p, x) + if p(groups[n].name) then multiset(groups[n].containers)[x] else 0
  {
    hide Flatten, Filter;
    FilterSnoc(groups, n, NamedBy(p));
    FlattenSnoc(Filter(groups[..n], NamedBy(p)), groups[n], x);
  }

  /** A group shows each container of its name as often as it is listed. */
  lemma GroupCount(list: seq<Container>, g: ContainerGroup, x: Container)
    requires IsGroupOf(list, g)
    ensures multiset(g.containers)[x] == if x.labels.GroupName() == g.name then multiset(list)[x] else 0
  {
    hide Filter;
    FilterCount(list, InGroup(g.name), x);
  }

  /** One of the first n groups has this name. */
  ghost predicate NamedWithin(groups: seq<ContainerGroup>, n: nat, name: string)
    requires n <= |groups|
  {
    exists i | 0 <= i < n :: groups[i].name == name
  }

  lemma NamedWithinStep(list: seq<Container>, groups: seq<ContainerGroup>, n: nat, name: string)
    requires IsGrouping(list, groups) && n < |groups|
    ensures IsGroupOf(list, groups[n])
    ensures NamedWithin(groups, n + 1, name) <==> NamedWithin(groups, n, name) || groups[n].name == name
    ensures !NamedWithin(groups, n, groups[n].name)
  {
    hide IsGroupOf, HasGroup, StrictlySorted;
    forall i | 0 <= i < n ensures groups[i].name != groups[n].name {
      DistinctNames(list, groups, i, n);
    }
  }

  lemma {:induction false} ShownCount(list: seq<Container>, groups: seq<ContainerGroup>, n: nat, p: string -> bool,
                                      x: Container)
    requires IsGrouping(list, groups) && n <= |groups|
    ensures ShownTimes(groups, n, p, x)
         == if p(x.labels.GroupName()) && NamedWithin(groups, n, x.labels.GroupName()) then multiset(list)[x] else 0
  {
    hide *;
    if n == 0 {
      ShownTimesNone(groups, p, x);
      NoneWithin(groups, x.labels.GroupName());
    } else {
      ShownCount(list, groups, n - 1, p, x);
      ShownTimesSnoc(groups, n - 1, p, x);
      NamedWithinStep(list, groups, n - 1, x.labels.GroupName());
      GroupCount(list, groups[n - 1], x);
    }
  }

  lemma NoneWithin(groups: seq<ContainerGroup>, name: string)
    ensures !NamedWithin(groups, 0, name)
  {
  }

  /** Groups selected by name show exactly the containers whose group name is selected, each as often as listed. */
  lemma SelectedGroups(list: seq<Container>, groups: seq<ContainerGroup>, p: string -> bool, x: Container)
    requires IsGrouping(list, groups)
    ensures multiset(Flatten(Filter(groups, NamedBy(p))))[x] == if p(x.labels.GroupName()) then multiset(list)[x] else 0
  {
    hide Flatten, Filter, IsGrouping, NamedBy;
    ShownCount(list, groups, |groups|, p, x);
    assert groups[..|groups|] == groups;
    if x in list {
      var i := GroupOfListed(list, groups, x);
    } else {
      assert x !in multiset(list);
    }
  }

  /** Every listed container has its group. */
  lemma GroupOfListed(list: seq<Container>, groups: seq<ContainerGroup>, x: Container) returns (i: nat)
    requires IsGrouping(list, groups) && x in list
    ensures i < |groups| && groups[i].name == x.labels.GroupName() && IsGroupOf(list, groups[i])
  {
    hide IsGroupOf, StrictlySorted;
    assert HasGroup(groups, x.labels.GroupName());
    var g :| g in groups && g.name == x.labels.GroupName();
    i :| 0 <= i < |groups| && groups[i] == g;
  }

  function AnyName(): string -> bool { (n: string) => true }

  lemma {:induction false} FilterAll(groups: seq<ContainerGroup>)
    ensures Filter(groups, NamedBy(AnyName())) == groups
  {
    if groups != [] {
      FilterAll(groups[..|groups| - 1]);
    }
  }

  /** The groups partition the list. */
  lemma Partition(list: seq<Container>, groups: seq<ContainerGroup>)
    requires IsGrouping(list, groups)
    ensures multiset(Flatten(groups)) == multiset(list)
    ensures forall i, j | 0 <= i < j < |groups| :: groups[i].name != groups[j].name
    ensures forall g | g in groups ::
              && g.containers != []
              && (forall c | c in g.containers :: c.labels.GroupName() == g.name)
              && LeastPriority(g.containers, g.priority)
              && g.containers[0].labels.priority == g.priority
  {
    forall x ensures multiset(Flatten(groups))[x] == multiset(list)[x] {
      SelectedGroups(list, groups, AnyName(), x);
      FilterAll(groups);
    }
    forall i, j | 0 <= i < j < |groups| ensures groups[i].name != groups[j].name {
      DistinctNames(list, groups, i, j);
    }
    forall g | g in groups
      ensures g.containers != [] && LeastPriority(g.containers, g.priority)
      ensures forall c | c in g.containers :: c.labels.GroupName() == g.name
      ensures g.containers[0].labels.priority == g.priority
    {
      assert IsGroupOf(list, g);
      GroupMembers(list, g);
    }
  }

  lemma GroupMembers(list: seq<Container>, g: ContainerGroup)
    requires IsGroupOf(list, g)
    ensures g.containers != [] && LeastPriority(g.containers, g.priority)
    ensures forall c | c in g.containers :: c.labels.GroupName() == g.name
    ensures g.containers[0].labels.priority == g.priority
  {
    MembersFromMultiset(Filter(list, InGroup(g.name)), g.containers);
    var c :| c in g.containers && c.labels.priority == g.priority;
    SortedHeadLeast(ByPriority(), g.containers, c);
    assert g.containers[0] in g.containers;
  }

  // ---------- Search ----------

  datatype SearchParams = SearchParams(query: string, status: string, group: string, tag: string, sort: string)

  predicate Matches(c: Container, p: SearchParams) {
    && (p.status == "" || EqualFold(c.state, p.status))
    && (p.group == "" || EqualFold(c.labels.GroupName(), p.group))
    && (p.tag == "" || c.labels.HasTagLike(p.tag))
    && (p.query == ""
        || Contains(ToLower(c.labels.DisplayName(c.name)), ToLower(p.query))
        || Contains(ToLower(c.image), ToLower(p.query))
        || Contains(c.shortID, ToLower(p.query)))
  }

  function Matching(p: SearchParams): Container -> bool {
    (c: Container) => Matches(c, p)
  }

  /** What Search returns for a list. */
  ghost predicate IsSearchResult(list: seq<Container>, p: SearchParams, r: seq<Container>) {
    SortedPermutation(SortOrder(p.sort), Filter(list, Matching(p)), r)
  }

  /** q asks for everything p asks for: each filter of p is unset or the same in q. */
  predicate Strengthens(q: SearchParams, p: SearchParams) {
    && (p.query == "" || p.query == q.query)
    && (p.status == "" || p.status == q.status)
    && (p.group == "" || p.group == q.group)
    && (p.tag == "" || p.tag == q.tag)
  }

  /** Setting more filters, in any sort mode, only removes containers. */
  lemma StrongerSearchShowsLess(list: seq<Container>, p: SearchParams, q: SearchParams,
                                rp: seq<Container>, rq: seq<Container>)
    requires Strengthens(q, p) && IsSearchResult(list, p, rp) && IsSearchResult(list, q, rq)
    ensures multiset(rq) <= multiset(rp)
  {
    FilterMonotone(list, Matching(q), Matching(p));
  }

  /** Search returns each matching container as often as listed, and nothing else. */
  lemma SearchCount(list: seq<Container>, p: SearchParams, r: seq<Container>, x: Container)
    requires IsSearchResult(list, p, r)
    ensures multiset(r)[x] == if Matches(x, p) then multiset(list)[x] else 0
  {
    FilterCount(list, Matching(p), x);
  }

  // ---------- What each filter finds ----------

  /** With only a status: the containers whose state is that status up to case, each as often as listed. */
  lemma StatusFinds(list: seq<Container>, status: string, sort: string, r: seq<Container>, x: Container)
    requires status != "" && IsSearchResult(list, SearchParams("", status, "", "", sort), r)
    ensures multiset(r)[x] == if EqualFold(x.state, status) then multiset(list)[x] else 0
  {
    hide IsSearchResult, EqualFold;
    SearchCount(list, SearchParams("", status, "", "", sort), r, x);
  }

  /** With only a group: those whose group name is that up to case. */
  lemma GroupFinds(list: seq<Container>, group: string, sort: string, r: seq<Container>, x: Container)
    requires group != "" && IsSearchResult(list, SearchParams("", "", group, "", sort), r)
    ensures multiset(r)[x] == if EqualFold(x.labels.GroupName(), group) then multiset(list)[x] else 0
  {
    hide IsSearchResult, EqualFold;
    SearchCount(list, SearchParams("", "", group, "", sort), r, x);
  }

  /** With only a tag: those one of whose tags is that up to case. */
  lemma TagFinds(list: seq<Container>, tag: string, sort: string, r: seq<Container>, x: Container)
    requires tag != "" && IsSearchResult(list, SearchParams("", "", "", tag, sort), r)
    ensures multiset(r)[x]
         == if exists i | 0 <= i < |x.labels.tags| :: EqualFold(x.labels.tags[i], tag) then multiset(list)[x] else 0
  {
    hide IsSearchResult, EqualFold;
    SearchCount(list, SearchParams("", "", "", tag, sort), r, x);
    assert x.labels.HasTagLike(tag) <==> exists i | 0 <= i < |x.labels.tags| :: EqualFold(x.labels.tags[i], tag);
  }

  /** With only a query: those in whose display name, image or (as it is) short id the lowered query occurs. */
  lemma QueryFinds(list: seq<Container>, query: string, sort: string, r: seq<Container>, x: Container)
    requires query != "" && IsSearchResult(list, SearchParams(query, "", "", "", sort), r)
    ensures var q, name := ToLower(query), if x.labels.name != "" then x.labels.name else x.name;
            var found := Contains(ToLower(name), q) || Contains(ToLower(x.image), q) || Contains(x.shortID, q);
            multiset(r)[x] == if found then multiset(list)[x] else 0
  {
    hide IsSearchResult, ToLower, Contains;
    SearchCount(list, SearchParams(query, "", "", "", sort), r, x);
  }

  /** With several: the intersection of what each finds alone. A filter that is not set finds everything. */
  lemma SearchIsIntersection(list: seq<Container>, p: SearchParams, r: seq<Container>, byQuery: seq<Container>,
                             byStatus: seq<Container>, byGroup: seq<Container>, byTag: seq<Container>)
    requires IsSearchResult(list, p, r)
    requires IsSearchResult(list, SearchParams(p.query, "", "", "", ""), byQuery)
    requires IsSearchResult(list, SearchParams("", p.status, "", "", ""), byStatus)
    requires IsSearchResult(list, SearchParams("", "", p.group, "", ""), byGroup)
    requires IsSearchResult(list, SearchParams("", "", "", p.tag, ""), byTag)
    ensures multiset(r) == multiset(byQuery) * multiset(byStatus) * multiset(byGroup) * multiset(byTag)
  {
    hide IsSearchResult, EqualFold, Contains, ToLower;
    forall x ensures multiset(r)[x]
                  == (multiset(byQuery) * multiset(byStatus) * multiset(byGroup) * multiset(byTag))[x] {
      SearchCount(list, p, r, x);
      SearchCount(list, SearchParams(p.query, "", "", "", ""), byQuery, x);
      SearchCount(list, SearchParams("", p.status, "", "", ""), byStatus, x);
      SearchCount(list, SearchParams("", "", p.group, "", ""), byGroup, x);
      SearchCount(list, SearchParams("", "", "", p.tag, ""), byTag, x);
    }
  }

  lemma NoFilterFindsAll(list: seq<Container>, sort: string, r: seq<Container>)
    requires IsSearchResult(list, SearchParams("", "", "", "", sort), r)
    ensures multiset(r) == multiset(list)
  {
    hide IsSearchResult;
    forall x ensures multiset(r)[x] == multiset(list)[x] {
      SearchCount(list, SearchParams("", "", "", "", sort), r, x);
    }
  }

  // ---------- In which order ----------

  /** The same, or before in the order of characters. */
  ghost predicate NotAfter(a: string, b: string) { a == b || ComesBefore(a, b) }

  lemma NotLessIff(a: string, b: string)
    ensures !StrLess(b, a) <==> NotAfter(a, b)
    ensures ComesBefore(a, b) <==> StrLess(a, b)
  {
    hide StrLess, ComesBefore;
    StrLessIff(a, b);
    StrLessTotal(a, b);
    StrLessIrreflexive(a);
    if StrLess(a, b) && StrLess(b, a) { StrLessTransitive(a, b, a); }
  }

  /** Groups come by ascending priority, and by name where priorities are equal. */
  lemma GroupOrder(list: seq<Container>, groups: seq<ContainerGroup>, i: nat, j: nat)
    requires IsGrouping(list, groups) && i < j < |groups|
    ensures groups[i].priority <= groups[j].priority
    ensures groups[i].priority == groups[j].priority ==> ComesBefore(groups[i].name, groups[j].name)
  {
    hide IsGroupOf, HasGroup, StrLess, ComesBefore;
    assert GroupsByPriority()(groups[i], groups[j]);
    NotLessIff(groups[i].name, groups[j].name);
  }

  /** And so do the containers of one group, where names may also be equal. */
  lemma MemberOrder(list: seq<Container>, g: ContainerGroup, i: nat, j: nat)
    requires IsGroupOf(list, g) && i < j < |g.containers|
    ensures var x, y := g.containers[i], g.containers[j];
            && x.labels.priority <= y.labels.priority
            && (x.labels.priority == y.labels.priority ==> NotAfter(x.name, y.name))
  {
    hide Filter, LeastPriority, StrLess, NotAfter;
    assert !ByPriority()(g.containers[j], g.containers[i]);
    NotLessIff(g.containers[i].name, g.containers[j].name);
  }

  /** The order of search results: by name, by state, newest first, or by priority and then name. */
  lemma SearchOrder(list: seq<Container>, p: SearchParams, r: seq<Container>, i: nat, j: nat)
    requires IsSearchResult(list, p, r) && i < j < |r|
    ensures p.sort == "name" ==> NotAfter(r[i].name, r[j].name)
    ensures p.sort == "status" ==> NotAfter(r[i].state, r[j].state)
    ensures p.sort == "created" ==> r[i].created >= r[j].created
    ensures p.sort !in {"name", "status", "created"} ==>
              && r[i].labels.priority <= r[j].labels.priority
              && (r[i].labels.priority == r[j].labels.priority ==> NotAfter(r[i].name, r[j].name))
  {
    hide Filter, StrLess, NotAfter;
    assert !SortOrder(p.sort)(r[j], r[i]);
    NotLessIff(r[i].name, r[j].name);
    NotLessIff(r[i].state, r[j].state);
  }

  /** A group has the icon of the first container of its name in the list. */
  lemma FirstIcon(list: seq<Container>, g: ContainerGroup) returns (i: nat)
    requires IsGroupOf(list, g)
    ensures i < |list| && list[i].labels.GroupName() == g.name && list[i].labels.icon == g.icon
    ensures forall k | 0 <= k < i :: list[k].labels.GroupName() != g.name
  {
    hide Sorted, LeastPriority;
    i := FirstMatch(list, InGroup(g.name));
  }

  lemma {:induction false} FirstMatch<T(!new)>(s: seq<T>, p: T -> bool) returns (i: nat)
    requires Filter(s, p) != []
    ensures i < |s| && p(s[i]) && Filter(s, p)[0] == s[i]
    ensures forall k | 0 <= k < i :: !p(s[k])
  {
    var init := s[..|s| - 1];
    if Filter(init, p) == [] {
      i := |s| - 1;
      forall k | 0 <= k < i ensures !p(s[k]) { assert init[k] in init; }
    } else {
      i := FirstMatch(init, p);
    }
  }

  // ---------- Two query paths ----------

  function OnlyGroup(g: string): SearchParams { SearchParams("", "", g, "", "") }

  function FoldsTo(g: string): string -> bool { (n: string) => EqualFold(n, g) }

  function Exactly(g: string): string -> bool { (n: string) => n == g }

  /** Searching by group alone shows the union of the groups whose names fold to it. */
  lemma SearchIsUnionOfGroups(list: seq<Container>, groups: seq<ContainerGroup>, g: string, r: seq<Container>)
    requires g != "" && IsGrouping(list, groups) && IsSearchResult(list, OnlyGroup(g), r)
    ensures multiset(r) == multiset(Flatten(Filter(groups, NamedBy(FoldsTo(g)))))
  {
    forall x ensures multiset(r)[x] == multiset(Flatten(Filter(groups, NamedBy(FoldsTo(g)))))[x] {
      SearchCount(list, OnlyGroup(g), r, x);
      SelectedGroups(list, groups, FoldsTo(g), x);
    }
  }

  /**
   When one group alone has a name folding to g and no two of its containers tie, the search
   shows that group's containers in the group's own order.
   */
  lemma SearchIsTheGroup(list: seq<Container>, groups: seq<ContainerGroup>, g: string, r: seq<Container>, k: nat)
    requires g != "" && IsGrouping(list, groups) && IsSearchResult(list, OnlyGroup(g), r)
    requires k < |groups| && forall i | 0 <= i < |groups| :: EqualFold(groups[i].name, g) <==> i == k
    requires TiesAreEqual(ByPriority(), groups[k].containers)
    ensures r == groups[k].containers
  {
    GroupIsSearchResult(list, groups, g, k);
    assert SortOrder(OnlyGroup(g).sort) == ByPriority();
    SortedUnique(ByPriority(), groups[k].containers, r);
  }

  /** Of the list's group names exactly this one folds to g. */
  ghost predicate OneFoldsTo(list: seq<Container>, g: string, name: string) {
    && EqualFold(name, g) && (exists c | c in list :: c.labels.GroupName() == name)
    && forall c | c in list && EqualFold(c.labels.GroupName(), g) :: c.labels.GroupName() == name
  }

  lemma OneGroupFolds(list: seq<Container>, groups: seq<ContainerGroup>, g: string, name: string) returns (k: nat)
    requires IsGrouping(list, groups) && OneFoldsTo(list, g, name)
    ensures k < |groups| && groups[k].name == name
    ensures forall i | 0 <= i < |groups| :: EqualFold(groups[i].name, g) <==> i == k
  {
    hide IsGrouping, EqualFold;
    var c :| c in list && c.labels.GroupName() == name;
    k := GroupOfListed(list, groups, c);
    forall i | 0 <= i < |groups| ensures EqualFold(groups[i].name, g) <==> i == k {
      GroupAt(list, groups, i);
      GroupHolds(list, groups[i]);
      assert groups[i].containers[0] in groups[i].containers;
      if i < k { DistinctNames(list, groups, i, k); }
      if k < i { DistinctNames(list, groups, k, i); }
    }
  }

  /**
   When one group name alone folds to g, the search is certain to show that group's containers in
   the group's own order, whatever the unstable sorts do, exactly when no two different ones of
   them share priority and name.
   */
  lemma SearchIsTheGroupIff(list: seq<Container>, groups: seq<ContainerGroup>, g: string, name: string)
    requires g != "" && IsGrouping(list, groups) && OneFoldsTo(list, g, name)
    ensures exists k | 0 <= k < |groups| ::
              && groups[k].name == name
              && ((forall r | IsSearchResult(list, OnlyGroup(g), r) :: r == groups[k].containers)
                  <==> NoTiesIn(list, name))
  {
    hide IsSearchResult, TiesAreEqual, NoTiesIn, IsGrouping, EqualFold, OneFoldsTo, IsGroupOf;
    var k := OneGroupFolds(list, groups, g, name);
    GroupAt(list, groups, k);
    TiesInGroup(list, groups[k]);
    if TiesAreEqual(ByPriority(), groups[k].containers) {
      forall r | IsSearchResult(list, OnlyGroup(g), r) ensures r == groups[k].containers {
        SearchIsTheGroup(list, groups, g, r, k);
      }
    } else {
      GroupIsSearchResult(list, groups, g, k);
      var t := AnotherSearchResult(list, g, groups[k].containers);
    }
  }

  lemma AnotherSearchResult(list: seq<Container>, g: string, s: seq<Container>) returns (t: seq<Container>)
    requires IsSearchResult(list, OnlyGroup(g), s) && !TiesAreEqual(ByPriority(), s)
    ensures IsSearchResult(list, OnlyGroup(g), t) && t != s
  {
    hide Sorted, TiesAreEqual, ByPriority;
    assert SortOrder(OnlyGroup(g).sort) == ByPriority();
    var i, j := TiedPair(s);
    t := SwapTies(s, i, j);
  }

  lemma GroupIsSearchResult(list: seq<Container>, groups: seq<ContainerGroup>, g: string, k: nat)
    requires g != "" && IsGrouping(list, groups)
    requires k < |groups| && forall i | 0 <= i < |groups| :: EqualFold(groups[i].name, g) <==> i == k
    ensures IsSearchResult(list, OnlyGroup(g), groups[k].containers)
  {
    hide Filter, IsGrouping, EqualFold;
    assert IsGroupOf(list, groups[k]) by { GroupAt(list, groups, k); }
    var found := Filter(list, Matching(OnlyGroup(g)));
    forall x ensures multiset(found)[x] == multiset(groups[k].containers)[x] {
      FoundInGroup(list, groups, g, k, x);
    }
    assert multiset(found) == multiset(groups[k].containers);
  }

  lemma GroupAt(list: seq<Container>, groups: seq<ContainerGroup>, k: nat)
    requires IsGrouping(list, groups) && k < |groups|
    ensures IsGroupOf(list, groups[k])
  {
    hide IsGroupOf;
  }

  lemma FoundInGroup(list: seq<Container>, groups: seq<ContainerGroup>, g: string, k: nat, x: Container)
    requires g != "" && IsGrouping(list, groups)
    requires k < |groups| && forall i | 0 <= i < |groups| :: EqualFold(groups[i].name, g) <==> i == k
    ensures multiset(Filter(list, Matching(OnlyGroup(g))))[x] == multiset(groups[k].containers)[x]
  {
    hide Filter, IsGrouping, IsGroupOf, EqualFold;
    FilterCount(list, Matching(OnlyGroup(g)), x);
    GroupAt(list, groups, k);
    GroupCount(list, groups[k], x);
    if x in list {
      var i := GroupOfListed(list, groups, x);
    } else {
      assert x !in multiset(list);
    }
  }

  /** Every group name in the list that folds to g is spelled g. */
  ghost predicate SpelledAlike(list: seq<Container>, g: string) {
    forall c | c in list && EqualFold(c.labels.GroupName(), g) :: c.labels.GroupName() == g
  }

  lemma ExactFilterCounts(list: seq<Container>, groups: seq<ContainerGroup>, g: string, r: seq<Container>, x: Container)
    requires g != "" && IsGrouping(list, groups) && IsSearchResult(list, OnlyGroup(g), r)
    ensures multiset(r)[x] == if EqualFold(x.labels.GroupName(), g) then multiset(list)[x] else 0
    ensures multiset(Flatten(Filter(groups, NamedBy(Exactly(g)))))[x]
         == if x.labels.GroupName() == g then multiset(list)[x] else 0
  {
    hide IsGrouping, IsSearchResult, Flatten, Filter, EqualFold;
    SearchCount(list, OnlyGroup(g), r, x);
    SelectedGroups(list, groups, Exactly(g), x);
  }

  /**
   The partial handler keeps groups whose name is exactly g, the search those that fold to g:
   they show the same containers exactly when every group name in the list that folds to g is
   spelled g.
   */
  lemma ExactFilterAgreesIff(list: seq<Container>, groups: seq<ContainerGroup>, g: string, r: seq<Container>)
    requires g != "" && IsGrouping(list, groups) && IsSearchResult(list, OnlyGroup(g), r)
    ensures multiset(r) == multiset(Flatten(Filter(groups, NamedBy(Exactly(g))))) <==> SpelledAlike(list, g)
  {
    hide IsGrouping, IsSearchResult, Flatten, Filter, EqualFold;
    var shown := Flatten(Filter(groups, NamedBy(Exactly(g))));
    if SpelledAlike(list, g) {
      forall x ensures multiset(r)[x] == multiset(shown)[x] {
        ExactFilterCounts(list, groups, g, r, x);
        assert x in multiset(list) <==> x in list;
        assert EqualFold(g, g) by { FoldsToItself(g); }
      }
    } else {
      var x :| x in list && EqualFold(x.labels.GroupName(), g) && x.labels.GroupName() != g;
      assert x in multiset(list);
      ExactFilterCounts(list, groups, g, r, x);
    }
  }

  lemma FoldsToItself(g: string)
    ensures EqualFold(g, g)
  {
  }
}
