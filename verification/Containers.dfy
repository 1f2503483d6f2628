/**
 The container service: a cache-aside list and the two queries over it. The cached slice is
 shared by every caller, so the in-place sorts must never reach it.
 */
module Containers {
  import opened Text
  import opened Labels
  import opened Models
  import opened Ordering
  import opened Grouping
  import opened Caching

  const CACHE_KEY := "containers"

  datatype Result<+T> = Ok(value: T) | Err(message: string)

  /** Values in the shared cache: container slices, and what other services keep there. */
  datatype Cached = Slice(containers: array<Container>) | Foreign

  /** The clock readings of one List call: in Get, while converting, in Set. */
  datatype Clock = Clock(get: int, read: int, put: int)

  // ---------- The list of one snapshot ----------

  ghost predicate ValidSnapshot(api: seq<ApiContainer>) {
    forall c | c in api :: |c.id| >= SHORT_ID_LENGTH
  }

  ghost function Images(api: seq<ApiContainer>, now: int): (r: seq<Container>)
    requires ValidSnapshot(api)
    ensures |r| == |api|
  {
    seq(|api|, i requires 0 <= i < |api| => ContainerOf(api[i], now))
  }

  function NotHidden(): Container -> bool { (c: Container) => !c.labels.hide }

  /** The containers of one daemon snapshot that are not hidden, in the daemon's order. */
  ghost function Visible(api: seq<ApiContainer>, now: int): seq<Container>
    requires ValidSnapshot(api)
  {
    Filter(Images(api, now), NotHidden())
  }

  /** The label that hides a container, read off the daemon's record. */
  predicate HiddenByLabel(labels: map<string, string>) {
    "wingstation.hide" in labels && labels["wingstation.hide"] in {"true", "1", "yes"}
  }

  function WithoutHidden(): ApiContainer -> bool { (c: ApiContainer) => !HiddenByLabel(c.labels) }

  lemma HiddenIff(c: ApiContainer, now: int)
    requires |c.id| >= SHORT_ID_LENGTH
    ensures ContainerOf(c, now).labels.hide <==> HiddenByLabel(c.labels)
  {
    hide LabelsOf, FirstByKey, Mappings;
    ReadFields(c.labels);
  }

  lemma ImagesSnoc(api: seq<ApiContainer>, c: ApiContainer, now: int)
    requires ValidSnapshot(api + [c])
    ensures ValidSnapshot(api) && |c.id| >= SHORT_ID_LENGTH
    ensures Images(api + [c], now) == Images(api, now) + [ContainerOf(c, now)]
  {
    hide ContainerOf;
    assert c in api + [c] && forall d | d in api :: d in api + [c];
  }

  lemma FilterOfSnoc<T(!new)>(s: seq<T>, x: T, p: T -> bool)
    ensures Filter(s + [x], p) == if p(x) then Filter(s, p) + [x] else Filter(s, p)
  {
    assert (s + [x])[..|s|] == s;
  }

  lemma ValidKept(api: seq<ApiContainer>)
    requires ValidSnapshot(api)
    ensures ValidSnapshot(Filter(api, WithoutHidden()))
  {
  }

  lemma VisibleSnoc(api: seq<ApiContainer>, c: ApiContainer, now: int)
    requires ValidSnapshot(api + [c])
    ensures ValidSnapshot(api) && |c.id| >= SHORT_ID_LENGTH
    ensures Visible(api + [c], now) == Visible(api, now) + if HiddenByLabel(c.labels) then [] else [ContainerOf(c, now)]
  {
    hide Filter, Images, ContainerOf, ValidSnapshot, HiddenByLabel;
    ImagesSnoc(api, c, now);
    HiddenIff(c, now);
    FilterOfSnoc(Images(api, now), ContainerOf(c, now), NotHidden());
  }

  /**
   The list holds the images of exactly the containers that the daemon's labels do not hide, each
   as often as the daemon reports it and in the daemon's order.
   */
  lemma {:induction false} VisibleIs(api: seq<ApiContainer>, now: int)
    requires ValidSnapshot(api)
    ensures ValidSnapshot(Filter(api, WithoutHidden()))
    ensures Visible(api, now) == Images(Filter(api, WithoutHidden()), now)
    decreases |api|
  {
    ValidKept(api);
    if |api| == 0 {
      hide ContainerOf;
      assert Images(api, now) == [];
    } else {
      hide Visible, Images, Filter, ValidSnapshot, HiddenByLabel, ContainerOf;
      var init, last := api[..|api| - 1], api[|api| - 1];
      assert api == init + [last];
      VisibleSnoc(init, last, now);
      VisibleIs(init, now);
      FilterOfSnoc(init, last, WithoutHidden());
      if !HiddenByLabel(last.labels) { ImagesSnoc(Filter(init, WithoutHidden()), last, now); }
    }
  }

  /** In particular every listed container is one whose own labels do not hide it. */
  lemma ListedIsNotHidden(api: seq<ApiContainer>, now: int, c: Container)
    requires ValidSnapshot(api) && c in Visible(api, now)
    ensures !HiddenByLabel(c.allLabels)
  {
    hide HiddenByLabel, LabelsOf, FirstByKey, Mappings, Visible;
    VisibleIs(api, now);
    var shown := Filter(api, WithoutHidden());
    var i :| 0 <= i < |shown| && Images(shown, now)[i] == c;
    assert shown[i] in shown;
  }

  // ---------- The cached list as a value ----------

  type View = Option<Entry<seq<Container>>>

  /** What List serves, given the cached list and what the daemon would answer. */
  ghost function Served(view: View, clock: Clock, daemon: Result<seq<ApiContainer>>): Result<seq<Container>>
    requires daemon.Ok? ==> ValidSnapshot(daemon.value)
  {
    if view.Some? && clock.get <= view.value.expiresAt then Ok(view.value.value)
    else
      match daemon
      case Ok(api) => Ok(Visible(api, clock.read))
      case Err(e) => Err("listing containers: " + e)
  }

  /** The cached list after that call. */
  ghost function NextView(view: View, clock: Clock, daemon: Result<seq<ApiContainer>>, ttl: int): View
    requires daemon.Ok? ==> ValidSnapshot(daemon.value)
  {
    if (view.Some? && clock.get <= view.value.expiresAt) || daemon.Err? then view
    else Some(Entry(Visible(daemon.value, clock.read), clock.put + ttl))
  }

  /**
   Two List calls in a row, from any state of the cache. While what the first one served has not
   expired the second serves it again, whatever the daemon says; afterwards it asks the daemon.
   */
  lemma RepeatedList(view: View, first: Clock, d1: Result<seq<ApiContainer>>, second: Clock,
                     d2: Result<seq<ApiContainer>>, ttl: int)
    requires (d1.Ok? ==> ValidSnapshot(d1.value)) && (d2.Ok? ==> ValidSnapshot(d2.value))
    ensures var cached := NextView(view, first, d1, ttl);
            && (cached.Some? && second.get <= cached.value.expiresAt && Served(view, first, d1).Ok? ==>
                  Served(cached, second, d2) == Served(view, first, d1))
            && (cached.Some? && second.get > cached.value.expiresAt && d2.Ok? ==>
                  Served(cached, second, d2) == Ok(Visible(d2.value, second.read)))
            && (view == None && d1.Ok? ==>
                  && Served(view, first, d1) == Ok(Visible(d1.value, first.read))
                  && cached.Some? && cached.value.expiresAt == first.put + ttl)
  {
    hide Visible;
  }

  class ContainerService {
    const cache: Cache<Cached>

    constructor (cache: Cache<Cached>)
      ensures this.cache == cache
    {
      this.cache := cache;
    }

    ghost predicate Valid()
      reads cache
    {
      CACHE_KEY in cache.items ==> cache.items[CACHE_KEY].value.Slice?
    }

    ghost function SharedSlice(): set<object>
      reads cache
      requires Valid()
    {
      if CACHE_KEY in cache.items then {cache.items[CACHE_KEY].value.containers} else {}
    }

    /** The contents of the shared slice, with its expiry. */
    ghost function CachedList(): View
      reads cache, SharedSlice()
      requires Valid()
    {
      if CACHE_KEY in cache.items then
        var e := cache.items[CACHE_KEY];
        Some(Entry(e.value.containers[..], e.expiresAt))
      else None
    }

    method List(clock: Clock, daemon: Result<seq<ApiContainer>>) returns (r: Result<array<Container>>)
      requires Valid() && (daemon.Ok? ==> ValidSnapshot(daemon.value))
      modifies cache
      ensures Valid()
      ensures CachedList() == NextView(old(CachedList()), clock, daemon, cache.ttl)
      ensures match old(Served(CachedList(), clock, daemon))
              case Ok(list) => r.Ok? && r.value[..] == list
              case Err(e) => r == Err(e)
      // a hit returns the shared slice itself, a miss the fresh slice that is now shared
      ensures r.Ok? ==> SharedSlice() == {r.value} && (cache.items == old(cache.items) || fresh(r.value))
    {
      hide Visible;
      ghost var view := CachedList();
      var cached := cache.Get(CACHE_KEY, clock.get);
      assert cached.Some? <==> view.Some? && clock.get <= view.value.expiresAt;
      if cached.Some? {
        return Ok(cached.value.containers);
      }
      if daemon.Err? {
        return Err("listing containers: " + daemon.message);
      }
      var slice := Fetch(clock, daemon.value);
      assert CachedList() == Some(Entry(slice[..], clock.put + cache.ttl));
      return Ok(slice);
    }

    /** The miss path of List. */
    method Fetch(clock: Clock, api: seq<ApiContainer>) returns (slice: array<Container>)
      requires ValidSnapshot(api)
      modifies cache
      ensures fresh(slice) && slice[..] == Visible(api, clock.read)
      ensures cache.items == WithEntry(old(cache.items), CACHE_KEY, Slice(slice), clock.put, cache.ttl)
    {
      var containers := Convert(api, clock.read);
      slice := NewSlice(containers);
      cache.Set(CACHE_KEY, Slice(slice), clock.put);
    }

    method ListGrouped(clock: Clock, daemon: Result<seq<ApiContainer>>) returns (r: Result<seq<ContainerGroup>>)
      requires Valid() && (daemon.Ok? ==> ValidSnapshot(daemon.value))
      modifies cache
      ensures Valid()
      ensures CachedList() == NextView(old(CachedList()), clock, daemon, cache.ttl)
      ensures match old(Served(CachedList(), clock, daemon))
              case Ok(list) => r.Ok? && IsGrouping(list, r.value)
              case Err(e) => r == Err(e)
    {
      hide Served, NextView, IsGrouping;
      var containers := List(clock, daemon);
      if containers.Err? {
        return Err(containers.message);
      }
      var groups := GroupAndSort(containers.value);
      return Ok(groups);
    }

    method Search(clock: Clock, daemon: Result<seq<ApiContainer>>, params: SearchParams)
      returns (r: Result<seq<Container>>)
      requires Valid() && (daemon.Ok? ==> ValidSnapshot(daemon.value))
      modifies cache
      ensures Valid()
      ensures CachedList() == NextView(old(CachedList()), clock, daemon, cache.ttl)
      ensures match old(Served(CachedList(), clock, daemon))
              case Ok(list) => r.Ok? && IsSearchResult(list, params, r.value)
              case Err(e) => r == Err(e)
    {
      hide Served, NextView;
      var containers := List(clock, daemon);
      if containers.Err? {
        return Err(containers.message);
      }
      var filtered := FilterList(containers.value, params);
      var slice := NewSlice(filtered);
      SortContainers(slice, params.sort);
      return Ok(slice[..]);
    }

    method InvalidateCache()
      modifies cache
      ensures Valid() && CachedList() == None && cache.items == map[]
    {
      cache.InvalidateAll();
    }
  }

  /** The conversion loop of List: hidden containers are left out. */
  method Convert(api: seq<ApiContainer>, now: int) returns (containers: seq<Container>)
    requires ValidSnapshot(api)
    ensures containers == Visible(api, now)
  {
    ghost var images := Images(api, now);
    containers := [];
    for i := 0 to |api|
      invariant containers == Filter(images[..i], NotHidden())
    {
      var dc := ContainerFromAPI(api[i], now);
      FilterSnoc(images, i, NotHidden());
      if !dc.labels.hide {
        containers := containers + [dc];
      }
    }
    assert images[..|api|] == images;
  }

  /** A slice of its own for a sequence that append has built. */
  method NewSlice(s: seq<Container>) returns (slice: array<Container>)
    ensures fresh(slice) && slice[..] == s
  {
    slice := new Container[|s|](i requires 0 <= i < |s| => s[i]);
  }

  // ---------- Search ----------

  method FilterList(list: array<Container>, params: SearchParams) returns (filtered: seq<Container>)
    ensures filtered == Filter(list[..], Matching(params))
  {
    ghost var all := list[..];
    filtered := [];
    for i := 0 to list.Length
      invariant filtered == Filter(all[..i], Matching(params))
    {
      FilterSnoc(all, i, Matching(params));
      var ok := MatchesSearch(list[i], params);
      if !ok {
        continue;
      }
      filtered := filtered + [list[i]];
    }
    assert all[..list.Length] == all;
  }

  method MatchesSearch(c: Container, p: SearchParams) returns (ok: bool)
    ensures ok <==> Matches(c, p)
  {
    if p.status != "" && !EqualFold(c.state, p.status) {
      return false;
    }
    if p.group != "" && !EqualFold(c.labels.GroupName(), p.group) {
      return false;
    }
    if p.tag != "" {
      var tagged := c.labels.HasTag(p.tag);
      if !tagged {
        return false;
      }
    }
    if p.query != "" {
      var q := ToLower(p.query);
      var name := ToLower(c.labels.DisplayName(c.name));
      var image := ToLower(c.image);
      if !Contains(name, q) && !Contains(image, q) && !Contains(c.shortID, q) {
        return false;
      }
    }
    return true;
  }

  method SortContainers(containers: array<Container>, sortBy: string)
    modifies containers
    ensures SortedPermutation(SortOrder(sortBy), old(containers[..]), containers[..])
  {
    OrdersAreWeak(sortBy);
    match sortBy
    case "name" => SortSlice(containers, ByName());
    case "status" => SortSlice(containers, ByStatus());
    case "created" => SortSlice(containers, NewestFirst());
    case _ => SortSlice(containers, ByPriority());
  }

  // ---------- Grouping ----------

  /** A group under construction: ListGrouped's map holds pointers to these. */
  class GroupCell {
    const name: string
    const icon: string
    var priority: int
    var containers: seq<Container>

    constructor (name: string, icon: string, priority: int)
      ensures Value() == ContainerGroup(name, icon, priority, [])
    {
      this.name := name;
      this.icon := icon;
      this.priority := priority;
      this.containers := [];
    }

    function Value(): ContainerGroup
      reads this
    {
      ContainerGroup(name, icon, priority, containers)
    }

    method Add(c: Container)
      modifies this
      ensures Value() == WithContainer(old(Value()), c)
    {
      containers := containers + [c];
      if c.labels.priority < priority {
        priority := c.labels.priority;
      }
    }
  }

  function WithContainer(g: ContainerGroup, c: Container): ContainerGroup {
    g.(containers := g.containers + [c],
       priority := if c.labels.priority < g.priority then c.labels.priority else g.priority)
  }

  /** One turn of the grouping loop, on values. */
  ghost function Grown(groups: map<string, ContainerGroup>, c: Container): map<string, ContainerGroup> {
    var n := c.labels.GroupName();
    var g := if n in groups then groups[n] else ContainerGroup(n, c.labels.icon, c.labels.priority, []);
    groups[n := WithContainer(g, c)]
  }

  /** g is the group of its name over s, its members still in list order. */
  ghost predicate IsUnsortedGroup(s: seq<Container>, g: ContainerGroup) {
    && g.containers == Filter(s, InGroup(g.name))
    && g.containers != []
    && g.icon == g.containers[0].labels.icon
    && LeastPriority(g.containers, g.priority)
  }

  /** The groups of s by name. */
  ghost predicate GroupsOf(s: seq<Container>, groups: map<string, ContainerGroup>) {
    && (forall n | n in groups :: groups[n].name == n)
    && (forall n {:trigger IsUnsortedGroup(s, groups[n])} | n in groups :: IsUnsortedGroup(s, groups[n]))
    && (forall c | c in s :: c.labels.GroupName() in groups)
  }

  lemma LeastAfter(members: seq<Container>, p: int, c: Container)
    requires if members == [] then p == c.labels.priority else LeastPriority(members, p)
    ensures LeastPriority(members + [c], if c.labels.priority < p then c.labels.priority else p)
  {
    assert c in members + [c];
    if members != [] {
      var d :| d in members && d.labels.priority == p;
      assert d in members + [c];
    }
  }

  lemma {:induction false} NoneYet(s: seq<Container>, name: string)
    requires forall c | c in s :: c.labels.GroupName() != name
    ensures Filter(s, InGroup(name)) == []
  {
    if s != [] {
      NoneYet(s[..|s| - 1], name);
    }
  }

  lemma FilterAppend(s: seq<Container>, c: Container, n: string)
    ensures Filter(s + [c], InGroup(n))
         == if c.labels.GroupName() == n then Filter(s, InGroup(n)) + [c] else Filter(s, InGroup(n))
  {
    assert (s + [c])[..|s|] == s;
  }

  lemma GrownGroup(s: seq<Container>, groups: map<string, ContainerGroup>, c: Container)
    requires GroupsOf(s, groups)
    ensures IsUnsortedGroup(s + [c], Grown(groups, c)[c.labels.GroupName()])
  {
    var n := c.labels.GroupName();
    FilterAppend(s, c, n);
    if n in groups {
      assert IsUnsortedGroup(s, groups[n]);
      LeastAfter(groups[n].containers, groups[n].priority, c);
    } else {
      NoneYet(s, n);
      LeastAfter([], c.labels.priority, c);
      assert [] + [c] == [c];
    }
  }

  lemma GrownGroups(s: seq<Container>, groups: map<string, ContainerGroup>, c: Container)
    requires GroupsOf(s, groups)
    ensures GroupsOf(s + [c], Grown(groups, c))
  {
    var grown := Grown(groups, c);
    forall n | n in grown ensures IsUnsortedGroup(s + [c], grown[n]) {
      if n == c.labels.GroupName() {
        GrownGroup(s, groups, c);
      } else {
        assert IsUnsortedGroup(s, groups[n]);
        FilterAppend(s, c, n);
      }
    }
  }

  /** The cells of the map stand for these groups. */
  ghost predicate Collected(groupMap: map<string, GroupCell>, groups: map<string, ContainerGroup>)
    reads groupMap.Values
  {
    && groupMap.Keys == groups.Keys
    && (forall n | n in groupMap :: groupMap[n].name == n && groupMap[n].Value() == groups[n])
  }

  /** The grouping loop: each container goes to the cell of its group name. */
  method GroupByName(list: array<Container>)
    returns (groupMap: map<string, GroupCell>, ghost groups: map<string, ContainerGroup>)
    ensures forall n | n in groupMap :: fresh(groupMap[n])
    ensures Collected(groupMap, groups) && GroupsOf(list[..], groups)
  {
    groupMap := map[];
    groups := map[];
    for i := 0 to list.Length
      invariant forall n | n in groupMap :: fresh(groupMap[n])
      invariant Collected(groupMap, groups)
      invariant GroupsOf(list[..i], groups)
    {
      assert list[..i + 1] == list[..i] + [list[i]];
      GrownGroups(list[..i], groups, list[i]);
      groupMap := AddToGroup(groupMap, groups, list[i]);
      groups := Grown(groups, list[i]);
    }
    assert list[..list.Length] == list[..];
  }

  method AddToGroup(before: map<string, GroupCell>, ghost groups: map<string, ContainerGroup>, c: Container)
    returns (groupMap: map<string, GroupCell>)
    requires Collected(before, groups)
    modifies before.Values
    ensures forall n | n in groupMap :: fresh(groupMap[n]) || (n in before && groupMap[n] == before[n])
    ensures Collected(groupMap, Grown(groups, c))
  {
    var gName := c.labels.GroupName();
    groupMap := before;
    if gName !in groupMap {
      var cell := new GroupCell(gName, c.labels.icon, c.labels.priority);
      groupMap := groupMap[gName := cell];
    }
    groupMap[gName].Add(c);
    assert forall n | n in before && n != gName :: before[n].name != gName;
  }

  /** The groups built so far when the names in todo are still to be visited. */
  ghost predicate Visited(list: seq<Container>, names: set<string>, todo: set<string>, groups: seq<ContainerGroup>) {
    && (forall g {:trigger IsGroupOf(list, g)} | g in groups :: IsGroupOf(list, g))
    && (forall g | g in groups :: g.name !in todo)
    && (forall n | n in names && n !in todo :: HasGroup(groups, n))
    && (forall i, j | 0 <= i < j < |groups| :: groups[i].name != groups[j].name)
  }

  lemma VisitOne(list: seq<Container>, names: set<string>, todo: set<string>, groups: seq<ContainerGroup>,
                 g: ContainerGroup)
    requires Visited(list, names, todo, groups) && g.name in todo && IsGroupOf(list, g)
    ensures Visited(list, names, todo - {g.name}, groups + [g])
  {
    hide IsGroupOf;
    var more := groups + [g];
    forall h | h in more ensures IsGroupOf(list, h) && h.name !in todo - {g.name} {
      assert h in groups ==> IsGroupOf(list, h);
    }
    forall n | n in names && n !in todo - {g.name} ensures HasGroup(more, n) {
      if n == g.name {
        assert g in more;
      } else {
        assert HasGroup(groups, n);
        var h :| h in groups && h.name == n;
        assert h in more;
      }
    }
  }

  /** The names in todo still have their unsorted cells. */
  ghost predicate Untouched(groupMap: map<string, GroupCell>, unsorted: map<string, ContainerGroup>, todo: set<string>)
    reads groupMap.Values
  {
    && groupMap.Keys == unsorted.Keys && todo <= groupMap.Keys
    && (forall n | n in groupMap :: groupMap[n].name == n)
    && (forall n | n in todo :: groupMap[n].Value() == unsorted[n])
  }

  /** Visits the map in an arbitrary order, sorting each group in place. */
  method SortedGroups(ghost list: seq<Container>, groupMap: map<string, GroupCell>,
                      ghost unsorted: map<string, ContainerGroup>)
    returns (groups: seq<ContainerGroup>)
    requires Collected(groupMap, unsorted) && GroupsOf(list, unsorted)
    modifies groupMap.Values
    ensures Visited(list, groupMap.Keys, {}, groups)
  {
    groups := [];
    var todo := groupMap.Keys;
    assert Visited(list, groupMap.Keys, todo, groups);
    assert Untouched(groupMap, unsorted, todo);
    hide *;
    while todo != {}
      invariant todo <= groupMap.Keys
      invariant Untouched(groupMap, unsorted, todo)
      invariant Visited(list, groupMap.Keys, todo, groups)
      decreases todo
    {
      var n :| n in todo;
      var g := VisitGroup(list, groupMap, unsorted, todo, n);
      VisitOne(list, groupMap.Keys, todo, groups, g);
      todo := todo - {n};
      groups := groups + [g];
    }
  }

  method VisitGroup(ghost list: seq<Container>, groupMap: map<string, GroupCell>,
                    ghost unsorted: map<string, ContainerGroup>, ghost todo: set<string>, n: string)
    returns (g: ContainerGroup)
    requires GroupsOf(list, unsorted) && Untouched(groupMap, unsorted, todo) && n in todo && n in groupMap
    modifies groupMap.Values
    ensures Untouched(groupMap, unsorted, todo - {n})
    ensures g.name == n && IsGroupOf(list, g)
  {
    hide IsGroupOf, GroupsOf, SortedPermutation;
    g := SortGroup(groupMap[n]);
    SortedIsGroup(list, unsorted, n, g);
    assert forall m | m in todo - {n} :: groupMap[m].name != n;
  }

  method SortGroup(cell: GroupCell) returns (g: ContainerGroup)
    modifies cell
    ensures g == old(cell.Value()).(containers := g.containers)
    ensures SortedPermutation(ByPriority(), old(cell.containers), g.containers)
  {
    var slice := NewSlice(cell.containers);
    OrdersAreWeak("");
    SortSlice(slice, ByPriority());
    cell.containers := slice[..];
    g := cell.Value();
  }

  lemma SortedIsGroup(list: seq<Container>, unsorted: map<string, ContainerGroup>, n: string, g: ContainerGroup)
    requires GroupsOf(list, unsorted) && n in unsorted
    requires g == unsorted[n].(containers := g.containers)
    requires SortedPermutation(ByPriority(), unsorted[n].containers, g.containers)
    ensures g.name == n && IsGroupOf(list, g)
  {
    assert IsUnsortedGroup(list, unsorted[n]);
  }

  method SortGroups(ghost list: seq<Container>, ghost names: set<string>, groups: array<ContainerGroup>)
    requires Visited(list, names, {}, groups[..])
    requires forall c | c in list :: c.labels.GroupName() in names
    modifies groups
    ensures IsGrouping(list, groups[..])
  {
    ghost var before := groups[..];
    OrdersAreWeak("");
    SortSlice(groups, GroupsByPriority());
    forall c | c in list ensures HasGroup(before, c.labels.GroupName()) {
      assert c.labels.GroupName() in names;
    }
    GroupsInOrder(list, before, groups[..]);
  }

  /** The rest of ListGrouped, after its List call; the slice it is given is only read. */
  method GroupAndSort(list: array<Container>) returns (groups: seq<ContainerGroup>)
    ensures IsGrouping(list[..], groups)
  {
    hide IsUnsortedGroup, IsGroupOf, IsGrouping, Visited;
    var groupMap, unsorted := GroupByName(list);
    var collected := SortedGroups(list[..], groupMap, unsorted);
    var slice := new ContainerGroup[|collected|](i requires 0 <= i < |collected| => collected[i]);
    assert slice[..] == collected;
    SortGroups(list[..], groupMap.Keys, slice);
    groups := slice[..];
  }

  /** Sorting the collected groups gives the grouping. */
  lemma GroupsInOrder(list: seq<Container>, groups: seq<ContainerGroup>, sorted: seq<ContainerGroup>)
    requires SortedPermutation(GroupsByPriority(), groups, sorted)
    requires forall g {:trigger IsGroupOf(list, g)} | g in groups :: IsGroupOf(list, g)
    requires forall c | c in list :: HasGroup(groups, c.labels.GroupName())
    requires forall i, j | 0 <= i < j < |groups| :: groups[i].name != groups[j].name
    ensures IsGrouping(list, sorted)
  {
    MembersFromMultiset(groups, sorted);
    forall g | g in sorted ensures IsGroupOf(list, g) {
      assert g in groups;
    }
    forall c | c in list ensures HasGroup(sorted, c.labels.GroupName()) {
      assert HasGroup(groups, c.labels.GroupName());
      var g :| g in groups && g.name == c.labels.GroupName();
      assert g in sorted;
    }
    forall i, j | 0 <= i < j < |sorted| ensures GroupsByPriority()(sorted[i], sorted[j]) {
      DistinctAfterSort(groups, sorted, i, j);
      assert !GroupsByPriority()(sorted[j], sorted[i]);
      RankOrder();
    }
  }

  lemma {:induction false} NameCount(groups: seq<ContainerGroup>, g: ContainerGroup, h: ContainerGroup)
    requires forall i, j | 0 <= i < j < |groups| :: groups[i].name != groups[j].name
    requires g.name == h.name
    ensures g == h ==> multiset(groups)[g] <= 1
    ensures g != h ==> multiset(groups)[g] + multiset(groups)[h] <= 1
  {
    if groups != [] {
      var init, last := groups[..|groups| - 1], groups[|groups| - 1];
      NameCount(init, g, h);
      assert groups == init + [last];
      if last.name == g.name {
        assert g !in init && h !in init;
        assert multiset(init)[g] == 0 && multiset(init)[h] == 0;
      }
    }
  }

  lemma PairCount(s: seq<ContainerGroup>, i: nat, j: nat)
    requires i < j < |s|
    ensures s[i] == s[j] ==> multiset(s)[s[i]] >= 2
    ensures multiset(s)[s[i]] >= 1 && multiset(s)[s[j]] >= 1
  {
    var left, right := s[..j], s[j..];
    assert s == left + right && left[i] == s[i] && right[0] == s[j];
    assert s[i] in multiset(left) && s[j] in multiset(right);
  }

  lemma DistinctAfterSort(groups: seq<ContainerGroup>, sorted: seq<ContainerGroup>, i: nat, j: nat)
    requires forall m, n | 0 <= m < n < |groups| :: groups[m].name != groups[n].name
    requires multiset(sorted) == multiset(groups) && i < j < |sorted|
    ensures sorted[i].name != sorted[j].name
  {
    PairCount(sorted, i, j);
    if sorted[i].name == sorted[j].name {
      NameCount(groups, sorted[i], sorted[j]);
    }
  }
}
