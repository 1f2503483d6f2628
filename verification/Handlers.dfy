/** The partial that the dashboard's filter bar requests. */
module Handlers {
  import opened Text
  import opened Models
  import opened Ordering
  import opened Grouping
  import opened Containers

  const SEARCH_RESULTS := "Search Results"
  const SEARCH_FAILED := "Search failed"
  const LIST_FAILED := "Failed to list containers"

  datatype Page = Rendered(groups: seq<ContainerGroup>) | ServerError(text: string)

  /** A query, status or tag filter asks for one flat list instead of groups. */
  predicate IsFlat(p: SearchParams) { p.query != "" || p.status != "" || p.tag != "" }

  /** What the page shows of a list. */
  ghost predicate Shows(list: seq<Container>, p: SearchParams, page: Page) {
    if IsFlat(p) then
      && page.Rendered? && |page.groups| == 1
      && page.groups[0] == ContainerGroup(SEARCH_RESULTS, "", 0, page.groups[0].containers)
      && IsSearchResult(list, p, page.groups[0].containers)
    else
      exists groups | IsGrouping(list, groups) ::
        page == Rendered(if p.group == "" then groups else Filter(groups, NamedBy(Exactly(p.group))))
  }

  ghost predicate Answers(list: Result<seq<Container>>, p: SearchParams, page: Page) {
    match list
    case Ok(containers) => Shows(containers, p, page)
    case Err(_) => page == ServerError(if IsFlat(p) then SEARCH_FAILED else LIST_FAILED)
  }

  method HandlePartialContainers(service: ContainerService, params: SearchParams, clock: Clock,
                                 daemon: Result<seq<ApiContainer>>)
    returns (page: Page)
    requires service.Valid() && (daemon.Ok? ==> ValidSnapshot(daemon.value))
    modifies service.cache
    ensures service.Valid()
    ensures service.CachedList() == NextView(old(service.CachedList()), clock, daemon, service.cache.ttl)
    ensures Answers(old(Served(service.CachedList(), clock, daemon)), params, page)
  {
    hide Served, NextView, IsGrouping, IsSearchResult;
    if params.query != "" || params.status != "" || params.tag != "" {
      var containers := service.Search(clock, daemon, params);
      if containers.Err? {
        return ServerError(SEARCH_FAILED);
      }
      return Rendered([ContainerGroup(SEARCH_RESULTS, "", 0, containers.value)]);
    }

    var groups := service.ListGrouped(clock, daemon);
    if groups.Err? {
      return ServerError(LIST_FAILED);
    }
    if params.group != "" {
      var filtered := KeepNamed(groups.value, params.group);
      return Rendered(filtered);
    }
    return Rendered(groups.value);
  }

  /** A query, a status or a tag gives one flat group, also when a group is asked for as well. */
  lemma FlatPage(list: seq<Container>, p: SearchParams, page: Page)
    requires Shows(list, p, page) && (p.query != "" || p.status != "" || p.tag != "")
    ensures page.Rendered? && |page.groups| == 1
    ensures page.groups[0].name == "Search Results" && IsSearchResult(list, p, page.groups[0].containers)
  {
    hide IsSearchResult, IsGrouping;
  }

  /** Without any of them the groups are shown, all or those of exactly the group's name. */
  lemma GroupedPage(list: seq<Container>, p: SearchParams, page: Page) returns (groups: seq<ContainerGroup>)
    requires Shows(list, p, page) && p.query == "" && p.status == "" && p.tag == ""
    ensures IsGrouping(list, groups) && page.Rendered?
    ensures p.group == "" ==> page.groups == groups
    ensures p.group != "" ==> forall g :: g in page.groups <==> g in groups && g.name == p.group
  {
    hide IsSearchResult, IsGrouping;
    groups :| IsGrouping(list, groups)
              && page == Rendered(if p.group == "" then groups else Filter(groups, NamedBy(Exactly(p.group))));
  }

  lemma FailedPage(error: string, p: SearchParams, page: Page)
    requires Answers(Err(error), p, page)
    ensures page == ServerError(if p.query != "" || p.status != "" || p.tag != "" then "Search failed"
                                else "Failed to list containers")
  {
  }

  method KeepNamed(groups: seq<ContainerGroup>, name: string) returns (filtered: seq<ContainerGroup>)
    ensures filtered == Filter(groups, NamedBy(Exactly(name)))
  {
    filtered := [];
    for i := 0 to |groups|
      invariant filtered == Filter(groups[..i], NamedBy(Exactly(name)))
    {
      FilterSnoc(groups, i, NamedBy(Exactly(name)));
      if groups[i].name == name {
        filtered := filtered + [groups[i]];
      }
    }
    assert groups[..|groups|] == groups;
  }

  // ---------- The two paths side by side ----------

  /**
   With a group filter alone the page and the search show the same containers exactly when every
   group name in the list that folds to the filter is spelled like it.
   */
  lemma GroupPageAgreesWithSearchIff(list: seq<Container>, groups: seq<ContainerGroup>, g: string, page: Page,
                                     r: seq<Container>)
    requires g != "" && IsGrouping(list, groups)
    requires page == Rendered(Filter(groups, NamedBy(Exactly(g)))) && IsSearchResult(list, OnlyGroup(g), r)
    ensures Shows(list, OnlyGroup(g), page)
    ensures multiset(Flatten(page.groups)) == multiset(r) <==> SpelledAlike(list, g)
  {
    hide IsGrouping, IsSearchResult, SpelledAlike;
    ExactFilterAgreesIff(list, groups, g, r);
  }

  /** The exact filter leaves just the group of that name, and the search finds its containers in the same order. */
  lemma GroupPageIsTheSearch(list: seq<Container>, groups: seq<ContainerGroup>, page: Page, r: seq<Container>, k: nat)
    requires IsGrouping(list, groups) && k < |groups| && groups[k].name != ""
    requires page == Rendered(Filter(groups, NamedBy(Exactly(groups[k].name))))
    requires IsSearchResult(list, OnlyGroup(groups[k].name), r)
    requires forall i | 0 <= i < |groups| && i != k :: !EqualFold(groups[i].name, groups[k].name)
    requires TiesAreEqual(ByPriority(), groups[k].containers)
    ensures page.groups == [groups[k]] && r == groups[k].containers
  {
    hide IsGrouping, IsSearchResult, TiesAreEqual;
    SearchIsTheGroup(list, groups, groups[k].name, r, k);
    OneNamed(groups, k, |groups|);
    assert groups[..|groups|] == groups;
  }

  lemma OneNamedStep(groups: seq<ContainerGroup>, name: string, n: nat)
    requires n < |groups|
    ensures Filter(groups[..n + 1], NamedBy(Exactly(name)))
         == Filter(groups[..n], NamedBy(Exactly(name))) + if groups[n].name == name then [groups[n]] else []
    ensures Filter(groups[..0], NamedBy(Exactly(name))) == []
  {
    hide Filter;
    FilterSnoc(groups, n, NamedBy(Exactly(name)));
    assert Filter(groups[..0], NamedBy(Exactly(name))) == [];
  }

  lemma {:induction false} OneNamed(groups: seq<ContainerGroup>, k: nat, n: nat)
    requires k < |groups| && n <= |groups|
    requires forall i | 0 <= i < |groups| && i != k :: groups[i].name != groups[k].name
    ensures Filter(groups[..n], NamedBy(Exactly(groups[k].name))) == if k < n then [groups[k]] else []
  {
    hide *;
    OneNamedStep(groups, groups[k].name, if n == 0 then 0 else n - 1);
    if n > 0 { OneNamed(groups, k, n - 1); }
  }

  // ---------- Any sequence of requests ----------

  datatype Request = Request(params: SearchParams, clock: Clock, daemon: Result<seq<ApiContainer>>)

  ghost predicate ValidRequests(requests: seq<Request>) {
    forall q | q in requests :: q.daemon.Ok? ==> ValidSnapshot(q.daemon.value)
  }

  /** The cached list after the first n requests: it does not depend on what they filtered, grouped or sorted. */
  ghost function ViewAfter(view: View, requests: seq<Request>, n: nat, ttl: int): View
    requires n <= |requests| && ValidRequests(requests)
  {
    if n == 0 then view
    else
      assert requests[n - 1] in requests;
      NextView(ViewAfter(view, requests, n - 1, ttl), requests[n - 1].clock, requests[n - 1].daemon, ttl)
  }

  /** The page answers request i from the cached list that the requests before it left. */
  ghost predicate AnsweredAt(view: View, requests: seq<Request>, i: nat, ttl: int, page: Page)
    requires i < |requests| && ValidRequests(requests)
  {
    var q := requests[i];
    assert q in requests;
    Answers(Served(ViewAfter(view, requests, i, ttl), q.clock, q.daemon), q.params, page)
  }

  /**
   Any sequence of requests over the shared slice answers as if the cached list were an
   immutable value: sorting for one request is never seen by another.
   */
  method ServeAll(service: ContainerService, requests: seq<Request>) returns (pages: seq<Page>)
    requires service.Valid() && ValidRequests(requests)
    modifies service.cache
    ensures service.Valid() && |pages| == |requests|
    ensures service.CachedList() == ViewAfter(old(service.CachedList()), requests, |requests|, service.cache.ttl)
    ensures forall i | 0 <= i < |requests| ::
              AnsweredAt(old(service.CachedList()), requests, i, service.cache.ttl, pages[i])
  {
    hide NextView, Served, Answers, AnsweredAt;
    ghost var view, ttl := service.CachedList(), service.cache.ttl;
    pages := [];
    for i := 0 to |requests|
      invariant service.Valid() && |pages| == i
      invariant service.CachedList() == ViewAfter(view, requests, i, ttl)
      invariant forall k | 0 <= k < i :: AnsweredAt(view, requests, k, ttl, pages[k])
    {
      var page := ServeOne(service, requests[i], view, requests, i);
      pages := pages + [page];
    }
  }

  method ServeOne(service: ContainerService, q: Request, ghost view: View, ghost requests: seq<Request>, ghost i: nat)
    returns (page: Page)
    requires service.Valid() && ValidRequests(requests) && i < |requests| && q == requests[i]
    requires service.CachedList() == ViewAfter(view, requests, i, service.cache.ttl)
    modifies service.cache
    ensures service.Valid()
    ensures service.CachedList() == ViewAfter(view, requests, i + 1, service.cache.ttl)
    ensures AnsweredAt(view, requests, i, service.cache.ttl, page)
  {
    hide NextView, Served, Answers;
    assert q in requests;
    page := HandlePartialContainers(service, q.params, q.clock, q.daemon);
  }
}
