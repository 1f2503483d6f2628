/** Containers as the daemon lists them and as the dashboard shows them. */
module Models {
  import opened Text
  import opened Labels

  type Port = n: int | 0 <= n < 0x1_0000

  datatype ApiPort = ApiPort(ip: string, privatePort: Port, publicPort: Port, proto: string)

  datatype ApiContainer = ApiContainer(
    id: string,
    names: seq<string>,
    image: string,
    state: string,
    status: string,
    created: int,
    ports: seq<ApiPort>,
    labels: map<string, string>)

  datatype PortMapping = PortMapping(containerPort: string, hostPort: string, protocol: string, hostIP: string)

  datatype Container = Container(
    id: string,
    shortID: string,
    name: string,
    image: string,
    state: string,
    status: string,
    created: int,
    uptime: int,
    ports: seq<PortMapping>,
    labels: WingStationLabels,
    allLabels: map<string, string>)

  datatype ContainerGroup = ContainerGroup(name: string, icon: string, priority: int, containers: seq<Container>)

  const SHORT_ID_LENGTH := 12
  const NANOS_PER_SECOND := 1_000_000_000

  // ---------- Ports ----------

  function PortStr(port: Port, proto: string): string {
    if port == 0 then ""
    else if proto != "" then Decimal(port) + "/" + proto
    else Decimal(port)
  }

  function MappingOf(p: ApiPort): PortMapping {
    PortMapping(PortStr(p.privatePort, p.proto), PortStr(p.publicPort, ""), p.proto, p.ip)
  }

  /** The string by which ContainerFromAPI recognises a duplicate. */
  function PortKey(p: ApiPort): string {
    p.ip + [':'] + Decimal(p.publicPort) + "-" + ['>'] + Decimal(p.privatePort) + ['/'] + p.proto
  }

  /** The first n ports that are published, each kept unless its key was seen before. */
  function FirstByKey(ports: seq<ApiPort>, n: nat): seq<ApiPort>
    requires n <= |ports|
  {
    if n == 0 then []
    else
      var p := ports[n - 1];
      var kept := FirstByKey(ports, n - 1);
      if p.publicPort == 0 || PortKey(p) in PublishedKeys(ports, n - 1) then kept else kept + [p]
  }

  function PublishedKeys(ports: seq<ApiPort>, n: nat): set<string>
    requires n <= |ports|
  {
    set i | 0 <= i < n && ports[i].publicPort != 0 :: PortKey(ports[i])
  }

  function Mappings(ports: seq<ApiPort>): (r: seq<PortMapping>)
    ensures |r| == |ports|
  {
    seq(|ports|, i requires 0 <= i < |ports| => MappingOf(ports[i]))
  }

  // ---------- Conversion ----------

  ghost function ContainerOf(c: ApiContainer, now: int): Container
    requires |c.id| >= SHORT_ID_LENGTH
  {
    Container(
      c.id,
      c.id[..SHORT_ID_LENGTH],
      if c.names != [] then TrimPrefix(c.names[0], "/") else "",
      c.image,
      c.state,
      c.status,
      c.created * NANOS_PER_SECOND,
      if c.state == "running" then now - c.created * NANOS_PER_SECOND else 0,
      Mappings(FirstByKey(c.ports, |c.ports|)),
      LabelsOf(c.labels),
      c.labels)
  }

  method ContainerFromAPI(c: ApiContainer, now: int) returns (r: Container)
    requires |c.id| >= SHORT_ID_LENGTH
    ensures r.id == c.id && r.shortID == c.id[..12] && r.image == c.image && r.state == c.state && r.status == c.status
    ensures r.name == if c.names == [] then "" else TrimPrefix(c.names[0], "/")
    ensures r.created == c.created * 1_000_000_000
    ensures r.uptime == if c.state == "running" then now - c.created * 1_000_000_000 else 0
    ensures r.labels == LabelsOf(c.labels) && r.allLabels == c.labels
    ensures r.ports == Mappings(FirstByKey(c.ports, |c.ports|))
    ensures r == ContainerOf(c, now)
  {
    hide LabelsOf, FirstByKey, Mappings;
    var name := "";
    if |c.names| > 0 {
      name := TrimPrefix(c.names[0], "/");
    }
    var created := c.created * NANOS_PER_SECOND;
    var uptime := 0;
    if c.state == "running" {
      uptime := now - created;
    }

    var ports := ShowPorts(c.ports);
    var labels := ParseLabels(c.labels);
    r := Container(c.id, c.id[..SHORT_ID_LENGTH], name, c.image, c.state, c.status, created, uptime, ports,
                   labels, c.labels);
  }

  /** The filter and deduplication loop of ContainerFromAPI. */
  method ShowPorts(ports: seq<ApiPort>) returns (shown: seq<PortMapping>)
    ensures shown == Mappings(FirstByKey(ports, |ports|))
  {
    hide PortKey, PortStr;
    var seen: set<string> := {};
    shown := [];
    for i := 0 to |ports|
      invariant seen == PublishedKeys(ports, i)
      invariant shown == Mappings(FirstByKey(ports, i))
    {
      var p := ports[i];
      if p.publicPort == 0 {
        continue;
      }
      var key := PortKey(p);
      if key in seen {
        continue;
      }
      seen := seen + {key};
      shown := shown + [PortMapping(PortStr(p.privatePort, p.proto), PortStr(p.publicPort, ""), p.proto, p.ip)];
    }
  }

  // ---------- When the key tells ports apart ----------

  /** The part of the key between the address and the type. */
  function Middle(p: ApiPort): string {
    [':'] + Decimal(p.publicPort) + "-" + ['>'] + Decimal(p.privatePort) + ['/']
  }

  lemma KeyParts(p: ApiPort)
    ensures PortKey(p) == p.ip + Middle(p) + p.proto
    ensures |Middle(p)| > 0 && Middle(p)[0] == ':' && '/' in Middle(p)
    ensures forall i | 0 < i < |Middle(p)| :: Middle(p)[i] != ':'
  {
    var pub, priv := Decimal(p.publicPort), Decimal(p.privatePort);
    var m := Middle(p);
    assert !IsDigit(':');
    assert m[|m| - 1] == '/';
    assert m == [':'] + (pub + ("->" + (priv + "/")));
    assert PortKey(p) == p.ip + m + p.proto;
  }

  lemma CutAtFirst(a: string, b: string, c: char, a': string, b': string)
    requires c !in a && c !in a' && a + [c] + b == a' + [c] + b'
    ensures a == a' && b == b'
  {
    IndexOfAt(a, c, b);
    IndexOfAt(a', c, b');
    assert (a + [c] + b)[..|a|] == a && (a' + [c] + b')[..|a'|] == a';
    assert (a + [c] + b)[|a| + 1..] == b && (a' + [c] + b')[|a'| + 1..] == b';
  }

  lemma DigitsHave(n: nat, c: char)
    requires !IsDigit(c)
    ensures c !in Decimal(n)
  {
  }

  lemma SameAddress(p: ApiPort, q: ApiPort)
    requires PortKey(p) == PortKey(q) && p.ip == q.ip
    ensures p == q
  {
    var pubP, pubQ, privP, privQ :=
      Decimal(p.publicPort), Decimal(q.publicPort), Decimal(p.privatePort), Decimal(q.privatePort);
    DigitsHave(p.publicPort, '-');
    DigitsHave(q.publicPort, '-');
    DigitsHave(p.privatePort, '/');
    DigitsHave(q.privatePort, '/');
    var tailP, tailQ := ['>'] + (privP + ['/'] + p.proto), ['>'] + (privQ + ['/'] + q.proto);
    AfterAddress(p);
    AfterAddress(q);
    assert tailP[1..] == privP + ['/'] + p.proto && tailQ[1..] == privQ + ['/'] + q.proto;
    CutAtFirst(pubP, tailP, '-', pubQ, tailQ);
    CutAtFirst(privP, p.proto, '/', privQ, q.proto);
    DecimalInjective(p.publicPort, q.publicPort);
    DecimalInjective(p.privatePort, q.privatePort);
  }

  lemma AfterAddress(p: ApiPort)
    ensures |PortKey(p)| > |p.ip|
    ensures PortKey(p)[|p.ip| + 1..]
         == Decimal(p.publicPort) + ['-'] + (['>'] + (Decimal(p.privatePort) + ['/'] + p.proto))
  {
    assert PortKey(p)
        == p.ip + ([':'] + (Decimal(p.publicPort) + ['-'] + (['>'] + (Decimal(p.privatePort) + ['/'] + p.proto))));
  }

  /** q's address goes on after p's with the rest of a key of p, whose type ends in the rest of a key of q. */
  ghost predicate Nested(p: ApiPort, q: ApiPort) {
    exists u :: NestedWith(p, q, u)
  }

  predicate NestedWith(p: ApiPort, q: ApiPort, u: string) {
    q.ip == p.ip + Middle(p) + u && p.proto == u + Middle(q) + q.proto
  }

  lemma NestedShareKey(p: ApiPort, q: ApiPort, u: string)
    requires NestedWith(p, q, u)
    ensures PortKey(p) == PortKey(q) && p != q
  {
    KeyParts(p);
    KeyParts(q);
    assert p.ip + Middle(p) + (u + Middle(q) + q.proto) == p.ip + Middle(p) + u + Middle(q) + q.proto;
    assert |q.ip| > |p.ip|;
  }

  lemma LongerAddressNests(p: ApiPort, q: ApiPort)
    requires PortKey(p) == PortKey(q) && |p.ip| < |q.ip|
    ensures Nested(p, q)
  {
    hide Middle, PortKey;
    KeyParts(p);
    KeyParts(q);
    var key, n := PortKey(p), |p.ip| + |Middle(p)|;
    assert key[|q.ip|] == Middle(q)[0] == ':';
    assert forall i | |p.ip| < i < n :: key[i] == Middle(p)[i - |p.ip|] != ':';
    var u := q.ip[n..];
    assert q.ip == key[..|q.ip|] && key[..n] == p.ip + Middle(p);
    assert q.ip == key[..n] + u;
    assert p.proto == key[n..] && key[n..] == u + Middle(q) + q.proto;
    assert NestedWith(p, q, u);
  }

  /** Two ports have one key exactly when they are the same port or one is nested in the other. */
  lemma SameKeyIff(p: ApiPort, q: ApiPort)
    ensures PortKey(p) == PortKey(q) <==> p == q || Nested(p, q) || Nested(q, p)
  {
    hide Middle, NestedWith;
    if PortKey(p) == PortKey(q) {
      if |p.ip| < |q.ip| {
        LongerAddressNests(p, q);
      } else if |q.ip| < |p.ip| {
        LongerAddressNests(q, p);
      } else {
        hide PortKey;
        KeyParts(p);
        KeyParts(q);
        assert p.ip == PortKey(p)[..|p.ip|] && q.ip == PortKey(q)[..|q.ip|];
        SameAddress(p, q);
      }
    } else {
      if u :| NestedWith(p, q, u) { NestedShareKey(p, q, u); }
      if u :| NestedWith(q, p, u) { NestedShareKey(q, p, u); }
    }
  }

  lemma NestedNeedsSlashes(p: ApiPort, q: ApiPort)
    requires Nested(p, q)
    ensures '/' in q.ip && '/' in p.proto
  {
    hide Middle;
    KeyParts(p);
    KeyParts(q);
    var u :| NestedWith(p, q, u);
    assert '/' in p.ip + Middle(p) && '/' in u + Middle(q);
  }

  /** Neither an IP address nor a protocol name has a slash; either alone makes the key injective. */
  lemma PortKeyInjective(p: ApiPort, q: ApiPort)
    requires ('/' !in p.ip && '/' !in q.ip) || ('/' !in p.proto && '/' !in q.proto)
    requires PortKey(p) == PortKey(q)
    ensures p == q
  {
    SameKeyIff(p, q);
    if Nested(p, q) { NestedNeedsSlashes(p, q); }
    if Nested(q, p) { NestedNeedsSlashes(q, p); }
  }

  /** Two such ports, and the second is dropped; no real address looks like this one. */
  lemma NestedExample(a: string, t: string)
    ensures var p, q := ApiPort(a, 2, 1, "x:3->4/" + t), ApiPort(a + ":1->2/x", 4, 3, t);
            Nested(p, q) && p != q && FirstByKey([p, q], 2) == [p]
  {
    var p, q := ApiPort(a, 2, 1, "x:3->4/" + t), ApiPort(a + ":1->2/x", 4, 3, t);
    assert Middle(p) == ":1->2/" && Middle(q) == ":3->4/";
    assert q.ip == a + ":1->2/" + "x" && p.proto == "x" + ":3->4/" + t;
    assert NestedWith(p, q, "x");
    NestedShareKey(p, q, "x");
    FirstOfTwo(p, q);
  }

  lemma FirstOfTwo(p: ApiPort, q: ApiPort)
    requires p.publicPort != 0 && PortKey(p) == PortKey(q)
    ensures FirstByKey([p, q], 2) == [p]
  {
    hide PortKey;
    assert [p, q][0] == p;
    assert PortKey([p, q][0]) in PublishedKeys([p, q], 1);
    assert FirstByKey([p, q], 1) == FirstByKey([p, q], 0) + [p];
  }

  // ---------- Deduplication by value ----------

  ghost predicate NoneNested(ports: seq<ApiPort>) {
    forall p, q | p in ports && q in ports && p.publicPort != 0 && q.publicPort != 0 :: !Nested(p, q)
  }

  /** Slash-free addresses, or slash-free types, suffice. */
  lemma SlashFreeNotNested(ports: seq<ApiPort>)
    requires (forall p | p in ports :: '/' !in p.ip) || (forall p | p in ports :: '/' !in p.proto)
    ensures NoneNested(ports)
  {
    forall p, q | p in ports && q in ports && Nested(p, q) ensures false {
      NestedNeedsSlashes(p, q);
    }
  }

  /** Position of the first copy of x. */
  ghost function FirstIndex<T>(s: seq<T>, x: T): (i: nat)
    requires x in s
    ensures i < |s| && s[i] == x && x !in s[..i]
  {
    if s[0] == x then 0 else
      var i := 1 + FirstIndex(s[1..], x);
      assert s[..i] == [s[0]] + s[1..][..i - 1];
      i
  }

  /** r lists the elements of s that satisfy keep, each once, in the order in which they first occur. */
  ghost predicate FirstOccurrences<T(!new)>(s: seq<T>, keep: T -> bool, r: seq<T>) {
    && (forall x :: x in r <==> x in s && keep(x))
    && (forall i, j | 0 <= i < j < |r| :: FirstIndex(s, r[i]) < FirstIndex(s, r[j]))
  }

  lemma {:induction false} FirstIndexIs<T>(s: seq<T>, x: T, i: nat)
    requires i < |s| && s[i] == x && x !in s[..i]
    ensures FirstIndex(s, x) == i
  {
    if i > 0 {
      assert s[0] == s[..i][0];
      assert s[1..][..i - 1] == s[..i][1..];
      FirstIndexIs(s[1..], x, i - 1);
    }
  }

  ghost function Published(): ApiPort -> bool { (p: ApiPort) => p.publicPort != 0 }

  lemma {:induction false} FirstByKeyMembers(ports: seq<ApiPort>, n: nat)
    requires n <= |ports| && NoneNested(ports)
    ensures forall p :: p in FirstByKey(ports, n) <==> p in ports[..n] && p.publicPort != 0
  {
    hide PortKey, Nested;
    if n > 0 {
      var p := ports[n - 1];
      FirstByKeyMembers(ports, n - 1);
      assert ports[..n] == ports[..n - 1] + [p];
      if p.publicPort != 0 && PortKey(p) in PublishedKeys(ports, n - 1) {
        var i :| 0 <= i < n - 1 && ports[i].publicPort != 0 && PortKey(p) == PortKey(ports[i]);
        assert ports[i] in ports && p in ports;
        SameKeyIff(p, ports[i]);
        assert p == ports[..n - 1][i];
      }
    }
  }

  /** Whatever the ports, those kept are published, in order of first occurrence, and no two share a key. */
  lemma {:induction false} FirstByKeyOrder(ports: seq<ApiPort>, n: nat)
    requires n <= |ports|
    ensures forall p | p in FirstByKey(ports, n) ::
              p in ports && p.publicPort != 0 && FirstIndex(ports, p) < n && PortKey(p) in PublishedKeys(ports, n)
    ensures forall i, j | 0 <= i < j < |FirstByKey(ports, n)| ::
              && FirstIndex(ports, FirstByKey(ports, n)[i]) < FirstIndex(ports, FirstByKey(ports, n)[j])
              && PortKey(FirstByKey(ports, n)[i]) != PortKey(FirstByKey(ports, n)[j])
  {
    hide PortKey;
    if n > 0 {
      var p := ports[n - 1];
      FirstByKeyOrder(ports, n - 1);
      assert PublishedKeys(ports, n - 1) <= PublishedKeys(ports, n);
      if p.publicPort != 0 && PortKey(p) !in PublishedKeys(ports, n - 1) {
        KeysBefore(ports, n - 1, p);
        FirstIndexIs(ports, p, n - 1);
        assert PortKey(p) in PublishedKeys(ports, n);
      }
    }
  }

  lemma KeysBefore(ports: seq<ApiPort>, n: nat, p: ApiPort)
    requires n <= |ports| && p.publicPort != 0 && PortKey(p) !in PublishedKeys(ports, n)
    ensures p !in ports[..n]
  {
    hide PortKey;
    forall i | 0 <= i < n ensures ports[i] != p {
      assert ports[i].publicPort != 0 ==> PortKey(ports[i]) in PublishedKeys(ports, n);
    }
  }

  lemma KeptTwiceIsOne(ports: seq<ApiPort>, p: ApiPort, q: ApiPort)
    requires p in FirstByKey(ports, |ports|) && q in FirstByKey(ports, |ports|) && PortKey(p) == PortKey(q)
    ensures p == q
  {
    hide PortKey, FirstByKey, FirstIndex, PublishedKeys;
    FirstByKeyOrder(ports, |ports|);
    var kept := FirstByKey(ports, |ports|);
    var i :| 0 <= i < |kept| && kept[i] == p;
    var j :| 0 <= j < |kept| && kept[j] == q;
  }

  /**
   Deduplicating by the formatted key is deduplicating by value, in first-occurrence order, if
   and only if no published port is nested in another.
   */
  lemma KeyDedupIsValueDedup(ports: seq<ApiPort>)
    ensures FirstOccurrences(ports, Published(), FirstByKey(ports, |ports|)) <==> NoneNested(ports)
  {
    hide PortKey, FirstByKey, Nested;
    var kept := FirstByKey(ports, |ports|);
    FirstByKeyOrder(ports, |ports|);
    if NoneNested(ports) {
      FirstByKeyMembers(ports, |ports|);
      assert ports[..|ports|] == ports;
    } else {
      var p, q :| p in ports && q in ports && p.publicPort != 0 && q.publicPort != 0 && Nested(p, q);
      NestedDropsOne(ports, p, q);
      assert Published()(p) && Published()(q);
    }
  }

  /** Of two published ports of which one is nested in the other, one is lost. */
  lemma NestedDropsOne(ports: seq<ApiPort>, p: ApiPort, q: ApiPort)
    requires Nested(p, q)
    ensures p !in FirstByKey(ports, |ports|) || q !in FirstByKey(ports, |ports|)
  {
    hide PortKey, FirstByKey;
    var u :| NestedWith(p, q, u);
    NestedShareKey(p, q, u);
    if p in FirstByKey(ports, |ports|) && q in FirstByKey(ports, |ports|) {
      KeptTwiceIsOne(ports, p, q);
    }
  }

  lemma PortStrInjective(a: Port, b: Port, proto: string)
    requires PortStr(a, proto) == PortStr(b, proto)
    ensures a == b
  {
    if a != 0 && b != 0 {
      if proto != "" {
        var x, y := Decimal(a), Decimal(b);
        assert x + "/" + proto == x + ("/" + proto) && y + "/" + proto == y + ("/" + proto);
        assert x == (x + ("/" + proto))[..|x|] && y == (y + ("/" + proto))[..|y|];
      }
      DecimalInjective(a, b);
    }
  }

  lemma MappingInjective(p: ApiPort, q: ApiPort)
    requires MappingOf(p) == MappingOf(q)
    ensures p == q
  {
    PortStrInjective(p.privatePort, q.privatePort, p.proto);
    PortStrInjective(p.publicPort, q.publicPort, "");
  }

  lemma PortStrReadsBack(port: Port, proto: string)
    requires port != 0
    ensures var parts := SplitN(PortStr(port, proto), '/', 2);
            && parts == (if proto != "" then [Decimal(port), proto] else [Decimal(port)])
            && AllDigits(parts[0]) && DigitsValue(parts[0]) == port
  {
    hide Decimal, DigitsValue;
    DecimalValue(port);
    DigitsHave(port, '/');
    var digits := Decimal(port);
    if proto != "" {
      CutInTwo(digits, proto);
      assert PortStr(port, proto) == digits + ['/'] + proto;
    } else {
      assert IndexOf(digits, '/') == -1;
    }
  }

  lemma CutInTwo(a: string, b: string)
    requires '/' !in a
    ensures SplitN(a + ['/'] + b, '/', 2) == [a, b]
  {
    var s := a + ['/'] + b;
    IndexOfAt(a, '/', b);
    assert s[..|a|] == a && s[|a| + 1..] == b;
    assert SplitN(b, '/', 1) == [b];
  }

  /** What a mapping says: both port numbers, the type and the address, each where a reader looks for it. */
  lemma MappingReadsBack(p: ApiPort)
    requires p.publicPort != 0
    ensures MappingOf(p).hostIP == p.ip && MappingOf(p).protocol == p.proto
    ensures AllDigits(MappingOf(p).hostPort) && DigitsValue(MappingOf(p).hostPort) == p.publicPort
    ensures p.privatePort == 0 ==> MappingOf(p).containerPort == ""
    ensures p.privatePort != 0 ==>
              var parts := SplitN(MappingOf(p).containerPort, '/', 2);
              && AllDigits(parts[0]) && DigitsValue(parts[0]) == p.privatePort
              && parts[1..] == (if p.proto != "" then [p.proto] else [])
  {
    hide Decimal, DigitsValue, SplitN, AllDigits;
    DecimalValue(p.publicPort);
    PortIsDigits(p.publicPort);
    if p.privatePort != 0 { PortStrReadsBack(p.privatePort, p.proto); }
  }

  lemma PortIsDigits(port: Port)
    ensures AllDigits(Decimal(port))
  {
  }

  lemma MappingsMembers(ports: seq<ApiPort>, m: PortMapping)
    ensures m in Mappings(ports) <==> exists p | p in ports :: m == MappingOf(p)
  {
    if m in Mappings(ports) {
      var i :| 0 <= i < |ports| && Mappings(ports)[i] == m;
      assert ports[i] in ports;
    }
    if p :| p in ports && m == MappingOf(p) {
      var i :| 0 <= i < |ports| && ports[i] == p;
      assert Mappings(ports)[i] == m;
    }
  }

  lemma MappingsDistinct(ports: seq<ApiPort>, i: nat, j: nat)
    requires i < j < |ports| && ports[i] != ports[j]
    ensures Mappings(ports)[i] != Mappings(ports)[j]
  {
    if MappingOf(ports[i]) == MappingOf(ports[j]) {
      MappingInjective(ports[i], ports[j]);
    }
  }

  /**
   The port list a container shows never has two alike; it has one mapping for each different
   published port, and none for any other, if and only if no published port is nested in another.
   */
  lemma ShownPorts(c: ApiContainer, now: int)
    requires |c.id| >= SHORT_ID_LENGTH
    ensures var shown := ContainerOf(c, now).ports;
            && (forall i, j | 0 <= i < j < |shown| :: shown[i] != shown[j])
            && ((forall m :: m in shown <==> exists p | p in c.ports && p.publicPort != 0 :: m == MappingOf(p))
                <==> NoneNested(c.ports))
  {
    hide PortKey, FirstByKey, Nested, MappingOf, Mappings;
    var kept := FirstByKey(c.ports, |c.ports|);
    var shown := Mappings(kept);
    KeyDedupIsValueDedup(c.ports);
    FirstByKeyOrder(c.ports, |c.ports|);
    forall i, j | 0 <= i < j < |shown| ensures shown[i] != shown[j] {
      MappingsDistinct(kept, i, j);
    }
    if NoneNested(c.ports) {
      forall m ensures m in shown <==> exists p | p in c.ports && p.publicPort != 0 :: m == MappingOf(p) {
        MappingsMembers(kept, m);
        assert forall p :: p in kept <==> p in c.ports && p.publicPort != 0;
      }
    } else {
      var p, q :| p in c.ports && q in c.ports && p.publicPort != 0 && q.publicPort != 0 && Nested(p, q);
      NestedDropsOne(c.ports, p, q);
      var lost := if p in kept then q else p;
      LostIsNotShown(kept, lost);
    }
  }

  lemma LostIsNotShown(kept: seq<ApiPort>, p: ApiPort)
    requires p !in kept
    ensures MappingOf(p) !in Mappings(kept)
  {
    hide MappingOf;
    if MappingOf(p) in Mappings(kept) {
      MappingsMembers(kept, MappingOf(p));
      var q :| q in kept && MappingOf(p) == MappingOf(q);
      MappingInjective(p, q);
    }
  }
}
