/** Finding a source-repository link for an image. */
module RepoUrl {
  import opened Text

  const SOURCE_LABELS := [
    "org.opencontainers.image.source",
    "org.opencontainers.image.url",
    "org.label-schema.vcs-url"
  ]
  const DIGEST_PREFIX := "sha256:"
  const GHCR := "ghcr.io/"
  const LSCR := "lscr.io/"
  const LINUXSERVER := "linuxserver/"
  const GITHUB := "https://github.com/"
  const GITHUB_LINUXSERVER := "https://github.com/linuxserver/docker-"
  const HUB_LIBRARY := "https://hub.docker.com/_/"
  const HUB_REPO := "https://hub.docker.com/r/"

  /** The first of the source labels, from position i on, that is present and nonempty. */
  function SourceFrom(labels: map<string, string>, i: nat): Option<string>
    requires i <= |SOURCE_LABELS|
    decreases |SOURCE_LABELS| - i
  {
    if i == |SOURCE_LABELS| then None
    else if SOURCE_LABELS[i] in labels && labels[SOURCE_LABELS[i]] != "" then Some(labels[SOURCE_LABELS[i]])
    else SourceFrom(labels, i + 1)
  }

  function BeforeDigest(image: string): string {
    var at := IndexOf(image, '@');
    if at != -1 then image[..at] else image
  }

  function BeforeLastColon(image: string): string {
    var colon := LastIndexOf(image, ':');
    if colon != -1 then image[..colon] else image
  }

  /** The image name the heuristics look at. */
  function Bare(image: string): string {
    TrimPrefix(BeforeLastColon(BeforeDigest(image)), DIGEST_PREFIX)
  }

  predicate LooksLikeDigest(img: string) { |img| == 64 && '/' !in img }

  /** The registry heuristics on a bare image name; "" when none applies. */
  function LinkFor(img: string): string {
    var ghcr := SplitN(TrimPrefix(img, GHCR), '/', 3);
    var cleaned := TrimPrefix(img, LSCR);
    var parts := SplitN(img, '/', 2);
    if LooksLikeDigest(img) then ""
    else if HasPrefix(img, GHCR) && |ghcr| >= 2 then GITHUB + ghcr[0] + "/" + ghcr[1]
    else if HasPrefix(cleaned, LINUXSERVER) then GITHUB_LINUXSERVER + TrimPrefix(cleaned, LINUXSERVER)
    else if '/' !in img && '.' !in img then HUB_LIBRARY + img
    else if '.' !in img && |parts| == 2 then HUB_REPO + parts[0] + "/" + parts[1]
    else ""
  }

  function RepoURL(labels: map<string, string>, image: string): string {
    SourceFrom(labels, 0).GetOr(LinkFor(Bare(image)))
  }

  method InferRepoURL(labels: map<string, string>, image: string) returns (url: string)
    ensures url == RepoURL(labels, image)
  {
    for i := 0 to |SOURCE_LABELS|
      invariant SourceFrom(labels, 0) == SourceFrom(labels, i)
    {
      var key := SOURCE_LABELS[i];
      if key in labels && labels[key] != "" {
        return labels[key];
      }
    }

    var img := image;
    var at := IndexOf(img, '@');
    if at != -1 {
      img := img[..at];
    }
    var colon := LastIndexOf(img, ':');
    if colon != -1 {
      img := img[..colon];
    }
    img := TrimPrefix(img, DIGEST_PREFIX);
    url := InferFromName(img);
  }

  /** The heuristics, as the function's sequence of early returns. */
  method InferFromName(img: string) returns (url: string)
    ensures url == LinkFor(img)
  {
    if |img| == 64 && '/' !in img {
      return "";
    }
    if HasPrefix(img, GHCR) {
      var parts := SplitN(TrimPrefix(img, GHCR), '/', 3);
      if |parts| >= 2 {
        return GITHUB + parts[0] + "/" + parts[1];
      }
    }
    var cleaned := TrimPrefix(img, LSCR);
    if HasPrefix(cleaned, LINUXSERVER) {
      return GITHUB_LINUXSERVER + TrimPrefix(cleaned, LINUXSERVER);
    }
    if '/' !in img && '.' !in img {
      return HUB_LIBRARY + img;
    }
    if '.' !in img {
      var parts := SplitN(img, '/', 2);
      if |parts| == 2 {
        return HUB_REPO + parts[0] + "/" + parts[1];
      }
    }
    return "";
  }

  // ---------- Tags and digests ----------

  predicate Plain(s: string) { ':' !in s && '@' !in s }

  function Tagged(b: string, t: string): string { b + [':'] + t }

  function Digested(b: string, d: string): string { b + ['@'] + d }

  lemma DigestCut(b: string, d: string)
    requires '@' !in b
    ensures BeforeDigest(Digested(b, d)) == b == BeforeDigest(b)
  {
    IndexOfAt(b, '@', d);
    assert Digested(b, d)[..|b|] == b;
  }

  lemma TagCut(b: string, t: string)
    requires ':' !in t
    ensures BeforeLastColon(Tagged(b, t)) == b
  {
    LastIndexOfAt(b, ':', t);
    assert Tagged(b, t)[..|b|] == b;
  }

  /** A tag, a digest or both after a name without ':' or '@' never change the link. */
  lemma TagAndDigestIgnored(labels: map<string, string>, b: string, t: string, d: string)
    requires Plain(b) && Plain(t)
    ensures RepoURL(labels, Tagged(b, t)) == RepoURL(labels, b)
    ensures RepoURL(labels, Digested(b, d)) == RepoURL(labels, b)
    ensures RepoURL(labels, Digested(Tagged(b, t), d)) == RepoURL(labels, b)
  {
    DigestCut(b, d);
    DigestCut(Tagged(b, t), d);
    TagCut(b, t);
  }

  /** On a tagged image the whole name before the tag is kept, registry port included, digest or not. */
  lemma TaggedKeepsName(b: string, t: string, d: string)
    requires '@' !in b && Plain(t)
    ensures Bare(Tagged(b, t)) == Bare(Digested(Tagged(b, t), d)) == TrimPrefix(b, DIGEST_PREFIX)
  {
    assert '@' !in Tagged(b, t);
    DigestCut(Tagged(b, t), d);
    TagCut(b, t);
  }

  /** An image reference name[:tag][@digest]. */
  function Ref(name: string, tag: Option<string>, digest: Option<string>): string {
    var tagged := if tag.Some? then Tagged(name, tag.value) else name;
    if digest.Some? then Digested(tagged, digest.value) else tagged
  }

  lemma RefCut(name: string, tag: Option<string>, digest: Option<string>)
    requires '@' !in name && (tag.Some? ==> Plain(tag.value))
    ensures Bare(Ref(name, tag, digest))
         == TrimPrefix(if tag.Some? then name else BeforeLastColon(name), DIGEST_PREFIX)
  {
    var tagged := if tag.Some? then Tagged(name, tag.value) else name;
    if tag.Some? { TagCut(name, tag.value); }
    if digest.Some? { DigestCut(tagged, digest.value); }
  }

  /**
   The cuts take exactly the tag and the digest off a reference if and only if it is tagged or
   its name has no colon, and the name does not start like a digest.
   */
  lemma CutsTagAndDigestIff(name: string, tag: Option<string>, digest: Option<string>)
    requires '@' !in name && (tag.Some? ==> Plain(tag.value))
    ensures Bare(Ref(name, tag, digest)) == name
       <==> (tag.Some? || ':' !in name) && !HasPrefix(name, DIGEST_PREFIX)
  {
    hide Bare, Ref;
    RefCut(name, tag, digest);
    if tag.None? && ':' in name {
      assert |BeforeLastColon(name)| < |name|;
    }
  }

  /**
   Without a tag, the cut at the last colon takes the port and path of a registry
   host:port/path with it. What is left is the host: no link when it has a dot (or 64
   characters), else the link of an official image of that name.
   */
  lemma UntaggedRegistryPortIsLost(labels: map<string, string>, host: string, rest: string)
    requires SourceFrom(labels, 0) == None
    requires Plain(host) && Plain(rest) && '/' !in host
    ensures RepoURL(labels, Tagged(host, rest))
         == if '.' in host || |host| == 64 then "" else HUB_LIBRARY + host
  {
    hide LinkFor, Bare, SourceFrom;
    TagAndDigestIgnored(labels, host, rest, "");
    NoSlashNoPrefix(host);
    BareOfPlain(host);
    NoSourceLabel(labels, host);
    LinkForHost(host);
  }

  lemma LinkForHost(host: string)
    requires '/' !in host
    ensures LinkFor(host) == if '.' in host || |host| == 64 then "" else HUB_LIBRARY + host
  {
    hide SplitN;
    NoSlashNoPrefix(host);
    NoSlashOneSegment(host);
  }

  lemma NoSlashOneSegment(host: string)
    requires '/' !in host
    ensures SplitN(host, '/', 2) == [host]
  {
  }

  lemma NoSlashNoPrefix(img: string)
    requires '/' !in img
    ensures !HasPrefix(img, GHCR) && !HasPrefix(img, LSCR) && !HasPrefix(img, LINUXSERVER)
  {
    assert '/' == GHCR[7] == LSCR[7] == LINUXSERVER[11];
  }

  /**
   The digest guard never sees a bare "sha256:<hex>" image: the colon cut has already
   removed the hex, and the link names an official image called sha256.
   */
  lemma BareDigestIsLinked(labels: map<string, string>, hex: string)
    requires SourceFrom(labels, 0) == None && Plain(hex)
    ensures RepoURL(labels, DIGEST_PREFIX + hex) == HUB_LIBRARY + "sha256"
  {
    hide SourceFrom, RepoURL;
    assert DIGEST_PREFIX + hex == Tagged("sha256", hex);
    UntaggedRegistryPortIsLost(labels, "sha256", hex);
  }

  // ---------- Source labels ----------

  predicate Given(labels: map<string, string>, key: string) { key in labels && labels[key] != "" }

  /** A source label that is present and nonempty is the link, whatever the image; these three, in this order. */
  lemma SourceLabelWins(labels: map<string, string>, image: string)
    ensures Given(labels, "org.opencontainers.image.source") ==>
              RepoURL(labels, image) == labels["org.opencontainers.image.source"]
    ensures !Given(labels, "org.opencontainers.image.source") && Given(labels, "org.opencontainers.image.url") ==>
              RepoURL(labels, image) == labels["org.opencontainers.image.url"]
    ensures !Given(labels, "org.opencontainers.image.source") && !Given(labels, "org.opencontainers.image.url")
            && Given(labels, "org.label-schema.vcs-url") ==>
              RepoURL(labels, image) == labels["org.label-schema.vcs-url"]
    ensures SourceFrom(labels, 0) == None <==>
              && !Given(labels, "org.opencontainers.image.source") && !Given(labels, "org.opencontainers.image.url")
              && !Given(labels, "org.label-schema.vcs-url")
  {
    hide LinkFor, Bare;
    assert SourceFrom(labels, 3) == None;
    var third := SourceFrom(labels, 2);
    assert third == if Given(labels, SOURCE_LABELS[2]) then Some(labels[SOURCE_LABELS[2]]) else None;
    var second := SourceFrom(labels, 1);
    assert second == if Given(labels, SOURCE_LABELS[1]) then Some(labels[SOURCE_LABELS[1]]) else third;
    assert SourceFrom(labels, 0) == if Given(labels, SOURCE_LABELS[0]) then Some(labels[SOURCE_LABELS[0]]) else second;
  }

  // ---------- GitHub container registry ----------

  lemma SplitNAt(a: string, sep: char, b: string, n: nat)
    requires sep !in a && n > 1
    ensures SplitN(a + [sep] + b, sep, n) == [a] + SplitN(b, sep, n - 1)
  {
    IndexOfAt(a, sep, b);
    var s := a + [sep] + b;
    assert s[..|a|] == a && s[|a| + 1..] == b;
  }

  lemma OwnerAndRepo(owner: string, repo: string, more: string)
    requires '/' !in owner && '/' !in repo && (more == "" || more[0] == '/')
    ensures var parts := SplitN(owner + ['/'] + (repo + more), '/', 3);
            |parts| >= 2 && parts[0] == owner && parts[1] == repo
  {
    SplitNAt(owner, '/', repo + more, 3);
    if more == "" {
      assert repo + more == repo;
    } else {
      assert repo + more == repo + ['/'] + more[1..];
      SplitNAt(repo, '/', more[1..], 2);
    }
  }

  lemma LinkForGhcr(path: string)
    requires |SplitN(path, '/', 3)| >= 2
    ensures LinkFor(GHCR + path) == GITHUB + SplitN(path, '/', 3)[0] + "/" + SplitN(path, '/', 3)[1]
  {
    var img := GHCR + path;
    assert img[|GHCR|..] == path && img[7] == '/';
  }

  /** ghcr.io/owner/repo, with any further path, tag and digest, links to owner/repo on GitHub. */
  lemma GhcrLink(labels: map<string, string>, owner: string, repo: string, more: string, t: string, d: string)
    requires SourceFrom(labels, 0) == None
    requires '/' !in owner && '/' !in repo && (more == "" || more[0] == '/')
    requires Plain(owner) && Plain(repo) && Plain(more) && Plain(t)
    ensures var b := "ghcr.io/" + (owner + ['/'] + (repo + more));
            var link := "https://github.com/" + owner + "/" + repo;
            && RepoURL(labels, b) == RepoURL(labels, Tagged(b, t)) == link
            && RepoURL(labels, Digested(b, d)) == RepoURL(labels, Digested(Tagged(b, t), d)) == link
  {
    var path := owner + ['/'] + (repo + more);
    assert Plain(path);
    OwnerAndRepo(owner, repo, more);
    LinkForGhcr(path);
    BareOfGhcr(path);
    TagAndDigestIgnored(labels, GHCR + path, t, d);
  }

  lemma BareOfGhcr(path: string)
    requires Plain(path)
    ensures Plain(GHCR + path) && Bare(GHCR + path) == GHCR + path
  {
    assert (GHCR + path)[0] == 'g';
  }

  // ---------- The other registries ----------

  lemma BareOfPlain(b: string)
    requires Plain(b)
    ensures Bare(b) == b
  {
    assert DIGEST_PREFIX[6] == ':';
  }

  lemma LinkForLinuxserver(img: string, name: string)
    requires TrimPrefix(img, LSCR) == LINUXSERVER + name && img != "" && img[0] == 'l' && '/' in img
    ensures LinkFor(img) == GITHUB_LINUXSERVER + name
  {
    hide SplitN;
    assert (LINUXSERVER + name)[|LINUXSERVER|..] == name;
  }

  /** linuxserver images link to their GitHub repository, with or without the lscr.io registry, tag and digest. */
  lemma LinuxserverLink(labels: map<string, string>, b: string, name: string, t: string, d: string)
    requires SourceFrom(labels, 0) == None && Plain(name) && Plain(t)
    requires b == "linuxserver/" + name || b == "lscr.io/" + ("linuxserver/" + name)
    ensures RepoURL(labels, b) == RepoURL(labels, Digested(Tagged(b, t), d))
         == "https://github.com/linuxserver/docker-" + name
  {
    hide LinkFor, Bare, SourceFrom, RepoURL;
    LinuxserverName(b, name);
    LinkForLinuxserver(b, name);
    BareOfPlain(b);
    TagAndDigestIgnored(labels, b, t, d);
    NoSourceLabel(labels, b);
  }

  lemma NoSourceLabel(labels: map<string, string>, image: string)
    requires SourceFrom(labels, 0) == None
    ensures RepoURL(labels, image) == LinkFor(Bare(image))
  {
  }

  lemma LinuxserverName(b: string, name: string)
    requires Plain(name) && (b == LINUXSERVER + name || b == LSCR + (LINUXSERVER + name))
    ensures Plain(b) && TrimPrefix(b, LSCR) == LINUXSERVER + name && b != "" && b[0] == 'l' && '/' in b
  {
    assert LINUXSERVER[1] == 'i' && LSCR[1] == 's' && LINUXSERVER[11] == '/';
    if b == LINUXSERVER + name {
      assert b[1] == 'i' && b[11] == '/';
    } else {
      assert b[|LSCR|..] == LINUXSERVER + name && b[7] == '/';
    }
  }

  lemma SplitInTwo(img: string)
    requires '/' in img
    ensures var parts := SplitN(img, '/', 2); |parts| == 2 && parts[0] + "/" + parts[1] == img
  {
    var i := IndexOf(img, '/');
    assert SplitN(img[i + 1..], '/', 1) == [img[i + 1..]];
    assert img[..i] + "/" + img[i + 1..] == img;
  }

  /** Docker Hub's link for a name: as an official image, or under its user. */
  function OnHub(b: string): string {
    if (|b| == 64 && '/' !in b) || '.' in b then ""
    else (if '/' in b then "https://hub.docker.com/r/" else "https://hub.docker.com/_/") + b
  }

  lemma LinkOnHub(b: string)
    requires !HasPrefix(b, GHCR) && !HasPrefix(TrimPrefix(b, LSCR), LINUXSERVER)
    ensures LinkFor(b) == OnHub(b)
  {
    hide SplitN;
    if '/' in b {
      SplitInTwo(b);
      var parts := SplitN(b, '/', 2);
      assert HUB_REPO + parts[0] + "/" + parts[1] == HUB_REPO + (parts[0] + "/" + parts[1]);
    }
  }

  /**
   A name without a dot is on Docker Hub, as an official image or under its user; a name with a
   dot is linked only if it is on ghcr.io or from linuxserver.
   */
  lemma HubLink(labels: map<string, string>, b: string)
    requires SourceFrom(labels, 0) == None && Plain(b)
    requires !HasPrefix(b, GHCR) && !HasPrefix(TrimPrefix(b, LSCR), LINUXSERVER)
    ensures RepoURL(labels, b) == OnHub(b)
  {
    hide LinkFor, SourceFrom, Bare, RepoURL, OnHub;
    BareOfPlain(b);
    NoSourceLabel(labels, b);
    LinkOnHub(b);
  }

  /** A ghcr.io image without a repository has no link. */
  lemma GhcrWithoutRepo(labels: map<string, string>, owner: string)
    requires SourceFrom(labels, 0) == None && Plain(owner) && '/' !in owner
    ensures RepoURL(labels, "ghcr.io/" + owner) == ""
  {
    hide Bare, SourceFrom;
    var b := GHCR + owner;
    assert b[4] == '.' && b[7] == '/' && b[0] == 'g' && b[|GHCR|..] == owner;
    BareOfGhcr(owner);
    NoSourceLabel(labels, b);
    NoSlashThreeSegments(owner);
  }

  lemma NoSlashThreeSegments(s: string)
    requires '/' !in s
    ensures SplitN(s, '/', 3) == [s]
  {
  }

  // ---------- Registry ports ----------

  lemma NoSuchPrefix(host: string, rest: string, p: string)
    requires '/' !in host && ':' !in p && '/' in p
    ensures !HasPrefix(Tagged(host, rest), p)
  {
    var b := Tagged(host, rest);
    var i :| 0 <= i < |p| && p[i] == '/';
    if i < |host| {
      assert b[i] == host[i] != p[i];
    } else {
      assert b[|host|] == ':' != p[|host|];
    }
  }

  /** The link of a whole host:port/path: never GitHub's, and none when there is a dot anywhere. */
  lemma RegistryPortLink(host: string, rest: string)
    requires '/' !in host
    ensures LinkFor(Tagged(host, rest)) == OnHub(Tagged(host, rest))
  {
    PrefixesHaveNoColon();
    NoSuchPrefix(host, rest, GHCR);
    NoSuchPrefix(host, rest, LSCR);
    NoSuchPrefix(host, rest, LINUXSERVER);
    hide *;
    LinkOnHubAt(Tagged(host, rest));
  }

  lemma LinkOnHubAt(b: string)
    requires !HasPrefix(b, GHCR) && !HasPrefix(b, LSCR) && !HasPrefix(b, LINUXSERVER)
    ensures LinkFor(b) == OnHub(b)
  {
    hide LinkFor, OnHub;
    LinkOnHub(b);
  }

  lemma PrefixesHaveNoColon()
    ensures ':' !in GHCR && ':' !in LSCR && ':' !in LINUXSERVER
    ensures '/' in GHCR && '/' in LSCR && '/' in LINUXSERVER
  {
    assert '/' == GHCR[7] == LSCR[7] == LINUXSERVER[11];
  }

  /** Only an official image gets an official image's link. */
  lemma OfficialLink(img: string, name: string)
    requires '/' !in name && name != "" && LinkFor(img) == HUB_LIBRARY + name
    ensures img == name
  {
    hide SplitN;
    var link := LinkFor(img);
    assert link[8] == 'h' && link[23] == '_' && GITHUB[8] == 'g' && GITHUB_LINUXSERVER[8] == 'g' && HUB_REPO[23] == 'r';
    if '/' !in img && '.' !in img && link == HUB_LIBRARY + img {
      assert link[|HUB_LIBRARY|..] == img && link[|HUB_LIBRARY|..] == name;
    }
  }

  /**
   When the tag makes a difference to the link of a registry image host:port/path, with or
   without a digest: always, except that a dotted host never has a link, and a host of 64
   characters has none when there is a dot after it. (The host "sha256" is taken for a digest.)
   */
  lemma TagKeepsLinkIff(labels: map<string, string>, host: string, rest: string, t: string, digest: Option<string>)
    requires SourceFrom(labels, 0) == None
    requires Plain(host) && Plain(rest) && Plain(t) && '/' !in host
    ensures RepoURL(labels, Ref(Tagged(host, rest), None, digest))
         == RepoURL(labels, Ref(Tagged(host, rest), Some(t), digest))
       <==> if host == "sha256" then rest == "sha256" else '.' in host || (|host| == 64 && '.' in rest)
  {
    hide LinkFor, Bare, SourceFrom, RepoURL, Ref;
    var b := Tagged(host, rest);
    RefCut(b, None, digest);
    RefCut(b, Some(t), digest);
    NoSourceLabel(labels, Ref(b, None, digest));
    NoSourceLabel(labels, Ref(b, Some(t), digest));
    TagCut(host, rest);
    HostIsNoDigest(host, rest);
    LinkForHost(host);
    if host == "sha256" {
      Sha256Rest(rest);
    } else {
      RegistryPortLink(host, rest);
      assert '.' in host ==> '.' in b;
      if '.' !in host { LinksDiffer(host, rest); }
    }
  }

  /** What the cuts leave of host and of host:rest. */
  lemma HostIsNoDigest(host: string, rest: string)
    requires Plain(host)
    ensures TrimPrefix(host, DIGEST_PREFIX) == host
    ensures TrimPrefix(Tagged(host, rest), DIGEST_PREFIX) == if host == "sha256" then rest else Tagged(host, rest)
  {
    var b := Tagged(host, rest);
    assert DIGEST_PREFIX == "sha256" + [':'] && b[|host|] == ':';
    if host == "sha256" {
      assert b == DIGEST_PREFIX + rest && b[|DIGEST_PREFIX|..] == rest;
    } else if |host| < 6 {
      assert DIGEST_PREFIX[|host|] != ':';
    } else if |host| == 6 {
      assert b[..6] == host != DIGEST_PREFIX[..6];
    } else {
      assert b[6] == host[6] != ':';
    }
  }

  lemma Sha256Name()
    ensures '/' !in "sha256" && '.' !in "sha256" && "sha256" != "" && |"sha256"| == 6
  {
  }

  lemma Sha256Rest(rest: string)
    ensures LinkFor(rest) == HUB_LIBRARY + "sha256" <==> rest == "sha256"
  {
    Sha256Name();
    hide *;
    LinkForHost("sha256");
    if LinkFor(rest) == HUB_LIBRARY + "sha256" { OfficialLink(rest, "sha256"); }
  }

  lemma LinksDiffer(host: string, rest: string)
    requires '/' !in host && '.' !in host
    ensures HUB_LIBRARY + host != HUB_LIBRARY + Tagged(host, rest)
    ensures HUB_LIBRARY + host != HUB_REPO + Tagged(host, rest)
    ensures |HUB_LIBRARY| == |HUB_REPO| > 0
    ensures '.' in Tagged(host, rest) <==> '.' in rest
    ensures |host| == 64 ==> !LooksLikeDigest(Tagged(host, rest))
  {
    var b := Tagged(host, rest);
    assert |b| > |host| && |HUB_REPO| == |HUB_LIBRARY|;
  }
}
