/** wingstation.* label parsing. */
module Labels {
  import opened Text

  const LABEL_PREFIX := "wingstation."
  const DEFAULT_PRIORITY := 50
  const UNGROUPED := "Ungrouped"
  const DEFAULTS := WingStationLabels("", "", "", "", "", DEFAULT_PRIORITY, false, [])

  datatype WingStationLabels = WingStationLabels(
    group: string,
    name: string,
    icon: string,
    description: string,
    url: string,
    priority: int,
    hide: bool,
    tags: seq<string>)
  {
    function DisplayName(containerName: string): string {
      if name != "" then name else containerName
    }

    function GroupName(): string {
      if group != "" then group else UNGROUPED
    }

    method HasTag(tag: string) returns (found: bool)
      ensures found <==> HasTagLike(tag)
    {
      for i := 0 to |tags|
        invariant forall k | 0 <= k < i :: !EqualFold(tags[k], tag)
      {
        if EqualFold(tags[i], tag) {
          return true;
        }
      }
      return false;
    }

    predicate HasTagLike(tag: string) {
      exists t | t in tags :: EqualFold(t, tag)
    }
  }

  // ---------- Field-by-field lookup ----------

  /** The wingstation.* entries, keyed by what follows the prefix. */
  ghost function Fields(labels: map<string, string>): map<string, string> {
    assert forall k, l | HasPrefix(k, LABEL_PREFIX) && HasPrefix(l, LABEL_PREFIX)
                         && TrimPrefix(k, LABEL_PREFIX) == TrimPrefix(l, LABEL_PREFIX) :: k == l by {
      forall k, l | HasPrefix(k, LABEL_PREFIX) && HasPrefix(l, LABEL_PREFIX)
                    && TrimPrefix(k, LABEL_PREFIX) == TrimPrefix(l, LABEL_PREFIX) ensures k == l {
        Unprefixed(k);
        Unprefixed(l);
      }
    }
    map k | k in labels && HasPrefix(k, LABEL_PREFIX) :: TrimPrefix(k, LABEL_PREFIX) := labels[k]
  }

  lemma Unprefixed(k: string)
    requires HasPrefix(k, LABEL_PREFIX)
    ensures k == LABEL_PREFIX + TrimPrefix(k, LABEL_PREFIX)
  {
  }

  lemma FieldsAre(labels: map<string, string>)
    ensures forall name :: name in Fields(labels) <==> LABEL_PREFIX + name in labels
    ensures forall name | name in Fields(labels) :: Fields(labels)[name] == labels[LABEL_PREFIX + name]
  {
    forall name ensures name in Fields(labels) <==> LABEL_PREFIX + name in labels
                ensures name in Fields(labels) ==> Fields(labels)[name] == labels[LABEL_PREFIX + name]
    {
      var k := LABEL_PREFIX + name;
      assert HasPrefix(k, LABEL_PREFIX) && TrimPrefix(k, LABEL_PREFIX) == name;
      if name in Fields(labels) {
        var k' :| k' in labels && HasPrefix(k', LABEL_PREFIX) && TrimPrefix(k', LABEL_PREFIX) == name
                  && Fields(labels)[name] == labels[k'];
        Unprefixed(k');
      }
    }
  }

  function Lookup(fields: map<string, string>, name: string): string {
    if name in fields then fields[name] else ""
  }

  /** The trimmed nonempty strings among the first n pieces, in order. */
  function KeepTags(pieces: seq<string>, n: nat): (tags: seq<string>)
    requires n <= |pieces|
  {
    if n == 0 then []
    else
      var tag := TrimSpace(pieces[n - 1]);
      if tag != "" then KeepTags(pieces, n - 1) + [tag] else KeepTags(pieces, n - 1)
  }

  /** The tags a label value holds: its comma-separated pieces, trimmed, without the empty ones. */
  function TagsOf(v: string): seq<string> {
    var pieces := Split(v, ',');
    KeepTags(pieces, |pieces|)
  }

  function LabelsFrom(fields: map<string, string>): WingStationLabels {
    WingStationLabels(
      Lookup(fields, "group"),
      Lookup(fields, "name"),
      Lookup(fields, "icon"),
      Lookup(fields, "description"),
      Lookup(fields, "url"),
      if "priority" in fields then Atoi(fields["priority"]).GetOr(DEFAULT_PRIORITY) else DEFAULT_PRIORITY,
      "hide" in fields && fields["hide"] in ["true", "1", "yes"],
      if "tags" in fields then TagsOf(fields["tags"]) else [])
  }

  /** What each label field is, read straight from the map: no order of its entries is involved. */
  ghost function LabelsOf(labels: map<string, string>): WingStationLabels {
    LabelsFrom(Fields(labels))
  }

  // ---------- The parser ----------

  /**
   ParseLabels visits the entries of the map in an order it does not choose; whatever that
   order is, the result is the field-by-field lookup.
   */
  method ParseLabels(labels: map<string, string>) returns (ws: WingStationLabels)
    ensures ws == LabelsOf(labels)
  {
    ws := DEFAULTS;
    var todo := labels.Keys;
    ghost var done: map<string, string> := map[];
    NoEntries(done);
    while todo != {}
      invariant done.Keys == labels.Keys - todo && todo <= labels.Keys
      invariant forall k | k in done :: done[k] == labels[k]
      invariant ws == LabelsOf(done)
      decreases todo
    {
      var k :| k in todo;
      var v := labels[k];
      ws := ApplyEntry(done, ws, k, v);
      todo := todo - {k};
      done := done[k := v];
    }
    assert done == labels;
  }

  /** One turn of the loop. */
  method ApplyEntry(ghost done: map<string, string>, ws: WingStationLabels, k: string, v: string)
    returns (r: WingStationLabels)
    requires k !in done && ws == LabelsOf(done)
    ensures r == LabelsOf(done[k := v])
  {
    if !HasPrefix(k, LABEL_PREFIX) {
      OtherEntry(done, k, v);
      return ws;
    }
    var key := TrimPrefix(k, LABEL_PREFIX);
    assert k == LABEL_PREFIX + key;
    FieldEntry(done, key, v);
    r := SetField(ws, key, v);
  }

  /** The switch on the key. */
  method SetField(ws: WingStationLabels, key: string, v: string) returns (r: WingStationLabels)
    ensures r == WithField(ws, key, v)
  {
    r := ws;
    match key
    case "group" => r := ws.(group := v);
    case "name" => r := ws.(name := v);
    case "icon" => r := ws.(icon := v);
    case "description" => r := ws.(description := v);
    case "url" => r := ws.(url := v);
    case "priority" =>
      var n := Atoi(v);
      if n.Some? {
        r := ws.(priority := n.value);
      }
    case "hide" => r := ws.(hide := v == "true" || v == "1" || v == "yes");
    case "tags" =>
      var tags := AppendTags(ws.tags, v);
      r := ws.(tags := tags);
    case _ =>
  }

  function WithField(ws: WingStationLabels, key: string, v: string): WingStationLabels {
    match key
    case "group" => ws.(group := v)
    case "name" => ws.(name := v)
    case "icon" => ws.(icon := v)
    case "description" => ws.(description := v)
    case "url" => ws.(url := v)
    case "priority" => ws.(priority := Atoi(v).GetOr(ws.priority))
    case "hide" => ws.(hide := v in ["true", "1", "yes"])
    case "tags" => ws.(tags := ws.tags + TagsOf(v))
    case _ => ws
  }

  /** The inner loop of the "tags" case. */
  method AppendTags(tags: seq<string>, v: string) returns (all: seq<string>)
    ensures all == tags + TagsOf(v)
  {
    all := tags;
    var pieces := Split(v, ',');
    ghost var kept: seq<string> := [];
    for i := 0 to |pieces|
      invariant all == tags + kept && kept == KeepTags(pieces, i)
    {
      var tag := TrimSpace(pieces[i]);
      if tag != "" {
        all, kept := all + [tag], kept + [tag];
      }
    }
  }

  lemma NoEntries(m: map<string, string>)
    requires m == map[]
    ensures LabelsOf(m) == DEFAULTS
  {
    FieldsAre(m);
  }

  lemma PrefixedDiffer(a: string, b: string)
    requires a != b
    ensures LABEL_PREFIX + a != LABEL_PREFIX + b
  {
    assert (LABEL_PREFIX + a)[|LABEL_PREFIX|..] == a && (LABEL_PREFIX + b)[|LABEL_PREFIX|..] == b;
  }

  lemma FieldsAfter(m: map<string, string>, key: string, v: string)
    ensures Fields(m[LABEL_PREFIX + key := v]) == Fields(m)[key := v]
  {
    var after := m[LABEL_PREFIX + key := v];
    FieldsAre(m);
    FieldsAre(after);
    forall name ensures name in Fields(after) <==> name == key || name in Fields(m)
                ensures name in Fields(after) ==> Fields(after)[name] == Fields(m)[key := v][name]
    {
      if name != key { PrefixedDiffer(name, key); }
    }
  }

  lemma NewField(fields: map<string, string>, key: string, v: string)
    requires key !in fields
    ensures LabelsFrom(fields[key := v]) == WithField(LabelsFrom(fields), key, v)
  {
    hide Atoi, TagsOf;
    match key
    case "group" =>
    case "name" =>
    case "icon" =>
    case "description" =>
    case "url" =>
    case "priority" =>
    case "hide" =>
    case "tags" =>
    case _ =>
  }

  /** One more wingstation.* entry sets its own field and no other. */
  lemma FieldEntry(m: map<string, string>, key: string, v: string)
    requires LABEL_PREFIX + key !in m
    ensures LabelsOf(m[LABEL_PREFIX + key := v]) == WithField(LabelsOf(m), key, v)
  {
    FieldsAre(m);
    FieldsAfter(m, key, v);
    NewField(Fields(m), key, v);
  }

  lemma OtherEntry(m: map<string, string>, k: string, v: string)
    requires !HasPrefix(k, LABEL_PREFIX)
    ensures LabelsOf(m[k := v]) == LabelsOf(m)
  {
    FieldsAre(m);
    FieldsAre(m[k := v]);
    forall name ensures LABEL_PREFIX + name != k {
      assert LABEL_PREFIX <= LABEL_PREFIX + name;
    }
    assert Fields(m[k := v]) == Fields(m);
  }

  // ---------- Tags ----------

  predicate ProperTag(t: string) { t != "" && Trimmed(t) && ',' !in t }

  lemma ProperAfterTrim(p: string)
    requires ',' !in p && TrimSpace(p) != ""
    ensures ProperTag(TrimSpace(p))
  {
    TrimSpaceFixed(p);
  }

  lemma {:induction false} KeptTagsAreProper(v: string, n: nat)
    requires n <= |Split(v, ',')|
    ensures forall t | t in KeepTags(Split(v, ','), n) :: ProperTag(t)
  {
    if n > 0 {
      KeptTagsAreProper(v, n - 1);
      SplitPiece(v, ',', n - 1);
      if TrimSpace(Split(v, ',')[n - 1]) != "" {
        ProperAfterTrim(Split(v, ',')[n - 1]);
      }
    }
  }

  lemma {:induction false} ProperTagsAreKept(tags: seq<string>, n: nat)
    requires n <= |tags| && forall t | t in tags :: ProperTag(t)
    ensures KeepTags(tags, n) == tags[..n]
  {
    if n > 0 {
      ProperTagsAreKept(tags, n - 1);
      assert ProperTag(tags[n - 1]);
      TrimSpaceFixed(tags[n - 1]);
    }
  }

  /** Parsed tags are trimmed, nonempty and free of commas. */
  lemma TagsAreProper(v: string)
    ensures forall t | t in TagsOf(v) :: ProperTag(t)
  {
    KeptTagsAreProper(v, |Split(v, ',')|);
  }

  lemma ProperTagsReparse(tags: seq<string>)
    requires tags != [] && forall t | t in tags :: ProperTag(t)
    ensures TagsOf(Join(tags, ',')) == tags
  {
    forall p | p in tags ensures ',' !in p {
      assert ProperTag(p);
    }
    SplitOfJoin(tags, ',');
    ProperTagsAreKept(tags, |tags|);
  }

  /** Tags written back with commas parse to themselves exactly when each is trimmed, nonempty and comma-free. */
  lemma TagsRoundTrip(tags: seq<string>)
    ensures TagsOf(Join(tags, ',')) == tags <==> forall t | t in tags :: ProperTag(t)
  {
    TagsAreProper(Join(tags, ','));
    if tags != [] && forall t | t in tags :: ProperTag(t) {
      ProperTagsReparse(tags);
    }
  }

  /** Normalising the tags label once is enough. */
  lemma TagsIdempotent(v: string)
    ensures TagsOf(Join(TagsOf(v), ',')) == TagsOf(v)
  {
    TagsAreProper(v);
    TagsRoundTrip(TagsOf(v));
  }

  /** A tag as it may be written: with space around it, or nothing but space. */
  datatype Padded = Padded(left: string, text: string, right: string)

  predicate WellPadded(t: Padded) {
    AllSpace(t.left) && AllSpace(t.right) && (t.text == "" || ProperTag(t.text))
  }

  function Written(tags: seq<Padded>): (r: seq<string>)
    ensures |r| == |tags|
  {
    seq(|tags|, i requires 0 <= i < |tags| => tags[i].left + tags[i].text + tags[i].right)
  }

  /** The texts of the first n, without the empty ones. */
  function Texts(tags: seq<Padded>, n: nat): seq<string>
    requires n <= |tags|
  {
    if n == 0 then []
    else if tags[n - 1].text == "" then Texts(tags, n - 1)
    else Texts(tags, n - 1) + [tags[n - 1].text]
  }

  lemma PaddedPiece(t: Padded)
    requires WellPadded(t)
    ensures ',' !in t.left + t.text + t.right && TrimSpace(t.left + t.text + t.right) == t.text
  {
    TrimSpaceOf(t.left, t.text, t.right);
    assert !IsSpace(',');
  }

  lemma {:induction false} KeepPadded(tags: seq<Padded>, n: nat)
    requires n <= |tags| && forall t | t in tags :: WellPadded(t)
    ensures KeepTags(Written(tags), n) == Texts(tags, n)
  {
    hide WellPadded, TrimSpace;
    if n > 0 {
      KeepPadded(tags, n - 1);
      PaddedPiece(tags[n - 1]);
    }
  }

  /** Tags may be written with space around them and empty pieces between them: the same tags are read, in order. */
  lemma PaddedTagsParse(tags: seq<Padded>)
    requires tags != [] && forall t | t in tags :: WellPadded(t)
    ensures TagsOf(Join(Written(tags), ',')) == Texts(tags, |tags|)
  {
    hide WellPadded, TrimSpace, KeepTags, Texts;
    var pieces := Written(tags);
    forall p | p in pieces ensures ',' !in p {
      var i :| 0 <= i < |pieces| && pieces[i] == p;
      PaddedPiece(tags[i]);
    }
    SplitOfJoin(pieces, ',');
    KeepPadded(tags, |tags|);
  }

  // ---------- Each field on the raw labels ----------

  function Raw(labels: map<string, string>, key: string): string {
    if key in labels then labels[key] else ""
  }

  lemma FieldIs(labels: map<string, string>, name: string)
    ensures Lookup(Fields(labels), name) == Raw(labels, "wingstation." + name)
    ensures name in Fields(labels) <==> "wingstation." + name in labels
  {
    hide Fields;
    FieldsAre(labels);
  }

  lemma KeyNames()
    ensures "wingstation." + "group" == "wingstation.group" && "wingstation." + "name" == "wingstation.name"
    ensures "wingstation." + "icon" == "wingstation.icon" && "wingstation." + "url" == "wingstation.url"
    ensures "wingstation." + "description" == "wingstation.description"
    ensures "wingstation." + "hide" == "wingstation.hide" && "wingstation." + "tags" == "wingstation.tags"
    ensures "wingstation." + "priority" == "wingstation.priority"
  {
  }

  /** The fields that are copied from their labels, empty when the label is missing. */
  lemma CopiedFields(labels: map<string, string>)
    ensures LabelsOf(labels).group == Raw(labels, "wingstation.group")
    ensures LabelsOf(labels).name == Raw(labels, "wingstation.name")
    ensures LabelsOf(labels).icon == Raw(labels, "wingstation.icon")
    ensures LabelsOf(labels).description == Raw(labels, "wingstation.description")
    ensures LabelsOf(labels).url == Raw(labels, "wingstation.url")
  {
    FieldIs(labels, "group");
    FieldIs(labels, "name");
    FieldIs(labels, "icon");
    FieldIs(labels, "description");
    FieldIs(labels, "url");
    KeyNames();
    hide Fields, Lookup, Atoi, TagsOf, Raw;
  }

  /** The fields that are read: a priority of 50 unless a number is given, hiding, and the tags. */
  lemma ReadFields(labels: map<string, string>)
    ensures LabelsOf(labels).hide <==> Raw(labels, "wingstation.hide") in {"true", "1", "yes"}
    ensures LabelsOf(labels).tags == TagsOf(Raw(labels, "wingstation.tags"))
    ensures LabelsOf(labels).priority == Atoi(Raw(labels, "wingstation.priority")).GetOr(50)
  {
    FieldIs(labels, "hide");
    FieldIs(labels, "tags");
    FieldIs(labels, "priority");
    KeyNames();
    NothingRead();
    hide Fields, Atoi, TagsOf;
  }

  lemma NothingRead()
    ensures TagsOf("") == [] && Atoi("") == None
  {
    assert Split("", ',') == [""];
    TrimSpaceFixed("");
  }

  /** The names shown: the labels win, and a container without a group label is "Ungrouped". */
  lemma ShownNames(labels: map<string, string>, containerName: string)
    ensures LabelsOf(labels).GroupName()
         == if Raw(labels, "wingstation.group") == "" then "Ungrouped" else Raw(labels, "wingstation.group")
    ensures LabelsOf(labels).DisplayName(containerName)
         == if Raw(labels, "wingstation.name") == "" then containerName else Raw(labels, "wingstation.name")
  {
    hide LabelsOf, Raw;
    CopiedFields(labels);
  }

  /** Writing a 64-bit priority into the label and parsing it gives that priority. */
  lemma PriorityRoundTrip(labels: map<string, string>, n: int)
    requires MIN_INT64 <= n <= MAX_INT64
    ensures LabelsOf(labels["wingstation.priority" := Itoa(n)]).priority == n
  {
    hide LabelsOf, Atoi, Itoa;
    AtoiOfItoa(n);
    ReadFields(labels["wingstation.priority" := Itoa(n)]);
  }
}
