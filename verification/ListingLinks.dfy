/** Where a page's listing markup names its links, and which of them a harvest keeps. */
module ListingLinks {
  import opened Text
  import opened Extract
  import opened CandidateLinks
  import opened JsonLinks

  // ----- places in the markup -----

  /** One step from a value towards a link: an array entry, a member, or finally one of the
      object's own type entries. */
  datatype Step = Entry(i: nat) | Member(key: string) | Own(entry: nat)

  datatype Spot = Spot(path: seq<Step>, text: string)

  const MEMBERS: seq<string> := ["itemListElement", "@graph", "item", "mainEntity"]

  const LISTED: seq<string> :=
    ["Restaurant", "CafeOrCoffeeShop", "Bakery", "FoodEstablishment", "LocalBusiness", "ListItem"]

  /** One of the listed names, bare or under schema.org. */
  predicate NamesListing(typ: string) {
    exists k :: 0 <= k < |LISTED| && (typ == LISTED[k] || typ == "https://schema.org/" + LISTED[k])
  }

  /** The object's trimmed url, or without one its trimmed @id. */
  predicate OwnText(o: Json, text: string)
    requires o.Obj?
  {
    || (HasText(o, "url") && text == TrimSpace(o.fields["url"].s))
    || (!HasText(o, "url") && HasText(o, "@id") && text == TrimSpace(o.fields["@id"].s))
  }

  /** The path leads from v, through arrays and the four members only, to a recognised type
      entry of an object whose own link is `text`. */
  predicate Lists(v: Json, path: seq<Step>, text: string)
    decreases |path|
  {
    path != [] &&
    match path[0]
    case Entry(i) => v.Arr? && i < |v.items| && Lists(v.items[i], path[1..], text)
    case Member(key) => v.Obj? && key in MEMBERS && key in v.fields && Lists(v.fields[key], path[1..], text)
    case Own(k) => path == [Own(k)] && v.Obj? && k < |Types(v)| && NamesListing(Types(v)[k]) && OwnText(v, text)
  }

  // ----- document order -----

  /** Array entries by position; in an object its own entries, then the members as named. */
  function Level(step: Step): nat {
    match step
    case Entry(i) => i
    case Own(_) => 0
    case Member(key) =>
      if key == "itemListElement" then 1 else if key == "@graph" then 2 else if key == "item" then 3 else 4
  }

  predicate StepBefore(a: Step, b: Step) {
    Level(a) < Level(b) || (a.Own? && b.Own? && a.entry < b.entry)
  }

  /** The first step in which two paths differ decides. */
  predicate Before(a: seq<Step>, b: seq<Step>)
    decreases |a|
  {
    a != [] && b != [] && (StepBefore(a[0], b[0]) || (a[0] == b[0] && Before(a[1..], b[1..])))
  }

  ghost predicate Sorted(spots: seq<Spot>) {
    forall i, j :: 0 <= i < j < |spots| ==> Before(spots[i].path, spots[j].path)
  }

  lemma {:induction false} NotBeforeItself(p: seq<Step>)
    ensures !Before(p, p)
    decreases |p|
  {
    if p != [] { NotBeforeItself(p[1..]); }
  }

  /** All first steps are at levels from `low` up to but not including `high`. */
  ghost predicate Within(spots: seq<Spot>, low: nat, high: nat) {
    forall i :: 0 <= i < |spots| ==> spots[i].path != [] && low <= Level(spots[i].path[0]) < high
  }

  lemma JoinSorted(a: seq<Spot>, b: seq<Spot>, low: nat, mid: nat, high: nat)
    requires Sorted(a) && Sorted(b) && Within(a, low, mid) && Within(b, mid, high) && low <= mid <= high
    ensures Sorted(a + b) && Within(a + b, low, high)
  {
  }

  function Behind(step: Step, spots: seq<Spot>): seq<Spot> {
    seq(|spots|, i requires 0 <= i < |spots| => Spot([step] + spots[i].path, spots[i].text))
  }

  lemma BehindSorted(step: Step, spots: seq<Spot>)
    requires Sorted(spots)
    ensures Sorted(Behind(step, spots)) && Within(Behind(step, spots), Level(step), Level(step) + 1)
  {
    var b := Behind(step, spots);
    forall i | 0 <= i < |b|
      ensures b[i].path != [] && b[i].path[0] == step && b[i].path[1..] == spots[i].path
    {
    }
  }

  lemma BehindHas(step: Step, spots: seq<Spot>, s: Spot)
    ensures s in Behind(step, spots) <==> s.path != [] && s.path[0] == step && Spot(s.path[1..], s.text) in spots
  {
    if s.path != [] && s.path[0] == step && Spot(s.path[1..], s.text) in spots {
      var i :| 0 <= i < |spots| && spots[i] == Spot(s.path[1..], s.text);
      assert s.path == [step] + spots[i].path;
      assert Behind(step, spots)[i] == s;
    }
    if i :| 0 <= i < |spots| && Behind(step, spots)[i] == s {
      assert s.path[1..] == spots[i].path;
    }
  }

  // ----- all spots of a value -----

  function Spots(v: Json): seq<Spot>
    decreases v, 1
  {
    match v
    case Arr(items) => SpotsFrom(items, 0)
    case Obj(_) =>
      OwnSpots(v, 0) + Part(v, "itemListElement") + Part(v, "@graph") + Part(v, "item") + Part(v, "mainEntity")
    case _ => []
  }

  function SpotsFrom(items: seq<Json>, base: nat): seq<Spot>
    decreases items, 0
  {
    if items == [] then [] else Behind(Entry(base), Spots(items[0])) + SpotsFrom(items[1..], base + 1)
  }

  function Part(o: Json, key: string): seq<Spot>
    requires o.Obj?
    decreases o, 0
  {
    if key in o.fields then Behind(Member(key), Spots(o.fields[key])) else []
  }

  function OwnSpots(o: Json, k: nat): seq<Spot>
    requires o.Obj? && k <= |Types(o)|
    decreases |Types(o)| - k
  {
    if k == |Types(o)| then []
    else
      var url, id := StringValue(Field(o, "url")), StringValue(Field(o, "@id"));
      (if !ListingType(Types(o)[k]) then []
       else if url != "" then [Spot([Own(k)], url)]
       else if id != "" then [Spot([Own(k)], id)] else [])
      + OwnSpots(o, k + 1)
  }

  function Texts(spots: seq<Spot>): seq<string> {
    seq(|spots|, i requires 0 <= i < |spots| => spots[i].text)
  }

  lemma TextsJoin(a: seq<Spot>, b: seq<Spot>)
    ensures Texts(a + b) == Texts(a) + Texts(b)
  {
  }

  lemma TextsBehind(step: Step, spots: seq<Spot>)
    ensures Texts(Behind(step, spots)) == Texts(spots)
  {
  }

  lemma ListingTypeIsNamed(typ: string)
    ensures ListingType(typ) <==> NamesListing(typ)
  {
    var schema := "https://schema.org/";
    var bare := DropSchema(typ);
    assert ListingType(typ) <==> bare in LISTED;
    if schema <= typ {
      assert typ == schema + bare;
      assert forall k :: 0 <= k < |LISTED| ==> typ != LISTED[k];
    } else {
      assert forall k :: 0 <= k < |LISTED| ==> schema <= schema + LISTED[k];
    }
  }

  /** The one text the object's own entries yield, or none. */
  lemma OwnTextOf(o: Json, k: nat, types: seq<string>) returns (text: string)
    requires o.Obj? && k < |Types(o)| && types == Types(o)[k..]
    ensures forall t :: OwnText(o, t) <==> t == text != ""
    ensures OwnSpots(o, k) ==
      (if ListingType(types[0]) && text != "" then [Spot([Own(k)], text)] else []) + OwnSpots(o, k + 1)
    ensures CandidateLinks.Own(o, types) ==
      (if ListingType(types[0]) && text != "" then [text] else []) + CandidateLinks.Own(o, types[1..])
  {
    var url, id := StringValue(Field(o, "url")), StringValue(Field(o, "@id"));
    text := if url != "" then url else id;
  }

  predicate OwnSpot(o: Json, k: nat, s: Spot)
    requires o.Obj?
  {
    |s.path| == 1 && s.path[0].Own? && k <= s.path[0].entry && Lists(o, s.path, s.text)
  }

  lemma OwnSpotIs(o: Json, text: string, k: nat, s: Spot)
    requires o.Obj? && k < |Types(o)| && forall t :: OwnText(o, t) <==> t == text != ""
    ensures OwnSpot(o, k, s) <==>
      (s == Spot([Own(k)], text) && text != "" && ListingType(Types(o)[k])) || OwnSpot(o, k + 1, s)
  {
    ListingTypeIsNamed(Types(o)[k]);
    if |s.path| == 1 && s.path[0] == Own(k) {
      assert s.path == [Own(k)];
    }
  }

  /** Type entry k apart from the entries after it. */
  lemma OwnSplit(o: Json, k: nat) returns (first: seq<Spot>)
    requires o.Obj? && k < |Types(o)|
    ensures first == [] || (|first| == 1 && first[0].path == [Own(k)])
    ensures OwnSpots(o, k) == first + OwnSpots(o, k + 1)
    ensures CandidateLinks.Own(o, Types(o)[k..]) == Texts(first) + CandidateLinks.Own(o, Types(o)[k + 1..])
    ensures forall s :: OwnSpot(o, k, s) <==> s in first || OwnSpot(o, k + 1, s)
  {
    var text := OwnTextOf(o, k, Types(o)[k..]);
    first := if ListingType(Types(o)[k]) && text != "" then [Spot([Own(k)], text)] else [];
    assert Types(o)[k..][1..] == Types(o)[k + 1..];
    forall s
      ensures OwnSpot(o, k, s) <==> s in first || OwnSpot(o, k + 1, s)
    {
      OwnSpotIs(o, text, k, s);
    }
  }

  lemma {:induction false} OwnListed(o: Json, k: nat)
    requires o.Obj? && k <= |Types(o)|
    ensures forall s :: s in OwnSpots(o, k) <==> OwnSpot(o, k, s)
    decreases |Types(o)| - k
  {
    if k < |Types(o)| {
      OwnListed(o, k + 1);
      var first := OwnSplit(o, k);
    } else {
      NoMoreOwn(o, k);
    }
  }

  lemma NoMoreOwn(o: Json, k: nat)
    requires o.Obj? && k == |Types(o)|
    ensures OwnSpots(o, k) == [] && CandidateLinks.Own(o, Types(o)[k..]) == []
    ensures forall s :: !OwnSpot(o, k, s)
  {
  }

  lemma {:induction false} OwnInOrder(o: Json, k: nat)
    requires o.Obj? && k <= |Types(o)|
    ensures Texts(OwnSpots(o, k)) == CandidateLinks.Own(o, Types(o)[k..])
    ensures Sorted(OwnSpots(o, k)) && OwnFrom(k, OwnSpots(o, k))
    decreases |Types(o)| - k
  {
    if k < |Types(o)| {
      OwnInOrder(o, k + 1);
      var first := OwnSplit(o, k);
      TextsJoin(first, OwnSpots(o, k + 1));
      FirstOwn(k, first, OwnSpots(o, k + 1));
    } else {
      NoMoreOwn(o, k);
    }
  }

  ghost predicate OwnFrom(k: nat, spots: seq<Spot>) {
    forall i :: 0 <= i < |spots| ==> |spots[i].path| == 1 && spots[i].path[0].Own? && k <= spots[i].path[0].entry
  }

  lemma FirstOwn(k: nat, first: seq<Spot>, rest: seq<Spot>)
    requires Sorted(rest) && OwnFrom(k + 1, rest)
    requires first == [] || (|first| == 1 && first[0].path == [Own(k)])
    ensures Sorted(first + rest) && OwnFrom(k, first + rest)
  {
    forall j | 0 <= j < |rest|
      ensures Before([Own(k)], rest[j].path)
    {
    }
  }

  ghost predicate AllListed(v: Json, spots: seq<Spot>) {
    forall s :: s in spots <==> Lists(v, s.path, s.text)
  }

  predicate PartTexts(o: Json, key: string)
    requires o.Obj?
  {
    Texts(Part(o, key)) == if key in o.fields then ListingUrls(o.fields[key]) else []
  }

  predicate ByMember(o: Json, key: string, s: Spot) {
    s.path != [] && s.path[0] == Member(key) && Lists(o, s.path, s.text)
  }

  lemma {:induction false} PartListed(o: Json, key: string)
    requires o.Obj? && key in MEMBERS
    ensures forall s :: s in Part(o, key) <==> ByMember(o, key, s)
    decreases o, 0
  {
    if key in o.fields {
      var spots := Spots(o.fields[key]);
      SpotsListed(o.fields[key]);
      forall s
        ensures s in Part(o, key) <==> ByMember(o, key, s)
      {
        BehindHas(Member(key), spots, s);
        if s.path != [] { assert AllListed(o.fields[key], spots) && Spot(s.path[1..], s.text).text == s.text; }
      }
    }
  }

  lemma MemberLevels()
    ensures Level(Member("itemListElement")) == 1 && Level(Member("@graph")) == 2
    ensures Level(Member("item")) == 3 && Level(Member("mainEntity")) == 4
  {
  }

  lemma {:induction false} PartInOrder(o: Json, key: string, level: nat)
    requires o.Obj? && level == Level(Member(key))
    ensures PartTexts(o, key)
    ensures Sorted(Part(o, key)) && Within(Part(o, key), level, level + 1)
    decreases o, 0
  {
    if key in o.fields {
      SpotsInOrder(o.fields[key]);
      TextsBehind(Member(key), Spots(o.fields[key]));
      BehindSorted(Member(key), Spots(o.fields[key]));
    }
  }

  lemma ObjectInOrder(o: Json)
    requires o.Obj?
    requires Sorted(Part(o, "itemListElement")) && Within(Part(o, "itemListElement"), 1, 2)
    requires Sorted(Part(o, "@graph")) && Within(Part(o, "@graph"), 2, 3)
    requires Sorted(Part(o, "item")) && Within(Part(o, "item"), 3, 4)
    requires Sorted(Part(o, "mainEntity")) && Within(Part(o, "mainEntity"), 4, 5)
    ensures Sorted(Spots(o))
  {
    OwnInOrder(o, 0);
    ObjectSorted(OwnSpots(o, 0), Part(o, "itemListElement"), Part(o, "@graph"), Part(o, "item"),
                 Part(o, "mainEntity"));
  }

  lemma ObjectInWords(o: Json)
    requires o.Obj?
    requires PartTexts(o, "itemListElement") && PartTexts(o, "@graph") && PartTexts(o, "item")
    requires PartTexts(o, "mainEntity")
    ensures Texts(Spots(o)) == ListingUrls(o)
  {
    OwnInOrder(o, 0);
    assert Types(o)[0..] == Types(o);
    ObjectTexts(o);
  }

  lemma ObjectTexts(o: Json)
    requires o.Obj? && Texts(OwnSpots(o, 0)) == CandidateLinks.Own(o, Types(o))
    requires PartTexts(o, "itemListElement") && PartTexts(o, "@graph") && PartTexts(o, "item")
    requires PartTexts(o, "mainEntity")
    ensures Texts(Spots(o)) == ListingUrls(o)
  {
    var own, list, graph, item := OwnSpots(o, 0), Part(o, "itemListElement"), Part(o, "@graph"), Part(o, "item");
    TextsJoin(own, list);
    TextsJoin(own + list, graph);
    TextsJoin(own + list + graph, item);
    TextsJoin(own + list + graph + item, Part(o, "mainEntity"));
  }

  /** Each zone of an object lists what its first step says. */
  ghost predicate ZonesListed(o: Json)
    requires o.Obj?
  {
    && (forall s :: s in OwnSpots(o, 0) <==> OwnSpot(o, 0, s))
    && (forall s :: s in Part(o, "itemListElement") <==> ByMember(o, "itemListElement", s))
    && (forall s :: s in Part(o, "@graph") <==> ByMember(o, "@graph", s))
    && (forall s :: s in Part(o, "item") <==> ByMember(o, "item", s))
    && (forall s :: s in Part(o, "mainEntity") <==> ByMember(o, "mainEntity", s))
  }

  lemma ObjectHas(o: Json, s: Spot)
    requires o.Obj? && ZonesListed(o)
    ensures s in Spots(o) <==> Lists(o, s.path, s.text)
  {
    var own, list, graph, item := OwnSpots(o, 0), Part(o, "itemListElement"), Part(o, "@graph"), Part(o, "item");
    assert s in Spots(o) <==> s in own || s in list || s in graph || s in item || s in Part(o, "mainEntity");
  }

  lemma ObjectLists(o: Json)
    requires o.Obj? && ZonesListed(o)
    ensures AllListed(o, Spots(o))
  {
    forall s: Spot
      ensures s in Spots(o) <==> Lists(o, s.path, s.text)
    {
      ObjectHas(o, s);
    }
  }

  lemma ObjectSorted(own: seq<Spot>, list: seq<Spot>, graph: seq<Spot>, item: seq<Spot>, main: seq<Spot>)
    requires Sorted(own) && Sorted(list) && Sorted(graph) && Sorted(item) && Sorted(main)
    requires Within(own, 0, 1) && Within(list, 1, 2) && Within(graph, 2, 3) && Within(item, 3, 4) && Within(main, 4, 5)
    ensures Sorted(own + list + graph + item + main)
  {
    JoinSorted(own, list, 0, 1, 2);
    JoinSorted(own + list, graph, 0, 2, 3);
    JoinSorted(own + list + graph, item, 0, 3, 4);
    JoinSorted(own + list + graph + item, main, 0, 4, 5);
  }

  lemma {:induction false} SpotsListed(v: Json)
    ensures AllListed(v, Spots(v))
    decreases v, 1
  {
    match v
    case Arr(items) =>
      ItemsListed(items, 0);
      forall s: Spot
        ensures s in Spots(v) <==> Lists(v, s.path, s.text)
      {
        assert ListsFrom(items, 0, s) <==> Lists(v, s.path, s.text);
      }
    case Obj(_) =>
      OwnListed(v, 0);
      PartListed(v, "itemListElement");
      PartListed(v, "@graph");
      PartListed(v, "item");
      PartListed(v, "mainEntity");
      ObjectLists(v);
    case _ =>
  }

  lemma {:induction false} SpotsInOrder(v: Json)
    ensures Texts(Spots(v)) == ListingUrls(v) && Sorted(Spots(v))
    decreases v, 1
  {
    match v
    case Arr(items) => ItemsInOrder(items, 0);
    case Obj(_) =>
      MemberLevels();
      PartInOrder(v, "itemListElement", 1);
      PartInOrder(v, "@graph", 2);
      PartInOrder(v, "item", 3);
      PartInOrder(v, "mainEntity", 4);
      ObjectInWords(v);
      ObjectInOrder(v);
    case _ =>
  }

  ghost predicate ListsFrom(items: seq<Json>, base: nat, s: Spot) {
    && s.path != [] && s.path[0].Entry? && base <= s.path[0].i < base + |items|
    && Lists(items[s.path[0].i - base], s.path[1..], s.text)
  }

  lemma {:induction false} ItemsInOrder(items: seq<Json>, base: nat)
    ensures Texts(SpotsFrom(items, base)) == ListingUrlsOf(items)
    ensures Sorted(SpotsFrom(items, base)) && Within(SpotsFrom(items, base), base, base + |items|)
    decreases items, 0
  {
    if items != [] {
      var here, rest := Spots(items[0]), SpotsFrom(items[1..], base + 1);
      SpotsInOrder(items[0]);
      ItemsInOrder(items[1..], base + 1);
      TextsBehind(Entry(base), here);
      TextsJoin(Behind(Entry(base), here), rest);
      BehindSorted(Entry(base), here);
      JoinSorted(Behind(Entry(base), here), rest, base, base + 1, base + |items|);
    }
  }

  lemma {:induction false} ItemsListed(items: seq<Json>, base: nat)
    ensures forall s :: s in SpotsFrom(items, base) <==> ListsFrom(items, base, s)
    decreases items, 0
  {
    if items != [] {
      var here, rest := Spots(items[0]), SpotsFrom(items[1..], base + 1);
      SpotsListed(items[0]);
      ItemsListed(items[1..], base + 1);
      forall s: Spot
        ensures s in Behind(Entry(base), here) + rest <==> ListsFrom(items, base, s)
      {
        ItemHas(items, base, here, rest, s);
      }
    }
  }

  lemma ItemHas(items: seq<Json>, base: nat, here: seq<Spot>, rest: seq<Spot>, s: Spot)
    requires items != [] && AllListed(items[0], here)
    requires s in rest <==> ListsFrom(items[1..], base + 1, s)
    ensures s in Behind(Entry(base), here) + rest <==> ListsFrom(items, base, s)
  {
    BehindHas(Entry(base), here, s);
    if s.path != [] && s.path[0].Entry? {
      var inner := Spot(s.path[1..], s.text);
      assert inner in here <==> Lists(items[0], inner.path, inner.text);
      if base < s.path[0].i < base + |items| {
        assert items[1..][s.path[0].i - (base + 1)] == items[s.path[0].i - base];
      }
    }
  }

  /** The links of listing markup, told by place: their texts are those of exactly the listed
      places, each once, in document order. */
  lemma ListedPlacesAreTheLinks(v: Json) returns (spots: seq<Spot>)
    ensures |spots| == |ListingUrls(v)| && forall k :: 0 <= k < |spots| ==> spots[k].text == ListingUrls(v)[k]
    ensures forall s :: s in spots <==> Lists(v, s.path, s.text)
    ensures forall i, j :: 0 <= i < j < |spots| ==> Before(spots[i].path, spots[j].path) && spots[i] != spots[j]
  {
    spots := Spots(v);
    SpotsListed(v);
    SpotsInOrder(v);
    forall i, j | 0 <= i < j < |spots|
      ensures Before(spots[i].path, spots[j].path) && spots[i] != spots[j]
    {
      NotBeforeItself(spots[i].path);
    }
    assert forall k :: 0 <= k < |spots| ==> spots[k].text == Texts(spots)[k];
  }

  // ----- an example -----

  const TWO: string := "https://example.com/restaurant/two"

  function RestaurantTwo(): Json { Obj(map["@type" := Str("Restaurant"), "url" := Str(TWO)]) }

  function EntryTwo(): Json { Obj(map["@type" := Str("ListItem"), "item" := RestaurantTwo()]) }

  /** A restaurant inside a list entry's `item`. */
  function NestedItem(): Json {
    Obj(map["@type" := Str("ItemList"), "itemListElement" := Arr([EntryTwo()])])
  }

  const TO_TWO: seq<Step> := [Member("itemListElement"), Entry(0), Member("item"), Own(0)]

  /** The nested restaurant's link is listed. */
  lemma NestedItemIsListed()
    ensures Lists(NestedItem(), TO_TWO, TWO)
  {
    var r := RestaurantTwo();
    TrimIsBare(TWO, IsSpace);
    assert Types(r) == ["Restaurant"] && LISTED[0] == "Restaurant";
    assert HasText(r, "url") && OwnText(r, TWO);
    assert Lists(r, [Own(0)], TWO);
    assert MEMBERS[2] == "item" && MEMBERS[0] == "itemListElement";
    assert TO_TWO[1..][1..][1..] == [Own(0)];
    assert Lists(EntryTwo(), TO_TWO[1..][1..], TWO);
    assert Lists(Arr([EntryTwo()]), TO_TWO[1..], TWO);
  }
}
