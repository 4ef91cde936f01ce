/** Reading restaurants and links out of a page's JSON-LD. */
module Extract {
  import opened Text

  /** Decoded JSON; object keys are unique after decoding. */
  datatype Json =
    | Null
    | Bool(b: bool)
    | Number(n: real)
    | Str(s: string)
    | Arr(items: seq<Json>)
    | Obj(fields: map<string, Json>)

  /** An absent key decodes like null. */
  function Field(o: Json, key: string): (v: Json)
    requires o.Obj?
    ensures v == Null || v < o
  {
    if key in o.fields then o.fields[key] else Null
  }

  function StringValue(v: Json): string {
    if v.Str? then TrimSpace(v.s) else ""
  }

  function Links(v: Json): seq<string>
    decreases v, 0
  {
    match v
    case Str(s) => [s]
    case Arr(items) => LinksOf(items)
    case Obj(_) =>
      var url, content, id := StringValue(Field(v, "url")), StringValue(Field(v, "contentUrl")),
        StringValue(Field(v, "@id"));
      if url != "" then [url] else if content != "" then [content] else if id != "" then [id] else []
    case _ => []
  }

  function LinksOf(items: seq<Json>): seq<string>
    decreases items, 1
  {
    if items == [] then [] else Links(items[0]) + LinksOf(items[1..])
  }

  function DropSchema(typ: string): string {
    if "https://schema.org/" <= typ then typ[|"https://schema.org/"|..] else typ
  }

  predicate RestaurantType(typ: string) {
    DropSchema(typ) in ["Restaurant", "CafeOrCoffeeShop", "Bakery", "FoodEstablishment"]
  }

  predicate ListingType(typ: string) {
    RestaurantType(typ) || DropSchema(typ) in ["LocalBusiness", "ListItem"]
  }

  function Types(o: Json): seq<string>
    requires o.Obj?
  {
    Links(Field(o, "@type"))
  }

  /** One copy of o for each recognised entry of its type list. */
  function Copies(o: Json, types: seq<string>): seq<Json> {
    if types == [] then []
    else (if RestaurantType(types[0]) then [o] else []) + Copies(o, types[1..])
  }

  /** The objects `restaurant` appends for v, in order. */
  function Restaurants(v: Json): seq<Json>
    decreases v, 0
  {
    match v
    case Arr(items) => RestaurantsOf(items)
    case Obj(fields) =>
      Copies(v, Types(v)) + (if "@graph" in fields then Restaurants(fields["@graph"]) else [])
    case _ => []
  }

  function RestaurantsOf(items: seq<Json>): seq<Json>
    decreases items, 1
  {
    if items == [] then [] else Restaurants(items[0]) + RestaurantsOf(items[1..])
  }

  // ----- what the gate counts -----

  datatype Step = Index(i: nat) | Graph

  /** A recognised type entry: where its object sits and which entry it is. */
  datatype Occurrence = Occurrence(path: seq<Step>, entry: nat)

  /** Walking `path` from v, through arrays and @graph members only, ends at an
      object whose type list has a recognised entry number `entry`. */
  predicate Hit(v: Json, path: seq<Step>, entry: nat)
    decreases path
  {
    if path == [] then
      v.Obj? && entry < |Types(v)| && RestaurantType(Types(v)[entry])
    else match path[0]
      case Index(i) => v.Arr? && i < |v.items| && Hit(v.items[i], path[1..], entry)
      case Graph => v.Obj? && "@graph" in v.fields && Hit(v.fields["@graph"], path[1..], entry)
  }

  function EntriesFrom(types: seq<string>, k: nat): seq<Occurrence>
    requires k <= |types|
    decreases |types| - k
  {
    if k == |types| then []
    else (if RestaurantType(types[k]) then [Occurrence([], k)] else []) + EntriesFrom(types, k + 1)
  }

  function Under(step: Step, occs: seq<Occurrence>): seq<Occurrence> {
    seq(|occs|, i requires 0 <= i < |occs| => Occurrence([step] + occs[i].path, occs[i].entry))
  }

  function Occurrences(v: Json): seq<Occurrence>
    decreases v, 0
  {
    match v
    case Arr(items) => OccurrencesFrom(items, 0)
    case Obj(fields) =>
      EntriesFrom(Types(v), 0) + (if "@graph" in fields then Under(Graph, Occurrences(fields["@graph"])) else [])
    case _ => []
  }

  function OccurrencesFrom(items: seq<Json>, base: nat): seq<Occurrence>
    decreases items, 1
  {
    if items == [] then []
    else Under(Index(base), Occurrences(items[0])) + OccurrencesFrom(items[1..], base + 1)
  }

  ghost predicate NoRepeats<T>(s: seq<T>) {
    forall i, j :: 0 <= i < j < |s| ==> s[i] != s[j]
  }

  lemma {:induction false} EntriesAreHits(v: Json, k: nat)
    requires v.Obj? && k <= |Types(v)|
    ensures var es := EntriesFrom(Types(v), k);
      && |es| == |Copies(v, Types(v)[k..])|
      && NoRepeats(es)
      && forall o :: o in es <==> o.path == [] && k <= o.entry && Hit(v, o.path, o.entry)
    decreases |Types(v)| - k
  {
    if k < |Types(v)| {
      EntriesAreHits(v, k + 1);
      assert Types(v)[k..][1..] == Types(v)[k + 1..];
      var es, rest := EntriesFrom(Types(v), k), EntriesFrom(Types(v), k + 1);
      assert forall o :: o in es <==> (RestaurantType(Types(v)[k]) && o == Occurrence([], k)) || o in rest;
    }
  }

  lemma UnderKeeps(step: Step, occs: seq<Occurrence>)
    requires NoRepeats(occs)
    ensures NoRepeats(Under(step, occs))
    ensures forall o :: o in Under(step, occs) <==>
      o.path != [] && o.path[0] == step && Occurrence(o.path[1..], o.entry) in occs
  {
    var u := Under(step, occs);
    forall i | 0 <= i < |occs|
      ensures u[i].path[1..] == occs[i].path && u[i].path[0] == step
    {}
    forall o: Occurrence | o.path != [] && o.path[0] == step && Occurrence(o.path[1..], o.entry) in occs
      ensures o in u
    {
      var i :| 0 <= i < |occs| && occs[i] == Occurrence(o.path[1..], o.entry);
      assert o.path == [step] + occs[i].path;
      assert u[i] == o;
    }
  }

  lemma JoinKeeps(a: seq<Occurrence>, b: seq<Occurrence>)
    requires NoRepeats(a) && NoRepeats(b) && forall o :: o in a ==> o !in b
    ensures NoRepeats(a + b)
  {
    forall i, j | 0 <= i < j < |a + b|
      ensures (a + b)[i] != (a + b)[j]
    {
      if i < |a| <= j {
        assert a[i] in a && b[j - |a|] in b;
      }
    }
  }

  /** The appended objects are counted exactly by the recognised type entries
      reachable through arrays and @graph: as many, without repetition. */
  lemma {:induction false} CountsOccurrences(v: Json)
    ensures |Occurrences(v)| == |Restaurants(v)|
    ensures NoRepeats(Occurrences(v))
    ensures forall o :: o in Occurrences(v) <==> Hit(v, o.path, o.entry)
    decreases v, 0
  {
    match v
    case Arr(items) =>
      CountsOccurrencesFrom(items, 0);
      forall o: Occurrence
        ensures Hit(v, o.path, o.entry) <==> HitFrom(items, 0, o)
      {}
    case Obj(fields) =>
      EntriesAreHits(v, 0);
      assert Types(v)[0..] == Types(v);
      if "@graph" in fields {
        CountsOccurrences(fields["@graph"]);
        UnderKeeps(Graph, Occurrences(fields["@graph"]));
        JoinKeeps(EntriesFrom(Types(v), 0), Under(Graph, Occurrences(fields["@graph"])));
      }
      forall o: Occurrence
        ensures o in Occurrences(v) <==> Hit(v, o.path, o.entry)
      {
        assert o.path != [] ==> Occurrence(o.path[1..], o.entry).path == o.path[1..];
      }
    case _ =>
  }

  ghost predicate HitFrom(items: seq<Json>, base: nat, o: Occurrence) {
    && o.path != [] && o.path[0].Index?
    && base <= o.path[0].i < base + |items|
    && Hit(items[o.path[0].i - base], o.path[1..], o.entry)
  }

  lemma {:induction false} CountsOccurrencesFrom(items: seq<Json>, base: nat)
    ensures |OccurrencesFrom(items, base)| == |RestaurantsOf(items)|
    ensures NoRepeats(OccurrencesFrom(items, base))
    ensures forall o :: o in OccurrencesFrom(items, base) <==> HitFrom(items, base, o)
    decreases items, 1
  {
    if items != [] {
      CountsOccurrences(items[0]);
      CountsOccurrencesFrom(items[1..], base + 1);
      var first, rest := Under(Index(base), Occurrences(items[0])), OccurrencesFrom(items[1..], base + 1);
      UnderKeeps(Index(base), Occurrences(items[0]));
      JoinKeeps(first, rest);
      forall o: Occurrence
        ensures o in first + rest <==> HitFrom(items, base, o)
      {
        if o.path != [] && o.path[0].Index? {
          var p := Occurrence(o.path[1..], o.entry);
          assert p in Occurrences(items[0]) <==> Hit(items[0], p.path, p.entry);
          if o.path[0].i > base && o.path[0].i < base + |items| {
            assert items[1..][o.path[0].i - (base + 1)] == items[o.path[0].i - base];
          }
        }
      }
    }
  }

  lemma SoleMember<T>(s: seq<T>)
    requires NoRepeats(s)
    ensures |s| == 1 <==> exists x :: x in s && forall y :: y in s ==> y == x
  {
    if |s| == 1 {
      assert s[0] in s && forall y :: y in s ==> y == s[0];
    } else if |s| > 1 {
      assert s[0] in s && s[1] in s && s[0] != s[1];
    }
  }

  /** The exactly-one gate opens iff one and only one type entry is reachable. */
  lemma ExactlyOneMeansUnique(v: Json)
    ensures |Restaurants(v)| == 1 <==>
      exists o: Occurrence :: Hit(v, o.path, o.entry) && forall p: Occurrence :: Hit(v, p.path, p.entry) ==> p == o
  {
    var occs := Occurrences(v);
    CountsOccurrences(v);
    SoleMember(occs);
    if |Restaurants(v)| == 1 {
      var o := occs[0];
      assert o in occs && Hit(v, o.path, o.entry);
      forall p: Occurrence | Hit(v, p.path, p.entry)
        ensures p == o
      {
        assert p in occs;
      }
    }
    if o: Occurrence :| Hit(v, o.path, o.entry) && forall p: Occurrence :: Hit(v, p.path, p.entry) ==> p == o {
      assert o in occs;
      forall p | p in occs
        ensures p == o
      {
        assert Hit(v, p.path, p.entry);
      }
    }
  }

  // ----- additivity, order, nesting -----

  lemma JoinsOn<T>(a: seq<T>, b: seq<T>, c: seq<T>)
    ensures (a + b) + c == a + (b + c)
  {
  }

  lemma {:induction false} RestaurantsAdd(a: seq<Json>, b: seq<Json>)
    ensures RestaurantsOf(a + b) == RestaurantsOf(a) + RestaurantsOf(b)
  {
    if a == [] {
      assert a + b == b;
    } else {
      RestaurantsAdd(a[1..], b);
      assert (a + b)[1..] == a[1..] + b && (a + b)[0] == a[0];
      JoinsOn(Restaurants(a[0]), RestaurantsOf(a[1..]), RestaurantsOf(b));
    }
  }

  lemma RestaurantsSingle(v: Json)
    ensures RestaurantsOf([v]) == Restaurants(v)
  {
    assert [v][1..] == [];
    assert RestaurantsOf([v]) == Restaurants(v) + RestaurantsOf([]);
  }

  lemma WithoutOne<T>(s: seq<T>, j: nat)
    requires j < |s|
    ensures s == s[..j] + ([s[j]] + s[j + 1..])
    ensures multiset(s[..j] + s[j + 1..]) == multiset(s) - multiset{s[j]}
  {
    var left, right := s[..j], s[j + 1..];
    assert s == left + ([s[j]] + right);
    assert multiset(s) == multiset(left) + (multiset{s[j]} + multiset(right));
    assert multiset(left + right) == multiset(left) + multiset(right);
  }

  /** Reordering scripts, or the entries of an array, only reorders what is found. */
  lemma {:induction false} RestaurantsReorder(a: seq<Json>, b: seq<Json>)
    requires multiset(a) == multiset(b)
    ensures multiset(RestaurantsOf(a)) == multiset(RestaurantsOf(b))
  {
    if a == [] {
      assert |multiset(b)| == 0;
    } else {
      assert a[0] in multiset(b);
      var j :| 0 <= j < |b| && b[j] == a[0];
      WithoutOne(a, 0);
      WithoutOne(b, j);
      assert a[..0] + a[1..] == a[1..];
      RestaurantsReorder(a[1..], b[..j] + b[j + 1..]);
      RestaurantsAdd(b[..j], b[j + 1..]);
      RestaurantsAdd(b[..j], [b[j]] + b[j + 1..]);
      RestaurantsAdd([b[j]], b[j + 1..]);
      RestaurantsSingle(b[j]);
    }
  }

  /** Splitting a script into nested arrays finds the same. */
  lemma NestingIsTransparent(a: seq<Json>, b: seq<Json>)
    ensures Restaurants(Arr([Arr(a), Arr(b)])) == Restaurants(Arr(a + b))
  {
    RestaurantsAdd(a, b);
    RestaurantsAdd([Arr(a)], [Arr(b)]);
    assert [Arr(a), Arr(b)] == [Arr(a)] + [Arr(b)];
    RestaurantsSingle(Arr(a));
    RestaurantsSingle(Arr(b));
  }

  /** So does wrapping it in an array of one or in a bare @graph. */
  lemma WrappingIsTransparent(v: Json)
    ensures Restaurants(Arr([v])) == Restaurants(v)
    ensures Restaurants(Obj(map["@graph" := v])) == Restaurants(v)
  {
    RestaurantsSingle(v);
    var wrapped := Obj(map["@graph" := v]);
    assert "@type" !in wrapped.fields;
    assert Types(wrapped) == [];
    assert Restaurants(wrapped) == [] + Restaurants(v);
  }

  // ----- extraction -----

  lemma RestaurantsNext(items: seq<Json>, i: nat)
    requires i < |items|
    ensures RestaurantsOf(items[..i + 1]) == RestaurantsOf(items[..i]) + Restaurants(items[i])
  {
    RestaurantsAdd(items[..i], [items[i]]);
    RestaurantsSingle(items[i]);
    assert items[..i + 1] == items[..i] + [items[i]];
  }

  lemma {:induction false} CopiesNext(o: Json, types: seq<string>, k: nat)
    requires k < |types|
    ensures Copies(o, types[..k + 1]) == Copies(o, types[..k]) + if RestaurantType(types[k]) then [o] else []
  {
    if k > 0 {
      CopiesNext(o, types[1..], k - 1);
      assert types[..k + 1][1..] == types[1..][..k] && types[..k][1..] == types[1..][..k - 1];
    }
  }

  /** The slice `restaurant` appends to through its pointer. */
  class Found {
    var objects: seq<Json>

    constructor ()
      ensures objects == []
    {
      objects := [];
    }

    method Restaurant(v: Json)
      modifies this
      ensures objects == old(objects) + Restaurants(v)
      decreases v
    {
      match v
      case Arr(items) =>
        for i := 0 to |items|
          invariant objects == old(objects) + RestaurantsOf(items[..i])
        {
          Restaurant(items[i]);
          RestaurantsNext(items, i);
          JoinsOn(old(objects), RestaurantsOf(items[..i]), Restaurants(items[i]));
        }
        assert items[..|items|] == items;
      case Obj(fields) =>
        AppendCopies(v, Types(v));
        if "@graph" in fields {
          Restaurant(fields["@graph"]);
        }
      case _ =>
    }

    /** The loop over an object's types. */
    method AppendCopies(o: Json, types: seq<string>)
      modifies this
      ensures objects == old(objects) + Copies(o, types)
    {
      for k := 0 to |types|
        invariant objects == old(objects) + Copies(o, types[..k])
      {
        CopiesNext(o, types, k);
        if RestaurantType(types[k]) {
          objects := objects + [o];
        }
      }
      assert types[..|types|] == types;
    }
  }

  /** A fetched page: its JSON-LD values in document order, and whether its visible
      text makes a gluten-free statement. */
  datatype Page = Page(scripts: seq<Json>, glutenFree: bool)

  datatype Candidate = Candidate(name: string, address: string, phone: string, cuisine: string, sourceUrl: string)

  datatype Extraction = Extracted(candidate: Candidate) | NotExactlyOne | Incomplete | NoEvidence

  function Clip(s: string, max: nat): string {
    if |s| > max then s[..max] else s
  }

  function Present(parts: seq<string>): seq<string> {
    if parts == [] then [] else (if parts[0] != "" then [parts[0]] else []) + Present(parts[1..])
  }

  function AddressOf(a: Json): string {
    match a
    case Str(s) => s
    case Obj(_) =>
      Join(Present([StringValue(Field(a, "postalCode")), StringValue(Field(a, "addressRegion")),
                    StringValue(Field(a, "addressLocality")), StringValue(Field(a, "streetAddress"))]), " ")
    case _ => ""
  }

  function CandidateOf(r: Json, source: string): Candidate
    requires r.Obj?
  {
    Candidate(
      Clip(StringValue(Field(r, "name")), 300), Clip(AddressOf(Field(r, "address")), 1000),
      Clip(StringValue(Field(r, "telephone")), 100), Clip(Join(Links(Field(r, "servesCuisine")), ", "), 200), source)
  }

  lemma {:induction false} CopiesAreObjects(o: Json, types: seq<string>)
    requires o.Obj?
    ensures forall r :: r in Copies(o, types) ==> r.Obj?
  {
    if types != [] { CopiesAreObjects(o, types[1..]); }
  }

  lemma {:induction false} RestaurantsAreObjects(v: Json)
    ensures forall r :: r in Restaurants(v) ==> r.Obj?
    decreases v, 0
  {
    match v
    case Arr(items) => RestaurantsOfAreObjects(items);
    case Obj(fields) =>
      CopiesAreObjects(v, Types(v));
      if "@graph" in fields { RestaurantsAreObjects(fields["@graph"]); }
    case _ =>
  }

  lemma {:induction false} RestaurantsOfAreObjects(items: seq<Json>)
    ensures forall r :: r in RestaurantsOf(items) ==> r.Obj?
    decreases items, 1
  {
    if items != [] {
      RestaurantsAreObjects(items[0]);
      RestaurantsOfAreObjects(items[1..]);
    }
  }

  /** A record is made only from a page with one reachable business and nothing missing. */
  method Extract(page: Page, source: string) returns (e: Extraction)
    ensures e == NotExactlyOne <==> |Restaurants(Arr(page.scripts))| != 1
    ensures e.Extracted? ==>
      && Restaurants(Arr(page.scripts))[0].Obj?
      && e.candidate == CandidateOf(Restaurants(Arr(page.scripts))[0], source)
      && e.candidate.name != "" && e.candidate.address != "" && page.glutenFree
    ensures e == NoEvidence ==>
      && !page.glutenFree
      && Restaurants(Arr(page.scripts))[0].Obj?
      && var c := CandidateOf(Restaurants(Arr(page.scripts))[0], source); c.name != "" && c.address != ""
    ensures e == Incomplete ==>
      && Restaurants(Arr(page.scripts))[0].Obj?
      && var c := CandidateOf(Restaurants(Arr(page.scripts))[0], source); c.name == "" || c.address == ""
  {
    var found := new Found();
    for i := 0 to |page.scripts|
      invariant found.objects == RestaurantsOf(page.scripts[..i])
      invariant fresh(found)
    {
      found.Restaurant(page.scripts[i]);
      RestaurantsNext(page.scripts, i);
    }
    assert page.scripts[..|page.scripts|] == page.scripts;
    if |found.objects| != 1 {
      return NotExactlyOne;
    }
    var r := found.objects[0];
    RestaurantsOfAreObjects(page.scripts);
    var c := CandidateOf(r, source);
    if c.name == "" || c.address == "" {
      return Incomplete;
    }
    if !page.glutenFree {
      return NoEvidence;
    }
    return Extracted(c);
  }
}
