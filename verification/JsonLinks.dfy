/** Where the entries of a type or link list stand in its JSON. */
module JsonLinks {
  import opened Text
  import opened Extract

  /** The member holds text that is not blank. */
  predicate HasText(o: Json, key: string)
    requires o.Obj?
  {
    key in o.fields && o.fields[key].Str? && TrimSpace(o.fields[key].s) != ""
  }

  /** The trimmed text of the first of url, contentUrl and @id that has any. */
  predicate ObjectLink(o: Json, text: string)
    requires o.Obj?
  {
    || (HasText(o, "url") && text == TrimSpace(o.fields["url"].s))
    || (!HasText(o, "url") && HasText(o, "contentUrl") && text == TrimSpace(o.fields["contentUrl"].s))
    || (!HasText(o, "url") && !HasText(o, "contentUrl") && HasText(o, "@id")
        && text == TrimSpace(o.fields["@id"].s))
  }

  /** Going down v by these array positions ends at a string, which is the entry as it is, or
      at an object with a link. */
  predicate LinkAt(v: Json, at: seq<nat>, text: string)
    decreases |at|
  {
    if at == [] then (v.Str? && text == v.s) || (v.Obj? && ObjectLink(v, text))
    else v.Arr? && at[0] < |v.items| && LinkAt(v.items[at[0]], at[1..], text)
  }

  /** Document order: the first position in which two places differ decides. */
  predicate Above(a: seq<nat>, b: seq<nat>)
    decreases |a|
  {
    a != [] && b != [] && (a[0] < b[0] || (a[0] == b[0] && Above(a[1..], b[1..])))
  }

  datatype Place = Place(at: seq<nat>, text: string)

  /** All places of v. */
  function Places(v: Json): seq<Place>
    decreases v, 1
  {
    match v
    case Arr(items) => PlacesFrom(items, 0)
    case _ => if Links(v) == [] then [] else [Place([], Links(v)[0])]
  }

  function PlacesFrom(items: seq<Json>, base: nat): seq<Place>
    decreases items, 0
  {
    if items == [] then [] else Inside(base, Places(items[0])) + PlacesFrom(items[1..], base + 1)
  }

  function Inside(i: nat, places: seq<Place>): seq<Place> {
    seq(|places|, k requires 0 <= k < |places| => Place([i] + places[k].at, places[k].text))
  }

  ghost predicate InOrder(places: seq<Place>) {
    forall i, j :: 0 <= i < j < |places| ==> Above(places[i].at, places[j].at)
  }

  ghost predicate AllThere(v: Json, places: seq<Place>) {
    forall p :: p in places <==> LinkAt(v, p.at, p.text)
  }

  function Texts(places: seq<Place>): seq<string> {
    seq(|places|, i requires 0 <= i < |places| => places[i].text)
  }

  lemma InsideHas(i: nat, places: seq<Place>, p: Place)
    ensures p in Inside(i, places) <==> p.at != [] && p.at[0] == i && Place(p.at[1..], p.text) in places
  {
    if p.at != [] && p.at[0] == i && Place(p.at[1..], p.text) in places {
      var k :| 0 <= k < |places| && places[k] == Place(p.at[1..], p.text);
      assert p.at == [i] + places[k].at;
      assert Inside(i, places)[k] == p;
    }
    if k :| 0 <= k < |places| && Inside(i, places)[k] == p {
      assert p.at[1..] == places[k].at;
    }
  }

  lemma ObjectLinkIs(o: Json)
    requires o.Obj?
    ensures |Links(o)| <= 1
    ensures forall t :: ObjectLink(o, t) <==> Links(o) == [t]
  {
  }

  lemma {:induction false} PlacesThere(v: Json)
    ensures AllThere(v, Places(v))
    decreases v, 1
  {
    match v
    case Arr(items) =>
      PlacesFromThere(items, 0);
      forall p: Place
        ensures p in Places(v) <==> LinkAt(v, p.at, p.text)
      {
        assert ThereFrom(items, 0, p) <==> LinkAt(v, p.at, p.text);
      }
    case Obj(_) => ObjectLinkIs(v);
    case _ =>
  }

  ghost predicate ThereFrom(items: seq<Json>, base: nat, p: Place) {
    p.at != [] && base <= p.at[0] < base + |items| && LinkAt(items[p.at[0] - base], p.at[1..], p.text)
  }

  lemma {:induction false} PlacesFromThere(items: seq<Json>, base: nat)
    ensures forall p :: p in PlacesFrom(items, base) <==> ThereFrom(items, base, p)
    decreases items, 0
  {
    if items != [] {
      PlacesThere(items[0]);
      PlacesFromThere(items[1..], base + 1);
      forall p: Place
        ensures p in PlacesFrom(items, base) <==> ThereFrom(items, base, p)
      {
        OneItemMore(items, base, p);
      }
    }
  }

  lemma OneItemMore(items: seq<Json>, base: nat, p: Place)
    requires items != [] && AllThere(items[0], Places(items[0]))
    requires p in PlacesFrom(items[1..], base + 1) <==> ThereFrom(items[1..], base + 1, p)
    ensures p in PlacesFrom(items, base) <==> ThereFrom(items, base, p)
  {
    InsideHas(base, Places(items[0]), p);
    if p.at != [] {
      var inner := Place(p.at[1..], p.text);
      assert inner in Places(items[0]) <==> LinkAt(items[0], inner.at, inner.text);
      if base < p.at[0] < base + |items| {
        assert items[1..][p.at[0] - (base + 1)] == items[p.at[0] - base];
      }
    }
  }

  lemma {:induction false} PlacesInOrder(v: Json)
    ensures Texts(Places(v)) == Links(v) && InOrder(Places(v))
    decreases v, 1
  {
    match v
    case Arr(items) => PlacesFromInOrder(items, 0);
    case Obj(_) => ObjectLinkIs(v);
    case _ =>
  }

  lemma {:induction false} PlacesFromInOrder(items: seq<Json>, base: nat)
    ensures var places := PlacesFrom(items, base);
      && Texts(places) == LinksOf(items) && InOrder(places)
      && forall k :: 0 <= k < |places| ==> places[k].at != [] && base <= places[k].at[0]
    decreases items, 0
  {
    if items != [] {
      PlacesInOrder(items[0]);
      PlacesFromInOrder(items[1..], base + 1);
      InsideInOrder(base, Places(items[0]), PlacesFrom(items[1..], base + 1));
    }
  }

  lemma InsideInOrder(i: nat, places: seq<Place>, rest: seq<Place>)
    requires InOrder(places) && InOrder(rest)
    requires forall k :: 0 <= k < |rest| ==> rest[k].at != [] && i < rest[k].at[0]
    ensures InOrder(Inside(i, places) + rest)
    ensures forall k :: 0 <= k < |places| ==> Inside(i, places)[k].at != [] && Inside(i, places)[k].at[0] == i
    ensures Texts(Inside(i, places) + rest) == Texts(places) + Texts(rest)
  {
    forall k | 0 <= k < |places|
      ensures Inside(i, places)[k].at[0] == i && Inside(i, places)[k].at[1..] == places[k].at
    {
    }
  }

  /** The entries read from a type or link list are those of exactly the places with one,
      strings and objects at any depth of arrays, in document order. */
  lemma LinksStandInPlace(v: Json) returns (places: seq<Place>)
    ensures |places| == |Links(v)| && forall k :: 0 <= k < |places| ==> places[k].text == Links(v)[k]
    ensures forall p :: p in places <==> LinkAt(v, p.at, p.text)
    ensures forall i, j :: 0 <= i < j < |places| ==> Above(places[i].at, places[j].at)
  {
    places := Places(v);
    PlacesThere(v);
    PlacesInOrder(v);
    assert forall k :: 0 <= k < |places| ==> places[k].text == Texts(places)[k];
  }

  // ----- what a record says -----

  /** The member's trimmed text, empty when it is missing or no string. */
  function TextOf(o: Json, key: string): string
    requires o.Obj?
  {
    if key in o.fields && o.fields[key].Str? then TrimSpace(o.fields[key].s) else ""
  }

  /** The whole text, or its first `max` characters if it is longer. */
  predicate CutAt(out: string, text: string, max: nat) {
    out <= text && |out| <= max && (|text| <= max ==> out == text) && (|text| > max ==> |out| == max)
  }

  function IfAny(s: string): seq<string> { if s == "" then [] else [s] }

  /** An address as text, or the parts of a structured one that are there, the large first. */
  function AddressText(r: Json): string
    requires r.Obj?
  {
    if "address" !in r.fields then ""
    else
      var a := r.fields["address"];
      if a.Str? then a.s
      else if a.Obj? then
        Join(IfAny(TextOf(a, "postalCode")) + IfAny(TextOf(a, "addressRegion")) + IfAny(TextOf(a, "addressLocality"))
             + IfAny(TextOf(a, "streetAddress")), " ")
      else ""
  }

  lemma PresentAre(a: string, b: string, c: string, d: string)
    ensures Present([a, b, c, d]) == IfAny(a) + IfAny(b) + IfAny(c) + IfAny(d)
  {
    assert [a, b, c, d][1..] == [b, c, d] && [b, c, d][1..] == [c, d] && [c, d][1..] == [d] && [d][1..] == [];
    assert Present([d]) == IfAny(d);
    assert Present([c, d]) == IfAny(c) + IfAny(d);
    assert Present([b, c, d]) == IfAny(b) + (IfAny(c) + IfAny(d));
  }

  lemma FieldReads(o: Json, key: string)
    requires o.Obj?
    ensures StringValue(Field(o, key)) == TextOf(o, key)
  {
  }

  lemma AddressReads(r: Json)
    requires r.Obj?
    ensures AddressOf(Field(r, "address")) == AddressText(r)
  {
    var a := Field(r, "address");
    if a.Obj? {
      FieldReads(a, "postalCode");
      FieldReads(a, "addressRegion");
      FieldReads(a, "addressLocality");
      FieldReads(a, "streetAddress");
      PresentAre(TextOf(a, "postalCode"), TextOf(a, "addressRegion"), TextOf(a, "addressLocality"),
                 TextOf(a, "streetAddress"));
    }
  }

  /** What a candidate says is what the record's members say: trimmed name and telephone, the
      address, and all kinds of cuisine named at any depth, in order, each cut to its column. */
  lemma CandidateSaysWhatTheRecordSays(r: Json, source: string) returns (dishes: seq<Place>)
    requires r.Obj?
    ensures forall p :: p in dishes <==>
      "servesCuisine" in r.fields && LinkAt(r.fields["servesCuisine"], p.at, p.text)
    ensures forall i, j :: 0 <= i < j < |dishes| ==> Above(dishes[i].at, dishes[j].at)
    ensures var c := CandidateOf(r, source);
      && CutAt(c.name, TextOf(r, "name"), 300) && CutAt(c.phone, TextOf(r, "telephone"), 100)
      && CutAt(c.address, AddressText(r), 1000) && CutAt(c.cuisine, Join(Texts(dishes), ", "), 200)
      && c.sourceUrl == source
  {
    FieldReads(r, "name");
    FieldReads(r, "telephone");
    AddressReads(r);
    dishes := LinksStandInPlace(Field(r, "servesCuisine"));
    assert Texts(dishes) == Links(Field(r, "servesCuisine"));
    if "servesCuisine" !in r.fields { assert dishes == []; }
  }

  const RECORD_TYPES: seq<string> := ["Restaurant", "CafeOrCoffeeShop", "Bakery", "FoodEstablishment"]

  /** The types a record may have, bare or under schema.org. */
  lemma RestaurantTypeIsNamed(typ: string)
    ensures RestaurantType(typ) <==>
      exists k :: 0 <= k < |RECORD_TYPES| && (typ == RECORD_TYPES[k] || typ == "https://schema.org/" + RECORD_TYPES[k])
  {
    var schema := "https://schema.org/";
    var bare := DropSchema(typ);
    assert RestaurantType(typ) <==> bare in RECORD_TYPES;
    if schema <= typ {
      assert typ == schema + bare;
      assert forall k :: 0 <= k < |RECORD_TYPES| ==> typ != RECORD_TYPES[k];
    } else {
      assert forall k :: 0 <= k < |RECORD_TYPES| ==> schema <= schema + RECORD_TYPES[k];
    }
  }
}
