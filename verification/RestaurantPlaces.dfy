/** Which object each finding of the extraction gate is, and in which order they come. */
module RestaurantPlaces {
  import opened Text
  import opened Extract

  /** Walking the path from v ends at o. */
  predicate StandsAt(v: Json, path: seq<Step>, o: Json)
    decreases path
  {
    if path == [] then v == o
    else match path[0]
      case Index(i) => v.Arr? && i < |v.items| && StandsAt(v.items[i], path[1..], o)
      case Graph => v.Obj? && "@graph" in v.fields && StandsAt(v.fields["@graph"], path[1..], o)
  }

  /** Document order: array entries by position, an object's own type entries before its @graph. */
  predicate Earlier(a: Occurrence, b: Occurrence)
    decreases |a.path|
  {
    if a.path == [] then b.path != [] || a.entry < b.entry
    else
      && b.path != []
      && if a.path[0] == b.path[0] then Earlier(Occurrence(a.path[1..], a.entry), Occurrence(b.path[1..], b.entry))
         else a.path[0].Index? && b.path[0].Index? && a.path[0].i < b.path[0].i
  }

  ghost predicate InOrder(occs: seq<Occurrence>) {
    forall i, j :: 0 <= i < j < |occs| ==> Earlier(occs[i], occs[j])
  }

  ghost predicate Matched(v: Json, occs: seq<Occurrence>, found: seq<Json>) {
    |occs| == |found| && forall k :: 0 <= k < |occs| ==> StandsAt(v, occs[k].path, found[k])
  }

  lemma {:induction false} EntriesStand(o: Json, k: nat)
    requires o.Obj? && k <= |Types(o)|
    ensures Matched(o, EntriesFrom(Types(o), k), Copies(o, Types(o)[k..]))
    ensures InOrder(EntriesFrom(Types(o), k))
    ensures forall i :: 0 <= i < |EntriesFrom(Types(o), k)| ==>
      EntriesFrom(Types(o), k)[i].path == [] && k <= EntriesFrom(Types(o), k)[i].entry
    decreases |Types(o)| - k
  {
    if k < |Types(o)| {
      EntriesStand(o, k + 1);
      assert Types(o)[k..][1..] == Types(o)[k + 1..];
    }
  }

  lemma UnderStands(v: Json, child: Json, step: Step, occs: seq<Occurrence>, found: seq<Json>)
    requires Matched(child, occs, found) && InOrder(occs)
    requires match step
             case Index(i) => v.Arr? && i < |v.items| && v.items[i] == child
             case Graph => v.Obj? && "@graph" in v.fields && v.fields["@graph"] == child
    ensures Matched(v, Under(step, occs), found) && InOrder(Under(step, occs))
    ensures forall k :: 0 <= k < |occs| ==> Under(step, occs)[k].path != [] && Under(step, occs)[k].path[0] == step
  {
    var u := Under(step, occs);
    forall k | 0 <= k < |u|
      ensures u[k].path != [] && u[k].path[0] == step && u[k].path[1..] == occs[k].path
    {
    }
    forall i, j | 0 <= i < j < |u|
      ensures Earlier(u[i], u[j])
    {
      assert Occurrence(u[i].path[1..], u[i].entry) == occs[i] && Occurrence(u[j].path[1..], u[j].entry) == occs[j];
    }
  }

  lemma JoinStands(v: Json, a: seq<Occurrence>, x: seq<Json>, b: seq<Occurrence>, y: seq<Json>)
    requires Matched(v, a, x) && Matched(v, b, y) && InOrder(a) && InOrder(b)
    requires forall i, j :: 0 <= i < |a| && 0 <= j < |b| ==> Earlier(a[i], b[j])
    ensures Matched(v, a + b, x + y) && InOrder(a + b)
  {
  }

  lemma {:induction false} FindingsStand(v: Json)
    ensures Matched(v, Occurrences(v), Restaurants(v)) && InOrder(Occurrences(v))
    decreases v, 0
  {
    match v
    case Arr(items) =>
      assert items[0..] == items;
      FindingsStandFrom(v, 0);
    case Obj(fields) =>
      EntriesStand(v, 0);
      assert Types(v)[0..] == Types(v);
      if "@graph" in fields {
        FindingsStand(fields["@graph"]);
        UnderStands(v, fields["@graph"], Graph, Occurrences(fields["@graph"]), Restaurants(fields["@graph"]));
        JoinStands(v, EntriesFrom(Types(v), 0), Copies(v, Types(v)), Under(Graph, Occurrences(fields["@graph"])),
                   Restaurants(fields["@graph"]));
      }
    case _ =>
  }

  lemma {:induction false} FindingsStandFrom(v: Json, base: nat)
    requires v.Arr? && base <= |v.items|
    ensures var rest := OccurrencesFrom(v.items[base..], base);
      && Matched(v, rest, RestaurantsOf(v.items[base..])) && InOrder(rest)
      && forall k :: 0 <= k < |rest| ==> rest[k].path != [] && rest[k].path[0].Index? && base <= rest[k].path[0].i
    decreases v, 0, |v.items| - base
  {
    if base < |v.items| {
      var child, tail := v.items[base], v.items[base..][1..];
      assert tail == v.items[base + 1..];
      FindingsStand(child);
      FindingsStandFrom(v, base + 1);
      UnderStands(v, child, Index(base), Occurrences(child), Restaurants(child));
      JoinStands(v, Under(Index(base), Occurrences(child)), Restaurants(child),
                 OccurrencesFrom(tail, base + 1), RestaurantsOf(tail));
    }
  }

  /** The objects the gate counts are those that stand at the recognised type entries, one for
      each, in document order. */
  lemma FindingsAreTheObjectsThere(v: Json) returns (occs: seq<Occurrence>)
    ensures |occs| == |Restaurants(v)|
    ensures forall o :: o in occs <==> Hit(v, o.path, o.entry)
    ensures forall k :: 0 <= k < |occs| ==> StandsAt(v, occs[k].path, Restaurants(v)[k])
    ensures forall i, j :: 0 <= i < j < |occs| ==> Earlier(occs[i], occs[j])
  {
    occs := Occurrences(v);
    CountsOccurrences(v);
    FindingsStand(v);
  }
}
