/** Harvesting links from listing markup, and the de-duplicated search result. */
module CandidateLinks {
  import opened Text
  import opened Extract

  /** A parsed and accepted URL; `text` is its canonical spelling. */
  datatype Url = Url(text: string, host: string, path: string)

  const AGGREGATORS := ["ubereats.com", "yelp.com", "tripadvisor.com", "tripadvisor.jp",
                        "findmeglutenfree.com", "happycow.net", "wanderlog.com",
                        "tabelog.com", "retty.me", "gnavi.co.jp", "hotpepper.jp"]

  const SOCIAL_HOSTS := ["facebook.com", "instagram.com", "twitter.com", "x.com", "youtube.com",
                         "tiktok.com", "pinterest.com", "linkedin.com", "line.me", "google.com", "apple.com"]

  const ASSET_EXTS := [".jpg", ".jpeg", ".png", ".gif", ".webp", ".svg", ".css", ".js",
                       ".ico", ".pdf", ".zip", ".mp4"]

  predicate CandidateLink(lower: char -> char, u: Url) {
    var host, path := Lower(lower, u.host), Lower(lower, u.path);
    && (forall d :: d in AGGREGATORS + SOCIAL_HOSTS ==> host != d && !HasSuffix(host, "." + d))
    && (forall ext :: ext in ASSET_EXTS ==> !HasSuffix(path, ext))
  }

  /** Entry links of listing markup: an ItemList, or businesses with a url. */
  function ListingUrls(v: Json): seq<string>
    decreases v, 0
  {
    match v
    case Arr(items) => ListingUrlsOf(items)
    case Obj(fields) =>
      Own(v, Types(v)) +
      (if "itemListElement" in fields then ListingUrls(fields["itemListElement"]) else []) +
      (if "@graph" in fields then ListingUrls(fields["@graph"]) else []) +
      (if "item" in fields then ListingUrls(fields["item"]) else []) +
      (if "mainEntity" in fields then ListingUrls(fields["mainEntity"]) else [])
    case _ => []
  }

  function ListingUrlsOf(items: seq<Json>): seq<string>
    decreases items, 1
  {
    if items == [] then [] else ListingUrls(items[0]) + ListingUrlsOf(items[1..])
  }

  /** The object's own url, or @id without one, for each recognised type entry. */
  function Own(o: Json, types: seq<string>): seq<string>
    requires o.Obj?
  {
    if types == [] then []
    else
      var url, id := StringValue(Field(o, "url")), StringValue(Field(o, "@id"));
      (if !ListingType(types[0]) then [] else if url != "" then [url] else if id != "" then [id] else [])
      + Own(o, types[1..])
  }

  /** Already trimmed and not blank. */
  predicate Tidy(s: string) { s != "" && TrimSpace(s) == s }

  lemma StringValueIsTidy(v: Json)
    ensures StringValue(v) == "" || Tidy(StringValue(v))
  {
    if v.Str? { BTrimOfTrimSpace(v.s); }
  }

  lemma {:induction false} OwnIsTidy(o: Json, types: seq<string>)
    requires o.Obj?
    ensures forall s :: s in Own(o, types) ==> Tidy(s)
  {
    if types != [] {
      StringValueIsTidy(Field(o, "url"));
      StringValueIsTidy(Field(o, "@id"));
      OwnIsTidy(o, types[1..]);
    }
  }

  /** Listing markup never yields a blank entry, so the harvest's early return on a
      blank one cannot lose the entries after it. */
  lemma {:induction false} ListingUrlsAreTidy(v: Json)
    ensures forall s :: s in ListingUrls(v) ==> Tidy(s)
    decreases v, 0
  {
    match v
    case Arr(items) => ListingUrlsOfAreTidy(items);
    case Obj(fields) =>
      OwnIsTidy(v, Types(v));
      if "itemListElement" in fields { ListingUrlsAreTidy(fields["itemListElement"]); }
      if "@graph" in fields { ListingUrlsAreTidy(fields["@graph"]); }
      if "item" in fields { ListingUrlsAreTidy(fields["item"]); }
      if "mainEntity" in fields { ListingUrlsAreTidy(fields["mainEntity"]); }
    case _ =>
  }

  lemma {:induction false} ListingUrlsOfAreTidy(items: seq<Json>)
    ensures forall s :: s in ListingUrlsOf(items) ==> Tidy(s)
    decreases items, 1
  {
    if items != [] {
      ListingUrlsAreTidy(items[0]);
      ListingUrlsOfAreTidy(items[1..]);
    }
  }

  // ----- the simple specification -----

  /** The links a raw entry stands for: none if it does not resolve or is filtered out. */
  function Eligible(lower: char -> char, resolve: string -> Option<Url>, raws: seq<string>): seq<string> {
    if raws == [] then []
    else
      Eligible(lower, resolve, raws[..|raws| - 1]) +
      match resolve(TrimSpace(raws[|raws| - 1]))
      case None => []
      case Some(u) => if CandidateLink(lower, u) then [u.text] else []
  }

  /** texts[k] is neither excluded nor a repetition, comparing keys. */
  predicate First(key: string -> string, excluded: set<string>, texts: seq<string>, k: nat)
    requires k < |texts|
  {
    key(texts[k]) !in excluded && forall j :: 0 <= j < k ==> key(texts[j]) != key(texts[k])
  }

  /** The first occurrences, in order. */
  function Firsts(key: string -> string, excluded: set<string>, texts: seq<string>): seq<string> {
    if texts == [] then []
    else
      var k := |texts| - 1;
      Firsts(key, excluded, texts[..k]) + (if First(key, excluded, texts, k) then [texts[k]] else [])
  }

  function Keys(key: string -> string, texts: seq<string>): set<string> {
    set i | 0 <= i < |texts| :: key(texts[i])
  }

  function Take(n: nat, s: seq<string>): seq<string> {
    if |s| <= n then s else s[..n]
  }

  /** The seen set a harvest keeps: excluded keys and the keys of everything kept. */
  lemma {:induction false} SeenDecidesFirst(key: string -> string, excluded: set<string>, texts: seq<string>)
    ensures Keys(key, texts) <= excluded + Keys(key, Firsts(key, excluded, texts))
    ensures Keys(key, Firsts(key, excluded, texts)) <= Keys(key, texts)
  {
    if texts != [] {
      var k := |texts| - 1;
      var init, kept := texts[..k], Firsts(key, excluded, texts[..k]);
      SeenDecidesFirst(key, excluded, init);
      assert Keys(key, texts) == Keys(key, init) + {key(texts[k])} by {
        assert forall i :: 0 <= i < k ==> texts[i] == init[i];
        assert texts == init + [texts[k]];
        KeysAdd(key, init, texts[k]);
      }
      if First(key, excluded, texts, k) {
        KeysAdd(key, kept, texts[k]);
      } else {
        assert Firsts(key, excluded, texts) == kept + [] == kept;
        if key(texts[k]) !in excluded {
          var j :| 0 <= j < k && key(texts[j]) == key(texts[k]);
          assert init[j] == texts[j];
          assert key(init[j]) in Keys(key, init);
        }
      }
    }
  }

  lemma KeysAdd(key: string -> string, texts: seq<string>, t: string)
    ensures Keys(key, texts + [t]) == Keys(key, texts) + {key(t)}
  {
    var more := texts + [t];
    assert more[|texts|] == t;
    assert forall i :: 0 <= i < |texts| ==> more[i] == texts[i];
  }

  lemma {:induction false} FirstsGrow(key: string -> string, excluded: set<string>, a: seq<string>, b: seq<string>)
    ensures Firsts(key, excluded, a) <= Firsts(key, excluded, a + b)
  {
    if b == [] {
      assert a + b == a;
    } else {
      FirstsGrow(key, excluded, a, b[..|b| - 1]);
      assert (a + b)[..|a + b| - 1] == a + b[..|b| - 1];
    }
  }

  lemma {:induction false} EligibleAdds(lower: char -> char, resolve: string -> Option<Url>, a: seq<string>,
      b: seq<string>)
    ensures Eligible(lower, resolve, a + b) == Eligible(lower, resolve, a) + Eligible(lower, resolve, b)
  {
    if b == [] {
      assert a + b == a;
    } else {
      EligibleAdds(lower, resolve, a, b[..|b| - 1]);
      assert (a + b)[..|a + b| - 1] == a + b[..|b| - 1];
    }
  }

  lemma FirstsOne(key: string -> string, excluded: set<string>, texts: seq<string>, t: string)
    ensures var out := Firsts(key, excluded, texts);
      Firsts(key, excluded, texts + [t]) == if key(t) in excluded + Keys(key, out) then out else out + [t]
  {
    var more := texts + [t];
    assert more[..|texts|] == texts;
    SeenDecidesFirst(key, excluded, texts);
    if key(t) !in excluded {
      if key(t) in Keys(key, texts) {
        var j :| 0 <= j < |texts| && key(texts[j]) == key(t);
        assert more[j] == texts[j];
      } else {
        forall j | 0 <= j < |texts|
          ensures key(more[j]) != key(t)
        {
          assert more[j] == texts[j] && key(texts[j]) in Keys(key, texts);
        }
      }
    }
  }

  /** Flatten, resolve and filter, drop the source page and repetitions, keep `max`. */
  function Harvest(lower: char -> char, resolve: string -> Option<Url>, source: string, max: nat,
      raws: seq<string>): seq<string> {
    Take(max, Firsts(DropSlash, {DropSlash(source)}, Eligible(lower, resolve, raws)))
  }

  lemma HarvestIsFull(lower: char -> char, resolve: string -> Option<Url>, source: string, max: nat, a: seq<string>,
      b: seq<string>)
    requires |Harvest(lower, resolve, source, max, a)| == max
    ensures Harvest(lower, resolve, source, max, a + b) == Harvest(lower, resolve, source, max, a)
  {
    EligibleAdds(lower, resolve, a, b);
    FirstsGrow(DropSlash, {DropSlash(source)}, Eligible(lower, resolve, a), Eligible(lower, resolve, b));
  }

  /** One entry is considered: `seen` answers what the specification asks. */
  lemma HarvestOne(lower: char -> char, resolve: string -> Option<Url>, source: string, max: nat, a: seq<string>,
      raw: string)
    requires |Harvest(lower, resolve, source, max, a)| < max
    ensures var out, u := Harvest(lower, resolve, source, max, a), resolve(TrimSpace(raw));
      Harvest(lower, resolve, source, max, a + [raw]) ==
        if u.Some? && CandidateLink(lower, u.value)
           && DropSlash(u.value.text) !in {DropSlash(source)} + Keys(DropSlash, out)
        then out + [u.value.text] else out
  {
    var texts, u := Eligible(lower, resolve, a), resolve(TrimSpace(raw));
    assert (a + [raw])[..|a|] == a;
    if u.Some? && CandidateLink(lower, u.value) {
      FirstsOne(DropSlash, {DropSlash(source)}, texts, u.value.text);
    } else {
      assert Eligible(lower, resolve, a + [raw]) == texts + [] == texts;
    }
  }

  /** What the specification keeps of one raw entry, given the seen set. */
  function Kept(lower: char -> char, resolve: string -> Option<Url>, seen: set<string>, raw: string): seq<string> {
    match resolve(TrimSpace(raw))
    case None => []
    case Some(u) => if CandidateLink(lower, u) && DropSlash(u.text) !in seen then [u.text] else []
  }

  lemma HarvestStep(lower: char -> char, resolve: string -> Option<Url>, source: string, max: nat,
                    a: seq<string>, raw: string, out: seq<string>, seen: set<string>)
    requires out == Harvest(lower, resolve, source, max, a) && |out| < max
    requires seen == {DropSlash(source)} + Keys(DropSlash, out)
    ensures var kept := Kept(lower, resolve, seen, raw);
      && Harvest(lower, resolve, source, max, a + [raw]) == out + kept
      && {DropSlash(source)} + Keys(DropSlash, out + kept) == seen + Keys(DropSlash, kept)
  {
    HarvestOne(lower, resolve, source, max, a, raw);
    var kept := Kept(lower, resolve, seen, raw);
    if kept == [] {
      assert out + kept == out;
    } else {
      KeysAdd(DropSlash, out, kept[0]);
      KeysAdd(DropSlash, [], kept[0]);
      assert [] + [kept[0]] == kept;
    }
  }

  lemma Progress(before: seq<string>, raws: seq<string>, j: nat)
    requires j < |raws|
    ensures before + raws[..j] + [raws[j]] == before + raws[..j + 1]
    ensures before + raws[..j] + raws[j..] == before + raws
  {
    assert raws[..j + 1] == raws[..j] + [raws[j]];
    assert raws == raws[..j] + raws[j..];
  }

  /** The callback run on each script: it continues the harvest `before` it. */
  method FromScript(lower: char -> char, resolve: string -> Option<Url>, source: string, max: nat,
                    raws: seq<string>, out0: seq<string>, seen0: set<string>, ghost before: seq<string>)
    returns (out: seq<string>, seen: set<string>)
    requires forall s :: s in raws ==> Tidy(s)
    requires out0 == Harvest(lower, resolve, source, max, before)
    requires |out0| < max ==> seen0 == {DropSlash(source)} + Keys(DropSlash, out0)
    ensures out == Harvest(lower, resolve, source, max, before + raws)
    ensures |out| < max ==> seen == {DropSlash(source)} + Keys(DropSlash, out)
  {
    out, seen := out0, seen0;
    var j := 0;
    assert before + raws[..0] == before;
    while j < |raws|
      invariant j <= |raws|
      invariant out == Harvest(lower, resolve, source, max, before + raws[..j])
      invariant |out| < max ==> seen == {DropSlash(source)} + Keys(DropSlash, out)
    {
      if |out| >= max || TrimSpace(raws[j]) == "" {
        assert Tidy(raws[j]);
        HarvestIsFull(lower, resolve, source, max, before + raws[..j], raws[j..]);
        Progress(before, raws, j);
        return;
      }
      HarvestStep(lower, resolve, source, max, before + raws[..j], raws[j], out, seen);
      ghost var kept := Kept(lower, resolve, seen, raws[j]);
      assert out + [] == out;
      Progress(before, raws, j);
      var u := resolve(TrimSpace(raws[j]));
      j := j + 1;
      if u == None || !CandidateLink(lower, u.value) {
        continue;
      }
      var key := DropSlash(u.value.text);
      if key in seen {
        continue;
      }
      assert kept == [u.value.text] && Keys(DropSlash, kept) == {key};
      seen := seen + {key};
      out := out + [u.value.text];
    }
    assert raws[..j] == raws;
  }

  /** The harvest loop computes the simple specification. `source` is the canonical
      source page, absent when it is not an acceptable URL; `resolve` reads a trimmed
      entry relative to it. */
  method Candidates(lower: char -> char, resolve: string -> Option<Url>, scripts: seq<Json>,
                    source: Option<string>, max: int) returns (out: seq<string>)
    ensures out == if max <= 0 || source == None then []
                   else Harvest(lower, resolve, source.value, max, ListingUrlsOf(scripts))
  {
    out := [];
    if max <= 0 || source == None {
      return;
    }
    var seen := {DropSlash(source.value)};
    for i := 0 to |scripts|
      invariant out == Harvest(lower, resolve, source.value, max, ListingUrlsOf(scripts[..i]))
      invariant |out| < max ==> seen == {DropSlash(source.value)} + Keys(DropSlash, out)
    {
      ListingUrlsAreTidy(scripts[i]);
      ListingUrlsAdd(scripts[..i], scripts[i]);
      assert scripts[..i + 1] == scripts[..i] + [scripts[i]];
      out, seen := FromScript(lower, resolve, source.value, max,
        ListingUrls(scripts[i]), out, seen, ListingUrlsOf(scripts[..i]));
    }
    assert scripts[..|scripts|] == scripts;
  }

  lemma {:induction false} ListingUrlsAdd(items: seq<Json>, v: Json)
    ensures ListingUrlsOf(items + [v]) == ListingUrlsOf(items) + ListingUrls(v)
  {
    if items == [] {
      assert [v][1..] == [] && items + [v] == [v];
      assert ListingUrlsOf([v]) == ListingUrls(v) + ListingUrlsOf([]);
    } else {
      ListingUrlsAdd(items[1..], v);
      assert (items + [v])[1..] == items[1..] + [v] && (items + [v])[0] == items[0];
      JoinsOn(ListingUrls(items[0]), ListingUrlsOf(items[1..]), ListingUrls(v));
    }
  }

  /** What the specification delivers: at most `max` links, none the source page,
      no two equal up to one trailing slash; and if fewer than `max`, every eligible
      link is represented. */
  lemma HarvestDelivers(lower: char -> char, resolve: string -> Option<Url>, source: string, max: nat,
      raws: seq<string>)
    ensures var out := Harvest(lower, resolve, source, max, raws);
      && |out| <= max
      && (forall t :: t in out ==> DropSlash(t) != DropSlash(source) && t in Eligible(lower, resolve, raws))
      && (forall i, j :: 0 <= i < j < |out| ==> DropSlash(out[i]) != DropSlash(out[j]))
      && (|out| < max ==> forall t :: t in Eligible(lower, resolve, raws) ==>
            DropSlash(t) == DropSlash(source) || DropSlash(t) in Keys(DropSlash, out))
  {
    var texts := Eligible(lower, resolve, raws);
    FirstsAreDistinct(DropSlash, {DropSlash(source)}, texts);
    SeenDecidesFirst(DropSlash, {DropSlash(source)}, texts);
    forall t | t in texts
      ensures DropSlash(t) in Keys(DropSlash, texts)
    {
      var i :| 0 <= i < |texts| && texts[i] == t;
    }
  }

  lemma {:induction false} FirstsAreDistinct(key: string -> string, excluded: set<string>, texts: seq<string>)
    ensures var out := Firsts(key, excluded, texts);
      && (forall t :: t in out ==> key(t) !in excluded && t in texts)
      && (forall i, j :: 0 <= i < j < |out| ==> key(out[i]) != key(out[j]))
  {
    if texts != [] {
      var k := |texts| - 1;
      var kept := Firsts(key, excluded, texts[..k]);
      FirstsAreDistinct(key, excluded, texts[..k]);
      assert forall t :: t in texts[..k] ==> t in texts;
      if First(key, excluded, texts, k) {
        forall i | 0 <= i < |kept|
          ensures key(kept[i]) != key(texts[k])
        {
          assert kept[i] in texts[..k];
          var j :| 0 <= j < k && texts[..k][j] == kept[i];
          assert texts[j] == kept[i];
        }
      }
    }
  }

  // ----- web search results -----

  function Canonical(parse: string -> Option<string>, raws: seq<string>): seq<string> {
    if raws == [] then []
    else
      var init, u := Canonical(parse, raws[..|raws| - 1]), parse(raws[|raws| - 1]);
      if u.Some? then init + [u.value] else init
  }

  lemma {:induction false} CanonicalGrows(parse: string -> Option<string>, raws: seq<string>, n: nat)
    requires n <= |raws|
    ensures Canonical(parse, raws[..n]) <= Canonical(parse, raws)
  {
    if n == |raws| {
      assert raws[..n] == raws;
    } else {
      CanonicalGrows(parse, raws[..|raws| - 1], n);
      assert raws[..|raws| - 1][..n] == raws[..n];
    }
  }

  function Same(s: string): string { s }

  /** The acceptable results, each once, in ranking order, at most `limit`; no limit below 1
      is ever reached, so then they are all returned. */
  method Search(parse: string -> Option<string>, results: seq<string>, limit: int) returns (urls: seq<string>)
    ensures var all := Firsts(Same, {}, Canonical(parse, results)); urls == if limit < 1 then all else Take(limit, all)
  {
    urls := [];
    var seen: set<string> := {};
    for i := 0 to |results|
      invariant urls == Firsts(Same, {}, Canonical(parse, results[..i])) && (limit < 1 || |urls| < limit)
      invariant seen == Keys(Same, urls)
    {
      assert results[..i + 1][..i] == results[..i];
      var u := parse(results[i]);
      if u.Some? {
        FirstsOne(Same, {}, Canonical(parse, results[..i]), u.value);
        if u.value !in seen {
          KeysAdd(Same, urls, u.value);
          seen := seen + {u.value};
          urls := urls + [u.value];
          if |urls| == limit {
            SearchStops(parse, results, i + 1, limit);
            return;
          }
        }
      }
    }
    assert results[..|results|] == results;
  }

  lemma SearchStops(parse: string -> Option<string>, results: seq<string>, n: nat, limit: nat)
    requires n <= |results|
    requires |Firsts(Same, {}, Canonical(parse, results[..n]))| == limit
    ensures Take(limit, Firsts(Same, {}, Canonical(parse, results))) == Firsts(Same, {}, Canonical(parse, results[..n]))
  {
    CanonicalGrows(parse, results, n);
    var all, part := Canonical(parse, results), Canonical(parse, results[..n]);
    assert all == part + all[|part|..];
    FirstsGrow(Same, {}, part, all[|part|..]);
  }
}
