/** Which of the links a page lists a harvest keeps, told by the places they stand in. */
module ListingHarvest {
  import opened Text
  import opened Extract
  import opened CandidateLinks
  import opened ListingLinks

  // ----- what counts -----

  /** The host is that site or one below it. */
  ghost predicate AtOrBelow(host: string, site: string) {
    host == site || exists k :: 0 <= k < |host| && host[k..] == "." + site
  }

  ghost predicate EndsIn(s: string, tail: string) {
    exists k :: 0 <= k <= |s| && s[k..] == tail
  }

  /** The host is none of the sites the harvest leaves out nor below one, and the path does
      not end like a file. */
  ghost predicate MayLead(lower: char -> char, u: Url) {
    && (forall site :: site in AGGREGATORS || site in SOCIAL_HOSTS ==> !AtOrBelow(Lower(lower, u.host), site))
    && (forall ext :: ext in ASSET_EXTS ==> !EndsIn(Lower(lower, u.path), ext))
  }

  lemma SuffixIsATail(s: string, suffix: string)
    ensures HasSuffix(s, suffix) <==> EndsIn(s, suffix)
  {
    if HasSuffix(s, suffix) {
      assert s[|s| - |suffix|..] == suffix;
    }
  }

  lemma BelowIsATail(host: string, site: string)
    ensures AtOrBelow(host, site) <==> host == site || HasSuffix(host, "." + site)
  {
    SuffixIsATail(host, "." + site);
    if k :| 0 <= k <= |host| && host[k..] == "." + site {
      assert host[k..] != "";
    }
  }

  lemma CandidateMayLead(lower: char -> char, u: Url)
    ensures CandidateLink(lower, u) <==> MayLead(lower, u)
  {
    var host, path := Lower(lower, u.host), Lower(lower, u.path);
    forall site
      ensures AtOrBelow(host, site) <==> host == site || HasSuffix(host, "." + site)
    {
      BelowIsATail(host, site);
    }
    forall ext
      ensures HasSuffix(path, ext) <==> EndsIn(path, ext)
    {
      SuffixIsATail(path, ext);
    }
    assert forall d :: d in AGGREGATORS + SOCIAL_HOSTS <==> d in AGGREGATORS || d in SOCIAL_HOSTS;
  }

  /** The listed text stands for that link. */
  ghost predicate LeadsTo(lower: char -> char, resolve: string -> Option<Url>, text: string, link: string) {
    resolve(text).Some? && MayLead(lower, resolve(text).value) && link == resolve(text).value.text
  }

  /** Equal, or equal up to one slash at the end of one of them. */
  predicate SamePage(a: string, b: string) {
    || a == b
    || (a == b + "/" && (b == "" || b[|b| - 1] != '/'))
    || (b == a + "/" && (a == "" || a[|a| - 1] != '/'))
  }

  lemma SamePageIsSameKey(a: string, b: string)
    ensures SamePage(a, b) <==> DropSlash(a) == DropSlash(b)
  {
    if a != "" && a[|a| - 1] == '/' { assert a == a[..|a| - 1] + "/"; }
    if b != "" && b[|b| - 1] == '/' { assert b == b[..|b| - 1] + "/"; }
  }

  // ----- from places to links -----

  ghost predicate Rising(ps: seq<nat>) {
    forall j, k :: 0 <= j < k < |ps| ==> ps[j] < ps[k]
  }

  /** The eligible links stand at these entries, and at no others. */
  ghost predicate EligibleAre(lower: char -> char, resolve: string -> Option<Url>, raws: seq<string>,
      links: seq<string>, at: seq<nat>)
  {
    && |at| == |links| && Rising(at)
    && (forall k :: 0 <= k < |at| ==> at[k] < |raws| && LeadsTo(lower, resolve, raws[at[k]], links[k]))
    && (forall i, link :: 0 <= i < |raws| && LeadsTo(lower, resolve, raws[i], link) ==> i in at)
  }

  /** What one entry contributes. */
  lemma OneEntry(lower: char -> char, resolve: string -> Option<Url>, raws: seq<string>) returns (link: Option<string>)
    requires raws != [] && Tidy(raws[|raws| - 1])
    ensures Eligible(lower, resolve, raws) ==
      Eligible(lower, resolve, raws[..|raws| - 1]) + (if link.Some? then [link.value] else [])
    ensures forall l :: LeadsTo(lower, resolve, raws[|raws| - 1], l) <==> link == Some(l)
  {
    var u := resolve(raws[|raws| - 1]);
    link := None;
    if u.Some? {
      CandidateMayLead(lower, u.value);
      if CandidateLink(lower, u.value) { link := Some(u.value.text); }
    }
  }

  lemma OneMoreEntry(lower: char -> char, resolve: string -> Option<Url>, raws: seq<string>, raw: string,
      links: seq<string>, at: seq<nat>, link: Option<string>)
    requires EligibleAre(lower, resolve, raws, links, at)
    requires forall l :: LeadsTo(lower, resolve, raw, l) <==> link == Some(l)
    ensures link == None ==> EligibleAre(lower, resolve, raws + [raw], links, at)
    ensures link.Some? ==> EligibleAre(lower, resolve, raws + [raw], links + [link.value], at + [|raws|])
  {
  }

  lemma {:induction false} EligibleStand(lower: char -> char, resolve: string -> Option<Url>, raws: seq<string>)
    returns (at: seq<nat>)
    requires forall s :: s in raws ==> Tidy(s)
    ensures EligibleAre(lower, resolve, raws, Eligible(lower, resolve, raws), at)
  {
    at := [];
    if raws != [] {
      var n := |raws| - 1;
      at := EligibleStand(lower, resolve, raws[..n]);
      var link := OneEntry(lower, resolve, raws);
      OneMoreEntry(lower, resolve, raws[..n], raws[n], Eligible(lower, resolve, raws[..n]), at, link);
      assert raws[..n] + [raws[n]] == raws;
      at := if link.Some? then at + [n] else at;
    }
  }

  /** The first ones stand at these positions, and at no others. */
  ghost predicate FirstsAre(key: string -> string, excluded: set<string>, texts: seq<string>, out: seq<string>,
      at: seq<nat>)
  {
    && |at| == |out| && Rising(at)
    && (forall k :: 0 <= k < |at| ==> at[k] < |texts| && out[k] == texts[at[k]] && First(key, excluded, texts, at[k]))
    && (forall i :: 0 <= i < |texts| && First(key, excluded, texts, i) ==> i in at)
  }

  lemma OneMoreText(key: string -> string, excluded: set<string>, texts: seq<string>, t: string, out: seq<string>,
      at: seq<nat>)
    requires FirstsAre(key, excluded, texts, out, at)
    ensures var more := texts + [t];
      if First(key, excluded, more, |texts|) then FirstsAre(key, excluded, more, out + [t], at + [|texts|])
      else FirstsAre(key, excluded, more, out, at)
  {
    var more := texts + [t];
    forall i: nat | i < |texts|
      ensures First(key, excluded, more, i) == First(key, excluded, texts, i) && more[i] == texts[i]
    {
      assert forall j :: 0 <= j <= i ==> more[j] == texts[j];
    }
  }

  lemma {:induction false} FirstsStand(key: string -> string, excluded: set<string>, texts: seq<string>)
    returns (at: seq<nat>)
    ensures FirstsAre(key, excluded, texts, Firsts(key, excluded, texts), at)
  {
    at := [];
    if texts != [] {
      var n := |texts| - 1;
      at := FirstsStand(key, excluded, texts[..n]);
      OneMoreText(key, excluded, texts[..n], texts[n], Firsts(key, excluded, texts[..n]), at);
      assert texts[..n] + [texts[n]] == texts;
      at := if First(key, excluded, texts, n) then at + [n] else at;
    }
  }

  /** An entry that is not a first one repeats an earlier first one, unless it is excluded. */
  lemma {:induction false} RepeatsAFirst(key: string -> string, excluded: set<string>, texts: seq<string>, i: nat)
    returns (j: nat)
    requires i < |texts| && key(texts[i]) !in excluded
    ensures j <= i && First(key, excluded, texts, j) && key(texts[j]) == key(texts[i])
    decreases i
  {
    if First(key, excluded, texts, i) {
      j := i;
    } else {
      var k: nat :| k < i && key(texts[k]) == key(texts[i]);
      j := RepeatsAFirst(key, excluded, texts, k);
    }
  }

  /** Link m is not among the first n kept: it is excluded, repeats one kept before it, or
      comes after n others. */
  lemma LeftOutWhy(key: string -> string, excluded: set<string>, links: seq<string>, kept: seq<string>, f: seq<nat>,
      n: nat, m: nat)
    requires FirstsAre(key, excluded, links, kept, f) && n <= |f| && m < |links|
    requires key(links[m]) !in excluded && forall k :: 0 <= k < n ==> f[k] != m
    ensures (exists k :: 0 <= k < n && f[k] < m && key(links[m]) == key(kept[k]))
      || (n < |f| && forall k :: 0 <= k < n ==> f[k] < m)
  {
    var j := RepeatsAFirst(key, excluded, links, m);
    var q :| 0 <= q < |f| && f[q] == j;
    assert kept[q] == links[j];
  }

  /** The same harvest with pages compared by their keys. */
  ghost predicate KeepsByKey(lower: char -> char, resolve: string -> Option<Url>, source: string, max: nat,
      texts: seq<string>, out: seq<string>, at: seq<nat>)
  {
    && |at| == |out| <= max && Rising(at)
    && (forall k :: 0 <= k < |at| ==> at[k] < |texts| && LeadsTo(lower, resolve, texts[at[k]], out[k]))
    && (forall i, link :: 0 <= i < |texts| && LeadsTo(lower, resolve, texts[i], link) && i !in at ==>
          || DropSlash(link) == DropSlash(source)
          || (exists k :: 0 <= k < |out| && at[k] < i && DropSlash(link) == DropSlash(out[k]))
          || (|out| == max && forall k :: 0 <= k < |at| ==> at[k] < i))
  }

  function Through(e: seq<nat>, f: seq<nat>, n: nat): seq<nat>
    requires n <= |f| && forall k :: 0 <= k < |f| ==> f[k] < |e|
  {
    seq(n, k requires 0 <= k < n => e[f[k]])
  }

  lemma LeftOutAt(lower: char -> char, resolve: string -> Option<Url>, source: string, max: nat, texts: seq<string>,
      links: seq<string>, e: seq<nat>, kept: seq<string>, f: seq<nat>, out: seq<string>, i: nat, link: string)
    requires EligibleAre(lower, resolve, texts, links, e)
    requires FirstsAre(DropSlash, {DropSlash(source)}, links, kept, f) && out == Take(max, kept)
    requires i < |texts| && LeadsTo(lower, resolve, texts[i], link) && i !in Through(e, f, |out|)
    ensures var at := Through(e, f, |out|);
      || DropSlash(link) == DropSlash(source)
      || (exists k :: 0 <= k < |out| && at[k] < i && DropSlash(link) == DropSlash(out[k]))
      || (|out| == max && forall k :: 0 <= k < |at| ==> at[k] < i)
  {
    var at := Through(e, f, |out|);
    var m :| 0 <= m < |e| && e[m] == i;
    forall k | 0 <= k < |out|
      ensures f[k] != m
    {
      assert at[k] in at;
    }
    if DropSlash(link) != DropSlash(source) {
      LeftOutWhy(DropSlash, {DropSlash(source)}, links, kept, f, |out|, m);
      if k :| 0 <= k < |out| && f[k] < m && DropSlash(links[m]) == DropSlash(kept[k]) {
        assert at[k] < i && out[k] == kept[k];
      }
    }
  }

  lemma ThroughRises(lower: char -> char, resolve: string -> Option<Url>, texts: seq<string>, links: seq<string>,
      e: seq<nat>, key: string -> string, excluded: set<string>, kept: seq<string>, f: seq<nat>, max: nat)
    requires EligibleAre(lower, resolve, texts, links, e) && FirstsAre(key, excluded, links, kept, f)
    ensures var out := Take(max, kept); var at := Through(e, f, |out|);
      && |at| == |out| <= max && Rising(at)
      && forall k :: 0 <= k < |at| ==> at[k] < |texts| && LeadsTo(lower, resolve, texts[at[k]], out[k])
  {
  }

  lemma HarvestStandsByKey(lower: char -> char, resolve: string -> Option<Url>, source: string, max: nat,
      raws: seq<string>) returns (at: seq<nat>)
    requires forall s :: s in raws ==> Tidy(s)
    ensures KeepsByKey(lower, resolve, source, max, raws, Harvest(lower, resolve, source, max, raws), at)
  {
    var links := Eligible(lower, resolve, raws);
    var e := EligibleStand(lower, resolve, raws);
    var f := FirstsStand(DropSlash, {DropSlash(source)}, links);
    at := KeptAt(lower, resolve, source, max, raws, links, e, Firsts(DropSlash, {DropSlash(source)}, links), f);
  }

  lemma KeptAt(lower: char -> char, resolve: string -> Option<Url>, source: string, max: nat, texts: seq<string>,
      links: seq<string>, e: seq<nat>, kept: seq<string>, f: seq<nat>) returns (at: seq<nat>)
    requires EligibleAre(lower, resolve, texts, links, e)
    requires FirstsAre(DropSlash, {DropSlash(source)}, links, kept, f)
    ensures KeepsByKey(lower, resolve, source, max, texts, Take(max, kept), at)
  {
    var out := Take(max, kept);
    ThroughRises(lower, resolve, texts, links, e, DropSlash, {DropSlash(source)}, kept, f, max);
    at := Through(e, f, |out|);
    forall i, link | 0 <= i < |texts| && LeadsTo(lower, resolve, texts[i], link) && i !in at
      ensures DropSlash(link) == DropSlash(source)
        || (exists k :: 0 <= k < |out| && at[k] < i && DropSlash(link) == DropSlash(out[k]))
        || (|out| == max && forall k :: 0 <= k < |at| ==> at[k] < i)
    {
      LeftOutAt(lower, resolve, source, max, texts, links, e, kept, f, out, i, link);
    }
  }

  /** A harvest of at most `max` links from listed texts, told by place: `at` are the places of
      the links kept. No kept link is the source page and no two are the same page; a link is
      left out only if it is the source page, repeats one kept before it, or comes after `max`
      kept ones. */
  ghost predicate Keeps(lower: char -> char, resolve: string -> Option<Url>, source: string, max: nat,
      texts: seq<string>, out: seq<string>, at: seq<nat>)
  {
    && |at| == |out| <= max && Rising(at)
    && (forall k :: 0 <= k < |at| ==> at[k] < |texts| && LeadsTo(lower, resolve, texts[at[k]], out[k]))
    && (forall k :: 0 <= k < |out| ==> !SamePage(out[k], source))
    && (forall j, k :: 0 <= j < k < |out| ==> !SamePage(out[j], out[k]))
    && (forall i, link :: 0 <= i < |texts| && LeadsTo(lower, resolve, texts[i], link) && i !in at ==>
          || SamePage(link, source)
          || (exists k :: 0 <= k < |out| && at[k] < i && SamePage(link, out[k]))
          || (|out| == max && forall k :: 0 <= k < |at| ==> at[k] < i))
  }

  lemma KeysAreDifferentPages(source: string, out: seq<string>)
    requires forall t :: t in out ==> DropSlash(t) != DropSlash(source)
    requires forall i, j :: 0 <= i < j < |out| ==> DropSlash(out[i]) != DropSlash(out[j])
    ensures forall k :: 0 <= k < |out| ==> !SamePage(out[k], source)
    ensures forall j, k :: 0 <= j < k < |out| ==> !SamePage(out[j], out[k])
  {
    forall k | 0 <= k < |out| ensures !SamePage(out[k], source) { SamePageIsSameKey(out[k], source); }
    forall j, k | 0 <= j < k < |out| ensures !SamePage(out[j], out[k]) { SamePageIsSameKey(out[j], out[k]); }
  }

  lemma KeptByPage(lower: char -> char, resolve: string -> Option<Url>, source: string, max: nat,
      texts: seq<string>, out: seq<string>, at: seq<nat>, i: nat, link: string)
    requires KeepsByKey(lower, resolve, source, max, texts, out, at)
    requires i < |texts| && LeadsTo(lower, resolve, texts[i], link) && i !in at
    ensures SamePage(link, source)
      || (exists k :: 0 <= k < |out| && at[k] < i && SamePage(link, out[k]))
      || (|out| == max && forall k :: 0 <= k < |at| ==> at[k] < i)
  {
    SamePageIsSameKey(link, source);
    if k :| 0 <= k < |out| && at[k] < i && DropSlash(link) == DropSlash(out[k]) {
      SamePageIsSameKey(link, out[k]);
    }
  }

  lemma HarvestStands(lower: char -> char, resolve: string -> Option<Url>, source: string, max: nat,
      raws: seq<string>) returns (at: seq<nat>)
    requires forall s :: s in raws ==> Tidy(s)
    ensures Keeps(lower, resolve, source, max, raws, Harvest(lower, resolve, source, max, raws), at)
  {
    var out := Harvest(lower, resolve, source, max, raws);
    at := HarvestStandsByKey(lower, resolve, source, max, raws);
    HarvestDelivers(lower, resolve, source, max, raws);
    KeysAreDifferentPages(source, out);
    forall i, link | 0 <= i < |raws| && LeadsTo(lower, resolve, raws[i], link) && i !in at
      ensures SamePage(link, source)
        || (exists k :: 0 <= k < |out| && at[k] < i && SamePage(link, out[k]))
        || (|out| == max && forall k :: 0 <= k < |at| ==> at[k] < i)
    {
      KeptByPage(lower, resolve, source, max, raws, out, at, i, link);
    }
  }

  /** What a page's scripts deliver: the listed places of all scripts, in document order, and
      at which of them the links kept stand. */
  lemma ListingDelivers(lower: char -> char, resolve: string -> Option<Url>, source: string, max: nat,
      scripts: seq<Json>) returns (spots: seq<Spot>, at: seq<nat>)
    ensures forall s :: s in spots <==> Lists(Arr(scripts), s.path, s.text)
    ensures forall i, j :: 0 <= i < j < |spots| ==> Before(spots[i].path, spots[j].path)
    ensures Keeps(lower, resolve, source, max, Texts(spots),
                  Harvest(lower, resolve, source, max, ListingUrlsOf(scripts)), at)
  {
    spots := ListedPlacesAreTheLinks(Arr(scripts));
    ListingUrlsAreTidy(Arr(scripts));
    at := HarvestStands(lower, resolve, source, max, ListingUrls(Arr(scripts)));
    assert Texts(spots) == ListingUrlsOf(scripts);
  }
}
