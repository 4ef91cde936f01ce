/** Apple's signing keys: the RSA exponent of a JWK, and the cache with its stale fallback. */
module KeySource {
  import opened Text

  type Byte = b: int | 0 <= b < 256

  const WORD: int := 0x1_0000_0000_0000_0000
  const HALF_WORD: int := 0x8000_0000_0000_0000

  // ----- machine words -----

  /** Bitwise or, bit by bit. */
  function Or(x: nat, y: nat): nat
    decreases x + y
  {
    if x == 0 && y == 0 then 0
    else 2 * Or(x / 2, y / 2) + if x % 2 == 1 || y % 2 == 1 then 1 else 0
  }

  /** The low 64 bits of x << 8. */
  function ShiftByte(x: nat): nat { x * 256 % WORD }

  /** The int64 that a 64-bit word stands for in two's complement. */
  function Signed(word: nat): int { if word < HALF_WORD then word else word - WORD }

  function Power2(k: nat): nat { if k == 0 then 1 else 2 * Power2(k - 1) }

  lemma {:induction false} OrZero(x: nat)
    ensures Or(x, 0) == x == Or(0, x)
  {
    if x > 0 { OrZero(x / 2); }
  }

  /** Or-ing into cleared low bits is adding. */
  lemma {:induction false} OrOfDisjoint(x: nat, y: nat, k: nat)
    requires y < Power2(k)
    ensures Or(x * Power2(k), y) == x * Power2(k) + y
  {
    if k == 0 {
      OrZero(x);
    } else {
      var high, p := x * Power2(k), Power2(k - 1);
      HalfOfShifted(x, p);
      assert high == x * (2 * p);
      OrOfDisjoint(x, y / 2, k - 1);
      if high == 0 && y == 0 {
      } else {
        assert Or(high, y) == 2 * Or(high / 2, y / 2) + if high % 2 == 1 || y % 2 == 1 then 1 else 0;
      }
    }
  }

  lemma HalfOfShifted(x: nat, p: nat)
    ensures x * (2 * p) / 2 == x * p && x * (2 * p) % 2 == 0
  {
    assert x * (2 * p) == 2 * (x * p);
  }

  // ----- the exponent -----

  /** The integer the octets stand for, most significant first
      (Base64urlUInt, sections 2 and 6.3.1.2 of RFC 7518). */
  function BigEndian(bytes: seq<Byte>): nat {
    if bytes == [] then 0 else BigEndian(bytes[..|bytes| - 1]) * 256 + bytes[|bytes| - 1]
  }

  /** Shifting a word drops a multiple of 2^64 and leaves the low byte clear. */
  lemma ShiftDrops(word: nat) returns (q: nat, x: nat)
    requires word < WORD
    ensures ShiftByte(word) == x * 256 && word * 256 == q * WORD + x * 256
  {
    q := word * 256 / WORD;
    x := word - q * (WORD / 256);
  }

  lemma OrByte(x: nat, b: Byte)
    ensures Or(x * 256, b) == x * 256 + b
  {
    assert Power2(4) == 16;
    assert Power2(8) == 256;
    OrOfDisjoint(x, b, 8);
  }

  lemma FoldStep(word: nat, total: nat, b: Byte)
    requires word == total % WORD
    ensures Or(ShiftByte(word), b) == (total * 256 + b) % WORD
  {
    var q, x := ShiftDrops(word);
    OrByte(x, b);
    var t := total / WORD;
    Scaled(total, t, word, q, x);
    Remainder(total * 256 + b, t * 256 + q, x * 256 + b);
  }

  lemma Scaled(total: nat, t: nat, word: nat, q: nat, x: nat)
    requires total == t * WORD + word && word * 256 == q * WORD + x * 256
    ensures total * 256 == (t * 256 + q) * WORD + x * 256
  {
  }

  lemma Remainder(n: int, q: int, r: int)
    requires n == q * WORD + r && 0 <= r < WORD
    ensures n % WORD == r
  {
  }

  /** None is the refusal of a zero exponent. */
  method Exponent(bytes: seq<Byte>) returns (e: Option<int>)
    ensures e == None <==> BigEndian(bytes) % WORD == 0
    ensures e.Some? ==> e.value == Signed(BigEndian(bytes) % WORD)
  {
    var word: nat := 0;
    for i := 0 to |bytes|
      invariant word == BigEndian(bytes[..i]) % WORD
    {
      assert bytes[..i + 1][..i] == bytes[..i];
      FoldStep(word, BigEndian(bytes[..i]), bytes[i]);
      word := Or(ShiftByte(word), bytes[i]);
    }
    assert bytes[..|bytes|] == bytes;
    if word == 0 {
      return None;
    }
    e := Some(Signed(word));
  }

  function ExponentOf(bytes: seq<Byte>): Option<int> {
    var word := BigEndian(bytes) % WORD;
    if word == 0 then None else Some(Signed(word))
  }

  /** The octets' integer comes out unchanged exactly when it fits an int64. */
  lemma ExponentIsExactExactlyWhen(bytes: seq<Byte>)
    ensures ExponentOf(bytes) == Some(BigEndian(bytes)) <==> 0 < BigEndian(bytes) < HALF_WORD
  {
    var n, q := BigEndian(bytes), BigEndian(bytes) / WORD;
    if n < HALF_WORD {
      Remainder(n, 0, n);
    }
  }

  function Power256(k: nat): nat { if k == 0 then 1 else 256 * Power256(k - 1) }

  lemma {:induction false} BigEndianBound(bytes: seq<Byte>)
    ensures BigEndian(bytes) < Power256(|bytes|)
  {
    if bytes != [] { BigEndianBound(bytes[..|bytes| - 1]); }
  }

  lemma {:induction false} Power256Grows(a: nat, b: nat)
    requires a <= b
    ensures Power256(a) <= Power256(b)
  {
    if a < b { Power256Grows(a, b - 1); }
  }

  /** Up to 7 octets: the exponent is the octets' integer, refused exactly when it is zero. */
  lemma ShortExponentIsExact(bytes: seq<Byte>)
    requires |bytes| <= 7
    ensures ExponentOf(bytes) == if BigEndian(bytes) == 0 then None else Some(BigEndian(bytes))
  {
    BigEndianBound(bytes);
    Power256Grows(|bytes|, 7);
    assert Power256(3) == 0x100_0000;
    assert Power256(5) == 0x100_0000 * 0x1_0000;
    assert Power256(7) < HALF_WORD;
    Remainder(BigEndian(bytes), 0, BigEndian(bytes));
  }

  lemma {:induction false} LeadingZerosAreIgnored(zeros: nat, bytes: seq<Byte>)
    ensures BigEndian(seq(zeros, _ => 0) + bytes) == BigEndian(bytes)
    ensures ExponentOf(seq(zeros, _ => 0) + bytes) == ExponentOf(bytes)
    decreases |bytes|, zeros
  {
    var padding: seq<Byte> := seq(zeros, _ => 0);
    if bytes != [] {
      LeadingZerosAreIgnored(zeros, bytes[..|bytes| - 1]);
      assert (padding + bytes)[..|padding + bytes| - 1] == padding + bytes[..|bytes| - 1];
    } else if zeros > 0 {
      var less: seq<Byte> := seq(zeros - 1, _ => 0);
      LeadingZerosAreIgnored(zeros - 1, bytes);
      assert (padding + bytes)[..zeros - 1] == less + bytes;
    }
  }

  /** The shortest octets for n, as section 2 of RFC 7518 asks an issuer to write them. */
  function Octets(n: nat): seq<Byte> { if n == 0 then [] else Octets(n / 256) + [n % 256] }

  lemma {:induction false} OctetsRoundTrip(n: nat)
    ensures BigEndian(Octets(n)) == n
    ensures 0 < n < HALF_WORD ==> ExponentOf(Octets(n)) == Some(n)
    decreases n
  {
    if n > 0 {
      OctetsRoundTrip(n / 256);
      assert Octets(n)[..|Octets(n)| - 1] == Octets(n / 256);
    }
    ExponentIsExactExactlyWhen(Octets(n));
  }

  // ----- the key cache -----

  /** Undecodable base64 is None. */
  datatype Jwk = Jwk(kty: string, kid: string, modulus: Option<seq<Byte>>, exponent: Option<seq<Byte>>)

  datatype PublicKey = PublicKey(n: nat, e: int)

  function RsaPublicKey(k: Jwk): Option<PublicKey> {
    if k.modulus == None || k.exponent == None || ExponentOf(k.exponent.value) == None then None
    else Some(PublicKey(BigEndian(k.modulus.value), ExponentOf(k.exponent.value).value))
  }

  /** The usable keys of a document; a repeated kid means its last usable key. */
  function Usable(doc: seq<Jwk>): map<string, PublicKey> {
    if doc == [] then map[]
    else
      var k := doc[|doc| - 1];
      var before := Usable(doc[..|doc| - 1]);
      if k.kty == "RSA" && RsaPublicKey(k).Some? then before[k.kid := RsaPublicKey(k).value] else before
  }

  /** Entry i is an RSA key of that id with a modulus and an exponent that can be used. */
  predicate Names(doc: seq<Jwk>, i: nat, kid: string) {
    && i < |doc| && doc[i].kid == kid && doc[i].kty == "RSA"
    && doc[i].modulus.Some? && doc[i].exponent.Some? && ExponentOf(doc[i].exponent.value).Some?
  }

  predicate LastNames(doc: seq<Jwk>, i: nat, kid: string) {
    Names(doc, i, kid) && forall j :: i < j < |doc| ==> !Names(doc, j, kid)
  }

  lemma OneMoreJwk(doc: seq<Jwk>, kid: string)
    requires doc != []
    ensures var n, usable, before := |doc| - 1, Usable(doc), Usable(doc[..|doc| - 1]);
      if Names(doc, n, kid) then
        && kid in usable
        && usable[kid] == PublicKey(BigEndian(doc[n].modulus.value), ExponentOf(doc[n].exponent.value).value)
      else (kid in usable <==> kid in before) && (kid in usable ==> usable[kid] == before[kid])
  {
  }

  lemma SameLastNames(doc: seq<Jwk>, i: nat, kid: string)
    requires doc != [] && !Names(doc, |doc| - 1, kid)
    ensures Names(doc, i, kid) <==> Names(doc[..|doc| - 1], i, kid)
    ensures LastNames(doc, i, kid) <==> LastNames(doc[..|doc| - 1], i, kid)
  {
    var init := doc[..|doc| - 1];
    assert forall j :: 0 <= j < |init| ==> init[j] == doc[j];
    assert forall j: nat :: Names(init, j, kid) <==> Names(doc, j, kid);
  }

  /** An id stands for the last usable RSA entry of that id, and for none if there is none. */
  lemma {:induction false} UsableMeans(doc: seq<Jwk>, kid: string)
    ensures kid in Usable(doc) <==> exists i: nat :: LastNames(doc, i, kid)
    ensures forall i: nat :: LastNames(doc, i, kid) && kid in Usable(doc) ==>
      Usable(doc)[kid] == PublicKey(BigEndian(doc[i].modulus.value), ExponentOf(doc[i].exponent.value).value)
  {
    if doc != [] {
      var n := |doc| - 1;
      OneMoreJwk(doc, kid);
      if Names(doc, n, kid) {
        assert LastNames(doc, n, kid);
      } else {
        UsableMeans(doc[..n], kid);
        forall i: nat
          ensures LastNames(doc, i, kid) <==> LastNames(doc[..n], i, kid)
        {
          SameLastNames(doc, i, kid);
        }
        forall i: nat | LastNames(doc, i, kid)
          ensures doc[..n][i] == doc[i]
        {
        }
        if kid in Usable(doc) {
          var i: nat :| LastNames(doc[..n], i, kid);
          assert LastNames(doc, i, kid);
        }
      }
    }
  }

  /** A fetch that gets no document, or one without usable keys, fails. */
  predicate Refreshes(fetch: Option<seq<Jwk>>) { fetch.Some? && Usable(fetch.value) != map[] }

  datatype Cache = Cache(keys: map<string, PublicKey>, fetched: int)

  predicate Hit(c: Cache, kid: string, now: int, ttl: int) { kid in c.keys && now - c.fetched < ttl }

  /** One request for a key at `now`; `fetch` is what the endpoint would answer. */
  datatype Request = Request(kid: string, now: int, fetch: Option<seq<Jwk>>)

  function Ask(c: Cache, r: Request, ttl: int): (Option<PublicKey>, Cache) {
    var after := if !Hit(c, r.kid, r.now, ttl) && Refreshes(r.fetch) then Cache(Usable(r.fetch.value), r.now) else c;
    (if r.kid in after.keys then Some(after.keys[r.kid]) else None, after)
  }

  class AppleKeySource {
    const ttl: int
    var keys: map<string, PublicKey>
    var fetched: int

    constructor (ttl: int)
      ensures this.ttl == ttl && keys == map[]
    {
      this.ttl := ttl;
      keys, fetched := map[], 0;
    }

    ghost function Contents(): Cache reads this { Cache(keys, fetched) }

    method Key(r: Request) returns (key: Option<PublicKey>)
      modifies this
      ensures (key, Contents()) == Ask(old(Contents()), r, ttl)
      ensures r.kid in old(keys) && r.now - old(fetched) < ttl ==>
        key == Some(old(keys)[r.kid]) && keys == old(keys) && fetched == old(fetched)
      ensures !(r.kid in old(keys) && r.now - old(fetched) < ttl) && r.fetch.Some? && Usable(r.fetch.value) != map[] ==>
        && keys == Usable(r.fetch.value) && fetched == r.now
        && (r.kid in keys ==> key == Some(keys[r.kid])) && (r.kid !in keys ==> key == None)
      ensures r.fetch == None || Usable(r.fetch.value) == map[] ==>
        && keys == old(keys) && fetched == old(fetched)
        && (r.kid in keys ==> key == Some(keys[r.kid])) && (r.kid !in keys ==> key == None)
    {
      if r.kid in keys && r.now - fetched < ttl {
        return Some(keys[r.kid]);
      }
      var refreshed := Refresh(r.fetch, r.now);
      if !refreshed {
        // serve a stale key if there is one
        if r.kid in keys {
          return Some(keys[r.kid]);
        }
        return None;
      }
      if r.kid !in keys {
        return None;
      }
      key := Some(keys[r.kid]);
    }

    method Refresh(fetch: Option<seq<Jwk>>, now: int) returns (ok: bool)
      modifies this
      ensures ok == Refreshes(fetch)
      ensures Contents() == if ok then Cache(Usable(fetch.value), now) else old(Contents())
    {
      if fetch == None { return false; }
      var doc, found: map<string, PublicKey> := fetch.value, map[];
      for i := 0 to |doc|
        invariant found == Usable(doc[..i])
        invariant keys == old(keys) && fetched == old(fetched)
      {
        assert doc[..i + 1][..i] == doc[..i];
        if doc[i].kty != "RSA" { continue; }
        if doc[i].modulus == None || doc[i].exponent == None { continue; }
        var e := Exponent(doc[i].exponent.value);
        if e == None { continue; }
        found := found[doc[i].kid := PublicKey(BigEndian(doc[i].modulus.value), e.value)];
      }
      assert doc[..|doc|] == doc;
      if found == map[] { return false; }
      keys, fetched := found, now;
      ok := true;
    }
  }

  function Serve(rs: seq<Request>, ttl: int): Cache {
    if rs == [] then Cache(map[], 0) else Ask(Serve(rs[..|rs| - 1], ttl), rs[|rs| - 1], ttl).1
  }

  /** Request i went to the endpoint and got usable keys. */
  predicate Fetched(rs: seq<Request>, ttl: int, i: nat)
    requires i < |rs|
  {
    !Hit(Serve(rs[..i], ttl), rs[i].kid, rs[i].now, ttl) && Refreshes(rs[i].fetch)
  }

  predicate LastFetched(rs: seq<Request>, ttl: int, i: nat) {
    i < |rs| && Fetched(rs, ttl, i) && forall j :: i < j < |rs| ==> !Fetched(rs, ttl, j)
  }

  lemma SameFetched(rs: seq<Request>, init: seq<Request>, ttl: int, i: nat)
    requires rs != [] && init == rs[..|rs| - 1] && i < |init|
    ensures Fetched(init, ttl, i) == Fetched(rs, ttl, i) && init[i] == rs[i]
  {
    assert init[..i] == rs[..i];
  }

  lemma StillUnfetched(rs: seq<Request>, init: seq<Request>, ttl: int, from: int)
    requires rs != [] && init == rs[..|rs| - 1] && !Fetched(rs, ttl, |rs| - 1)
    requires forall j :: from < j < |init| && 0 <= j ==> !Fetched(init, ttl, j)
    ensures forall j :: from < j < |rs| && 0 <= j ==> !Fetched(rs, ttl, j)
  {
    forall j | from < j < |rs| && 0 <= j
      ensures !Fetched(rs, ttl, j)
    {
      if j < |rs| - 1 { SameFetched(rs, init, ttl, j); }
    }
  }

  /** The cache holds what request i fetched, and nothing was fetched since. */
  predicate HoldsDocument(rs: seq<Request>, ttl: int, i: nat, c: Cache) {
    LastFetched(rs, ttl, i) && c == Cache(Usable(rs[i].fetch.value), rs[i].now)
  }

  /** After any run of requests the cache is the document fetched last, or still empty. */
  lemma {:induction false} CacheIsLastDocument(rs: seq<Request>, ttl: int)
    ensures var c := Serve(rs, ttl);
      || (c.keys == map[] && forall i :: 0 <= i < |rs| ==> !Fetched(rs, ttl, i))
      || (exists i: nat :: HoldsDocument(rs, ttl, i, c))
  {
    if rs != [] {
      var n := |rs| - 1;
      var init := rs[..n];
      CacheIsLastDocument(init, ttl);
      if Fetched(rs, ttl, n) {
        assert HoldsDocument(rs, ttl, n, Serve(rs, ttl));
      } else if i: nat :| HoldsDocument(init, ttl, i, Serve(init, ttl)) {
        SameFetched(rs, init, ttl, i);
        StillUnfetched(rs, init, ttl, i);
        assert HoldsDocument(rs, ttl, i, Serve(rs, ttl));
      } else {
        StillUnfetched(rs, init, ttl, -1);
      }
    }
  }

  /** A key that is served is the one the document fetched last lists; and it is served past
      its time to live only when the endpoint would not answer. */
  lemma ServedFromTheLastDocument(rs: seq<Request>, ttl: int, r: Request)
    requires Ask(Serve(rs, ttl), r, ttl).0.Some?
    ensures var c := Ask(Serve(rs, ttl), r, ttl).1;
      && (exists i: nat :: HoldsDocument(rs + [r], ttl, i, c))
      && r.kid in c.keys && Ask(Serve(rs, ttl), r, ttl).0 == Some(c.keys[r.kid])
      && (r.now - c.fetched >= ttl && ttl > 0 ==> !Refreshes(r.fetch))
  {
    var all := rs + [r];
    assert all[..|rs|] == rs;
    CacheIsLastDocument(all, ttl);
  }
}
