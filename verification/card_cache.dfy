/** The in-memory card cache: `load_card_cache` (app.py:36-43) and
    `get_random_card_from_cache` (app.py:110-115). */
module CardCache {

  import opened Optional
  import opened Cards

  /** The group of a card that has no rarity field. */
  const DefaultRarity := "common"

  /** `card.get("rarity", "common")`: a card's own rarity, and "common"
      for one without. */
  function GroupKey(c: Card): (k: string)
    ensures c.rarity.Some? ==> k == c.rarity.value
    ensures k == DefaultRarity <==> c.rarity.None? || c.rarity == Some(DefaultRarity)
  {
    match c.rarity
    case Some(r) => r
    case None => DefaultRarity
  }

  /** One entry of the cache dictionary. */
  datatype Group = Group(rarity: string, cards: seq<Card>)

  /** The cache dictionary, its entries in insertion order. */
  type Cache = seq<Group>

  ghost predicate DistinctKeys(cache: Cache)
  {
    forall i, j :: 0 <= i < j < |cache| ==> cache[i].rarity != cache[j].rarity
  }

  /** `CARD_CACHE.get(rarity)`, a missing key read as the empty list (the
      caller only asks whether the result is falsy). */
  function Lookup(cache: Cache, rarity: string): seq<Card>
  {
    if |cache| == 0 then []
    else if cache[0].rarity == rarity then cache[0].cards
    else Lookup(cache[1..], rarity)
  }

  /** The union of all groups, in dictionary order. */
  function Flatten(cache: Cache): seq<Card>
  {
    if |cache| == 0 then [] else cache[0].cards + Flatten(cache[1..])
  }

  /** The cards of `cards` whose group is `rarity`, in order: the reference
      against which the cache is checked. */
  function OfKey(cards: seq<Card>, rarity: string): seq<Card>
  {
    if |cards| == 0 then []
    else
      var last := cards[|cards| - 1];
      OfKey(cards[..|cards| - 1], rarity) + (if GroupKey(last) == rarity then [last] else [])
  }

  /** The reference group holds exactly the cards of that key. */
  lemma {:induction false} OfKeyMember(cards: seq<Card>, rarity: string, c: Card)
    ensures c in OfKey(cards, rarity) <==> c in cards && GroupKey(c) == rarity
    decreases |cards|
  {
    if |cards| > 0 {
      var n := |cards| - 1;
      assert cards == cards[..n] + [cards[n]];
      OfKeyMember(cards[..n], rarity, c);
    }
  }

  lemma OfKeySnoc(cards: seq<Card>, c: Card, rarity: string)
    ensures OfKey(cards + [c], rarity) == OfKey(cards, rarity) + (if GroupKey(c) == rarity then [c] else [])
  {
    assert (cards + [c])[..|cards|] == cards;
  }

  /** `CARD_CACHE.setdefault(GroupKey(c), []).append(c)`. */
  function Insert(cache: Cache, c: Card): (r: Cache)
    ensures |cache| <= |r| <= |cache| + 1
    ensures forall i :: 0 <= i < |cache| ==> r[i].rarity == cache[i].rarity
    ensures |r| == |cache| + 1 ==> r[|cache|] == Group(GroupKey(c), [c])
    ensures |r| == |cache| + 1 ==> forall i :: 0 <= i < |cache| ==> cache[i].rarity != GroupKey(c)
  {
    if |cache| == 0 then [Group(GroupKey(c), [c])]
    else if cache[0].rarity == GroupKey(c) then [cache[0].(cards := cache[0].cards + [c])] + cache[1..]
    else [cache[0]] + Insert(cache[1..], c)
  }

  /** Inserting a card appends it to its own group and to no other. */
  lemma {:induction false} InsertLookup(cache: Cache, c: Card, k: string)
    requires DistinctKeys(cache)
    ensures Lookup(Insert(cache, c), k) == Lookup(cache, k) + (if k == GroupKey(c) then [c] else [])
    decreases |cache|
  {
    if |cache| > 0 {
      var r := Insert(cache, c);
      if cache[0].rarity == GroupKey(c) {
        assert r[1..] == cache[1..];
        if k != GroupKey(c) && cache[0].rarity != k {
          assert Lookup(r, k) == Lookup(cache[1..], k);
        }
      } else {
        assert r[1..] == Insert(cache[1..], c);
        if cache[0].rarity != k {
          InsertLookup(cache[1..], c, k);
        }
      }
    }
  }

  /** The union of all groups gains exactly the inserted card. */
  lemma {:induction false} InsertFlatten(cache: Cache, c: Card)
    ensures multiset(Flatten(Insert(cache, c))) == multiset(Flatten(cache)) + multiset{c}
    decreases |cache|
  {
    if |cache| > 0 {
      var r := Insert(cache, c);
      if cache[0].rarity == GroupKey(c) {
        assert r[1..] == cache[1..];
        assert Flatten(r) == (cache[0].cards + [c]) + Flatten(cache[1..]);
        assert Flatten(cache) == cache[0].cards + Flatten(cache[1..]);
      } else {
        assert r[1..] == Insert(cache[1..], c);
        InsertFlatten(cache[1..], c);
      }
    }
  }

  /** Insertion keeps the keys distinct and every group non-empty. */
  lemma {:induction false} InsertShape(cache: Cache, c: Card)
    requires DistinctKeys(cache)
    ensures DistinctKeys(Insert(cache, c))
    ensures forall i :: 0 <= i < |Insert(cache, c)| ==>
              Insert(cache, c)[i].rarity == GroupKey(c) || exists j :: 0 <= j < |cache| && Insert(cache, c)[i] == cache[j]
    decreases |cache|
  {
    if |cache| > 0 {
      var r := Insert(cache, c);
      if cache[0].rarity == GroupKey(c) {
        assert r[1..] == cache[1..];
        forall i | 1 <= i < |r| ensures r[i] == cache[i] {
        }
      } else {
        var rest := Insert(cache[1..], c);
        assert r[1..] == rest;
        InsertShape(cache[1..], c);
        forall i | 1 <= i < |r|
          ensures r[i].rarity == GroupKey(c) || exists j :: 0 <= j < |cache| && r[i] == cache[j]
        {
          assert r[i] == rest[i - 1];
          if rest[i - 1].rarity != GroupKey(c) {
            var j :| 0 <= j < |cache[1..]| && rest[i - 1] == cache[1..][j];
            assert r[i] == cache[j + 1];
          }
        }
      }
    }
  }

  lemma {:induction false} InsertNonEmpty(cache: Cache, c: Card)
    requires forall i :: 0 <= i < |cache| ==> |cache[i].cards| > 0
    ensures forall i :: 0 <= i < |Insert(cache, c)| ==> |Insert(cache, c)[i].cards| > 0
    decreases |cache|
  {
    if |cache| > 0 && cache[0].rarity != GroupKey(c) {
      InsertNonEmpty(cache[1..], c);
      assert Insert(cache, c)[1..] == Insert(cache[1..], c);
    }
  }

  /** Every member of a group is part of the union. */
  lemma {:induction false} LookupInFlatten(cache: Cache, rarity: string)
    ensures forall c :: c in Lookup(cache, rarity) ==> c in Flatten(cache)
  {
    if |cache| > 0 && cache[0].rarity != rarity {
      LookupInFlatten(cache[1..], rarity);
    }
  }

  /** `cache` is what loading `cards` in order produces: distinct keys, each
      group the cards of its key, together a permutation of `cards`, and no
      empty group. */
  ghost predicate LoadedFrom(cache: Cache, cards: seq<Card>)
  {
    && DistinctKeys(cache)
    && (forall k :: Lookup(cache, k) == OfKey(cards, k))
    && multiset(Flatten(cache)) == multiset(cards)
    && (forall i :: 0 <= i < |cache| ==> |cache[i].cards| > 0)
  }

  /** One iteration of the loading loop. */
  lemma InsertLoads(cache: Cache, cards: seq<Card>, c: Card)
    requires LoadedFrom(cache, cards)
    ensures LoadedFrom(Insert(cache, c), cards + [c])
  {
    InsertShape(cache, c);
    InsertFlatten(cache, c);
    InsertNonEmpty(cache, c);
    forall k ensures Lookup(Insert(cache, c), k) == OfKey(cards + [c], k) {
      InsertLookup(cache, c, k);
      OfKeySnoc(cards, c, k);
    }
  }

  /** `load_card_cache`: rebuild the cache from every card document. */
  method LoadCardCache(cards: seq<Card>) returns (cache: Cache)
    ensures DistinctKeys(cache)
    ensures forall k :: Lookup(cache, k) == OfKey(cards, k)
    ensures multiset(Flatten(cache)) == multiset(cards)
    ensures forall i :: 0 <= i < |cache| ==> |cache[i].cards| > 0
  {
    cache := [];
    var i := 0;
    while i < |cards|
      invariant 0 <= i <= |cards|
      invariant LoadedFrom(cache, cards[..i])
    {
      InsertLoads(cache, cards[..i], cards[i]);
      assert cards[..i + 1] == cards[..i] + [cards[i]];
      cache := Insert(cache, cards[i]);
      i := i + 1;
    }
    assert cards[..i] == cards;
  }

  /** `get_random_card_from_cache(rarity)`, `pick` standing for the random
      index: the requested group when non-empty, else the union of all
      groups, else nothing. */
  function Sample(cache: Cache, rarity: string, pick: nat): (r: Option<Card>)
    ensures r.None? <==> |Flatten(cache)| == 0
    ensures |Lookup(cache, rarity)| > 0 ==> r.Some? && r.value in Lookup(cache, rarity)
    ensures r.Some? ==> r.value in Flatten(cache)
  {
    var group := Lookup(cache, rarity);
    LookupInFlatten(cache, rarity);
    if |group| > 0 then
      assert group[pick % |group|] in Flatten(cache);
      Some(group[pick % |group|])
    else
      var all := Flatten(cache);
      if |all| == 0 then None else Some(all[pick % |all|])
  }

  /** A position at which `c` occurs in `s`. */
  function IndexOf(s: seq<Card>, c: Card): (i: nat)
    requires c in s
    ensures i < |s| && s[i] == c
  {
    if s[0] == c then 0 else 1 + IndexOf(s[1..], c)
  }

  /** An index already inside the pool is its own reduction. Stated apart
      from `SampleReachesPool`, whose larger context makes the solver's
      modular arithmetic far more expensive. */
  lemma ModSmall(i: nat, n: nat)
    requires i < n
    ensures i % n == i
  {
  }

  /** Every card of the pool the sample draws from is reachable by some
      choice of the random index. */
  lemma SampleReachesPool(cache: Cache, rarity: string, c: Card)
    requires c in Lookup(cache, rarity) || (|Lookup(cache, rarity)| == 0 && c in Flatten(cache))
    ensures exists pick: nat :: Sample(cache, rarity, pick) == Some(c)
  {
    var group := Lookup(cache, rarity);
    var pool := if |group| > 0 then group else Flatten(cache);
    var i := IndexOf(pool, c);
    ModSmall(i, |pool|);
    assert Sample(cache, rarity, i) == Some(pool[i]);
  }

  /** The cache as the bot uses it: loaded from the catalog at startup,
      then sampled. Nothing comes back only for an empty catalog; otherwise
      a catalog card, of the requested rarity whenever the catalog has one. */
  method SampleAfterLoad(cards: seq<Card>, rarity: string, pick: nat) returns (r: Option<Card>)
    ensures r.None? <==> |cards| == 0
    ensures r.Some? ==> r.value in cards
    ensures (exists c :: c in cards && GroupKey(c) == rarity) ==> r.Some? && GroupKey(r.value) == rarity
  {
    var cache := LoadCardCache(cards);
    r := Sample(cache, rarity, pick);
    assert |Flatten(cache)| == |cards| by {
      assert |multiset(Flatten(cache))| == |multiset(cards)|;
    }
    if r.Some? {
      assert r.value in multiset(Flatten(cache));
    }
    if exists c :: c in cards && GroupKey(c) == rarity {
      var c :| c in cards && GroupKey(c) == rarity;
      OfKeyMember(cards, rarity, c);
      OfKeyMember(cards, rarity, r.value);
    }
  }

}
