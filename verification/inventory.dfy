/** The `inventory` collection and the reward rule of `give_random_card`
    (app.py:169-183). The collection is a sequence of entry documents, so
    that "one entry per (user, card)" is an invariant and not a given. */
module Inventory {

  import opened Optional
  import opened Cards

  /** One inventory document: who owns which card, how many copies. */
  datatype Entry = Entry(user: string, card: CardId, quantity: int)

  type Inv = seq<Entry>

  /** Tokens awarded for a card the user did not own yet. */
  const NewCardTokens := 20
  /** Tokens awarded for another copy of an owned card. */
  const DuplicateTokens := 5

  predicate Matches(e: Entry, user: string, card: CardId)
  {
    e.user == user && e.card == card
  }

  /** `inventory_col.find_one({"user_id": user, "card_id": card})`: the
      position of the first matching document. */
  function Find(inv: Inv, user: string, card: CardId): (r: Option<nat>)
    ensures r.None? <==> forall i :: 0 <= i < |inv| ==> !Matches(inv[i], user, card)
    ensures r.Some? ==> r.value < |inv| && Matches(inv[r.value], user, card)
    ensures r.Some? ==> forall i :: 0 <= i < r.value ==> !Matches(inv[i], user, card)
  {
    if |inv| == 0 then None
    else if Matches(inv[0], user, card) then Some(0)
    else match Find(inv[1..], user, card)
      case None => None
      case Some(i) => Some(i + 1)
  }

  predicate Owns(inv: Inv, user: string, card: CardId)
  {
    Find(inv, user, card).Some?
  }

  /** The copies of `card` that `user` holds, 0 when there is no entry. */
  function Quantity(inv: Inv, user: string, card: CardId): int
  {
    match Find(inv, user, card)
    case None => 0
    case Some(i) => inv[i].quantity
  }

  /** At most one document per (user, card). */
  ghost predicate UniquePairs(inv: Inv)
  {
    forall i, j :: 0 <= i < j < |inv| ==> !Matches(inv[j], inv[i].user, inv[i].card)
  }

  /** Every stored quantity is at least one. */
  ghost predicate Positive(inv: Inv)
  {
    forall i :: 0 <= i < |inv| ==> inv[i].quantity >= 1
  }

  /** The documents of one user, in order. */
  function Holdings(inv: Inv, user: string): seq<Entry>
  {
    if |inv| == 0 then []
    else
      var last := inv[|inv| - 1];
      Holdings(inv[..|inv| - 1], user) + (if last.user == user then [last] else [])
  }

  /** The number of distinct cards a user owns: their entry count. */
  function Count(inv: Inv, user: string): nat
  {
    |Holdings(inv, user)|
  }

  function SumQuantities(es: seq<Entry>): int
  {
    if |es| == 0 then 0 else SumQuantities(es[..|es| - 1]) + es[|es| - 1].quantity
  }

  /** All copies a user holds. */
  function Copies(inv: Inv, user: string): int
  {
    SumQuantities(Holdings(inv, user))
  }

  /** The outcome of the inventory update: the new collection, whether the
      card was new, and the tokens awarded. */
  datatype Reward = Reward(inv: Inv, isNew: bool, tokens: int)

  /** The inventory update and award of one draw of `card` by `user`
      (app.py:169-180): one more copy and 5 tokens for an owned card, a new
      entry of quantity 1 and 20 tokens otherwise. The tier is not an input. */
  function Resolve(inv: Inv, user: string, card: CardId): (r: Reward)
    ensures r.isNew <==> !Owns(inv, user, card)
    ensures r.tokens == (if r.isNew then NewCardTokens else DuplicateTokens)
    ensures Owns(r.inv, user, card)
    ensures Quantity(r.inv, user, card) == Quantity(inv, user, card) + 1
    ensures forall u, c :: !(u == user && c == card) ==> Quantity(r.inv, u, c) == Quantity(inv, u, c)
  {
    match Find(inv, user, card)
    case Some(i) =>
      var e := inv[i];
      var inv' := inv[i := e.(quantity := e.quantity + 1)];
      FindSameMatches(inv, inv');
      Reward(inv', false, DuplicateTokens)
    case None =>
      var inv' := inv + [Entry(user, card, 1)];
      FindAppendAll(inv, Entry(user, card, 1));
      Reward(inv', true, NewCardTokens)
  }

  /** Find only looks at who and what each document is about. */
  lemma FindSameMatches(inv: Inv, inv': Inv)
    requires |inv| == |inv'|
    requires forall i :: 0 <= i < |inv| ==> inv[i].user == inv'[i].user && inv[i].card == inv'[i].card
    ensures forall u, c :: Find(inv', u, c) == Find(inv, u, c)
  {
    forall u, c ensures Find(inv', u, c) == Find(inv, u, c) {
      var a, b := Find(inv, u, c), Find(inv', u, c);
      if a.Some? && b.Some? {
        assert !(a.value < b.value) && !(b.value < a.value);
      }
    }
  }

  /** Appending a document is only visible to the pair it matches, and only
      when that pair had no document yet. */
  lemma {:induction false} FindAppend(inv: Inv, e: Entry, u: string, c: CardId)
    ensures Find(inv + [e], u, c)
         == if Find(inv, u, c).None? && Matches(e, u, c) then Some(|inv|) else Find(inv, u, c)
    decreases |inv|
  {
    if |inv| > 0 {
      assert (inv + [e])[0] == inv[0];
      assert (inv + [e])[1..] == inv[1..] + [e];
      FindAppend(inv[1..], e, u, c);
    }
  }

  lemma FindAppendAll(inv: Inv, e: Entry)
    ensures forall u, c ::
              Find(inv + [e], u, c) == if Find(inv, u, c).None? && Matches(e, u, c) then Some(|inv|) else Find(inv, u, c)
  {
    forall u, c {
      FindAppend(inv, e, u, c);
    }
  }

  lemma {:induction false} HoldingsAppend(inv: Inv, e: Entry, user: string)
    ensures Holdings(inv + [e], user) == Holdings(inv, user) + (if e.user == user then [e] else [])
  {
    assert (inv + [e])[..|inv|] == inv;
  }

  lemma {:induction false} SumAppend(es: seq<Entry>, e: Entry)
    ensures SumQuantities(es + [e]) == SumQuantities(es) + e.quantity
  {
    assert (es + [e])[..|es|] == es;
  }

  /** Replacing document `i` by one of the same owner changes that owner's
      holdings at one position and no other user's holdings at all. */
  lemma {:induction false} HoldingsUpdate(inv: Inv, i: nat, e: Entry, user: string)
    requires i < |inv| && e.user == inv[i].user
    ensures user != e.user ==> Holdings(inv[i := e], user) == Holdings(inv, user)
    ensures |Holdings(inv[i := e], user)| == |Holdings(inv, user)|
    ensures user == e.user ==>
      SumQuantities(Holdings(inv[i := e], user)) == SumQuantities(Holdings(inv, user)) + e.quantity - inv[i].quantity
    decreases |inv|
  {
    var n := |inv| - 1;
    var inv' := inv[i := e];
    assert inv == inv[..n] + [inv[n]];
    assert inv' == inv'[..n] + [inv'[n]];
    HoldingsAppend(inv[..n], inv[n], user);
    HoldingsAppend(inv'[..n], inv'[n], user);
    if i == n {
      assert inv'[..n] == inv[..n];
      if user == e.user {
        SumAppend(Holdings(inv[..n], user), inv[n]);
        SumAppend(Holdings(inv[..n], user), e);
      }
    } else {
      assert inv'[..n] == inv[..n][i := e];
      assert inv'[n] == inv[n];
      HoldingsUpdate(inv[..n], i, e, user);
      if user == e.user {
        var h, h' := Holdings(inv[..n], user), Holdings(inv'[..n], user);
        assert SumQuantities(h') == SumQuantities(h) + e.quantity - inv[i].quantity;
        if inv[n].user == user {
          assert Holdings(inv, user) == h + [inv[n]];
          assert Holdings(inv', user) == h' + [inv[n]];
          SumAppend(h, inv[n]);
          SumAppend(h', inv[n]);
        } else {
          assert Holdings(inv, user) == h;
          assert Holdings(inv', user) == h';
        }
      }
    }
  }

  /** Raising the quantity of document `i` keeps the invariants, adds a
      copy but no entry to its owner, and leaves other users alone. */
  lemma IncrementInvariants(inv: Inv, i: nat)
    requires UniquePairs(inv) && Positive(inv)
    requires i < |inv|
    ensures var inv' := inv[i := inv[i].(quantity := inv[i].quantity + 1)];
      && UniquePairs(inv') && Positive(inv')
      && Count(inv', inv[i].user) == Count(inv, inv[i].user)
      && Copies(inv', inv[i].user) == Copies(inv, inv[i].user) + 1
      && (forall u :: u != inv[i].user ==> Holdings(inv', u) == Holdings(inv, u))
      && (forall e :: e in inv' ==> e in inv || e.user == inv[i].user)
  {
    var e := inv[i].(quantity := inv[i].quantity + 1);
    var inv' := inv[i := e];
    HoldingsUpdate(inv, i, e, e.user);
    forall u | u != e.user ensures Holdings(inv', u) == Holdings(inv, u) {
      HoldingsUpdate(inv, i, e, u);
    }
  }

  /** Appending a document for a pair with none keeps the invariants, adds
      one entry and one copy to its owner, and leaves other users alone. */
  lemma AppendInvariants(inv: Inv, user: string, card: CardId)
    requires UniquePairs(inv) && Positive(inv)
    requires !Owns(inv, user, card)
    ensures var inv' := inv + [Entry(user, card, 1)];
      && UniquePairs(inv') && Positive(inv')
      && Count(inv', user) == Count(inv, user) + 1
      && Copies(inv', user) == Copies(inv, user) + 1
      && (forall u :: u != user ==> Holdings(inv', u) == Holdings(inv, u))
  {
    var e := Entry(user, card, 1);
    var inv' := inv + [e];
    HoldingsAppend(inv, e, user);
    SumAppend(Holdings(inv, user), e);
    forall u | u != user ensures Holdings(inv', u) == Holdings(inv, u) {
      HoldingsAppend(inv, e, u);
    }
    forall i, j | 0 <= i < j < |inv'| ensures !Matches(inv'[j], inv'[i].user, inv'[i].card) {
      if j == |inv| {
        assert !Matches(inv[i], user, card);
      }
    }
  }

  /** The reward preserves the collection's invariants, adds one copy and at
      most one entry to the drawing user, and leaves every other user's
      documents as they were. */
  lemma ResolveInvariants(inv: Inv, user: string, card: CardId)
    requires UniquePairs(inv) && Positive(inv)
    ensures var r := Resolve(inv, user, card);
      && UniquePairs(r.inv)
      && Positive(r.inv)
      && Count(r.inv, user) == Count(inv, user) + (if r.isNew then 1 else 0)
      && Copies(r.inv, user) == Copies(inv, user) + 1
      && (forall u :: u != user ==> Holdings(r.inv, u) == Holdings(inv, u))
      && (forall e :: e in r.inv ==> e in inv || e.user == user)
  {
    match Find(inv, user, card)
    case Some(i) =>
      IncrementInvariants(inv, i);
    case None =>
      AppendInvariants(inv, user, card);
  }

}
