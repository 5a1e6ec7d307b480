/** `give_random_card` (app.py:118-199): one draw for one chat user, with the
    `users`, `inventory` and `log_history` collections as immutable state
    and the random outcomes as an oracle. */
module Gacha {

  import opened Optional
  import opened Rarity
  import Pity
  import opened Cards
  import opened Inventory
  import opened EventLog

  /** A `users` document. A new document has no `tokens` field; `$inc`
      reads a missing field as 0, which is what 0 stands for here. */
  datatype User = User(name: string, pity: int, uniqueCards: int, tokens: int)

  /** A `log_history` document, without its timestamp. */
  datatype HistoryEntry = HistoryEntry(twitchId: string, twitchName: string, action: string, details: Details)

  datatype State = State(users: map<string, User>, inventory: Inv, history: seq<HistoryEntry>)

  /** The random outcomes of one draw: the tier choices and the index the
      `$sample` stage lands on, reduced modulo the pool size. */
  datatype Oracle = Oracle(roll: Pity.Roll, pick: nat)

  /** What the overlay is sent, the image aside. */
  datatype Overlay = Overlay(user: string, name: string, rarity: string)

  /** A drawn card with its reward, or the failure of `.next()` on an empty
      `$sample` result. The tier and the pity flag exist in both cases. */
  datatype Outcome =
    | Drew(tier: Tier, forced: bool, card: Card, isNew: bool, tokens: int, overlay: Overlay)
    | NoCard(tier: Tier, forced: bool)

  datatype DrawStep = DrawStep(state: State, outcome: Outcome)

  const DrawAction := "Recebeu carta"

  const Empty := State(map[], [], [])

  /** The catalog cards `{"$match": {"rarity": tier}}` selects. A card with no
      rarity field matches no tier, not even "common". */
  function OfTier(catalog: seq<Card>, t: Tier): (pool: seq<Card>)
    ensures forall c :: c in pool <==> c in catalog && c.rarity == Some(Name(t))
  {
    if |catalog| == 0 then []
    else (if catalog[0].rarity == Some(Name(t)) then [catalog[0]] else []) + OfTier(catalog[1..], t)
  }

  /** The details dictionary the draw passes to `log_event`: the new-style
      keys only, and no pity key. Read back by `log_event` it yields the
      draw's own flag, tokens and tier, the name ("Desconhecida" if empty),
      and a pity flag that is always false. */
  function DrawDetails(cardName: string, t: Tier, isNew: bool, tokens: int): (d: Details)
    ensures Normalize(Some(d))
         == Normalized(if cardName == "" then Str("Desconhecida") else Str(cardName),
                       Str(Name(t)), Bool(isNew), Int(tokens), Bool(false))
  {
    var d := NoDetails.(cardName := Str(cardName), rarity := Str(Name(t)), novaCarta := Bool(isNew), tokensGanhos := Int(tokens));
    NormalizePrecedence(d);
    d
  }

  /** The stored pity of a user, 0 for one not seen yet (the counter of
      `UserOf` does not depend on the display name). */
  function PityOf(st: State, twitchId: string): int
  {
    UserOf(st, twitchId, "").pity
  }

  /** One draw. The counter and the display name are written before the
      card is looked up, so they change even when no card is found. */
  function Draw(st: State, catalog: seq<Card>, twitchId: string, twitchName: string, o: Oracle): (r: DrawStep)
    ensures r.state.users.Keys == st.users.Keys + {twitchId}
    ensures forall u :: u in st.users && u != twitchId ==> r.state.users[u] == st.users[u]
    ensures r.state.users[twitchId].name == twitchName
    ensures r.state.users[twitchId].pity == Pity.Next(PityOf(st, twitchId), o.roll).pity
    ensures r.state.users[twitchId].uniqueCards
         == UserOf(st, twitchId, twitchName).uniqueCards + (if r.outcome.Drew? && r.outcome.isNew then 1 else 0)
    ensures r.state.users[twitchId].tokens
         == UserOf(st, twitchId, twitchName).tokens + (if r.outcome.Drew? then r.outcome.tokens else 0)
    ensures r.outcome.tier == Pity.Next(PityOf(st, twitchId), o.roll).tier
    ensures r.outcome.forced <==> PityOf(st, twitchId) >= Pity.Threshold
    ensures r.outcome.NoCard? <==> forall c :: c in catalog ==> c.rarity != Some(Name(r.outcome.tier))
    ensures r.outcome.NoCard? ==>
      && r.state.inventory == st.inventory
      && r.state.history == st.history
      && r.state.users[twitchId] == UserOf(st, twitchId, twitchName).(name := twitchName, pity := r.state.users[twitchId].pity)
    ensures r.outcome.Drew? ==>
      && r.outcome.card in catalog
      && r.outcome.card.rarity == Some(Name(r.outcome.tier))
      && r.outcome.overlay == Overlay(twitchName, r.outcome.card.name, Name(r.outcome.tier))
      && (r.outcome.isNew <==> !Owns(st.inventory, twitchId, r.outcome.card.id))
      && r.outcome.tokens == (if r.outcome.isNew then NewCardTokens else DuplicateTokens)
      && r.state.inventory == Resolve(st.inventory, twitchId, r.outcome.card.id).inv
      && r.state.history == st.history + [HistoryEntry(twitchId, twitchName, DrawAction,
           DrawDetails(r.outcome.card.name, r.outcome.tier, r.outcome.isNew, r.outcome.tokens))]
  {
    var step := Pity.Next(PityOf(st, twitchId), o.roll);
    var st1 := Persist(st, twitchId, twitchName, step.pity);
    var pool := OfTier(catalog, step.tier);
    if |pool| == 0 then
      DrawStep(st1, NoCard(step.tier, step.forced))
    else
      var card := pool[o.pick % |pool|];
      var reward := Resolve(st.inventory, twitchId, card.id);
      DrawStep(Award(st1, twitchId, twitchName, card, step.tier),
               Drew(step.tier, step.forced, card, reward.isNew, reward.tokens, Overlay(twitchName, card.name, Name(step.tier))))
  }

  /** The `users` document a draw starts from: the stored one, or the one
      a first draw inserts, with a zero counter, no unique cards and no
      tokens. */
  function UserOf(st: State, twitchId: string, twitchName: string): User
  {
    if twitchId in st.users then st.users[twitchId] else User(twitchName, 0, 0, 0)
  }

  /** The write of app.py:157-160: the new counter and the display name. */
  function Persist(st: State, twitchId: string, twitchName: string, pity: int): (r: State)
    ensures r.users.Keys == st.users.Keys + {twitchId}
    ensures forall u :: u in st.users && u != twitchId ==> r.users[u] == st.users[u]
    ensures r.users[twitchId].name == twitchName && r.users[twitchId].pity == pity
    ensures r.users[twitchId].uniqueCards == UserOf(st, twitchId, twitchName).uniqueCards
    ensures r.users[twitchId].tokens == UserOf(st, twitchId, twitchName).tokens
    ensures r.inventory == st.inventory && r.history == st.history
  {
    st.(users := st.users[twitchId := UserOf(st, twitchId, twitchName).(name := twitchName, pity := pity)])
  }

  /** The inventory update, the two counter increments and the history entry
      of a draw that found `card` (app.py:169-199). */
  function Award(st: State, twitchId: string, twitchName: string, card: Card, t: Tier): (r: State)
    requires twitchId in st.users
    ensures r.users.Keys == st.users.Keys
    ensures forall u :: u in st.users && u != twitchId ==> r.users[u] == st.users[u]
    ensures r.users[twitchId].name == st.users[twitchId].name && r.users[twitchId].pity == st.users[twitchId].pity
    ensures r.users[twitchId].uniqueCards
         == st.users[twitchId].uniqueCards + (if Owns(st.inventory, twitchId, card.id) then 0 else 1)
    ensures r.users[twitchId].tokens
         == st.users[twitchId].tokens + (if Owns(st.inventory, twitchId, card.id) then DuplicateTokens else NewCardTokens)
    ensures r.inventory == Resolve(st.inventory, twitchId, card.id).inv
    ensures |r.history| == |st.history| + 1 && r.history[..|st.history|] == st.history
    ensures r.history[|st.history|].twitchId == twitchId && r.history[|st.history|].action == DrawAction
  {
    var reward := Resolve(st.inventory, twitchId, card.id);
    var user := st.users[twitchId];
    var user' := user.(uniqueCards := user.uniqueCards + (if reward.isNew then 1 else 0),
                       tokens := user.tokens + reward.tokens);
    State(st.users[twitchId := user'], reward.inv,
          st.history + [HistoryEntry(twitchId, twitchName, DrawAction, DrawDetails(card.name, t, reward.isNew, reward.tokens))])
  }

  /** The per-user bookkeeping agrees with the inventory: the counter is in
      range, the unique-card count is the entry count, and the balance is 20
      per distinct card plus 5 per extra copy. */
  ghost predicate Consistent(user: User, inv: Inv, twitchId: string)
  {
    && 0 <= user.pity <= Pity.Threshold
    && user.uniqueCards == Count(inv, twitchId)
    && user.tokens == NewCardTokens * Count(inv, twitchId) + DuplicateTokens * (Copies(inv, twitchId) - Count(inv, twitchId))
  }

  ghost predicate Valid(st: State)
  {
    && UniquePairs(st.inventory)
    && Positive(st.inventory)
    && (forall e :: e in st.inventory ==> e.user in st.users)
    && (forall u :: u in st.users ==> Consistent(st.users[u], st.inventory, u))
  }

  lemma EmptyValid()
    ensures Valid(Empty)
  {
  }

  /** Persisting a counter in range keeps the state valid. */
  lemma PersistValid(st: State, twitchId: string, twitchName: string, pity: int)
    requires Valid(st)
    requires 0 <= pity <= Pity.Threshold
    ensures Valid(Persist(st, twitchId, twitchName, pity))
  {
    if twitchId !in st.users {
      NoHoldings(st.inventory, twitchId);
    }
    var st' := Persist(st, twitchId, twitchName, pity);
    assert Consistent(st'.users[twitchId], st.inventory, twitchId);
    forall u | u in st'.users ensures Consistent(st'.users[u], st'.inventory, u) {
      if u != twitchId {
        assert st'.users[u] == st.users[u];
      }
    }
  }

  /** Awarding a card keeps the state valid and leaves other users'
      inventory documents alone. */
  lemma AwardValid(st: State, twitchId: string, twitchName: string, card: Card, t: Tier)
    requires Valid(st)
    requires twitchId in st.users
    ensures Valid(Award(st, twitchId, twitchName, card, t))
    ensures forall u :: u != twitchId ==> Holdings(Award(st, twitchId, twitchName, card, t).inventory, u) == Holdings(st.inventory, u)
  {
    var st' := Award(st, twitchId, twitchName, card, t);
    ResolveInvariants(st.inventory, twitchId, card.id);
    assert Consistent(st'.users[twitchId], st'.inventory, twitchId);
    forall u | u in st'.users ensures Consistent(st'.users[u], st'.inventory, u) {
      if u != twitchId {
        assert st'.users[u] == st.users[u];
        assert Holdings(st'.inventory, u) == Holdings(st.inventory, u);
      }
    }
  }

  /** Every draw, with or without a card, keeps the state valid and leaves
      other users' inventory documents alone. */
  lemma DrawPreservesValid(st: State, catalog: seq<Card>, twitchId: string, twitchName: string, o: Oracle)
    requires Valid(st)
    ensures Valid(Draw(st, catalog, twitchId, twitchName, o).state)
    ensures forall u :: u != twitchId ==>
      Holdings(Draw(st, catalog, twitchId, twitchName, o).state.inventory, u) == Holdings(st.inventory, u)
  {
    var step := Pity.Next(PityOf(st, twitchId), o.roll);
    var st1 := Persist(st, twitchId, twitchName, step.pity);
    PersistValid(st, twitchId, twitchName, step.pity);
    var pool := OfTier(catalog, step.tier);
    if |pool| > 0 {
      AwardValid(st1, twitchId, twitchName, pool[o.pick % |pool|], step.tier);
    }
  }

  /** A user with no `users` document has no inventory documents either. */
  lemma {:induction false} NoHoldings(inv: Inv, twitchId: string)
    requires forall e :: e in inv ==> e.user != twitchId
    ensures Holdings(inv, twitchId) == []
    decreases |inv|
  {
    if |inv| > 0 {
      NoHoldings(inv[..|inv| - 1], twitchId);
    }
  }

  /** The history entry of a successful draw reads back, through
      `log_event`'s normalisation, as the draw's own outcome: its new-card
      flag, its tokens, the selected tier, the card name (empty names shown
      as "Desconhecida") and a pity flag that is always false, since the draw
      passes no pity key. The console says "NOVA" exactly for new cards. */
  lemma DrawLogRoundTrip(st: State, catalog: seq<Card>, twitchId: string, twitchName: string, o: Oracle)
    requires Draw(st, catalog, twitchId, twitchName, o).outcome.Drew?
    ensures var r := Draw(st, catalog, twitchId, twitchName, o);
      var n := Normalize(Some(r.state.history[|r.state.history| - 1].details));
      && n.gotNew == Bool(r.outcome.isNew)
      && n.tokens == Int(r.outcome.tokens)
      && n.rarity == Str(Name(r.outcome.tier))
      && n.cardName == (if r.outcome.card.name == "" then Str("Desconhecida") else Str(r.outcome.card.name))
      && n.pityForced == Bool(false)
      && (ConsoleStatus(n) == Nova <==> r.outcome.isNew)
  {
  }

  /** The rolls of a sequence of oracles. */
  function Rolls(os: seq<Oracle>): (rs: seq<Pity.Roll>)
    ensures |rs| == |os|
    ensures forall i :: 0 <= i < |os| ==> rs[i] == os[i].roll
  {
    if |os| == 0 then [] else [os[0].roll] + Rolls(os[1..])
  }

  /** Consecutive draws of one user, other users idle. */
  function DrawRun(st: State, catalog: seq<Card>, twitchId: string, twitchName: string, os: seq<Oracle>): (r: State)
    decreases |os|
  {
    if |os| == 0 then st
    else DrawRun(Draw(st, catalog, twitchId, twitchName, os[0]).state, catalog, twitchId, twitchName, os[1..])
  }

  /** The tiers those draws select, whether or not a card was found. */
  function RunTiers(st: State, catalog: seq<Card>, twitchId: string, twitchName: string, os: seq<Oracle>): (ts: seq<Tier>)
    ensures |ts| == |os|
    decreases |os|
  {
    if |os| == 0 then []
    else
      var r := Draw(st, catalog, twitchId, twitchName, os[0]);
      [r.outcome.tier] + RunTiers(r.state, catalog, twitchId, twitchName, os[1..])
  }

  /** A user's draws select exactly the tiers of the pity machine started
      from their stored counter, and leave it at the machine's final value. */
  lemma {:induction false} RunFollowsPity(st: State, catalog: seq<Card>, twitchId: string, twitchName: string, os: seq<Oracle>)
    ensures RunTiers(st, catalog, twitchId, twitchName, os) == Pity.Tiers(PityOf(st, twitchId), Rolls(os))
    ensures PityOf(DrawRun(st, catalog, twitchId, twitchName, os), twitchId) == Pity.After(PityOf(st, twitchId), Rolls(os))
    decreases |os|
  {
    if |os| > 0 {
      var r := Draw(st, catalog, twitchId, twitchName, os[0]);
      assert Rolls(os)[1..] == Rolls(os[1..]);
      assert PityOf(r.state, twitchId) == Pity.Next(PityOf(st, twitchId), os[0].roll).pity;
      RunFollowsPity(r.state, catalog, twitchId, twitchName, os[1..]);
    }
  }

  /** Guaranteed rare, at the level of the bot: from a valid state, any 15
      consecutive draws of one user select an epic or legendary tier. */
  lemma RunWindowHasTopTier(st: State, catalog: seq<Card>, twitchId: string, twitchName: string, os: seq<Oracle>, i: nat)
    requires Valid(st)
    requires i + Pity.Threshold + 1 <= |os|
    ensures exists j :: i <= j < i + Pity.Threshold + 1 && IsTopTier(RunTiers(st, catalog, twitchId, twitchName, os)[j])
  {
    RunFollowsPity(st, catalog, twitchId, twitchName, os);
    Pity.WindowHasTopTier(PityOf(st, twitchId), Rolls(os), i);
  }

  /** An event of the chat: who draws, and the dice of that draw. */
  datatype Event = Event(twitchId: string, twitchName: string, oracle: Oracle)

  function Replay(st: State, catalog: seq<Card>, es: seq<Event>): State
    decreases |es|
  {
    if |es| == 0 then st
    else Replay(Draw(st, catalog, es[0].twitchId, es[0].twitchName, es[0].oracle).state, catalog, es[1..])
  }

  /** Any interleaving of draws by any users keeps every invariant of a
      valid state; the empty database is one (`EmptyValid`). */
  lemma {:induction false} ReplayValid(st: State, catalog: seq<Card>, es: seq<Event>)
    requires Valid(st)
    ensures Valid(Replay(st, catalog, es))
    decreases |es|
  {
    if |es| > 0 {
      DrawPreservesValid(st, catalog, es[0].twitchId, es[0].twitchName, es[0].oracle);
      ReplayValid(Draw(st, catalog, es[0].twitchId, es[0].twitchName, es[0].oracle).state, catalog, es[1..]);
    }
  }

  /** The tiers selected by `twitchId`'s own draws within an interleaved
      stream of events. */
  function UserTiers(st: State, catalog: seq<Card>, es: seq<Event>, twitchId: string): seq<Tier>
    decreases |es|
  {
    if |es| == 0 then []
    else
      var r := Draw(st, catalog, es[0].twitchId, es[0].twitchName, es[0].oracle);
      (if es[0].twitchId == twitchId then [r.outcome.tier] else []) + UserTiers(r.state, catalog, es[1..], twitchId)
  }

  /** The rolls of `twitchId`'s own events. */
  function UserRolls(es: seq<Event>, twitchId: string): seq<Pity.Roll>
    decreases |es|
  {
    if |es| == 0 then []
    else (if es[0].twitchId == twitchId then [es[0].oracle.roll] else []) + UserRolls(es[1..], twitchId)
  }

  /** Other chatters' draws in between do not disturb a user's counter: the
      user's draws select exactly the tiers of the pity machine run over
      their own rolls. */
  lemma {:induction false} InterleavedFollowsPity(st: State, catalog: seq<Card>, es: seq<Event>, twitchId: string)
    ensures UserTiers(st, catalog, es, twitchId) == Pity.Tiers(PityOf(st, twitchId), UserRolls(es, twitchId))
    decreases |es|
  {
    if |es| > 0 {
      var e := es[0];
      var r := Draw(st, catalog, e.twitchId, e.twitchName, e.oracle);
      InterleavedFollowsPity(r.state, catalog, es[1..], twitchId);
      var rest := UserRolls(es[1..], twitchId);
      if e.twitchId == twitchId {
        var s := Pity.Next(PityOf(st, twitchId), e.oracle.roll);
        assert PityOf(r.state, twitchId) == s.pity;
        assert ([e.oracle.roll] + rest)[1..] == rest;
        assert Pity.Tiers(PityOf(st, twitchId), [e.oracle.roll] + rest) == [s.tier] + Pity.Tiers(s.pity, rest);
      } else {
        assert PityOf(r.state, twitchId) == PityOf(st, twitchId);
        assert UserRolls(es, twitchId) == rest;
        assert UserTiers(st, catalog, es, twitchId) == UserTiers(r.state, catalog, es[1..], twitchId);
      }
    }
  }

  /** Guaranteed rare for a busy chat: from a valid state, any 15
      consecutive draws of one user select an epic or legendary tier, however
      other users' draws are interleaved with them. */
  lemma InterleavedWindowHasTopTier(st: State, catalog: seq<Card>, es: seq<Event>, twitchId: string, i: nat)
    requires Valid(st)
    requires i + Pity.Threshold + 1 <= |UserRolls(es, twitchId)|
    ensures i + Pity.Threshold + 1 <= |UserTiers(st, catalog, es, twitchId)|
    ensures exists j :: i <= j < i + Pity.Threshold + 1 && IsTopTier(UserTiers(st, catalog, es, twitchId)[j])
  {
    InterleavedFollowsPity(st, catalog, es, twitchId);
    Pity.WindowHasTopTier(PityOf(st, twitchId), UserRolls(es, twitchId), i);
  }

  /** A chatter's first draw creates their `users` document (app.py:131-136):
      it holds the display name and the counter the pity step leaves from 0,
      and the unique-card count and tokens of this draw's reward alone,
      whether or not a card was found. In a valid database the newcomer owns
      nothing yet, so a card found is always new and worth 20 tokens. */
  lemma NewUserDraw(st: State, catalog: seq<Card>, twitchId: string, name: string, o: Oracle)
    requires twitchId !in st.users
    ensures var r := Draw(st, catalog, twitchId, name, o);
      && r.state.users.Keys == st.users.Keys + {twitchId}
      && r.state.users[twitchId]
         == User(name, Pity.Next(0, o.roll).pity,
                 if r.outcome.Drew? && r.outcome.isNew then 1 else 0,
                 if r.outcome.Drew? then r.outcome.tokens else 0)
    ensures var r := Draw(st, catalog, twitchId, name, o);
      Valid(st) && r.outcome.Drew? ==> r.outcome.isNew && r.state.users[twitchId].tokens == NewCardTokens
  {
    if Valid(st) {
      assert forall e :: e in st.inventory ==> e.user != twitchId;
    }
  }

  /** A new user's first draw of a common card creates one entry and awards
      20 tokens, with the counter at 1. */
  lemma FirstDraw(twitchId: string, name: string, card: Card, pick: nat)
    requires card.rarity == Some(Name(Common))
    ensures var r := Draw(Empty, [card], twitchId, name, Oracle(Pity.Roll(Common, Epic), pick));
      && r.outcome == Drew(Common, false, card, true, NewCardTokens, Overlay(name, card.name, "common"))
      && r.state.inventory == [Entry(twitchId, card.id, 1)]
      && twitchId in r.state.users
      && r.state.users[twitchId] == User(name, 1, 1, 20)
  {
    var o := Oracle(Pity.Roll(Common, Epic), pick);
    assert PityOf(Empty, twitchId) == 0;
    assert Pity.Next(0, o.roll) == Pity.Step(Common, 1, false);
    assert OfTier([card], Common) == [card];
    assert !Owns(Empty.inventory, twitchId, card.id);
    var r := Draw(Empty, [card], twitchId, name, o);
    assert r.outcome.Drew? && r.outcome.card == card;
  }

  /** Drawing the same common card again raises its entry's quantity to 2,
      awards 5 tokens and moves the counter to 2. */
  lemma RepeatDraw(st: State, twitchId: string, name: string, card: Card, pick: nat)
    requires card.rarity == Some(Name(Common))
    requires st.inventory == [Entry(twitchId, card.id, 1)]
    requires twitchId in st.users && st.users[twitchId] == User(name, 1, 1, 20)
    ensures var r := Draw(st, [card], twitchId, name, Oracle(Pity.Roll(Common, Epic), pick));
      && r.outcome == Drew(Common, false, card, false, DuplicateTokens, Overlay(name, card.name, "common"))
      && r.state.inventory == [Entry(twitchId, card.id, 2)]
      && r.state.users[twitchId] == User(name, 2, 1, 25)
  {
    assert OfTier([card], Common) == [card];
    assert Find(st.inventory, twitchId, card.id) == Some(0);
  }

  /** A new user draws a common card twice: the first draw creates one
      entry and awards 20 tokens, the second raises that entry's quantity
      to 2 and awards 5, and the counter climbs from 0 to 1 to 2. */
  lemma FirstAndRepeatDraw(twitchId: string, name: string, card: Card, pick1: nat, pick2: nat)
    requires card.rarity == Some(Name(Common))
    ensures var roll := Pity.Roll(Common, Epic);
      var r1 := Draw(Empty, [card], twitchId, name, Oracle(roll, pick1));
      var r2 := Draw(r1.state, [card], twitchId, name, Oracle(roll, pick2));
      && r1.outcome == Drew(Common, false, card, true, NewCardTokens, Overlay(name, card.name, "common"))
      && r1.state.inventory == [Entry(twitchId, card.id, 1)]
      && r1.state.users[twitchId] == User(name, 1, 1, 20)
      && r2.outcome == Drew(Common, false, card, false, DuplicateTokens, Overlay(name, card.name, "common"))
      && r2.state.inventory == [Entry(twitchId, card.id, 2)]
      && r2.state.users[twitchId] == User(name, 2, 1, 25)
  {
    var r1 := Draw(Empty, [card], twitchId, name, Oracle(Pity.Roll(Common, Epic), pick1));
    FirstDraw(twitchId, name, card, pick1);
    RepeatDraw(r1.state, twitchId, name, card, pick2);
  }

  /** A user at or past the threshold draws whatever tier the forced table gives,
      even against a common weighted roll, and the counter returns to 0
      whether or not the catalog has a card of that tier. */
  lemma ForcedDraw(st: State, catalog: seq<Card>, twitchId: string, name: string, o: Oracle)
    requires twitchId in st.users && st.users[twitchId].pity >= Pity.Threshold
    ensures var r := Draw(st, catalog, twitchId, name, o);
      && r.outcome.forced
      && r.outcome.tier == o.roll.guaranteed
      && IsTopTier(r.outcome.tier)
      && r.state.users[twitchId].pity == 0
  {
  }

}
