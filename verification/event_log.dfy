/** The field normalisation of `log_event` (app.py:57-85, 98-99): a details
    dictionary in either the old or the new naming is read into one
    canonical set of fields. */
module EventLog {

  import opened Optional

  /** A dictionary value as far as the normalisation inspects it. `Null`
      stands for both a missing key and a stored `None`: `details.get(k)`
      cannot tell them apart. */
  datatype Value = Null | Bool(b: bool) | Int(i: int) | Str(s: string)

  /** Python truthiness. */
  predicate Truthy(v: Value)
  {
    match v
    case Null => false
    case Bool(b) => b
    case Int(i) => i != 0
    case Str(s) => s != ""
  }

  /** The keys `log_event` reads, old and new spellings alike. */
  datatype Details = Details(
    name: Value, cardName: Value, card: Value,
    rarity: Value, raridade: Value,
    gotNew: Value, novaCarta: Value,
    tokensGained: Value, tokensGanhos: Value, tokens: Value,
    pityForced: Value, pity: Value)

  /** The empty dictionary. */
  const NoDetails := Details(Null, Null, Null, Null, Null, Null, Null, Null, Null, Null, Null, Null)

  /** `vs[0] or vs[1] or ... or fallback`. */
  function FirstTruthy(vs: seq<Value>, fallback: Value): (r: Value)
    ensures (forall i :: 0 <= i < |vs| ==> !Truthy(vs[i])) ==> r == fallback
    ensures (exists i :: 0 <= i < |vs| && Truthy(vs[i])) ==>
              exists i :: 0 <= i < |vs| && Truthy(vs[i]) && r == vs[i] && forall j :: 0 <= j < i ==> !Truthy(vs[j])
  {
    if |vs| == 0 then fallback
    else if Truthy(vs[0]) then vs[0]
    else
      var r := FirstTruthy(vs[1..], fallback);
      assert forall i :: 1 <= i < |vs| ==> vs[i] == vs[1..][i - 1];
      r
  }

  /** The chain of `is None` tests: the first value that is not `None`. */
  function FirstPresent(vs: seq<Value>, fallback: Value): (r: Value)
    ensures (forall i :: 0 <= i < |vs| ==> vs[i] == Null) ==> r == fallback
    ensures (exists i :: 0 <= i < |vs| && vs[i] != Null) ==>
              exists i :: 0 <= i < |vs| && vs[i] != Null && r == vs[i] && forall j :: 0 <= j < i ==> vs[j] == Null
  {
    if |vs| == 0 then fallback
    else if vs[0] != Null then vs[0]
    else
      var r := FirstPresent(vs[1..], fallback);
      assert forall i :: 1 <= i < |vs| ==> vs[i] == vs[1..][i - 1];
      r
  }

  /** The canonical fields of a log line. */
  datatype Normalized = Normalized(cardName: Value, rarity: Value, gotNew: Value, tokens: Value, pityForced: Value)

  /** `log_event`'s reading of its `details` argument; `None` stands for
      the omitted argument, read as the empty dictionary. */
  function Normalize(details: Option<Details>): (r: Normalized)
    ensures Truthy(r.cardName) && Truthy(r.rarity)
    ensures r.gotNew != Null && r.tokens != Null
    ensures details.None? ==> r == Normalized(Str("Desconhecida"), Str("???"), Bool(false), Int(0), Bool(false))
  {
    var d := if details.Some? then details.value else NoDetails;
    Normalized(
      FirstTruthy([d.name, d.cardName, d.card], Str("Desconhecida")),
      FirstTruthy([d.rarity, d.raridade], Str("???")),
      FirstPresent([d.gotNew, d.novaCarta], Bool(false)),
      FirstPresent([d.tokensGained, d.tokensGanhos], FirstTruthy([d.tokens], Int(0))),
      FirstTruthy([d.pityForced, d.pity], Bool(false)))
  }

  /** The status word of the console line. */
  datatype Status = Nova | Repetida(tokens: Value)

  function ConsoleStatus(n: Normalized): Status
  {
    if Truthy(n.gotNew) then Nova else Repetida(n.tokens)
  }

  /** The console status read off the raw details: NOVA exactly when the
      first new-card alias that is present is truthy, so a log with
      neither flag shows REPETIDA, with the tokens the aliases give. */
  lemma StatusOfDetails(d: Details)
    ensures ConsoleStatus(Normalize(Some(d))) == Nova
        <==> (if d.gotNew != Null then Truthy(d.gotNew) else Truthy(d.novaCarta))
    ensures d.gotNew == Null && d.novaCarta == Null ==>
      ConsoleStatus(Normalize(Some(d))) == Repetida(Normalize(Some(d)).tokens)
  {
    NormalizePrecedence(d);
  }

  /** Alias precedence and defaults, field by field: falsy values fall
      through for the name, rarity and pity aliases, only `None` falls
      through for the new-card flag and the token aliases. */
  lemma NormalizePrecedence(d: Details)
    ensures var n := Normalize(Some(d));
      && (Truthy(d.name) ==> n.cardName == d.name)
      && (!Truthy(d.name) && Truthy(d.cardName) ==> n.cardName == d.cardName)
      && (!Truthy(d.name) && !Truthy(d.cardName) && Truthy(d.card) ==> n.cardName == d.card)
      && (!Truthy(d.name) && !Truthy(d.cardName) && !Truthy(d.card) ==> n.cardName == Str("Desconhecida"))
      && (Truthy(d.rarity) ==> n.rarity == d.rarity)
      && (!Truthy(d.rarity) && Truthy(d.raridade) ==> n.rarity == d.raridade)
      && (!Truthy(d.rarity) && !Truthy(d.raridade) ==> n.rarity == Str("???"))
      && (d.gotNew != Null ==> n.gotNew == d.gotNew)
      && (d.gotNew == Null && d.novaCarta != Null ==> n.gotNew == d.novaCarta)
      && (d.gotNew == Null && d.novaCarta == Null ==> n.gotNew == Bool(false))
      && (d.tokensGained != Null ==> n.tokens == d.tokensGained)
      && (d.tokensGained == Null && d.tokensGanhos != Null ==> n.tokens == d.tokensGanhos)
      && (d.tokensGained == Null && d.tokensGanhos == Null && Truthy(d.tokens) ==> n.tokens == d.tokens)
      && (d.tokensGained == Null && d.tokensGanhos == Null && !Truthy(d.tokens) ==> n.tokens == Int(0))
      && (Truthy(d.pityForced) ==> n.pityForced == d.pityForced)
      && (!Truthy(d.pityForced) && Truthy(d.pity) ==> n.pityForced == d.pity)
      && (!Truthy(d.pityForced) && !Truthy(d.pity) ==> n.pityForced == Bool(false))
  {
    var n := Normalize(Some(d));
    var names := [d.name, d.cardName, d.card];
    if !Truthy(d.name) && !Truthy(d.cardName) && Truthy(d.card) {
      assert Truthy(names[2]);
    } else if !Truthy(d.name) && Truthy(d.cardName) {
      assert Truthy(names[1]);
    }
    var rs := [d.rarity, d.raridade];
    if !Truthy(d.rarity) && Truthy(d.raridade) {
      assert Truthy(rs[1]);
    }
    var gs := [d.gotNew, d.novaCarta];
    if d.gotNew == Null && d.novaCarta != Null {
      assert gs[1] != Null;
    }
    var ts := [d.tokensGained, d.tokensGanhos];
    if d.tokensGained == Null && d.tokensGanhos != Null {
      assert ts[1] != Null;
    }
    var ps := [d.pityForced, d.pity];
    if !Truthy(d.pityForced) && Truthy(d.pity) {
      assert Truthy(ps[1]);
    }
  }

}
