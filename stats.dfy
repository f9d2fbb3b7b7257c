/** The stat vector of the game: four governance metrics, each kept in
    [0, 100] by a clamped write, and the two ways they change — an action's
    effect map and the decay applied at every round transition. */
module StatVector {

  datatype Option<T> = None | Some(value: T)

  /** The keys of the game state: economy, security, diplomacy, social. */
  datatype Stat = Economy | Security | Diplomacy | Social

  datatype Stats = Stats(economy: int, security: int, diplomacy: int, social: int)

  const Lo: int := 0
  const Hi: int := 100

  /** The starting values of a game. */
  const Initial: Stats := Stats(60, 80, 20, 50)

  /** `Math.max(0, Math.min(100, x))`: the upper bound is applied first,
      then the lower one. */
  function Clamp(x: int): (r: int)
    ensures Lo <= r <= Hi
    ensures Lo <= x <= Hi ==> r == x
    ensures x < Lo ==> r == Lo
    ensures Hi < x ==> r == Hi
  {
    var capped := if x < Hi then x else Hi;
    if Lo < capped then capped else Lo
  }

  function Get(s: Stats, k: Stat): int
  {
    match k
    case Economy => s.economy
    case Security => s.security
    case Diplomacy => s.diplomacy
    case Social => s.social
  }

  /** Writes one field; the other three keep their values. */
  function With(s: Stats, k: Stat, v: int): (r: Stats)
    ensures Get(r, k) == v
    ensures forall j :: j != k ==> Get(r, j) == Get(s, j)
  {
    match k
    case Economy => s.(economy := v)
    case Security => s.(security := v)
    case Diplomacy => s.(diplomacy := v)
    case Social => s.(social := v)
  }

  /** Every stat lies in [Lo, Hi]. */
  predicate InRange(s: Stats)
  {
    && Lo <= Get(s, Economy) <= Hi
    && Lo <= Get(s, Security) <= Hi
    && Lo <= Get(s, Diplomacy) <= Hi
    && Lo <= Get(s, Social) <= Hi
  }

  /** An action's partial effect map, as the (key, delta) entries that
      `Object.entries` yields, in declaration order. */
  type Effects = seq<(Stat, int)>

  /** A JavaScript object has no repeated key, so neither do its entries. */
  ghost predicate DistinctKeys(e: Effects)
  {
    forall i, j :: 0 <= i < j < |e| ==> e[i].0 != e[j].0
  }

  /** The delta an effect map names for `k`, if it names one (the last entry
      for `k`, which is the only one when keys are distinct). */
  function Delta(e: Effects, k: Stat): (r: Option<int>)
    ensures r.None? <==> forall i :: 0 <= i < |e| ==> e[i].0 != k
    ensures r.Some? ==> exists i :: 0 <= i < |e| && e[i] == (k, r.value)
    decreases |e|
  {
    if e == [] then None
    else if e[|e| - 1].0 == k then Some(e[|e| - 1].1)
    else Delta(e[..|e| - 1], k)
  }

  /** One iteration of the `forEach` in handleAction: the named stat becomes
      the clamped sum, every other stat is left alone. */
  function ApplyEntry(s: Stats, k: Stat, d: int): (r: Stats)
    ensures Get(r, k) == Clamp(Get(s, k) + d)
    ensures forall j :: j != k ==> Get(r, j) == Get(s, j)
  {
    With(s, k, Clamp(Get(s, k) + d))
  }

  /** The entries applied one after another, first entry first. */
  function ApplyEffects(s: Stats, e: Effects): (r: Stats)
    ensures InRange(s) ==> InRange(r)
    decreases |e|
  {
    if e == [] then s
    else
      var last := e[|e| - 1];
      ApplyEntry(ApplyEffects(s, e[..|e| - 1]), last.0, last.1)
  }

  /** The updater handed to setGameState by handleAction: copy the stats,
      then clamp-add each entry of the effect map in turn. */
  method ApplyAction(prev: Stats, effects: Effects) returns (next: Stats)
    ensures next == ApplyEffects(prev, effects)
  {
    next := prev;
    var i := 0;
    while i < |effects|
      invariant 0 <= i <= |effects|
      invariant next == ApplyEffects(prev, effects[..i])
    {
      var (key, value) := effects[i];
      assert effects[..i + 1][..i] == effects[..i];
      next := With(next, key, Clamp(Get(next, key) + value));
      i := i + 1;
    }
    assert effects[..i] == effects;
  }

  /** With distinct keys, each stat the map names becomes the clamped sum
      of its old value and its delta; every stat it does not name keeps its
      value. */
  lemma {:induction false} ApplyEffectsAt(s: Stats, e: Effects, k: Stat)
    requires DistinctKeys(e)
    ensures Get(ApplyEffects(s, e), k) ==
              match Delta(e, k)
              case None => Get(s, k)
              case Some(d) => Clamp(Get(s, k) + d)
    decreases |e|
  {
    if e != [] {
      var init := e[..|e| - 1];
      assert DistinctKeys(init) by {
        forall i, j | 0 <= i < j < |init| ensures init[i].0 != init[j].0 {
          assert init[i] == e[i] && init[j] == e[j];
        }
      }
      ApplyEffectsAt(s, init, k);
      if e[|e| - 1].0 == k {
        forall i | 0 <= i < |init| ensures init[i].0 != k {
          assert init[i] == e[i];
        }
      }
    }
  }

  /** The decay subtracted from each stat at a round transition. */
  function DecayDelta(k: Stat): int
  {
    match k
    case Economy => -10
    case Security => -5
    case Diplomacy => -5
    case Social => -10
  }

  /** The decay, written as an effect map. */
  const DecayEffects: Effects :=
    [(Economy, -10), (Security, -5), (Diplomacy, -5), (Social, -10)]

  /** The stats after one round's decay. From a state in range the decay
      never raises a stat, and it lowers each one by exactly its decay
      unless that would go below zero. */
  function Decayed(s: Stats): (r: Stats)
    ensures InRange(r)
    ensures forall k :: Get(r, k) == Clamp(Get(s, k) + DecayDelta(k))
    ensures InRange(s) ==> forall k :: Get(r, k) <= Get(s, k)
    ensures InRange(s) ==> forall k :: Get(s, k) >= -DecayDelta(k) ==> Get(r, k) == Get(s, k) + DecayDelta(k)
  {
    Stats(Clamp(s.economy - 10), Clamp(s.security - 5),
          Clamp(s.diplomacy - 5), Clamp(s.social - 10))
  }

  /** The decay goes through the same clamped path an action does. */
  lemma DecayIsEffectMap(s: Stats)
    ensures Decayed(s) == ApplyEffects(s, DecayEffects)
  {
    var e0: Effects := [];
    var e1 := e0 + [(Economy, -10)];
    var e2 := e1 + [(Security, -5)];
    var e3 := e2 + [(Diplomacy, -5)];
    assert e1[..0] == e0 && e2[..1] == e1 && e3[..2] == e2;
    assert DecayEffects[..3] == e3;
    assert ApplyEffects(s, e1) == s.(economy := Clamp(s.economy - 10));
    assert ApplyEffects(s, e2) == ApplyEffects(s, e1).(security := Clamp(s.security - 5));
    assert ApplyEffects(s, e3) == ApplyEffects(s, e2).(diplomacy := Clamp(s.diplomacy - 5));
  }
}
