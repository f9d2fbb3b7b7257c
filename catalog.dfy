/** The two fixed tables of the game: the five crises a round can open with
    and the four actions a player can choose from. */
module Catalog {
  import opened StatVector

  /** The crises, by their titles; descriptions and icons are display text. */
  datatype CrisisEvent =
    | EconomicDownturn
    | SecurityThreat
    | InternationalConflict
    | SocialProtests
    | EnergyCrisis

  const Crises: seq<CrisisEvent> :=
    [EconomicDownturn, SecurityThreat, InternationalConflict, SocialProtests, EnergyCrisis]

  /** An action: its id and its effect map (name, icon and colour are
      display text). */
  datatype Action = Action(id: string, effects: Effects)

  const EconomyAction: Action := Action("economy", [(Economy, 15), (Social, -5)])
  const SecurityAction: Action := Action("security", [(Security, 20), (Economy, -5)])
  const DiplomacyAction: Action := Action("diplomacy", [(Diplomacy, 18), (Security, -5)])
  const SocialAction: Action := Action("social", [(Social, 20), (Economy, -5)])

  const Actions: seq<Action> := [EconomyAction, SecurityAction, DiplomacyAction, SocialAction]

  /** The key a stat has in the game-state object. */
  function KeyName(k: Stat): string
  {
    match k
    case Economy => "economy"
    case Security => "security"
    case Diplomacy => "diplomacy"
    case Social => "social"
  }

  /** An action in the table's shape: two entries, the first raising the
      stat the action is named after, the second lowering a different one. */
  ghost predicate TradeOff(a: Action)
  {
    |a.effects| == 2
    && KeyName(a.effects[0].0) == a.id && a.effects[0].1 > 0
    && a.effects[1].0 != a.effects[0].0 && a.effects[1].1 < 0
  }

  /** Every crisis appears in the table exactly once. */
  lemma CrisesCatalog(c: CrisisEvent)
    ensures |Crises| == 5
    ensures exists i :: 0 <= i < |Crises| && Crises[i] == c
    ensures forall i, j :: 0 <= i < j < |Crises| ==> Crises[i] != Crises[j]
  {
    match c
    case EconomicDownturn => assert Crises[0] == c;
    case SecurityThreat => assert Crises[1] == c;
    case InternationalConflict => assert Crises[2] == c;
    case SocialProtests => assert Crises[3] == c;
    case EnergyCrisis => assert Crises[4] == c;
  }

  /** The four actions have distinct ids and raise four different stats;
      each is a trade-off and its effect map has no repeated key. */
  lemma ActionsCatalog()
    ensures |Actions| == 4
    ensures forall i, j :: 0 <= i < j < |Actions| ==> Actions[i].id != Actions[j].id
    ensures forall i :: 0 <= i < |Actions| ==> TradeOff(Actions[i]) && DistinctKeys(Actions[i].effects)
    ensures forall i, j :: 0 <= i < j < |Actions| ==> Actions[i].effects[0].0 != Actions[j].effects[0].0
  {
  }
}
