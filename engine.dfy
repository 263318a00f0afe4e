/** The collaborators the effect consults and that are not part of this model, reduced to
    the values it reads from them: the game, the controlling player and the deferred amounts. */
module Engine {
  import opened ManaValues

  datatype Option<T> = None | Some(value: T)

  /** A deferred amount (`DynamicValue`): a fixed number (`StaticValue`), or a quantity the
      game supplies by name when the amount is calculated. */
  datatype DynamicValue = StaticValue(value: int) | GameValue(name: string)

  /** One `getAmount(min, max, message)` call: the bounds, and what the message shows —
      mana distributed so far, the total to distribute, and the colour asked about. */
  datatype AmountRequest = AmountRequest(min: int, max: int, done: nat, total: int,
                                         color: ColoredManaSymbol)

  /** The controlling player as the allocation loop sees it. `canRespond()` answers true for
      the first `respondingChecks` checks and false from then on; `getAmount` receives the
      number of earlier requests and the request itself. */
  datatype Player = Player(respondingChecks: nat, getAmount: (nat, AmountRequest) -> int)

  /** What the effect reads from the game: whether it is a playability check, the values of
      named quantities, and the controller of the ability's source, if any. */
  datatype Game = Game(inCheckPlayableState: bool, values: string -> int,
                       controller: Option<Player>)

  /** `DynamicValue.calculate(game, source, effect)`. */
  function Calculate(v: DynamicValue, game: Game): int
  {
    match v
    case StaticValue(n) => n
    case GameValue(name) => game.values(name)
  }

  /** The player honours the bounds of every `getAmount` request with `min <= max`. */
  ghost predicate HonoursBounds(p: Player)
  {
    forall n: nat, q: AmountRequest :: q.min <= q.max ==> q.min <= p.getAmount(n, q) <= q.max
  }
}
