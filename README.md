# AddManaInAnyCombinationEffect in Dafny

A model of the mana effect "Add N mana in any combination of {X} and/or {Y} …" of the
Mage card-game engine, and proofs about it. The effect holds a list of colours and two
deferred amounts (the amount produced and the net amount reported to the playability
check). It does four things:

- `getNetMana` reports the mana the ability can be counted on for: nothing without a game,
  one pool of "any" mana when the list holds five symbols (a size test, not a test that
  every colour is listed) or outside a playability check, and otherwise every way of
  spending the net amount on the listed colours;
- `generatePossibleManaCombinations` builds that list layer by layer, in place, with a
  buffer holding the previous layer;
- `produceMana` asks the controller, pass after pass over the colours, how much of what is
  left goes to each colour, until nothing is left or the controller can no longer respond;
- `setText` builds the rules text.

Files:

- `mana.dfy` (`ManaValues`): the engine's mana pool reduced to eight counters, `add`,
  `count` and one-colour pools. The engine's `Mana` class is not part of this model.
- `engine.dfy` (`Engine`): the game, the controller and the deferred amounts, reduced to
  the values the effect reads; `canRespond` and `getAmount` are an oracle in the player.
- `combinations.dfy` (`Combinations`): the layers the enumeration produces, as functions on
  lists, with their length, soundness, completeness and order proved.
- `allocation.dfy` (`Allocation`): the `produceMana` loops as a step function on an
  allocation state (mana added, mana left, requests made), with conservation and the order
  of the requests proved.
- `description.dfy` (`Description`): the rules text, with a parser proved to read the
  colour list back.
- `effect.dfy` (`Effect`): the classes. `ManaList` is the mutable `List<Mana>`;
  `AddManaInAnyCombinationEffect` has the constructors and the four operations as methods
  with loops, each proved equal to the functions above.

The enumeration keeps duplicates. One might expect every distinct distribution of `n` mana
over `k` colours exactly once, that is `C(n + k - 1, k - 1)` pools; the code adds one unit
of every colour to every entry of the previous layer and never merges equal pools, so it
produces `k ^ n` pools, some of them equal. The model follows the code
(`Combinations.GeneratedSound`, `Combinations.DuplicatesKept`).

## Model

| member | source | states |
|---|---|---|
| ManaValues.AnyMana | Mage/src/main/java/mage/abilities/effects/mana/AddManaInAnyCombinationEffect.java:80-88 | the all-"any" pool of `n` mana counts `n`, all of it in the "any" counter |
| Effect.ManaList.Add | Mage/src/main/java/mage/abilities/effects/mana/AddManaInAnyCombinationEffect.java:100 | `add` appends exactly the one entry |
| Effect.ManaList.Clear | Mage/src/main/java/mage/abilities/effects/mana/AddManaInAnyCombinationEffect.java:111-113 | `clear` empties the list |
| Effect.ManaList.AddAll | Mage/src/main/java/mage/abilities/effects/mana/AddManaInAnyCombinationEffect.java:112 | `addAll` appends the other list's entries in order |
| Effect.AddManaInAnyCombinationEffect.constructor | Mage/src/main/java/mage/abilities/effects/mana/AddManaInAnyCombinationEffect.java:33-39 | the main constructor keeps both amounts and the colours, and its text is the built description |
| Effect.AddManaInAnyCombinationEffect.AnyColor | Mage/src/main/java/mage/abilities/effects/mana/AddManaInAnyCombinationEffect.java:25-27 | a fixed amount (also the net amount) over B, U, R, W, G, with the built text |
| Effect.AddManaInAnyCombinationEffect.OfAmount | Mage/src/main/java/mage/abilities/effects/mana/AddManaInAnyCombinationEffect.java:29-31 | a fixed amount (also the net amount) over the given colours, with the built text |
| Effect.AddManaInAnyCombinationEffect.AnyColorWithText | Mage/src/main/java/mage/abilities/effects/mana/AddManaInAnyCombinationEffect.java:41-44 | as `AnyColor`, the given text replacing the built one |
| Effect.AddManaInAnyCombinationEffect.OfAmountWithText | Mage/src/main/java/mage/abilities/effects/mana/AddManaInAnyCombinationEffect.java:46-49 | as `OfAmount`, the given text replacing the built one |
| Effect.AddManaInAnyCombinationEffect.WithText | Mage/src/main/java/mage/abilities/effects/mana/AddManaInAnyCombinationEffect.java:51-54 | as the main constructor, the given text replacing the built one |
| Effect.AddManaInAnyCombinationEffect.Copy | Mage/src/main/java/mage/abilities/effects/mana/AddManaInAnyCombinationEffect.java:56-65 | the copy has the same colours, amounts and text |
| Effect.AddManaInAnyCombinationEffect.CopyEffect | Mage/src/main/java/mage/abilities/effects/mana/AddManaInAnyCombinationEffect.java:67-70 | `copy()` returns a new effect equal to this one |
| Effect.AddManaInAnyCombinationEffect.GetNetMana | Mage/src/main/java/mage/abilities/effects/mana/AddManaInAnyCombinationEffect.java:72-93 | empty without a game or for a resolved amount of zero or less; in a playability check one pool of `netAmount` "any" mana when exactly five symbols are listed (a size test), otherwise `k ^ n` pools, each spending exactly `netAmount` on listed colours, and every such pool present; outside a check one pool of `amount` "any" mana whatever the colours |
| Effect.AddManaInAnyCombinationEffect.GeneratePossibleManaCombinations | Mage/src/main/java/mage/abilities/effects/mana/AddManaInAnyCombinationEffect.java:95-116 | the list ends as `Generated`: unchanged for an amount of zero or less, and otherwise the last layer, the buffer swap happening only when another layer follows |
| Effect.AddManaInAnyCombinationEffect.ProduceMana | Mage/src/main/java/mage/abilities/effects/mana/AddManaInAnyCombinationEffect.java:118-146 | no result exactly when there is no controller; otherwise the mana the allocation `Produce` reaches; nothing for an amount of zero or less; for answers within bounds at most the amount, only of listed colours |
| Effect.AddManaInAnyCombinationEffect.AddUnits | Mage/src/main/java/mage/abilities/effects/mana/AddManaInAnyCombinationEffect.java:132-134 | adding one unit `n` times adds `n` mana of that colour |
| Effect.AddManaInAnyCombinationEffect.SetText | Mage/src/main/java/mage/abilities/effects/mana/AddManaInAnyCombinationEffect.java:148-165 | the built text is `Description`: the prefix with the amount in words, then "colors" or the braced list |
| Combinations.LayerLength | Mage/src/main/java/mage/abilities/effects/mana/AddManaInAnyCombinationEffect.java:97-114 | layer `i` holds `k ^ (i + 1)` entries |
| Combinations.LayerSound | Mage/src/main/java/mage/abilities/effects/mana/AddManaInAnyCombinationEffect.java:97-109 | every entry of layer `i` counts `i + 1` mana, only of listed colours |
| Combinations.GeneratedSound | Mage/src/main/java/mage/abilities/effects/mana/AddManaInAnyCombinationEffect.java:95-116 | from an empty list and `n >= 1`: exactly `k ^ n` entries (none for no colours), each counting `n`, only of listed colours |
| Combinations.GeneratedIndex | Mage/src/main/java/mage/abilities/effects/mana/AddManaInAnyCombinationEffect.java:97-109 | every pool of `n` mana of listed colours sits at some index of the last layer |
| Combinations.GeneratedComplete | Mage/src/main/java/mage/abilities/effects/mana/AddManaInAnyCombinationEffect.java:97-109 | completeness: every pool of `n` mana of listed colours is in the enumeration |
| Combinations.ExtendAt | Mage/src/main/java/mage/abilities/effects/mana/AddManaInAnyCombinationEffect.java:98-107 | a new layer is grouped by the added colour in list order, each group in the previous layer's order |
| Combinations.GeneratedAt | Mage/src/main/java/mage/abilities/effects/mana/AddManaInAnyCombinationEffect.java:97-114 | entry `j` is the pool of the symbol sequence spelled by the base-`k` digits of `j`, the last added colour most significant |
| Combinations.WordIndex | Mage/src/main/java/mage/abilities/effects/mana/AddManaInAnyCombinationEffect.java:97-109 | every length-`n` sequence of listed symbols is spelled by exactly the digits of some index below `k ^ n`, so each sequence has its own entry |
| Combinations.DuplicatesKept | Mage/src/main/java/mage/abilities/effects/mana/AddManaInAnyCombinationEffect.java:102-107 | with two mana and two or more colours, entries 1 and `k` are the same pool: permutations are not merged |
| Allocation.Ask | Mage/src/main/java/mage/abilities/effects/mana/AddManaInAnyCombinationEffect.java:129-136 | each answer records its request, never increases what is left, and, whatever the answer, keeps mana added plus mana left unchanged |
| Allocation.AskKeeps | Mage/src/main/java/mage/abilities/effects/mana/AddManaInAnyCombinationEffect.java:129-136 | an answer within bounds keeps mana done plus mana left equal to the total, and only listed colours |
| Allocation.PassKeeps | Mage/src/main/java/mage/abilities/effects/mana/AddManaInAnyCombinationEffect.java:128-140 | a pass keeps that invariant |
| Allocation.ProduceConserves | Mage/src/main/java/mage/abilities/effects/mana/AddManaInAnyCombinationEffect.java:123-143 | for answers within bounds: mana done plus mana left is the amount, at most the amount is added, exactly the amount if and only if nothing is left, only listed colours, and every request bounded by what is left and showing what is done |
| Allocation.ProduceCycle | Mage/src/main/java/mage/abilities/effects/mana/AddManaInAnyCombinationEffect.java:127-141 | colours are asked in list order pass after pass; when mana is left at the end every answered check was followed by a full pass, so `canRespond` is consulted only between passes |
| Allocation.ProduceNothing | Mage/src/main/java/mage/abilities/effects/mana/AddManaInAnyCombinationEffect.java:123-127 | an amount of zero or less asks nothing and adds nothing |
| Allocation.NoColors | Mage/src/main/java/mage/abilities/effects/mana/AddManaInAnyCombinationEffect.java:127-128 | with no colours listed nothing is asked and nothing is added |
| Allocation.ExampleAllocation | Mage/src/main/java/mage/abilities/effects/mana/AddManaInAnyCombinationEffect.java:123-143 | three mana over B, U, R answered 1, 0, 2 give one black and two red, stopping after the third request, with prompts showing 0, 1, 1 done of 3 |
| Description.SymbolOf | Mage/src/main/java/mage/abilities/effects/mana/AddManaInAnyCombinationEffect.java:161 | the letter read back names the symbol whose letter it is |
| Description.JoinedLength | Mage/src/main/java/mage/abilities/effects/mana/AddManaInAnyCombinationEffect.java:155-162 | `k` symbols take `11k - 8` characters: three per braced symbol and eight for each of the `k - 1` separators; no symbols give the empty text |
| Description.ParseJoined | Mage/src/main/java/mage/abilities/effects/mana/AddManaInAnyCombinationEffect.java:155-162 | the braced list joined by " and/or " reads back as exactly the listed symbols, in order |
| Description.DescriptionParts | Mage/src/main/java/mage/abilities/effects/mana/AddManaInAnyCombinationEffect.java:148-165 | the text starts "Add ", the amount in words, " mana in any combination of ", and ends with "colors" for five symbols and otherwise with a list that reads back as the symbols |

## Left out

- The controller's `canRespond` is true for a fixed number of checks (`respondingChecks`) and false afterwards; a controller that can respond forever while answering 0, or with no colours listed, makes the source loop forever, and that case is not modelled.
- `getAmount` is a function of the number of earlier requests and the request; the prompt's wording and HTML markup (`getColorHtmlName`) are reduced to the request's fields.
- Allocation.ProduceConserves: requires answers within `[0, left]`, because the source never checks them; nothing is claimed for other answers.
- Effect.AddManaInAnyCombinationEffect.ProduceMana: the count and colour bounds are claimed only for answers within bounds and a non-negative amount, because the source never checks the answers.
- Java `int` wrap-around is not modelled: `amountOfManaLeft`, `number`, the `Mana` counters and `count()` are unbounded integers here. This matters only for answers outside the bounds (an answer near 2^31 can make the source's remainder wrap back to a positive value and start another pass, where the model stops) and for amounts of 2^31 mana or more in the enumeration.
- `CardUtil.numberToText(amount.toString())` is not part of this model: the constructors that build the text take the amount in words as a parameter.
- `DynamicValue.calculate` depends on the ability and the game; it is a fixed number or a named game value looked up in `Game.values`. `netAmount.copy()` is modelled as the same value.
- The copy constructor's `null` test on `netAmount` (lines 60-64): every constructor sets it, so it is never absent in the model.
- The copy shares the colour list with the original (line 58); the model holds colours as an immutable sequence, so sharing is invisible.
- `ManaEffect` and its copy constructor are not part of this model; the copy is modelled as copying the rules text.
- `Mana` objects are values: `new Mana()` followed by `add` is a new value, and aliasing between pools is not modelled (the source creates a new pool for every entry).
- `game.getPlayer(source.getControllerId())` is the game's optional controller; `produceMana` with a null game is not modelled.
