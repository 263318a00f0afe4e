/** The effect itself: its constructors and defaults, the net mana it reports to the
    playability check, the enumeration of colour combinations, the interactive production
    of mana and its rules text. */
module Effect {
  import opened ManaValues
  import opened Engine
  import opened Combinations
  import opened Allocation
  import opened Description

  /** A mutable list of mana (`List<Mana>`), with the three operations the effect uses. */
  class ManaList {
    var items: seq<Mana>

    constructor ()
      ensures items == []
    {
      items := [];
    }

    /** `add`: appends one entry. */
    method Add(m: Mana)
      modifies this
      ensures items == old(items) + [m]
    {
      items := items + [m];
    }

    /** `clear`: removes every entry. */
    method Clear()
      modifies this
      ensures items == []
    {
      items := [];
    }

    /** `addAll`: appends every entry of `other`, in order. */
    method AddAll(other: ManaList)
      modifies this
      ensures items == old(items) + old(other.items)
    {
      items := items + other.items;
    }
  }

  /** The five colours, in the order the one-argument constructor lists them. */
  const AllColors: seq<ColoredManaSymbol> := [B, U, R, W, G]

  class AddManaInAnyCombinationEffect {
    /** The colours the mana may be split over, in order. */
    const manaSymbols: seq<ColoredManaSymbol>
    /** The mana produced when the ability resolves. */
    const amount: DynamicValue
    /** The mana reported to the playability check. */
    const netAmount: DynamicValue
    /** The rules text. */
    var staticText: string

    /** The main constructor: both amounts, the colours, and the text built from them;
        `amountWords` is the amount as `numberToText` spells it. */
    constructor (amount: DynamicValue, netAmount: DynamicValue, symbols: seq<ColoredManaSymbol>,
                 amountWords: string)
      ensures this.amount == amount && this.netAmount == netAmount && manaSymbols == symbols
      ensures staticText == Description.Description(amountWords, symbols)
    {
      var text := SetText(amountWords, symbols);
      this.manaSymbols := symbols;
      this.amount := amount;
      this.staticText := text;
      this.netAmount := netAmount;
    }

    /** A fixed amount of mana in any combination of all five colours. */
    constructor AnyColor(amount: int, amountWords: string)
      ensures this.amount == StaticValue(amount) && this.netAmount == StaticValue(amount)
      ensures manaSymbols == AllColors
      ensures staticText == Description.Description(amountWords, AllColors)
    {
      var text := SetText(amountWords, AllColors);
      this.manaSymbols := AllColors;
      this.amount := StaticValue(amount);
      this.staticText := text;
      this.netAmount := StaticValue(amount);
    }

    /** A fixed amount of mana in any combination of the given colours. */
    constructor OfAmount(amount: int, symbols: seq<ColoredManaSymbol>, amountWords: string)
      ensures this.amount == StaticValue(amount) && this.netAmount == StaticValue(amount)
      ensures manaSymbols == symbols
      ensures staticText == Description.Description(amountWords, symbols)
    {
      var text := SetText(amountWords, symbols);
      this.manaSymbols := symbols;
      this.amount := StaticValue(amount);
      this.staticText := text;
      this.netAmount := StaticValue(amount);
    }

    /** As `AnyColor`, with the given rules text in place of the built one. */
    constructor AnyColorWithText(amount: int, text: string)
      ensures this.amount == StaticValue(amount) && this.netAmount == StaticValue(amount)
      ensures manaSymbols == AllColors && staticText == text
    {
      this.manaSymbols := AllColors;
      this.amount := StaticValue(amount);
      this.staticText := text;
      this.netAmount := StaticValue(amount);
    }

    /** As `OfAmount`, with the given rules text in place of the built one. */
    constructor OfAmountWithText(amount: int, text: string, symbols: seq<ColoredManaSymbol>)
      ensures this.amount == StaticValue(amount) && this.netAmount == StaticValue(amount)
      ensures manaSymbols == symbols && staticText == text
    {
      this.manaSymbols := symbols;
      this.amount := StaticValue(amount);
      this.staticText := text;
      this.netAmount := StaticValue(amount);
    }

    /** As the main constructor, with the given rules text in place of the built one. */
    constructor WithText(amount: DynamicValue, netAmount: DynamicValue, text: string,
                         symbols: seq<ColoredManaSymbol>)
      ensures this.amount == amount && this.netAmount == netAmount
      ensures manaSymbols == symbols && staticText == text
    {
      this.manaSymbols := symbols;
      this.amount := amount;
      this.staticText := text;
      this.netAmount := netAmount;
    }

    /** The copy constructor: same colours, amounts and text. */
    constructor Copy(effect: AddManaInAnyCombinationEffect)
      ensures amount == effect.amount && netAmount == effect.netAmount
      ensures manaSymbols == effect.manaSymbols && staticText == effect.staticText
    {
      this.manaSymbols := effect.manaSymbols;
      this.amount := effect.amount;
      this.netAmount := effect.netAmount;
      this.staticText := effect.staticText;
    }

    /** `copy()`: a new effect equal to this one. */
    method CopyEffect() returns (e: AddManaInAnyCombinationEffect)
      ensures fresh(e)
      ensures e.amount == amount && e.netAmount == netAmount
      ensures e.manaSymbols == manaSymbols && e.staticText == staticText
    {
      e := new AddManaInAnyCombinationEffect.Copy(this);
    }

    /** The mana the ability can be counted on for. Without a game: nothing. During a
        playability check: nothing for a net amount of zero or less, one pool of that many
        mana of any colour when the list holds five symbols (a size test), and otherwise
        every way of spending exactly the net amount on listed colours — `k ^ n` pools for `k` colours
        and `n` mana, duplicates included. Outside a playability check: one pool of the
        full amount of any colour, or nothing for an amount of zero or less. */
    method GetNetMana(game: Option<Game>) returns (netMana: seq<Mana>)
      ensures game.None? ==> netMana == []
      ensures game.Some? && game.value.inCheckPlayableState ==>
                var n := Calculate(netAmount, game.value);
                (n <= 0 ==> netMana == []) &&
                (n > 0 && |manaSymbols| == 5 ==> netMana == [AnyMana(n)]) &&
                (n > 0 && |manaSymbols| != 5 ==> netMana == Generated([], manaSymbols, n))
      ensures game.Some? && game.value.inCheckPlayableState &&
              Calculate(netAmount, game.value) > 0 && |manaSymbols| != 5 ==>
                |netMana| == Pow(|manaSymbols|, Calculate(netAmount, game.value)) &&
                (forall m :: m in netMana ==>
                   Count(m) == Calculate(netAmount, game.value) && OnlyColorsOf(m, manaSymbols)) &&
                (forall v :: (Count(v) == Calculate(netAmount, game.value) &&
                              OnlyColorsOf(v, manaSymbols)) ==> v in netMana)
      ensures game.Some? && !game.value.inCheckPlayableState ==>
                var a := Calculate(amount, game.value);
                netMana == if a > 0 then [AnyMana(a)] else []
    {
      var list := new ManaList();
      if game.Some? {
        var g := game.value;
        if g.inCheckPlayableState {
          var amountAvailableMana := Calculate(netAmount, g);
          if amountAvailableMana > 0 {
            if |manaSymbols| == 5 {
              list.Add(Mana(0, 0, 0, 0, 0, 0, amountAvailableMana, 0));
            } else {
              GeneratePossibleManaCombinations(list, manaSymbols, amountAvailableMana);
              GeneratedSound(manaSymbols, amountAvailableMana);
              forall v | Count(v) == amountAvailableMana && OnlyColorsOf(v, manaSymbols)
                ensures v in list.items
              {
                GeneratedComplete(manaSymbols, amountAvailableMana, v);
              }
            }
          }
        } else {
          var amountOfManaLeft := Calculate(amount, g);
          if amountOfManaLeft > 0 {
            list.Add(AnyMana(amountOfManaLeft));
          }
        }
      }
      netMana := list.items;
    }

    /** Appends to `combinations` every way of spending `amountAvailableMana` mana on the
        listed colours, one unit at a time: layer 0 is one unit per colour, and each further
        layer adds, colour by colour, one unit to every entry of the previous layer. Before
        each further layer the list is moved into a buffer and emptied. */
    static method GeneratePossibleManaCombinations(combinations: ManaList,
                                                   manaSymbols: seq<ColoredManaSymbol>,
                                                   amountAvailableMana: int)
      modifies combinations
      ensures combinations.items == Generated(old(combinations.items), manaSymbols, amountAvailableMana)
    {
      ghost var init := combinations.items;
      var copy := new ManaList();
      var i := 0;
      while i < amountAvailableMana
        invariant i == 0 || i <= amountAvailableMana
        invariant copy != combinations
        invariant i == 0 ==> combinations.items == init
        invariant 0 < i < amountAvailableMana ==>
                    combinations.items == [] && copy.items == Layer(init, manaSymbols, i - 1)
        invariant 0 < i == amountAvailableMana ==> combinations.items == Layer(init, manaSymbols, i - 1)
      {
        ghost var prev := copy.items;
        var ci := 0;
        while ci < |manaSymbols|
          invariant ci <= |manaSymbols| && copy != combinations && copy.items == prev
          invariant i == 0 ==> combinations.items == init + Units(manaSymbols[..ci])
          invariant i > 0 ==> combinations.items == Extend(prev, manaSymbols[..ci])
        {
          var colorSymbol := manaSymbols[ci];
          if i == 0 {
            UnitsStep(init, manaSymbols, ci);
            combinations.Add(Unit(colorSymbol));
          } else {
            ghost var before := combinations.items;
            GroupStart(before, prev, colorSymbol);
            var j := 0;
            while j < |copy.items|
              invariant j <= |copy.items| && copy.items == prev
              invariant combinations.items == before + AddEach(prev[..j], colorSymbol)
            {
              var prevMana := copy.items[j];
              var newMana := Zero();
              newMana := ManaValues.Add(newMana, prevMana);
              newMana := ManaValues.Add(newMana, Unit(colorSymbol));
              AddZero(prevMana);
              GroupStep(before, prev, j, colorSymbol);
              combinations.Add(newMana);
              j := j + 1;
            }
            GroupDone(before, prev, manaSymbols, ci);
          }
          ci := ci + 1;
        }
        LayerDone(init, manaSymbols, i, prev, combinations.items);
        if i + 1 < amountAvailableMana {
          copy.Clear();
          copy.AddAll(combinations);
          combinations.Clear();
        }
        i := i + 1;
      }
    }

    /** Asks the controller, pass after pass over the listed colours, how many of the mana
        still left to add go to each colour, until nothing is left or the controller can no
        longer respond; nothing at all without a controller. The mana returned is what the
        allocation model `Produce` computes. When the controller answers within the bounds
        and the amount is not negative, at most the amount is added, all of listed colours,
        and exactly the amount unless the controller stopped responding first. */
    method ProduceMana(game: Game) returns (r: Option<Mana>)
      ensures game.controller.None? <==> r.None?
      ensures r.Some? ==>
                r.value == Produce(manaSymbols, Calculate(amount, game), game.controller.value).mana
      ensures r.Some? && HonoursBounds(game.controller.value) && Calculate(amount, game) >= 0 ==>
                Count(r.value) <= Calculate(amount, game) && OnlyColorsOf(r.value, manaSymbols)
      ensures r.Some? && Calculate(amount, game) <= 0 ==> r.value == Zero()
    {
      if game.controller.None? {
        return None;
      }
      var player := game.controller.value;
      var mana := Zero();
      var amountOfManaLeft := Calculate(amount, game);
      var maxAmount := amountOfManaLeft;
      var checksLeft := player.respondingChecks;
      var asked: nat := 0;
      ghost var requests: seq<AmountRequest> := [];
      while amountOfManaLeft > 0 && checksLeft > 0
        invariant asked == |requests|
        invariant Passes(manaSymbols, player, maxAmount, checksLeft, Allocation(mana, amountOfManaLeft, requests)) ==
                  Produce(manaSymbols, maxAmount, player)
        decreases checksLeft
      {
        ghost var passStart := Allocation(mana, amountOfManaLeft, requests);
        PassesGoOn(manaSymbols, player, maxAmount, checksLeft, passStart);
        checksLeft := checksLeft - 1;
        var idx := 0;
        while idx < |manaSymbols|
          invariant idx <= |manaSymbols| && asked == |requests|
          invariant Pass(manaSymbols, player, maxAmount, idx, Allocation(mana, amountOfManaLeft, requests)) ==
                    Pass(manaSymbols, player, maxAmount, 0, passStart)
        {
          var coloredManaSymbol := manaSymbols[idx];
          ghost var st := Allocation(mana, amountOfManaLeft, requests);
          var q := AmountRequest(0, amountOfManaLeft, Count(mana), maxAmount, coloredManaSymbol);
          var number := player.getAmount(asked, q);
          asked := asked + 1;
          requests := requests + [q];
          if number > 0 {
            mana := AddUnits(mana, coloredManaSymbol, number);
            amountOfManaLeft := amountOfManaLeft - number;
            AskAdds(manaSymbols, player, maxAmount, idx, st, q, number);
          } else {
            AskPasses(manaSymbols, player, maxAmount, idx, st, q);
          }
          ghost var next := Allocation(mana, amountOfManaLeft, requests);
          if amountOfManaLeft == 0 {
            PassStops(manaSymbols, player, maxAmount, idx, st, next);
            break;
          }
          PassGoesOn(manaSymbols, player, maxAmount, idx, st, next);
          idx := idx + 1;
        }
      }
      r := Some(mana);
      if HonoursBounds(player) && maxAmount >= 0 {
        ProduceConserves(manaSymbols, maxAmount, player);
      }
      if maxAmount <= 0 {
        ProduceNothing(manaSymbols, maxAmount, player);
      }
    }

    /** The innermost loop of `produceMana`: `n` times one unit of colour `c` added to `mana`. */
    static method AddUnits(mana: Mana, c: ColoredManaSymbol, n: nat) returns (m: Mana)
      ensures m == ManaValues.Add(mana, Scaled(c, n))
    {
      m := mana;
      ScaledZero(mana, c);
      var i := 0;
      while i < n
        invariant 0 <= i <= n
        invariant m == ManaValues.Add(mana, Scaled(c, i))
      {
        AddUnitToScaled(mana, c, i);
        m := ManaValues.Add(m, Unit(c));
        i := i + 1;
      }
    }

    /** The rules text: "Add ", the amount in words, " mana in any combination of ", then
        "colors" when five symbols are listed (a size test), and otherwise each listed symbol
        in braces with " and/or " between neighbours. */
    static method SetText(amountWords: string, manaSymbols: seq<ColoredManaSymbol>) returns (text: string)
      ensures text == Description.Description(amountWords, manaSymbols)
    {
      var sb := "Add ";
      sb := sb + amountWords;
      sb := sb + " mana in any combination of ";
      if |manaSymbols| == 5 {
        sb := sb + "colors";
      } else {
        var i := 0;
        while i < |manaSymbols|
          invariant i <= |manaSymbols|
          invariant sb == Prefix(amountWords) + Joined(manaSymbols[..i])
        {
          var coloredManaSymbol := manaSymbols[i];
          assert manaSymbols[..i + 1][..i] == manaSymbols[..i];
          i := i + 1;
          if i > 1 {
            sb := sb + " and/or ";
          }
          sb := sb + ['{'] + [Letter(coloredManaSymbol)] + ['}'];
        }
        assert manaSymbols[..|manaSymbols|] == manaSymbols;
      }
      text := sb;
    }
  }
}
