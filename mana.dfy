/** The part of the engine's mana value that this effect uses: eight counters, a one-unit
    constructor per colour, pointwise addition and the total count. */
module ManaValues {

  /** The five coloured mana symbols, in the engine's own letters. */
  datatype ColoredManaSymbol = W | U | B | R | G

  /** A pool of mana: one counter per colour plus generic, "any colour" and colorless. */
  datatype Mana = Mana(white: nat, blue: nat, black: nat, red: nat, green: nat,
                       generic: nat, any: nat, colorless: nat)

  /** The empty pool (`new Mana()`). */
  function Zero(): Mana
  {
    Mana(0, 0, 0, 0, 0, 0, 0, 0)
  }

  /** The counter of one colour. */
  function Amount(m: Mana, c: ColoredManaSymbol): nat
  {
    match c
    case W => m.white
    case U => m.blue
    case B => m.black
    case R => m.red
    case G => m.green
  }

  /** Total number of mana in the pool (`Mana.count()`): all eight counters. */
  function Count(m: Mana): nat
  {
    m.white + m.blue + m.black + m.red + m.green + m.generic + m.any + m.colorless
  }

  /** `n` mana of the single colour `c`, nothing else. */
  function Scaled(c: ColoredManaSymbol, n: nat): Mana
  {
    match c
    case W => Mana(n, 0, 0, 0, 0, 0, 0, 0)
    case U => Mana(0, n, 0, 0, 0, 0, 0, 0)
    case B => Mana(0, 0, n, 0, 0, 0, 0, 0)
    case R => Mana(0, 0, 0, n, 0, 0, 0, 0)
    case G => Mana(0, 0, 0, 0, n, 0, 0, 0)
  }

  /** One mana of colour `c` (`new Mana(colorSymbol)`). */
  function Unit(c: ColoredManaSymbol): Mana
  {
    Scaled(c, 1)
  }

  /** `n` mana of any colour (`Mana.AnyMana(n)`, and the explicit eight-argument
      construction with only the "any" argument set). */
  function AnyMana(n: nat): (m: Mana)
    ensures Count(m) == n && m.any == n
  {
    Mana(0, 0, 0, 0, 0, 0, n, 0)
  }

  /** Pointwise sum (`a.add(b)` on a copy of `a`). */
  function Add(a: Mana, b: Mana): (m: Mana)
  {
    Mana(a.white + b.white, a.blue + b.blue, a.black + b.black, a.red + b.red,
         a.green + b.green, a.generic + b.generic, a.any + b.any, a.colorless + b.colorless)
  }

  /** The pool holds coloured mana only, and only of colours listed in `symbols`. */
  predicate OnlyColorsOf(m: Mana, symbols: seq<ColoredManaSymbol>)
  {
    m.generic == 0 && m.any == 0 && m.colorless == 0 &&
    (m.white > 0 ==> W in symbols) && (m.blue > 0 ==> U in symbols) &&
    (m.black > 0 ==> B in symbols) && (m.red > 0 ==> R in symbols) &&
    (m.green > 0 ==> G in symbols)
  }

  /** `n` mana of one colour count `n`, all of that colour. */
  lemma ScaledCount(c: ColoredManaSymbol, n: nat)
    ensures Count(Scaled(c, n)) == n && Amount(Scaled(c, n), c) == n
  {
  }

  lemma UnitCount(c: ColoredManaSymbol)
    ensures Count(Unit(c)) == 1 && Amount(Unit(c), c) == 1
  {
  }

  /** The count of a sum is the sum of the counts. */
  lemma CountAdd(a: Mana, b: Mana)
    ensures Count(Add(a, b)) == Count(a) + Count(b)
  {
  }

  /** Adding nothing leaves a pool as it was. */
  lemma AddZero(m: Mana)
    ensures Add(Zero(), m) == m && Add(m, Zero()) == m
  {
  }

  /** No mana of a colour is no mana at all. */
  lemma ScaledZero(m: Mana, c: ColoredManaSymbol)
    ensures Add(m, Scaled(c, 0)) == m
  {
  }

  /** Adding one more unit of a colour to `n` units of it gives `n + 1` units. */
  lemma AddUnitToScaled(m: Mana, c: ColoredManaSymbol, n: nat)
    ensures Add(Add(m, Scaled(c, n)), Unit(c)) == Add(m, Scaled(c, n + 1))
  {
  }

  /** One unit of a listed colour is within the listed colours. */
  lemma UnitColors(c: ColoredManaSymbol, symbols: seq<ColoredManaSymbol>)
    requires c in symbols
    ensures OnlyColorsOf(Unit(c), symbols)
  {
  }

  /** `n` mana of a listed colour is within the listed colours. */
  lemma ScaledColors(c: ColoredManaSymbol, n: nat, symbols: seq<ColoredManaSymbol>)
    requires c in symbols
    ensures OnlyColorsOf(Scaled(c, n), symbols)
  {
  }

  /** A pool within the colours of `s` is within those of any list that contains them. */
  lemma WidenColors(m: Mana, s: seq<ColoredManaSymbol>, t: seq<ColoredManaSymbol>)
    requires OnlyColorsOf(m, s)
    requires forall c :: c in s ==> c in t
    ensures OnlyColorsOf(m, t)
  {
  }

  /** Adding mana of listed colours to such a pool keeps it within those colours. */
  lemma AddKeepsColors(a: Mana, b: Mana, symbols: seq<ColoredManaSymbol>)
    requires OnlyColorsOf(a, symbols) && OnlyColorsOf(b, symbols)
    ensures OnlyColorsOf(Add(a, b), symbols)
  {
  }
}
