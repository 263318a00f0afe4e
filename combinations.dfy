/** What `generatePossibleManaCombinations` computes, as functions on lists of mana, and
    what is proved about it: its exact length, that every entry spends exactly the
    available amount on listed colours, that every such distribution appears, and the
    order in which the entries come out. */
module Combinations {
  import opened ManaValues

  /** `a * b`, by repeated addition, so that the proofs below stay within linear
      arithmetic. */
  function Times(a: nat, b: nat): nat
  {
    if a == 0 then 0 else Times(a - 1, b) + b
  }

  /** `k` to the power `n`. */
  function Pow(k: nat, n: nat): nat
  {
    if n == 0 then 1 else Times(k, Pow(k, n - 1))
  }

  /** Quotient and remainder of `j` by `p`, by repeated subtraction. */
  function Quot(j: nat, p: nat): nat
    requires p > 0
  {
    if j < p then 0 else 1 + Quot(j - p, p)
  }

  function Rem(j: nat, p: nat): (r: nat)
    requires p > 0
    ensures r < p
  {
    if j < p then j else Rem(j - p, p)
  }

  lemma {:induction false} TimesOne(k: nat)
    ensures Times(k, 1) == k
  {
    if k > 0 {
      TimesOne(k - 1);
    }
  }

  lemma {:induction false} TimesBelow(ci: nat, j: nat, p: nat, k: nat)
    requires ci < k && j < p
    ensures Times(ci, p) + j < Times(k, p)
  {
    if k > ci + 1 {
      TimesBelow(ci, j, p, k - 1);
    }
  }

  lemma {:induction false} QuotRem(j: nat, p: nat)
    requires p > 0
    ensures j == Times(Quot(j, p), p) + Rem(j, p)
  {
    if j >= p {
      QuotRem(j - p, p);
    }
  }

  lemma {:induction false} QuotBelow(j: nat, p: nat, k: nat)
    requires p > 0 && j < Times(k, p)
    ensures Quot(j, p) < k
  {
    if j >= p {
      QuotBelow(j - p, p, k - 1);
    }
  }

  lemma {:induction false} QuotOfSum(ci: nat, j: nat, p: nat)
    requires j < p
    ensures Quot(Times(ci, p) + j, p) == ci && Rem(Times(ci, p) + j, p) == j
  {
    if ci > 0 {
      QuotOfSum(ci - 1, j, p);
    }
  }

  /** The single-colour units, one per symbol in list order (layer 0 of the enumeration). */
  function Units(symbols: seq<ColoredManaSymbol>): (r: seq<Mana>)
    ensures |r| == |symbols|
  {
    if symbols == [] then []
    else Units(symbols[..|symbols| - 1]) + [Unit(symbols[|symbols| - 1])]
  }

  lemma {:induction false} UnitsAt(symbols: seq<ColoredManaSymbol>, i: nat)
    requires i < |symbols|
    ensures Units(symbols)[i] == Unit(symbols[i])
  {
    if i < |symbols| - 1 {
      UnitsAt(symbols[..|symbols| - 1], i);
    }
  }

  /** Every entry of `prev`, in order, with one more unit of colour `c`. */
  function AddEach(prev: seq<Mana>, c: ColoredManaSymbol): (r: seq<Mana>)
    ensures |r| == |prev|
  {
    if prev == [] then []
    else AddEach(prev[..|prev| - 1], c) + [Add(prev[|prev| - 1], Unit(c))]
  }

  lemma {:induction false} AddEachAt(prev: seq<Mana>, c: ColoredManaSymbol, j: nat)
    requires j < |prev|
    ensures AddEach(prev, c)[j] == Add(prev[j], Unit(c))
  {
    if j < |prev| - 1 {
      AddEachAt(prev[..|prev| - 1], c, j);
    }
  }

  /** One step of the enumeration: for each colour in list order, every entry of the
      previous layer extended by a unit of that colour. */
  function Extend(prev: seq<Mana>, symbols: seq<ColoredManaSymbol>): seq<Mana>
    decreases |symbols|
  {
    if symbols == [] then []
    else Extend(prev, symbols[..|symbols| - 1]) + AddEach(prev, symbols[|symbols| - 1])
  }

  /** A step has one group of `|prev|` entries per colour. */
  lemma {:induction false} ExtendLength(prev: seq<Mana>, symbols: seq<ColoredManaSymbol>)
    ensures |Extend(prev, symbols)| == Times(|symbols|, |prev|)
    decreases |symbols|
  {
    if symbols != [] {
      ExtendLength(prev, symbols[..|symbols| - 1]);
    }
  }

  /** Layer 0 grows by one unit per colour, in list order. */
  lemma UnitsSnoc(symbols: seq<ColoredManaSymbol>, ci: nat)
    requires ci < |symbols|
    ensures Units(symbols[..ci + 1]) == Units(symbols[..ci]) + [Unit(symbols[ci])]
  {
    assert symbols[..ci + 1][..ci] == symbols[..ci];
  }

  /** The entries extended so far grow by one entry per entry of the previous layer. */
  lemma AddEachSnoc(prev: seq<Mana>, j: nat, c: ColoredManaSymbol)
    requires j < |prev|
    ensures AddEach(prev[..j + 1], c) == AddEach(prev[..j], c) + [Add(prev[j], Unit(c))]
  {
    assert prev[..j + 1][..j] == prev[..j];
  }

  /** Appending a unit to layer 0 built so far covers one more colour. */
  lemma UnitsStep(init: seq<Mana>, symbols: seq<ColoredManaSymbol>, ci: nat)
    requires ci < |symbols|
    ensures init + Units(symbols[..ci]) + [Unit(symbols[ci])] == init + Units(symbols[..ci + 1])
  {
    UnitsSnoc(symbols, ci);
    assert init + Units(symbols[..ci]) + [Unit(symbols[ci])] == init + (Units(symbols[..ci]) + [Unit(symbols[ci])]);
  }

  /** Before any entry of `prev` is extended, the group adds nothing. */
  lemma GroupStart(before: seq<Mana>, prev: seq<Mana>, c: ColoredManaSymbol)
    ensures before + AddEach(prev[..0], c) == before
  {
    assert prev[..0] == [];
    assert before + [] == before;
  }

  /** Appending the next extended entry to a group built so far covers one more entry. */
  lemma GroupStep(before: seq<Mana>, prev: seq<Mana>, j: nat, c: ColoredManaSymbol)
    requires j < |prev|
    ensures before + AddEach(prev[..j], c) + [Add(prev[j], Unit(c))] == before + AddEach(prev[..j + 1], c)
  {
    AddEachSnoc(prev, j, c);
    assert before + AddEach(prev[..j], c) + [Add(prev[j], Unit(c))] ==
           before + (AddEach(prev[..j], c) + [Add(prev[j], Unit(c))]);
  }

  /** A step grows by one group per colour, in list order. */
  lemma ExtendSnoc(prev: seq<Mana>, symbols: seq<ColoredManaSymbol>, ci: nat)
    requires ci < |symbols|
    ensures Extend(prev, symbols[..ci + 1]) == Extend(prev, symbols[..ci]) + AddEach(prev, symbols[ci])
  {
    assert symbols[..ci + 1][..ci] == symbols[..ci];
  }

  /** Once every entry of `prev` has had a unit of the `ci`-th colour added, the step has
      covered the first `ci + 1` colours. */
  lemma GroupDone(before: seq<Mana>, prev: seq<Mana>, symbols: seq<ColoredManaSymbol>, ci: nat)
    requires ci < |symbols| && before == Extend(prev, symbols[..ci])
    ensures before + AddEach(prev[..|prev|], symbols[ci]) == Extend(prev, symbols[..ci + 1])
  {
    assert prev[..|prev|] == prev;
    ExtendSnoc(prev, symbols, ci);
  }

  /** Layer `i` of the enumeration started from the list `init`: layer 0 is `init` followed
      by the units, and each further layer extends the one before it. */
  function Layer(init: seq<Mana>, symbols: seq<ColoredManaSymbol>, i: nat): seq<Mana>
  {
    if i == 0 then init + Units(symbols) else Extend(Layer(init, symbols, i - 1), symbols)
  }

  /** The list `combinations` after `generatePossibleManaCombinations(combinations,
      symbols, amount)`, when it held `init` before: unchanged for an amount of zero or
      less, and otherwise the last layer. */
  function Generated(init: seq<Mana>, symbols: seq<ColoredManaSymbol>, amount: int): seq<Mana>
  {
    if amount <= 0 then init else Layer(init, symbols, amount - 1)
  }

  /** The mana a sequence of symbols adds up to, one unit per symbol. */
  function ManaOf(w: seq<ColoredManaSymbol>): Mana
  {
    if w == [] then Zero() else Add(ManaOf(w[..|w| - 1]), Unit(w[|w| - 1]))
  }

  /** The sequence of symbols that entry `j` of layer `n - 1` was built from: the base-k
      digits of `j`, the digit of the colour added last being the most significant one. */
  function WordAt(symbols: seq<ColoredManaSymbol>, n: nat, j: nat): (w: seq<ColoredManaSymbol>)
    requires |symbols| > 0 && j < Pow(|symbols|, n)
    ensures |w| == n
  {
    if n == 0 then []
    else
      var p := Pow(|symbols|, n - 1);
      assert p > 0 by { PowPositive(|symbols|, n - 1); }
      QuotBelow(j, p, |symbols|);
      WordAt(symbols, n - 1, Rem(j, p)) + [symbols[Quot(j, p)]]
  }

  lemma {:induction false} PowPositive(k: nat, n: nat)
    requires k > 0
    ensures Pow(k, n) > 0
  {
    if n > 0 {
      PowPositive(k, n - 1);
    }
  }

  /** Layer `i` started from the empty list has `k ^ (i + 1)` entries for `k` symbols. */
  lemma {:induction false} LayerLength(symbols: seq<ColoredManaSymbol>, i: nat)
    ensures |Layer([], symbols, i)| == Pow(|symbols|, i + 1)
  {
    if i > 0 {
      LayerLength(symbols, i - 1);
      ExtendLength(Layer([], symbols, i - 1), symbols);
    } else {
      TimesOne(|symbols|);
    }
  }

  /** The mana of a sequence of symbols counts one per symbol, all of them listed in it. */
  lemma {:induction false} ManaOfSound(w: seq<ColoredManaSymbol>)
    ensures Count(ManaOf(w)) == |w| && OnlyColorsOf(ManaOf(w), w)
  {
    if w != [] {
      var front := w[..|w| - 1];
      var u := Unit(w[|w| - 1]);
      ManaOfSound(front);
      WidenColors(ManaOf(front), front, w);
      UnitColors(w[|w| - 1], w);
      CountAdd(ManaOf(front), u);
      UnitCount(w[|w| - 1]);
      AddKeepsColors(ManaOf(front), u, w);
    }
  }

  /** Entry `ci * |prev| + j` of a step is entry `j` of the previous layer plus one unit of
      the `ci`-th colour: the step is grouped by the added colour, in list order, and each
      group keeps the previous layer's order. */
  lemma {:induction false} ExtendAt(prev: seq<Mana>, symbols: seq<ColoredManaSymbol>, ci: nat, j: nat)
    requires ci < |symbols| && j < |prev|
    ensures Times(ci, |prev|) + j < |Extend(prev, symbols)|
    ensures Extend(prev, symbols)[Times(ci, |prev|) + j] == Add(prev[j], Unit(symbols[ci]))
  {
    ExtendLength(prev, symbols);
    TimesBelow(ci, j, |prev|, |symbols|);
    var x := Times(ci, |prev|) + j;
    var front := symbols[..|symbols| - 1];
    var e := Extend(prev, front);
    var last := AddEach(prev, symbols[|symbols| - 1]);
    if ci < |symbols| - 1 {
      ExtendAt(prev, front, ci, j);
      assert x < |e|;
      assert (e + last)[x] == e[x];
    } else {
      assert x == |e| + j;
      AddEachAt(prev, symbols[ci], j);
      assert (e + last)[|e| + j] == last[j];
    }
  }

  /** `ExtendAt` for an index `x` already known to be `ci * |prev| + j`. */
  lemma ExtendAtIndex(prev: seq<Mana>, symbols: seq<ColoredManaSymbol>, ci: nat, j: nat, x: nat)
    requires ci < |symbols| && j < |prev| && x == Times(ci, |prev|) + j
    ensures x < |Extend(prev, symbols)|
    ensures Extend(prev, symbols)[x] == Add(prev[j], Unit(symbols[ci]))
  {
    ExtendAt(prev, symbols, ci, j);
  }

  /** Layer `i` is layer 0 or the step from layer `i - 1`, whichever the loop just built. */
  lemma LayerDone(init: seq<Mana>, symbols: seq<ColoredManaSymbol>, i: nat, prev: seq<Mana>, items: seq<Mana>)
    requires i == 0 ==> items == init + Units(symbols[..|symbols|])
    requires i > 0 ==> prev == Layer(init, symbols, i - 1) && items == Extend(prev, symbols[..|symbols|])
    ensures items == Layer(init, symbols, i)
  {
    assert symbols[..|symbols|] == symbols;
  }

  /** Every entry of a step is an entry of the previous layer plus one unit of a listed colour. */
  lemma {:induction false} ExtendFrom(prev: seq<Mana>, symbols: seq<ColoredManaSymbol>, x: nat)
    returns (j: nat, ci: nat)
    requires x < |Extend(prev, symbols)|
    ensures j < |prev| && ci < |symbols|
    ensures Extend(prev, symbols)[x] == Add(prev[j], Unit(symbols[ci]))
  {
    var front := symbols[..|symbols| - 1];
    var e := Extend(prev, front);
    var last := AddEach(prev, symbols[|symbols| - 1]);
    if x < |e| {
      j, ci := ExtendFrom(prev, front, x);
      assert (e + last)[x] == e[x];
    } else {
      j, ci := x - |e|, |symbols| - 1;
      AddEachAt(prev, symbols[ci], j);
      assert (e + last)[x] == last[j];
    }
  }

  /** One more unit of a listed colour on a pool of `i` listed mana gives `i + 1` of them. */
  lemma AddUnitSound(m: Mana, c: ColoredManaSymbol, symbols: seq<ColoredManaSymbol>, i: nat)
    requires Count(m) == i && OnlyColorsOf(m, symbols) && c in symbols
    ensures Count(Add(m, Unit(c))) == i + 1 && OnlyColorsOf(Add(m, Unit(c)), symbols)
  {
    CountAdd(m, Unit(c));
    UnitCount(c);
    UnitColors(c, symbols);
    AddKeepsColors(m, Unit(c), symbols);
  }

  /** Layer 0 started from the empty list holds the single units of the listed colours. */
  lemma UnitsSound(symbols: seq<ColoredManaSymbol>, x: nat)
    requires x < |Layer([], symbols, 0)|
    ensures Count(Layer([], symbols, 0)[x]) == 1
    ensures OnlyColorsOf(Layer([], symbols, 0)[x], symbols)
  {
    UnitsAt(symbols, x);
    assert Layer([], symbols, 0)[x] == Unit(symbols[x]);
    UnitColors(symbols[x], symbols);
  }

  /** Every entry of layer `i` started from the empty list holds exactly `i + 1` mana, all
      of colours listed in `symbols`. */
  lemma {:induction false} LayerSound(symbols: seq<ColoredManaSymbol>, i: nat, x: nat)
    requires x < |Layer([], symbols, i)|
    ensures Count(Layer([], symbols, i)[x]) == i + 1
    ensures OnlyColorsOf(Layer([], symbols, i)[x], symbols)
  {
    if i == 0 {
      UnitsSound(symbols, x);
    } else {
      var prev := Layer([], symbols, i - 1);
      var j, ci := ExtendFrom(prev, symbols, x);
      var m := Add(prev[j], Unit(symbols[ci]));
      assert Layer([], symbols, i)[x] == m;
      LayerSound(symbols, i - 1, j);
      AddUnitSound(prev[j], symbols[ci], symbols, i);
    }
  }

  /** Starting from an empty list, the enumeration of `amount >= 1` leaves exactly
      `k ^ amount` entries for `k` symbols (so none at all for an empty symbol list, and
      duplicates are kept), each spending exactly `amount` mana on listed colours. */
  lemma GeneratedSound(symbols: seq<ColoredManaSymbol>, amount: int)
    requires amount >= 1
    ensures |Generated([], symbols, amount)| == Pow(|symbols|, amount)
    ensures forall m :: m in Generated([], symbols, amount) ==>
              Count(m) == amount && OnlyColorsOf(m, symbols)
  {
    LayerLength(symbols, amount - 1);
    var g := Generated([], symbols, amount);
    forall m | m in g
      ensures Count(m) == amount && OnlyColorsOf(m, symbols)
    {
      var x :| 0 <= x < |g| && g[x] == m;
      LayerSound(symbols, amount - 1, x);
    }
  }

  /** A colour with mana in a pool that holds coloured mana only. */
  function SomeColor(v: Mana): (c: ColoredManaSymbol)
    requires Count(v) > 0 && v.generic == 0 && v.any == 0 && v.colorless == 0
    ensures Amount(v, c) > 0
  {
    if v.white > 0 then W
    else if v.blue > 0 then U
    else if v.black > 0 then B
    else if v.red > 0 then R
    else G
  }

  /** The pool with one unit of colour `c` taken away. */
  function Less(v: Mana, c: ColoredManaSymbol): (r: Mana)
    requires Amount(v, c) > 0
    ensures Add(r, Unit(c)) == v && Count(r) + 1 == Count(v)
  {
    match c
    case W => v.(white := v.white - 1)
    case U => v.(blue := v.blue - 1)
    case B => v.(black := v.black - 1)
    case R => v.(red := v.red - 1)
    case G => v.(green := v.green - 1)
  }

  /** Taking a unit of a present colour away keeps a pool within the listed colours, and
      the colour taken is one of them. */
  lemma LessColors(v: Mana, symbols: seq<ColoredManaSymbol>)
    requires Count(v) > 0 && OnlyColorsOf(v, symbols)
    ensures SomeColor(v) in symbols && OnlyColorsOf(Less(v, SomeColor(v)), symbols)
  {
  }

  /** A pool of one coloured mana is the unit of its colour. */
  lemma SingleUnit(v: Mana)
    requires Count(v) == 1 && v.generic == 0 && v.any == 0 && v.colorless == 0
    ensures v == Unit(SomeColor(v))
  {
  }

  /** A pool of one listed colour is an entry of layer 0. */
  lemma IndexBase(symbols: seq<ColoredManaSymbol>, amount: nat, v: Mana) returns (x: nat)
    requires amount == 1 && Count(v) == amount && OnlyColorsOf(v, symbols)
    ensures x < |Layer([], symbols, amount - 1)| && Layer([], symbols, amount - 1)[x] == v
  {
    var c := SomeColor(v);
    LessColors(v, symbols);
    var ci :| 0 <= ci < |symbols| && symbols[ci] == c;
    UnitEntry(symbols, v, ci);
    x := ci;
  }

  lemma UnitEntry(symbols: seq<ColoredManaSymbol>, v: Mana, ci: nat)
    requires Count(v) == 1 && OnlyColorsOf(v, symbols)
    requires ci < |symbols| && symbols[ci] == SomeColor(v)
    ensures ci < |Layer([], symbols, 0)| && Layer([], symbols, 0)[ci] == v
  {
    SingleUnit(v);
    UnitsAt(symbols, ci);
  }

  /** A non-empty pool within the listed colours is a smaller such pool plus a unit of the
      `ci`-th colour. */
  lemma Peel(v: Mana, symbols: seq<ColoredManaSymbol>) returns (ci: nat, rest: Mana)
    requires Count(v) > 0 && OnlyColorsOf(v, symbols)
    ensures ci < |symbols| && Add(rest, Unit(symbols[ci])) == v
    ensures Count(rest) + 1 == Count(v) && OnlyColorsOf(rest, symbols)
  {
    var c := SomeColor(v);
    LessColors(v, symbols);
    ci :| 0 <= ci < |symbols| && symbols[ci] == c;
    rest := Less(v, c);
  }

  /** An entry of layer `amount - 2` plus a unit of the `ci`-th colour is an entry of layer
      `amount - 1`. */
  lemma IndexStep(symbols: seq<ColoredManaSymbol>, amount: nat, v: Mana, j: nat, ci: nat)
    returns (x: nat)
    requires amount >= 2 && ci < |symbols| && j < |Layer([], symbols, amount - 2)|
    requires Add(Layer([], symbols, amount - 2)[j], Unit(symbols[ci])) == v
    ensures x < |Layer([], symbols, amount - 1)| && Layer([], symbols, amount - 1)[x] == v
  {
    ExtendAt(Layer([], symbols, amount - 2), symbols, ci, j);
    x := Times(ci, |Layer([], symbols, amount - 2)|) + j;
  }

  /** Completeness: every distribution of `amount >= 1` mana over the listed colours appears
      in the enumeration (at least once); `x` is a position where it does. */
  lemma {:induction false} GeneratedIndex(symbols: seq<ColoredManaSymbol>, amount: nat, v: Mana)
    returns (x: nat)
    requires amount >= 1 && Count(v) == amount && OnlyColorsOf(v, symbols)
    ensures x < |Layer([], symbols, amount - 1)| && Layer([], symbols, amount - 1)[x] == v
  {
    if amount == 1 {
      x := IndexBase(symbols, amount, v);
    } else {
      var ci, rest := Peel(v, symbols);
      var j := GeneratedIndex(symbols, amount - 1, rest);
      x := IndexStep(symbols, amount, v, j, ci);
    }
  }

  lemma GeneratedComplete(symbols: seq<ColoredManaSymbol>, amount: int, v: Mana)
    requires amount >= 1 && Count(v) == amount && OnlyColorsOf(v, symbols)
    ensures v in Generated([], symbols, amount)
  {
    var x := GeneratedIndex(symbols, amount, v);
  }

  /** The mana of a sequence with one more symbol is one more unit of that colour. */
  lemma ManaOfSnoc(w: seq<ColoredManaSymbol>, c: ColoredManaSymbol)
    ensures ManaOf(w + [c]) == Add(ManaOf(w), Unit(c))
  {
    assert (w + [c])[..|w|] == w;
  }

  lemma QuotOne(j: nat)
    ensures Quot(j, 1) == j && Rem(j, 1) == 0
  {
    QuotOfSum(j, 0, 1);
    TimesOne(j);
  }

  /** A one-symbol sequence: index `j` stands for the `j`-th symbol. */
  lemma WordAtOne(symbols: seq<ColoredManaSymbol>, j: nat)
    requires j < |symbols|
    ensures j < Pow(|symbols|, 1) && WordAt(symbols, 1, j) == [symbols[j]]
  {
    TimesOne(|symbols|);
    QuotOne(j);
  }

  /** Index `j` of layer 0 is the `j`-th unit, built from the one-symbol sequence of its digit. */
  lemma WordAtBase(symbols: seq<ColoredManaSymbol>, j: nat)
    requires j < |symbols|
    ensures j < Pow(|symbols|, 1) && j < |Layer([], symbols, 0)|
    ensures Layer([], symbols, 0)[j] == ManaOf(WordAt(symbols, 1, j))
  {
    WordAtOne(symbols, j);
    ManaOfSnoc([], symbols[j]);
    assert [] + [symbols[j]] == [symbols[j]];
    AddZero(Unit(symbols[j]));
    UnitsAt(symbols, j);
  }

  /** The digits of an index below `k ^ (i + 1)`: the leading one `Quot(j, k ^ i)` and the
      rest `Rem(j, k ^ i)`. */
  lemma Digits(k: nat, i: nat, j: nat)
    requires k > 0 && j < Pow(k, i + 1)
    ensures Pow(k, i) > 0 && Quot(j, Pow(k, i)) < k
    ensures j == Times(Quot(j, Pow(k, i)), Pow(k, i)) + Rem(j, Pow(k, i))
  {
    PowPositive(k, i);
    QuotBelow(j, Pow(k, i), k);
    QuotRem(j, Pow(k, i));
  }

  /** The sequence of index `j` is that of its lower digits followed by the leading one. */
  lemma WordAtSplit(symbols: seq<ColoredManaSymbol>, i: nat, j: nat)
    requires |symbols| > 0 && j < Pow(|symbols|, i + 1)
    ensures Pow(|symbols|, i) > 0 && Quot(j, Pow(|symbols|, i)) < |symbols|
    ensures WordAt(symbols, i + 1, j) ==
            WordAt(symbols, i, Rem(j, Pow(|symbols|, i))) + [symbols[Quot(j, Pow(|symbols|, i))]]
  {
    Digits(|symbols|, i, j);
  }

  /** Entry `j` of a step over groups of `p` entries is the entry at `Rem(j, p)` of the
      previous layer plus a unit of the colour at `Quot(j, p)`. */
  lemma ExtendSplit(prev: seq<Mana>, symbols: seq<ColoredManaSymbol>, j: nat, p: nat)
    requires |prev| == p > 0 && j < Times(|symbols|, p)
    ensures Quot(j, p) < |symbols| && Rem(j, p) < p && j < |Extend(prev, symbols)|
    ensures Extend(prev, symbols)[j] == Add(prev[Rem(j, p)], Unit(symbols[Quot(j, p)]))
  {
    QuotBelow(j, p, |symbols|);
    QuotRem(j, p);
    ExtendAtIndex(prev, symbols, Quot(j, p), Rem(j, p), j);
  }

  /** Entry `j` of layer `i >= 1` is the entry of layer `i - 1` at the lower digits plus a
      unit of the colour at the leading digit. */
  lemma LayerSplit(symbols: seq<ColoredManaSymbol>, i: nat, j: nat)
    requires i >= 1 && |symbols| > 0 && j < Pow(|symbols|, i + 1)
    ensures Pow(|symbols|, i) > 0 && Quot(j, Pow(|symbols|, i)) < |symbols|
    ensures j < |Layer([], symbols, i)| && Rem(j, Pow(|symbols|, i)) < |Layer([], symbols, i - 1)|
    ensures Layer([], symbols, i)[j] ==
            Add(Layer([], symbols, i - 1)[Rem(j, Pow(|symbols|, i))],
                Unit(symbols[Quot(j, Pow(|symbols|, i))]))
  {
    PowPositive(|symbols|, i);
    LayerLength(symbols, i - 1);
    ExtendSplit(Layer([], symbols, i - 1), symbols, j, Pow(|symbols|, i));
  }

  /** The step of `LayerWordAt`: if the entry at the lower digits of `j` in layer `i - 1`
      is the mana of their sequence, entry `j` of layer `i` is the mana of its own. */
  lemma LayerWordAtStep(symbols: seq<ColoredManaSymbol>, i: nat, j: nat)
    requires i >= 1 && |symbols| > 0 && j < Pow(|symbols|, i + 1)
    requires Pow(|symbols|, i) > 0
    requires Rem(j, Pow(|symbols|, i)) < |Layer([], symbols, i - 1)|
    requires Layer([], symbols, i - 1)[Rem(j, Pow(|symbols|, i))] ==
             ManaOf(WordAt(symbols, i, Rem(j, Pow(|symbols|, i))))
    ensures j < |Layer([], symbols, i)|
    ensures Layer([], symbols, i)[j] == ManaOf(WordAt(symbols, i + 1, j))
  {
    WordAtSplit(symbols, i, j);
    LayerSplit(symbols, i, j);
    var p := Pow(|symbols|, i);
    ManaOfSnoc(WordAt(symbols, i, Rem(j, p)), symbols[Quot(j, p)]);
  }

  /** Entry `j` of layer `i` is the mana of the digit sequence of `j`. */
  lemma {:induction false} LayerWordAt(symbols: seq<ColoredManaSymbol>, i: nat, j: nat)
    requires |symbols| > 0 && j < Pow(|symbols|, i + 1)
    ensures j < |Layer([], symbols, i)|
    ensures Layer([], symbols, i)[j] == ManaOf(WordAt(symbols, i + 1, j))
  {
    if i == 0 {
      TimesOne(|symbols|);
      WordAtBase(symbols, j);
    } else {
      PowPositive(|symbols|, i);
      LayerSplit(symbols, i, j);
      LayerWordAt(symbols, i - 1, Rem(j, Pow(|symbols|, i)));
      LayerWordAtStep(symbols, i, j);
    }
  }

  /** Entry `j` of the enumeration of `amount >= 1` is the mana of the sequence of symbols
      whose base-k digits are those of `j`: entries correspond one to one to the indices
      below `k ^ amount`, in that order. */
  lemma GeneratedAt(symbols: seq<ColoredManaSymbol>, amount: nat, j: nat)
    requires amount >= 1 && |symbols| > 0 && j < Pow(|symbols|, amount)
    ensures j < |Generated([], symbols, amount)|
    ensures Generated([], symbols, amount)[j] == ManaOf(WordAt(symbols, amount, j))
  {
    LayerWordAt(symbols, amount - 1, j);
  }

  /** Conversely every sequence of listed symbols is the digit sequence of some index, so
      every such sequence has its entry in the enumeration. */
  lemma {:induction false} WordIndex(symbols: seq<ColoredManaSymbol>, w: seq<ColoredManaSymbol>)
    returns (j: nat)
    requires |symbols| > 0
    requires forall i :: 0 <= i < |w| ==> w[i] in symbols
    ensures j < Pow(|symbols|, |w|) && WordAt(symbols, |w|, j) == w
  {
    if w == [] {
      j := 0;
    } else {
      var front := w[..|w| - 1];
      var jj := WordIndex(symbols, front);
      var ci :| 0 <= ci < |symbols| && symbols[ci] == w[|w| - 1];
      var p := Pow(|symbols|, |front|);
      TimesBelow(ci, jj, p, |symbols|);
      QuotOfSum(ci, jj, p);
      j := Times(ci, p) + jj;
      assert w == front + [w[|w| - 1]];
    }
  }

  /** The enumeration does not merge permutations: with two mana and at least two colours,
      entry 1 (the second colour, then the first) and entry `k` (the first colour, then
      the second) are the same pool. */
  lemma DuplicatesKept(symbols: seq<ColoredManaSymbol>)
    requires |symbols| >= 2
    ensures |symbols| < |Generated([], symbols, 2)|
    ensures Generated([], symbols, 2)[1] == Add(Unit(symbols[1]), Unit(symbols[0]))
    ensures Generated([], symbols, 2)[|symbols|] == Add(Unit(symbols[0]), Unit(symbols[1]))
    ensures Generated([], symbols, 2)[1] == Generated([], symbols, 2)[|symbols|]
  {
    var prev := Layer([], symbols, 0);
    UnitsAt(symbols, 0);
    UnitsAt(symbols, 1);
    assert Times(0, |prev|) == 0;
    assert Times(1, |prev|) == |prev|;
    ExtendAtIndex(prev, symbols, 0, 1, 1);
    ExtendAtIndex(prev, symbols, 1, 0, |symbols|);
  }
}
