/** The rules text `setText` builds: "Add <amount in words> mana in any combination of "
    followed by "colors" when the list holds five symbols (a size test, whichever they are),
    and otherwise by the listed symbols in braces joined by " and/or ". A parser for the symbol list is the partner that
    shows the text determines the list. */
module Description {
  import opened ManaValues
  import opened Engine

  /** `ColoredManaSymbol.toString()`: the symbol's letter. */
  function Letter(c: ColoredManaSymbol): char
  {
    match c
    case W => 'W'
    case U => 'U'
    case B => 'B'
    case R => 'R'
    case G => 'G'
  }

  /** The symbol a letter stands for, if any. */
  function SymbolOf(ch: char): (r: Option<ColoredManaSymbol>)
    ensures r.Some? ==> Letter(r.value) == ch
  {
    if ch == 'W' then Some(W)
    else if ch == 'U' then Some(U)
    else if ch == 'B' then Some(B)
    else if ch == 'R' then Some(R)
    else if ch == 'G' then Some(G)
    else None
  }

  lemma SymbolOfLetter(c: ColoredManaSymbol)
    ensures SymbolOf(Letter(c)) == Some(c)
  {
  }

  /** One symbol in braces. */
  function Braced(c: ColoredManaSymbol): string
  {
    ['{', Letter(c), '}']
  }

  const Separator: string := " and/or "

  /** The symbols in braces, in list order, with " and/or " between neighbours. */
  function Joined(symbols: seq<ColoredManaSymbol>): string
  {
    if symbols == [] then ""
    else
      var front := symbols[..|symbols| - 1];
      Joined(front) + (if front == [] then "" else Separator) + Braced(symbols[|symbols| - 1])
  }

  /** The fixed part in front of the colour list. */
  function Prefix(amountWords: string): string
  {
    "Add " + amountWords + " mana in any combination of "
  }

  /** The text `setText` returns for an amount spelled `amountWords` and the listed symbols. */
  function Description(amountWords: string, symbols: seq<ColoredManaSymbol>): string
  {
    Prefix(amountWords) + (if |symbols| == 5 then "colors" else Joined(symbols))
  }

  /** Reads a colour list back: "{X}" pieces separated by " and/or ", read from the end. */
  function ParseSymbols(t: string): (r: Option<seq<ColoredManaSymbol>>)
    decreases |t|
  {
    if t == [] then Some([])
    else if |t| < 3 || t[|t| - 3] != '{' || t[|t| - 1] != '}' then None
    else
      match SymbolOf(t[|t| - 2])
      case None => None
      case Some(c) =>
        var rest := t[..|t| - 3];
        if rest == [] then Some([c])
        else if |rest| < |Separator| + 3 || rest[|rest| - |Separator|..] != Separator then None
        else
          match ParseSymbols(rest[..|rest| - |Separator|])
          case None => None
          case Some(front) => if front == [] then None else Some(front + [c])
  }

  /** Each listed symbol takes three characters and each separator eight. */
  lemma {:induction false} JoinedLength(symbols: seq<ColoredManaSymbol>)
    ensures symbols != [] ==> |Joined(symbols)| == 11 * |symbols| - 8
    ensures symbols == [] <==> Joined(symbols) == []
  {
    if symbols != [] {
      JoinedLength(symbols[..|symbols| - 1]);
    }
  }

  /** A single braced symbol reads back as that symbol. */
  lemma ParseBraced(c: ColoredManaSymbol)
    ensures ParseSymbols(Braced(c)) == Some([c])
  {
    SymbolOfLetter(c);
    assert Braced(c)[..0] == [];
  }

  /** A list, a separator and one more braced symbol read back as the list's symbols
      followed by that one. */
  lemma ParseMore(t: string, c: ColoredManaSymbol, front: seq<ColoredManaSymbol>)
    requires ParseSymbols(t) == Some(front) && front != []
    ensures ParseSymbols(t + Separator + Braced(c)) == Some(front + [c])
  {
    SymbolOfLetter(c);
    var u := t + Separator + Braced(c);
    assert u[..|u| - 3] == t + Separator;
    assert t != [];
    assert (t + Separator)[..|t|] == t;
    assert (t + Separator)[|t|..] == Separator;
  }

  /** The joined list reads back as the list it was made from. */
  lemma {:induction false} ParseJoined(symbols: seq<ColoredManaSymbol>)
    ensures ParseSymbols(Joined(symbols)) == Some(symbols)
  {
    if symbols != [] {
      var front := symbols[..|symbols| - 1];
      var c := symbols[|symbols| - 1];
      if front == [] {
        ParseBraced(c);
        assert symbols == [c];
      } else {
        ParseJoined(front);
        ParseMore(Joined(front), c, front);
        assert front + [c] == symbols;
      }
    }
  }

  /** The description starts with the amount in words, and then names "colors" when five
      symbols are listed, and otherwise a list that reads back as the listed symbols. */
  lemma DescriptionParts(amountWords: string, symbols: seq<ColoredManaSymbol>)
    ensures var t := Description(amountWords, symbols);
            |Prefix(amountWords)| <= |t| && t[..|Prefix(amountWords)|] == Prefix(amountWords) &&
            t[4..4 + |amountWords|] == amountWords &&
            (|symbols| == 5 ==> t[|Prefix(amountWords)|..] == "colors") &&
            (|symbols| != 5 ==> ParseSymbols(t[|Prefix(amountWords)|..]) == Some(symbols))
  {
    var p := Prefix(amountWords);
    var t := Description(amountWords, symbols);
    var tail := if |symbols| == 5 then "colors" else Joined(symbols);
    assert t == p + tail;
    assert t[..|p|] == p;
    assert t[|p|..] == tail;
    assert p[4..4 + |amountWords|] == amountWords;
    if |symbols| != 5 {
      ParseJoined(symbols);
    }
  }
}
