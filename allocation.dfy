/** What `produceMana` computes once the controller is known: passes over the listed colours,
    asking the player how many of the mana still left go to each colour, until nothing is
    left or the player can no longer respond. The state between two requests is an
    `Allocation`; the functions below step it exactly as the loops of `produceMana` do. */
module Allocation {
  import opened ManaValues
  import opened Engine
  import opened Combinations

  /** The mana added so far, the amount still to distribute, and every request sent to the
      player so far, in order. */
  datatype Allocation = Allocation(mana: Mana, left: int, requests: seq<AmountRequest>)

  /** The start of the allocation: nothing added, everything left, nothing asked. */
  function Start(amount: int): Allocation
  {
    Allocation(Zero(), amount, [])
  }

  /** The request made for the `idx`-th colour: between 0 and what is left, showing the
      mana added so far, the total, and the colour. */
  function Request(symbols: seq<ColoredManaSymbol>, total: int, idx: nat, st: Allocation): (q: AmountRequest)
    requires idx < |symbols|
    ensures q.min == 0 && q.max == st.left && q.done == Count(st.mana) && q.total == total
    ensures q.color == symbols[idx]
  {
    AmountRequest(0, st.left, Count(st.mana), total, symbols[idx])
  }

  /** One `getAmount` call for the `idx`-th colour: a positive answer `n` adds `n` mana of
      that colour and takes `n` from what is left; any other answer changes nothing. */
  function Ask(symbols: seq<ColoredManaSymbol>, player: Player, total: int, idx: nat,
               st: Allocation): (r: Allocation)
    requires idx < |symbols|
    ensures r.requests == st.requests + [Request(symbols, total, idx, st)]
    ensures r.left <= st.left
    ensures Count(r.mana) + r.left == Count(st.mana) + st.left
  {
    var q := Request(symbols, total, idx, st);
    var n := player.getAmount(|st.requests|, q);
    if n > 0 then
      CountAdd(st.mana, Scaled(symbols[idx], n));
      ScaledCount(symbols[idx], n);
      Allocation(Add(st.mana, Scaled(symbols[idx], n)), st.left - n, st.requests + [q])
    else Allocation(st.mana, st.left, st.requests + [q])
  }

  /** The rest of one pass over the colours, from the `idx`-th on: it ends after the last
      colour, or right after a request that leaves exactly nothing. */
  function Pass(symbols: seq<ColoredManaSymbol>, player: Player, total: int, idx: nat,
                st: Allocation): Allocation
    requires idx <= |symbols|
    decreases |symbols| - idx
  {
    if idx == |symbols| then st
    else
      var next := Ask(symbols, player, total, idx, st);
      if next.left == 0 then next else Pass(symbols, player, total, idx + 1, next)
  }

  /** The outer loop: another pass while something is left and the player can still respond,
      which it can for `checks` more checks. */
  function Passes(symbols: seq<ColoredManaSymbol>, player: Player, total: int, checks: nat,
                  st: Allocation): Allocation
    decreases checks
  {
    if st.left > 0 && checks > 0 then
      Passes(symbols, player, total, checks - 1, Pass(symbols, player, total, 0, st))
    else st
  }

  /** The whole allocation of `amount` mana for `player`. */
  function Produce(symbols: seq<ColoredManaSymbol>, amount: int, player: Player): Allocation
  {
    Passes(symbols, player, amount, player.respondingChecks, Start(amount))
  }

  /** A request answered with a positive `n` adds `n` units of the colour, takes `n` from
      what is left and is recorded. */
  lemma AskAdds(symbols: seq<ColoredManaSymbol>, player: Player, total: int, idx: nat,
                st: Allocation, q: AmountRequest, n: int)
    requires idx < |symbols| && q == AmountRequest(0, st.left, Count(st.mana), total, symbols[idx])
    requires n == player.getAmount(|st.requests|, q) && n > 0
    ensures Ask(symbols, player, total, idx, st) ==
            Allocation(Add(st.mana, Scaled(symbols[idx], n)), st.left - n, st.requests + [q])
  {
  }

  /** A request answered with 0 or less adds nothing and is recorded. */
  lemma AskPasses(symbols: seq<ColoredManaSymbol>, player: Player, total: int, idx: nat,
                  st: Allocation, q: AmountRequest)
    requires idx < |symbols| && q == AmountRequest(0, st.left, Count(st.mana), total, symbols[idx])
    requires player.getAmount(|st.requests|, q) <= 0
    ensures Ask(symbols, player, total, idx, st) == Allocation(st.mana, st.left, st.requests + [q])
  {
  }

  /** A pass ends right after a request that leaves nothing. */
  lemma PassStops(symbols: seq<ColoredManaSymbol>, player: Player, total: int, idx: nat,
                  st: Allocation, next: Allocation)
    requires idx < |symbols| && next == Ask(symbols, player, total, idx, st) && next.left == 0
    ensures Pass(symbols, player, total, idx, st) == next
  {
  }

  /** Otherwise it goes on with the next colour. */
  lemma PassGoesOn(symbols: seq<ColoredManaSymbol>, player: Player, total: int, idx: nat,
                   st: Allocation, next: Allocation)
    requires idx < |symbols| && next == Ask(symbols, player, total, idx, st) && next.left != 0
    ensures Pass(symbols, player, total, idx, st) == Pass(symbols, player, total, idx + 1, next)
  {
  }

  /** Another pass is made while something is left and the player can respond. */
  lemma PassesGoOn(symbols: seq<ColoredManaSymbol>, player: Player, total: int, checks: nat,
                   st: Allocation)
    requires st.left > 0 && checks > 0
    ensures Passes(symbols, player, total, checks, st) ==
            Passes(symbols, player, total, checks - 1, Pass(symbols, player, total, 0, st))
  {
  }

  /** The mana added plus the mana left is the total, nothing left is negative, and only
      listed colours were added. */
  predicate Conserves(st: Allocation, total: int, symbols: seq<ColoredManaSymbol>)
  {
    st.left >= 0 && Count(st.mana) + st.left == total && OnlyColorsOf(st.mana, symbols)
  }

  /** Every request asks for between 0 and a positive number of mana, and that maximum is
      exactly what has not been added yet. */
  predicate WellAsked(requests: seq<AmountRequest>, total: int)
  {
    forall j :: 0 <= j < |requests| ==>
      requests[j].min == 0 && requests[j].max > 0 && requests[j].total == total &&
      requests[j].done + requests[j].max == total
  }

  /** The requests go through the colours in list order, pass after pass. */
  predicate Cyclic(requests: seq<AmountRequest>, symbols: seq<ColoredManaSymbol>)
    requires |symbols| > 0
  {
    forall j :: 0 <= j < |requests| ==> requests[j].color == symbols[Rem(j, |symbols|)]
  }

  /** A request answered within its bounds keeps the allocation conserved, and the request
      itself is well formed. */
  lemma AskKeeps(symbols: seq<ColoredManaSymbol>, player: Player, total: int, idx: nat, st: Allocation)
    requires idx < |symbols| && HonoursBounds(player)
    requires Conserves(st, total, symbols) && st.left > 0 && WellAsked(st.requests, total)
    ensures Conserves(Ask(symbols, player, total, idx, st), total, symbols)
    ensures WellAsked(Ask(symbols, player, total, idx, st).requests, total)
  {
    var q := Request(symbols, total, idx, st);
    var n := player.getAmount(|st.requests|, q);
    assert 0 <= n <= st.left;
    if n > 0 {
      CountAdd(st.mana, Scaled(symbols[idx], n));
      ScaledCount(symbols[idx], n);
      ScaledColors(symbols[idx], n, symbols);
      AddKeepsColors(st.mana, Scaled(symbols[idx], n), symbols);
    }
    var rs := st.requests + [q];
    assert forall j :: 0 <= j < |st.requests| ==> rs[j] == st.requests[j];
  }

  lemma {:induction false} PassKeeps(symbols: seq<ColoredManaSymbol>, player: Player, total: int,
                                     idx: nat, st: Allocation)
    requires idx <= |symbols| && HonoursBounds(player)
    requires Conserves(st, total, symbols) && st.left > 0 && WellAsked(st.requests, total)
    ensures Conserves(Pass(symbols, player, total, idx, st), total, symbols)
    ensures WellAsked(Pass(symbols, player, total, idx, st).requests, total)
    decreases |symbols| - idx
  {
    if idx < |symbols| {
      var next := Ask(symbols, player, total, idx, st);
      AskKeeps(symbols, player, total, idx, st);
      if next.left != 0 {
        PassKeeps(symbols, player, total, idx + 1, next);
      }
    }
  }

  lemma {:induction false} PassesKeep(symbols: seq<ColoredManaSymbol>, player: Player, total: int,
                                      checks: nat, st: Allocation)
    requires HonoursBounds(player)
    requires Conserves(st, total, symbols) && WellAsked(st.requests, total)
    ensures Conserves(Passes(symbols, player, total, checks, st), total, symbols)
    ensures WellAsked(Passes(symbols, player, total, checks, st).requests, total)
    decreases checks
  {
    if st.left > 0 && checks > 0 {
      PassKeeps(symbols, player, total, 0, st);
      PassesKeep(symbols, player, total, checks - 1, Pass(symbols, player, total, 0, st));
    }
  }

  /** For a player that answers within the bounds and a non-negative amount: the mana added
      and the mana left add up to the amount, at most the amount is added, all of it of
      listed colours, and exactly the amount is added if and only if nothing is left. Every
      request asked for between 0 and a positive remainder, and showed how much had been
      added so far. */
  lemma ProduceConserves(symbols: seq<ColoredManaSymbol>, amount: int, player: Player)
    requires HonoursBounds(player) && amount >= 0
    ensures Count(Produce(symbols, amount, player).mana) + Produce(symbols, amount, player).left == amount
    ensures 0 <= Produce(symbols, amount, player).left
    ensures Count(Produce(symbols, amount, player).mana) <= amount
    ensures Count(Produce(symbols, amount, player).mana) == amount <==> Produce(symbols, amount, player).left == 0
    ensures OnlyColorsOf(Produce(symbols, amount, player).mana, symbols)
    ensures WellAsked(Produce(symbols, amount, player).requests, amount)
  {
    PassesKeep(symbols, player, amount, player.respondingChecks, Start(amount));
  }

  /** A request for the `idx`-th colour at position `Times(n, k) + idx` keeps the requests
      cyclic. */
  lemma AskCycle(symbols: seq<ColoredManaSymbol>, player: Player, total: int, idx: nat,
                 st: Allocation, n: nat)
    requires idx < |symbols| && |st.requests| == Times(n, |symbols|) + idx
    requires Cyclic(st.requests, symbols)
    ensures Cyclic(Ask(symbols, player, total, idx, st).requests, symbols)
  {
    var rs := Ask(symbols, player, total, idx, st).requests;
    QuotOfSum(n, idx, |symbols|);
    assert forall j :: 0 <= j < |st.requests| ==> rs[j] == st.requests[j];
  }

  /** A pass started at the `idx`-th colour of pass `n` keeps the requests cyclic, and unless
      it ends with exactly nothing left it asks about every remaining colour. */
  lemma {:induction false} PassCycle(symbols: seq<ColoredManaSymbol>, player: Player, total: int,
                                     idx: nat, st: Allocation, n: nat)
    requires idx <= |symbols| && |symbols| > 0 && |st.requests| == Times(n, |symbols|) + idx
    requires Cyclic(st.requests, symbols)
    ensures Cyclic(Pass(symbols, player, total, idx, st).requests, symbols)
    ensures Pass(symbols, player, total, idx, st).left != 0 ==>
              |Pass(symbols, player, total, idx, st).requests| == Times(n + 1, |symbols|)
    decreases |symbols| - idx
  {
    if idx < |symbols| {
      AskCycle(symbols, player, total, idx, st, n);
      var next := Ask(symbols, player, total, idx, st);
      if next.left != 0 {
        PassCycle(symbols, player, total, idx + 1, next, n);
      }
    }
  }

  lemma {:induction false} PassesCycle(symbols: seq<ColoredManaSymbol>, player: Player, total: int,
                                       checks: nat, st: Allocation, n: nat)
    requires |symbols| > 0 && |st.requests| == Times(n, |symbols|)
    requires Cyclic(st.requests, symbols)
    ensures Cyclic(Passes(symbols, player, total, checks, st).requests, symbols)
    ensures Passes(symbols, player, total, checks, st).left > 0 ==>
              |Passes(symbols, player, total, checks, st).requests| == Times(n + checks, |symbols|)
    decreases checks
  {
    if st.left > 0 && checks > 0 {
      PassCycle(symbols, player, total, 0, st, n);
      var next := Pass(symbols, player, total, 0, st);
      if next.left > 0 {
        PassesCycle(symbols, player, total, checks - 1, next, n + 1);
      }
    }
  }

  /** The colours are asked about in list order, pass after pass; and if mana is still left
      at the end, every check the player answered was followed by a full pass over all the
      colours, so `canRespond` is consulted only before a pass and never within one. */
  lemma ProduceCycle(symbols: seq<ColoredManaSymbol>, amount: int, player: Player)
    requires |symbols| > 0
    ensures Cyclic(Produce(symbols, amount, player).requests, symbols)
    ensures Produce(symbols, amount, player).left > 0 ==>
              |Produce(symbols, amount, player).requests| == Times(player.respondingChecks, |symbols|)
  {
    PassesCycle(symbols, player, amount, player.respondingChecks, Start(amount), 0);
  }

  /** Nothing to distribute: no request is made and no mana is added. */
  lemma ProduceNothing(symbols: seq<ColoredManaSymbol>, amount: int, player: Player)
    requires amount <= 0
    ensures Produce(symbols, amount, player) == Start(amount)
    ensures Produce(symbols, amount, player).mana == Zero()
  {
  }

  /** With no colours listed, every pass is empty: no request is made and no mana is added. */
  lemma {:induction false} NoColorsPasses(player: Player, total: int, checks: nat, st: Allocation)
    ensures Passes([], player, total, checks, st) == st
    decreases checks
  {
    if st.left > 0 && checks > 0 {
      NoColorsPasses(player, total, checks - 1, st);
    }
  }

  lemma NoColors(amount: int, player: Player)
    ensures Produce([], amount, player).mana == Zero()
    ensures Produce([], amount, player).requests == []
  {
    NoColorsPasses(player, amount, player.respondingChecks, Start(amount));
  }

  /** The three requests of the example below, one lemma each. */
  lemma ExampleFirstAsk(player: Player)
    requires player.getAmount(0, AmountRequest(0, 3, 0, 3, B)) == 1
    ensures Ask([B, U, R], player, 3, 0, Start(3)) ==
            Allocation(Mana(0, 0, 1, 0, 0, 0, 0, 0), 2, [AmountRequest(0, 3, 0, 3, B)])
  {
    assert Request([B, U, R], 3, 0, Start(3)) == AmountRequest(0, 3, 0, 3, B);
  }

  lemma ExampleSecondAsk(player: Player, st: Allocation)
    requires st == Allocation(Mana(0, 0, 1, 0, 0, 0, 0, 0), 2, [AmountRequest(0, 3, 0, 3, B)])
    requires player.getAmount(1, AmountRequest(0, 2, 1, 3, U)) == 0
    ensures Ask([B, U, R], player, 3, 1, st) ==
            Allocation(st.mana, 2, st.requests + [AmountRequest(0, 2, 1, 3, U)])
  {
    assert Request([B, U, R], 3, 1, st) == AmountRequest(0, 2, 1, 3, U);
  }

  lemma ExampleThirdAsk(player: Player, st: Allocation)
    requires st == Allocation(Mana(0, 0, 1, 0, 0, 0, 0, 0), 2,
                              [AmountRequest(0, 3, 0, 3, B), AmountRequest(0, 2, 1, 3, U)])
    requires player.getAmount(2, AmountRequest(0, 2, 1, 3, R)) == 2
    ensures Ask([B, U, R], player, 3, 2, st) ==
            Allocation(Mana(0, 0, 1, 2, 0, 0, 0, 0), 0, st.requests + [AmountRequest(0, 2, 1, 3, R)])
  {
    assert Request([B, U, R], 3, 2, st) == AmountRequest(0, 2, 1, 3, R);
  }

  /** Three mana over black, blue and red, for a player who can respond once and answers
      1, then 0, then 2: one black and two red are added, the third request leaves nothing,
      so the pass stops there, and the prompts show 0, then 1, then 1 mana done of 3. */
  lemma ExampleAllocation(player: Player)
    requires player.respondingChecks == 1
    requires player.getAmount(0, AmountRequest(0, 3, 0, 3, B)) == 1
    requires player.getAmount(1, AmountRequest(0, 2, 1, 3, U)) == 0
    requires player.getAmount(2, AmountRequest(0, 2, 1, 3, R)) == 2
    ensures Produce([B, U, R], 3, player).mana == Mana(0, 0, 1, 2, 0, 0, 0, 0)
    ensures Produce([B, U, R], 3, player).left == 0
    ensures Produce([B, U, R], 3, player).requests ==
            [AmountRequest(0, 3, 0, 3, B), AmountRequest(0, 2, 1, 3, U), AmountRequest(0, 2, 1, 3, R)]
  {
    ExampleFirstAsk(player);
    var st1 := Ask([B, U, R], player, 3, 0, Start(3));
    ExampleSecondAsk(player, st1);
    var st2 := Ask([B, U, R], player, 3, 1, st1);
    ExampleThirdAsk(player, st2);
    var st3 := Ask([B, U, R], player, 3, 2, st2);
    PassGoesOn([B, U, R], player, 3, 0, Start(3), st1);
    PassGoesOn([B, U, R], player, 3, 1, st1, st2);
    PassStops([B, U, R], player, 3, 2, st2, st3);
    PassesGoOn([B, U, R], player, 3, 1, Start(3));
  }
}
