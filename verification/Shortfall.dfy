/**
  The check of /reserve alone does not keep fills payable. A buyer's order is filled in two
  parts; settling one part frees the reservation of both; the freed cash is reserved and spent
  again; and the ledger refuses the last fill.
*/
module Shortfall {
  import opened Model
  import opened Matching
  import opened Book
  import opened Records
  import opened Money
  import opened Totals
  import opened Ledgers
  import opened Exchange
  import opened Invariants
  import opened Payment

  // User 2 sells, user 1 buys; the price is 1.00000000, so a quantity costs itself.
  const ASK1 := Ticket(1, 2, "X", Sell, SCALE, 1, 1)
  const ASK2 := Ticket(2, 2, "X", Sell, SCALE, 2, 2)
  const BID1 := Ticket(3, 1, "X", Buy, SCALE, 2, 3)
  const BID2 := Ticket(4, 1, "X", Buy, SCALE, 1, 4)

  const FILL1 := MakeTrade(ASK1, BID1, 1)
  const FILL2 := MakeTrade(ASK2, BID1, 1)
  const FILL3 := MakeTrade(ASK2, BID2, 1)

  const STEPS := [
    Step.Reserve(ASK1),
    Step.Insert(1),
    Step.Match(1, [], []),
    Step.Reserve(ASK2),
    Step.Insert(2),
    Step.Match(2, [], []),
    Step.Reserve(BID1),
    Step.Insert(3),
    Step.Match(3, [Resting(ASK1, 1), Resting(ASK2, 2)], [1, 2]),
    Step.Settle(1),
    Step.Reserve(BID2),
    Step.Insert(4),
    Step.Match(4, [Resting(ASK2, 1)], [3]),
    Step.Settle(2)]

  // The states of the run, one after each step.

  function S0(): State {
    State(Ledger(map[1 := Account(2, 0), 2 := Account(0, 0)], map[(2, "X") := Account(3, 0)], map[]),
          {}, map[], map[], map[])
  }

  function S1(): State {
    State(Ledger(map[1 := Account(2, 0), 2 := Account(0, 0)], map[(2, "X") := Account(3, 1)], map[]),
          {}, map[1 := Pending(ASK1, 1)], map[], map[])
  }

  function S2(): State {
    State(Ledger(map[1 := Account(2, 0), 2 := Account(0, 0)],
                 map[(2, "X") := Account(3, 1)],
                 map[1 := Row(ASK1, 1, New, 1)]),
          {}, map[], map[], map[])
  }

  function S3(): State {
    State(Ledger(map[1 := Account(2, 0), 2 := Account(0, 0)],
                 map[(2, "X") := Account(3, 1)],
                 map[1 := Row(ASK1, 1, New, 1)]),
          {1}, map[], map[], map[])
  }

  function S4(): State {
    State(Ledger(map[1 := Account(2, 0), 2 := Account(0, 0)],
                 map[(2, "X") := Account(3, 3)],
                 map[1 := Row(ASK1, 1, New, 1)]),
          {1}, map[2 := Pending(ASK2, 2)], map[], map[])
  }

  function S5(): State {
    State(Ledger(map[1 := Account(2, 0), 2 := Account(0, 0)],
                 map[(2, "X") := Account(3, 3)],
                 map[1 := Row(ASK1, 1, New, 1), 2 := Row(ASK2, 2, New, 2)]),
          {1}, map[], map[], map[])
  }

  function S6(): State {
    State(Ledger(map[1 := Account(2, 0), 2 := Account(0, 0)],
                 map[(2, "X") := Account(3, 3)],
                 map[1 := Row(ASK1, 1, New, 1), 2 := Row(ASK2, 2, New, 2)]),
          {1, 2}, map[], map[], map[])
  }

  function S7(): State {
    State(Ledger(map[1 := Account(2, 2), 2 := Account(0, 0)],
                 map[(2, "X") := Account(3, 3)],
                 map[1 := Row(ASK1, 1, New, 1), 2 := Row(ASK2, 2, New, 2)]),
          {1, 2}, map[3 := Pending(BID1, 2)], map[], map[])
  }

  function S8(): State {
    State(Ledger(map[1 := Account(2, 2), 2 := Account(0, 0)],
                 map[(2, "X") := Account(3, 3)],
                 map[1 := Row(ASK1, 1, New, 1), 2 := Row(ASK2, 2, New, 2),
                     3 := Row(BID1, 2, New, 2)]),
          {1, 2}, map[], map[], map[])
  }

  function S9(): State {
    State(Ledger(map[1 := Account(2, 2), 2 := Account(0, 0)],
                 map[(2, "X") := Account(3, 3)],
                 map[1 := Row(ASK1, 0, Filled, 1), 2 := Row(ASK2, 1, PartiallyFilled, 2),
                     3 := Row(BID1, 0, Filled, 2)]),
          {1, 2, 3}, map[], map[1 := FILL1, 2 := FILL2], map[])
  }

  function S10(): State {
    State(Ledger(map[1 := Account(1, 0), 2 := Account(1, 0)],
                 map[(2, "X") := Account(2, 2), (1, "X") := Account(1, 0)],
                 map[1 := Row(ASK1, 0, Filled, 0), 2 := Row(ASK2, 1, PartiallyFilled, 2),
                     3 := Row(BID1, 0, Filled, 0)]),
          {1, 2, 3}, map[], map[2 := FILL2], map[])
  }

  function S11(): State {
    State(Ledger(map[1 := Account(1, 1), 2 := Account(1, 0)],
                 map[(2, "X") := Account(2, 2), (1, "X") := Account(1, 0)],
                 map[1 := Row(ASK1, 0, Filled, 0), 2 := Row(ASK2, 1, PartiallyFilled, 2),
                     3 := Row(BID1, 0, Filled, 0)]),
          {1, 2, 3}, map[4 := Pending(BID2, 1)], map[2 := FILL2], map[])
  }

  function S12(): State {
    State(Ledger(map[1 := Account(1, 1), 2 := Account(1, 0)],
                 map[(2, "X") := Account(2, 2), (1, "X") := Account(1, 0)],
                 map[1 := Row(ASK1, 0, Filled, 0), 2 := Row(ASK2, 1, PartiallyFilled, 2),
                     3 := Row(BID1, 0, Filled, 0), 4 := Row(BID2, 1, New, 1)]),
          {1, 2, 3}, map[], map[2 := FILL2], map[])
  }

  function S13(): State {
    State(Ledger(map[1 := Account(1, 1), 2 := Account(1, 0)],
                 map[(2, "X") := Account(2, 2), (1, "X") := Account(1, 0)],
                 map[1 := Row(ASK1, 0, Filled, 0), 2 := Row(ASK2, 0, Filled, 2),
                     3 := Row(BID1, 0, Filled, 0), 4 := Row(BID2, 0, Filled, 1)]),
          {1, 2, 3, 4}, map[], map[2 := FILL2, 3 := FILL3], map[])
  }

  function S14(): State {
    State(Ledger(map[1 := Account(0, 1), 2 := Account(2, 0)],
                 map[(2, "X") := Account(1, 0), (1, "X") := Account(2, 0)],
                 map[1 := Row(ASK1, 0, Filled, 0), 2 := Row(ASK2, 0, Filled, 0),
                     3 := Row(BID1, 0, Filled, 0), 4 := Row(BID2, 0, Filled, 1)]),
          {1, 2, 3, 4}, map[], map[3 := FILL3], map[])
  }

  lemma Unit(quantity: int)
    requires IsInt64(quantity)
    ensures CostFor(SCALE, quantity) == Ok(quantity)
  {
    CostForIsExact(SCALE, quantity, quantity);
  }

  lemma Opening()
    ensures Initial(S0())
  {
  }

  lemma FirstAsk()
    ensures Next(S0(), STEPS[0], S1()) && Next(S1(), STEPS[1], S2())
  {
  }

  lemma SecondAsk()
    ensures Next(S3(), STEPS[3], S4()) && Next(S4(), STEPS[4], S5())
  {
  }

  lemma FirstBid()
    ensures Next(S6(), STEPS[6], S7()) && Next(S7(), STEPS[7], S8())
  {
    hide CostFor;
    Unit(2);
  }

  lemma SecondBid()
    ensures Next(S10(), STEPS[10], S11()) && Next(S11(), STEPS[11], S12())
  {
    hide CostFor;
    Unit(1);
  }

  lemma AsksRest()
    ensures Next(S2(), STEPS[2], S3()) && Next(S5(), STEPS[5], S6())
  {
    assert Elems([]) == {};
    assert Opposing(LiveOf(BookView(S2())), ASK1) == {};
    assert Opposing(LiveOf(BookView(S5())), ASK2) == {};
  }

  lemma FirstMatch()
    ensures Next(S8(), STEPS[8], S9())
  {
    hide IsListing, LiveOf, Scan;
    FirstListing();
    FirstFills();
    var s := S8().(booked := S8().booked + {3});
    FillTwo(s, 1, 2, FILL1, FILL2);
    assert Fill(Fill(s, 1, FILL1), 2, FILL2).l.rows == S9().l.rows;
    assert Fill(Fill(s, 1, FILL1), 2, FILL2) == S9();
  }

  lemma FirstListing()
    ensures IsListing([Resting(ASK1, 1), Resting(ASK2, 2)], Opposing(LiveOf(BookView(S8())), BID1))
  {
    var a1, a2 := Resting(ASK1, 1), Resting(ASK2, 2);
    var view := BookView(S8());
    assert view == map[1 := Record(ASK1, 1, New), 2 := Record(ASK2, 2, New)];
    forall x ensures x in Opposing(LiveOf(view), BID1) <==> x in Elems([a1, a2]) {
      assert view[1].remaining == 1 && view[2].remaining == 2;
      assert Elems([a1, a2]) == {a1, a2};
    }
  }

  lemma FirstFills()
    ensures Scan(BID1, 2, [Resting(ASK1, 1), Resting(ASK2, 2)]).trades == [FILL1, FILL2]
  {
    var a1, a2 := Resting(ASK1, 1), Resting(ASK2, 2);
    assert [a1, a2][1..] == [a2];
    assert [a2][1..] == [];
  }

  lemma FillTwo(s: State, a: Id, b: Id, first: Trade, second: Trade)
    ensures FillAll(s, [a, b], [first, second]) == Fill(Fill(s, a, first), b, second)
  {
    hide Fill;
    assert [a, b][1..] == [b] && [first, second][1..] == [second] && [b][1..] == [] && [second][1..] == [];
    assert FillAll(Fill(s, a, first), [b], [second]) == FillAll(Fill(Fill(s, a, first), b, second), [], []);
  }

  lemma SecondMatch()
    ensures Next(S12(), STEPS[12], S13())
  {
    var a2 := Resting(ASK2, 1);
    var view := BookView(S12());
    forall x ensures x in Opposing(LiveOf(view), BID2) <==> x in Elems([a2]) {
      assert view[2] == Record(ASK2, 1, PartiallyFilled);
      assert Elems([a2]) == {a2};
    }
    assert Scan(BID2, 1, [a2]) == Outcome([FILL3], 0, []) by {
      assert [a2][1..] == [];
    }
    assert [3][1..] == [] && [FILL3][1..] == [];
  }

  // The ledgers between the buyer's and the seller's leg of a settlement.

  function Half1(): Ledger {
    Ledger(map[1 := Account(1, 0), 2 := Account(0, 0)], map[(2, "X") := Account(3, 3), (1, "X") := Account(1, 0)],
           map[1 := Row(ASK1, 0, Filled, 1), 2 := Row(ASK2, 1, PartiallyFilled, 2), 3 := Row(BID1, 0, Filled, 0)])
  }

  function Half2(): Ledger {
    Ledger(map[1 := Account(0, 1), 2 := Account(1, 0)], map[(2, "X") := Account(2, 2), (1, "X") := Account(2, 0)],
           S13().l.rows)
  }

  lemma FirstSettlement()
    ensures Next(S9(), STEPS[9], S10())
  {
    hide BuyerLeg, SellerLeg;
    Buyer1();
    Seller1();
    assert S9().unsettled - {1} == S10().unsettled;
  }

  lemma Buyer1()
    ensures BuyerLeg(S9().l, FILL1) == Applied(Half1())
  {
    hide CostFor;
    Unit(0);
    Unit(1);
  }

  lemma Seller1()
    ensures SellerLeg(Half1(), FILL1) == Applied(S10().l)
  {
    hide CostFor;
    Unit(1);
  }

  lemma SecondSettlement()
    ensures Next(S13(), STEPS[13], S14())
  {
    hide BuyerLeg, SellerLeg;
    Buyer2();
    Seller2();
    assert S13().unsettled - {2} == S14().unsettled;
  }

  lemma Buyer2()
    ensures BuyerLeg(S13().l, FILL2) == Applied(Half2())
  {
    hide CostFor;
    Unit(0);
    Unit(1);
  }

  lemma Seller2()
    ensures SellerLeg(Half2(), FILL2) == Applied(S14().l)
  {
    hide CostFor;
    Unit(1);
  }

  lemma LastFillRefused()
    ensures SettleTrade(S14().l, S14().unsettled[3]) == Refused(Insufficient)
  {
    hide CostFor;
    Unit(0);
    Unit(1);
  }

  function States(): seq<State> {
    [S0(), S1(), S2(), S3(), S4(), S5(), S6(), S7(), S8(), S9(), S10(), S11(), S12(), S13(), S14()]
  }

  /**
    A run in which every step is taken by the rules, every reservation passes the check of
    /reserve, and the ledger ends up refusing a fill that the book has made: user 1 has nothing
    left and one unit still reserved.
  */
  lemma UncoveredRunRefusesFill()
    ensures Trace(States(), STEPS)
    ensures 3 in States()[14].unsettled
    ensures SettleTrade(States()[14].l, States()[14].unsettled[3]) == Refused(Insufficient)
    ensures States()[14].l.users[1] == Account(0, 1)
  {
    hide Next, Initial, SettleTrade, S0, S1, S2, S3, S4, S5, S6, S7, S8, S9, S10, S11, S12, S13;
    Opening();
    FirstAsk();
    SecondAsk();
    AsksRest();
    FirstBid();
    FirstMatch();
    FirstSettlement();
    SecondBid();
    SecondMatch();
    SecondSettlement();
    LastFillRefused();
  }
}
