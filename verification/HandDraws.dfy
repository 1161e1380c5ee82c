/** Draw classification: which unseen cards complete a straight or a flush. */
module HandDraws {
  import opened Cards
  import opened HandEvaluator
  import opened HandSets
  import opened HandTheorems
  import opened HandShort

  datatype DrawType =
    FlushDraw | BackdoorFlushDraw | OpenEndedStraightDraw | DoubleGutter | Gutshot | ComboDraw

  ghost predicate CompletesRunUpTo(ranks: set<int>, r: int, top: int) {
    exists h :: 5 <= h <= top && Run(h) - ranks == {r}
  }

  /** The ranks that alone complete some straight. */
  ghost predicate CompletesRun(ranks: set<int>, r: int) {
    CompletesRunUpTo(ranks, r, 14)
  }

  /** How many cards of the list carry the suit. */
  function SuitCount(cards: seq<Card>, s: int): nat {
    |SuitedCards(cards, s)|
  }

  predicate FourFrom(ranks: set<int>, start: int) {
    {start, start + 1, start + 2, start + 3} <= ranks
  }

  /** The unseen cards whose suit already holds exactly four cards. */
  method FlushOuts(cards: seq<Card>, unknown: seq<Card>) returns (outs: set<Card>)
    ensures forall x :: x in outs <==> x in unknown && SuitCount(cards, x.suit) == 4
  {
    outs := {};
    for i := 0 to |unknown|
      invariant forall x :: x in outs <==> x in unknown[..i] && SuitCount(cards, x.suit) == 4
    {
      if SuitCount(cards, unknown[i].suit) == 4 {
        outs := outs + {unknown[i]};
      }
    }
  }

  lemma RunStep(ranks: set<int>, top: int)
    requires top >= 5
    ensures forall r :: CompletesRunUpTo(ranks, r, top) <==>
                        CompletesRunUpTo(ranks, r, top - 1) || Run(top) - ranks == {r}
  {
    hide HandEvaluator.Run;
    forall r ensures CompletesRunUpTo(ranks, r, top) <==>
                     CompletesRunUpTo(ranks, r, top - 1) || Run(top) - ranks == {r}
    {
      if CompletesRunUpTo(ranks, r, top) {
        var h :| 5 <= h <= top && Run(h) - ranks == {r};
      }
      if CompletesRunUpTo(ranks, r, top - 1) {
        var h :| 5 <= h <= top - 1 && Run(h) - ranks == {r};
      }
    }
  }

  /** The union of the sequences' missing ranks, where exactly one rank is missing. */
  method MissingRanks(ranks: set<int>) returns (missingRanks: set<int>)
    ensures forall r :: r in missingRanks <==> CompletesRun(ranks, r)
  {
    hide HandEvaluator.Run, CompletesRunUpTo;
    missingRanks := {};
    assert forall r :: !CompletesRunUpTo(ranks, r, 4) by { NoRunBelowFive(ranks); }
    for i := 0 to |STRAIGHT_SEQUENCES|
      invariant forall r :: r in missingRanks <==> CompletesRunUpTo(ranks, r, 4 + i)
    {
      SequenceIsRun(i);
      var missing := (set r | r in STRAIGHT_SEQUENCES[i]) - ranks;
      assert missing == Run(5 + i) - ranks;
      RunStep(ranks, 5 + i);
      SingleMember(missing);
      if |missing| == 1 {
        missingRanks := missingRanks + missing;
      }
    }
  }

  lemma NoRunBelowFive(ranks: set<int>)
    ensures forall r :: !CompletesRunUpTo(ranks, r, 4)
  {}

  /** The draw labels, in the order the source appends them. */
  function DrawLabels(ranks: set<int>, flushOut: bool, backdoor: bool, missing: nat): (draws: seq<DrawType>)
    ensures FlushDraw in draws <==> flushOut
    ensures BackdoorFlushDraw in draws <==> !flushOut && backdoor
    ensures OpenEndedStraightDraw in draws <==> missing >= 2 && exists start :: 2 <= start < 12 && FourFrom(ranks, start)
    ensures OpenEndedStraightDraw in draws || DoubleGutter in draws <==> missing >= 2
    ensures Gutshot in draws <==> missing == 1
    ensures ComboDraw in draws <==> flushOut && missing >= 1
  {
    var flush := if flushOut then [FlushDraw] else if backdoor then [BackdoorFlushDraw] else [];
    var straight :=
      if (exists start :: 2 <= start < 12 && FourFrom(ranks, start)) && missing >= 2 then [OpenEndedStraightDraw]
      else if missing >= 2 then [DoubleGutter]
      else if missing == 1 then [Gutshot]
      else [];
    flush + straight + (if flushOut && straight != [] then [ComboDraw] else [])
  }

  /** On the flop, some suit has three cards. */
  predicate Backdoor(cards: seq<Card>, board: seq<Card>) {
    |board| == 3 && exists s :: 0 <= s <= 3 && SuitCount(cards, s) == 3
  }

  /** The set of the ranks that alone complete some straight. */
  ghost predicate Missing(ranks: set<int>, missing: set<int>) {
    forall r :: r in missing <==> CompletesRun(ranks, r)
  }

  /** _draws: the draw labels, the straight outs and the flush outs. */
  method Draws(cards: seq<Card>, board: seq<Card>, category: nat)
    returns (draws: seq<DrawType>, straightOuts: set<Card>, flushOuts: set<Card>)
    ensures |board| < 3 || category >= 5 ==> draws == [] && straightOuts == {} && flushOuts == {}
    ensures |board| >= 3 && category <= 4 ==>
              forall x :: x in flushOuts <==> x !in cards && SuitCount(cards, x.suit) == 4
    ensures |board| >= 3 && category <= 3 ==>
              forall x :: x in straightOuts <==> x !in cards && CompletesRun(Elements(Ranks(cards)), x.rank)
    ensures category == 4 ==> straightOuts == {}
    ensures |board| >= 3 && category <= 4 ==>
              exists missing: set<int> ::
                (category == 4 ==> missing == {}) && (category <= 3 ==> Missing(Elements(Ranks(cards)), missing))
                && draws == DrawLabels(Elements(Ranks(cards)), flushOuts != {}, Backdoor(cards, board), |missing|)
  {
    hide CompletesRun, SuitCount, DrawLabels, Backdoor, Ranks, HandEvaluator.Run, DeckFrom;
    draws, straightOuts, flushOuts := [], {}, {};
    if |board| < 3 || category >= 5 {
      return;
    }
    var unknown := Deck(set c | c in cards);
    var ranks := Elements(Ranks(cards));
    flushOuts := FlushOuts(cards, unknown);
    var missingRanks: set<int> := {};
    if category != 4 {
      missingRanks := MissingRanks(ranks);
    }
    straightOuts := set c | c in unknown && c.rank in missingRanks;
    assert category <= 3 ==> Missing(ranks, missingRanks);
    draws := DrawLabels(ranks, flushOuts != {}, Backdoor(cards, board), |missingRanks|);
  }

  lemma SingleMember(s: set<int>)
    ensures |s| == 1 ==> forall r :: r in s <==> s == {r}
    ensures |s| != 1 ==> forall r :: s != {r}
  {
    if |s| == 1 {
      var x := AnyMember(s);
      SubsetCardinality({x}, s);
    }
  }

  // ---------------------------------------------------------------- outs

  ghost predicate MakesStraightOrFlush(hand: set<Card>, x: Card) {
    AnyFlush(hand + {x}) || Straight(hand + {x}).Some?
  }

  lemma FlushOutExact(hand: set<Card>, x: Card)
    requires x !in hand && !AnyFlush(hand)
    ensures AnyFlush(hand + {x}) <==> |OfSuit(hand, x.suit)| == 4
  {
    forall s ensures OfSuit(hand + {x}, s) == OfSuit(hand, s) + (if s == x.suit then {x} else {}) {}
    assert !Flush(hand, x.suit);
    if |OfSuit(hand, x.suit)| == 4 {
      assert |OfSuit(hand, x.suit) + {x}| == 5;
      assert Flush(hand + {x}, x.suit);
    }
    if AnyFlush(hand + {x}) {
      var s :| Flush(hand + {x}, s);
      assert !Flush(hand, s);
    }
  }

  lemma StraightOutExact(hand: set<Card>, x: Card)
    requires x !in hand && Straight(hand).None?
    ensures Straight(hand + {x}).Some? <==> CompletesRun(RanksOf(hand), x.rank)
  {
    hide HandEvaluator.Run;
    CountAdd(hand, x);
    var ranks, more := RanksOf(hand), RanksOf(hand + {x});
    if CompletesRun(ranks, x.rank) {
      var h :| 5 <= h <= 14 && Run(h) - ranks == {x.rank as int};
      assert Run(h) <= more by {
        forall r | r in Run(h) ensures r in more {
          if r !in ranks { assert r in Run(h) - ranks; }
        }
      }
    }
    if Straight(hand + {x}).Some? {
      var h := Straight(hand + {x}).value;
      assert Run(h) <= more && !(Run(h) <= ranks);
      assert Run(h) - ranks == {x.rank as int};
    }
  }

  /** Below a straight, the hand has neither a flush nor a straight; a straight has no flush. */
  lemma WeakCategory(hand: set<Card>)
    requires hand != {} && |hand| <= 7
    ensures SetKey(hand).category <= 4 ==> !AnyFlush(hand)
    ensures SetKey(hand).category <= 3 ==> Straight(hand).None?
  {
    hide SetKey;
    if AnyFlush(hand) {
      var s :| Flush(hand, s);
      FlushKey(hand, s);
    } else {
      CategoryWithoutFlush(hand);
    }
  }

  lemma StrongCategory(hand: set<Card>)
    requires hand != {} && |hand| <= 7
    ensures AnyFlush(hand) ==> SetKey(hand).category >= 5
    ensures Straight(hand).Some? ==> SetKey(hand).category >= 4
  {
    hide SetKey;
    if AnyFlush(hand) {
      var s :| Flush(hand, s);
      FlushKey(hand, s);
    } else {
      CategoryWithoutFlush(hand);
    }
  }

  /** analyze_hand's category and out cards. */
  method AnalyzeOuts(hole: seq<Card>, board: seq<Card>) returns (category: nat, outCards: set<Card>)
    requires |hole| == 2 && |board| <= 5 && Distinct(hole + board)
    ensures category == BestHandKey(hole + board).category
    ensures |board| < 3 ==> category == ShortCategory(Elements(hole + board))
    ensures |board| >= 3 && category <= 3 ==>
              forall x :: x in outCards <==> x !in hole + board && MakesStraightOrFlush(Elements(hole + board), x)
    ensures |board| >= 3 && category == 4 ==>
              forall x :: x in outCards <==> x !in hole + board && AnyFlush(Elements(hole + board) + {x})
    ensures |board| < 3 || category >= 5 ==> outCards == {}
  {
    hide SetKey, HandEvaluator.BestHandKey, ShortCategory;
    var cards := hole + board;
    category := BestHandKey(cards).category;
    if |board| < 3 { ShortHandKey(cards); }
    var _, straightOuts, flushOuts := Draws(cards, board, category);
    outCards := straightOuts + flushOuts;
    if |board| >= 3 {
      var hand := Elements(cards);
      ElementsOfDistinct(cards);
      BestHandKeyOfSet(cards);
      WeakCategory(hand);
      RanksElements(cards);
      forall x | x !in cards && category <= 4
        ensures x in flushOuts <==> AnyFlush(hand + {x})
        ensures category <= 3 ==> (x in straightOuts <==> Straight(hand + {x}).Some?)
      {
        SuitedElements(cards, x.suit);
        FlushOutExact(hand, x);
        if category <= 3 { StraightOutExact(hand, x); }
      }
    }
  }

  /** On the flop and turn every out lifts a hand below a straight to a straight or better. */
  lemma OutsImprove(cards: seq<Card>, x: Card)
    requires Distinct(cards) && 5 <= |cards| <= 6 && x !in cards
    requires BestHandKey(cards).category <= 3 && MakesStraightOrFlush(Elements(cards), x)
    ensures BestHandKey(cards + [x]).category >= 4
    ensures KeyLt(BestHandKey(cards), BestHandKey(cards + [x]))
  {
    hide SetKey, HandEvaluator.BestHandKey;
    DistinctSnoc(cards, x);
    BestHandKeyOfSet(cards + [x]);
    StrongCategory(Elements(cards + [x]));
  }
}
