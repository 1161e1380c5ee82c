/** The closed form of a chain of deals and policy updates. */
module BeliefChain {
  import opened Cards
  import opened RangeExpansion
  import opened Sums
  import opened RangeBelief

  /** One step of a chain: a deal, or an action with the likelihood of every combo. */
  datatype Transition = Deal(dead: set<Card>) | Act(dead: set<Card>, factor: Hole -> real)

  /** The weights after one step. */
  function Stepped(ws: seq<Weighted>, t: Transition): seq<Weighted> {
    var kept := Undead(ws, t.dead);
    if t.Deal? then kept else Positive(Multiplied(kept, t.factor))
  }

  function Chained(ws: seq<Weighted>, ts: seq<Transition>): seq<Weighted> {
    if ts == [] then ws else Stepped(Chained(ws, ts[..|ts| - 1]), ts[|ts| - 1])
  }

  // ---------------------------------------------------------------- the closed form

  /** The product of a combo's likelihoods along the chain. */
  function FactorProduct(ts: seq<Transition>, h: Hole): real {
    if ts == [] then 1.0
    else
      var last := ts[|ts| - 1];
      if last.Deal? then FactorProduct(ts[..|ts| - 1], h)
      else Times(FactorProduct(ts[..|ts| - 1], h), last.factor(h))
  }

  /** Some applied dead card is in the combo. */
  predicate Hit(ts: seq<Transition>, h: Hole) {
    exists i :: 0 <= i < |ts| && Blocked(h, ts[i].dead)
  }

  predicate SurvivesAll(ts: seq<Transition>, h: Hole) {
    !Hit(ts, h) && FactorProduct(ts, h) > 0.0
  }

  /** Every surviving prior combo with its prior weight times the product of its likelihoods, in the prior's order. */
  function ClosedForm(ws: seq<Weighted>, ts: seq<Transition>): seq<Weighted> {
    if ws == [] then []
    else
      var last := ws[|ws| - 1];
      ClosedForm(ws[..|ws| - 1], ts)
      + if SurvivesAll(ts, last.key) then [Weighted(last.key, Times(last.reach, FactorProduct(ts, last.key)))] else []
  }

  predicate PositiveWeights(ws: seq<Weighted>) {
    forall i :: 0 <= i < |ws| ==> ws[i].reach > 0.0
  }

  ghost predicate FairFactors(ts: seq<Transition>) {
    forall i :: 0 <= i < |ts| && ts[i].Act? ==> forall h :: ts[i].factor(h) >= 0.0
  }

  lemma TimesAssociates(a: real, b: real, c: real)
    ensures Times(Times(a, b), c) == Times(a, Times(b, c))
  {}

  lemma TimesSign(a: real, b: real)
    requires a > 0.0
    ensures Times(a, b) > 0.0 <==> b > 0.0
    ensures b >= 0.0 ==> Times(a, b) >= 0.0
  {}

  lemma TimesUnit(a: real)
    ensures Times(a, 1.0) == a && Times(a, 0.0) == 0.0 && Times(0.0, a) == 0.0
  {}

  lemma {:induction false} ProductNonNegative(ts: seq<Transition>, h: Hole)
    requires FairFactors(ts)
    ensures FactorProduct(ts, h) >= 0.0
  {
    hide Times;
    if ts != [] {
      var n := |ts| - 1;
      ProductNonNegative(ts[..n], h);
      if ts[n].Act? {
        var before := FactorProduct(ts[..n], h);
        if before > 0.0 { TimesSign(before, ts[n].factor(h)); } else { TimesUnit(ts[n].factor(h)); }
      }
    }
  }

  /** One more step multiplies the product and may add a dead card. */
  lemma OneMoreStep(ts: seq<Transition>, t: Transition, h: Hole)
    ensures Hit(ts + [t], h) <==> Hit(ts, h) || Blocked(h, t.dead)
    ensures FactorProduct(ts + [t], h) == if t.Deal? then FactorProduct(ts, h) else Times(FactorProduct(ts, h), t.factor(h))
  {
    hide Times, Blocked;
    var more := ts + [t];
    assert more[..|ts|] == ts && more[|ts|] == t;
    if Hit(ts, h) {
      var i :| 0 <= i < |ts| && Blocked(h, ts[i].dead);
      assert more[i] == ts[i];
    }
    if Blocked(h, t.dead) { assert Blocked(h, more[|ts|].dead); }
    if Hit(more, h) && !Blocked(h, t.dead) {
      var i :| 0 <= i < |more| && Blocked(h, more[i].dead);
      assert i < |ts| && ts[i] == more[i];
    }
  }

  lemma UndeadSnoc(ws: seq<Weighted>, w: Weighted, dead: set<Card>)
    ensures Undead(ws + [w], dead) == Undead(ws, dead) + if Blocked(w.key, dead) then [] else [w]
  {
    assert (ws + [w])[..|ws|] == ws;
  }

  lemma PositiveSnoc(ws: seq<Weighted>, w: Weighted)
    ensures Positive(ws + [w]) == Positive(ws) + if w.reach > 0.0 then [w] else []
  {
    assert (ws + [w])[..|ws|] == ws;
  }

  lemma SteppedSnoc(ws: seq<Weighted>, w: Weighted, t: Transition)
    ensures Stepped(ws + [w], t) == Stepped(ws, t)
      + if Blocked(w.key, t.dead) then []
        else if t.Deal? then [w]
        else if Times(w.reach, t.factor(w.key)) > 0.0 then [Weighted(w.key, Times(w.reach, t.factor(w.key)))] else []
  {
    hide Times, Blocked;
    UndeadSnoc(ws, w, t.dead);
    var kept := Undead(ws, t.dead);
    if t.Act? && !Blocked(w.key, t.dead) {
      var scaled := Weighted(w.key, Times(w.reach, t.factor(w.key)));
      assert Multiplied(kept + [w], t.factor) == Multiplied(kept, t.factor) + [scaled];
      PositiveSnoc(Multiplied(kept, t.factor), scaled);
    } else {
      assert kept + [] == kept;
    }
  }

  /** One step of the chain keeps the closed form. */
  lemma {:induction false} StepClosed(ws: seq<Weighted>, ts: seq<Transition>, t: Transition)
    requires PositiveWeights(ws) && FairFactors(ts + [t])
    ensures Stepped(ClosedForm(ws, ts), t) == ClosedForm(ws, ts + [t])
  {
    if ws == [] {
      assert Undead([], t.dead) == [];
    } else {
      var n := |ws| - 1;
      var w := ws[n];
      StepClosed(ws[..n], ts, t);
      OneMoreStep(ts, t, w.key);
      FairPrefix(ts, t);
      ProductNonNegative(ts, w.key);
      var product := FactorProduct(ts, w.key);
      var scaled := Weighted(w.key, Times(w.reach, product));
      SteppedSnoc(ClosedForm(ws[..n], ts), scaled, t);
      StepOfOne(w.reach, product, if t.Act? then t.factor(w.key) else 1.0);
      hide Times, Blocked, Hit, FactorProduct, Stepped;
      if SurvivesAll(ts, w.key) {
        assert ClosedForm(ws, ts) == ClosedForm(ws[..n], ts) + [scaled];
      } else {
        assert ClosedForm(ws, ts) == ClosedForm(ws[..n], ts);
      }
      if SurvivesAll(ts + [t], w.key) {
        assert SurvivesAll(ts, w.key);
      } else {
        assert ClosedForm(ws, ts + [t]) == ClosedForm(ws[..n], ts + [t]);
      }
    }
  }

  lemma FairPrefix(ts: seq<Transition>, t: Transition)
    requires FairFactors(ts + [t])
    ensures FairFactors(ts) && (t.Act? ==> forall h :: t.factor(h) >= 0.0)
  {
    var more := ts + [t];
    assert more[|ts|] == t;
    forall i | 0 <= i < |ts| && ts[i].Act? ensures forall h :: ts[i].factor(h) >= 0.0 { assert more[i] == ts[i]; }
  }

  lemma StepOfOne(reach: real, product: real, factor: real)
    requires reach > 0.0 && product >= 0.0 && factor >= 0.0
    ensures Times(Times(reach, product), factor) == Times(reach, Times(product, factor))
    ensures product > 0.0 ==> (Times(Times(reach, product), factor) > 0.0 <==> factor > 0.0)
    ensures Times(product, factor) > 0.0 <==> product > 0.0 && factor > 0.0
  {
    TimesAssociates(reach, product, factor);
    TimesSign(reach, product);
    if product > 0.0 {
      TimesSign(product, factor);
      TimesSign(Times(reach, product), factor);
    } else {
      TimesUnit(factor);
    }
  }

  lemma {:induction false} NoSteps(ws: seq<Weighted>)
    ensures ClosedForm(ws, []) == ws
  {
    if ws != [] {
      var n := |ws| - 1;
      NoSteps(ws[..n]);
      TimesUnit(ws[n].reach);
      assert ws == ws[..n] + [ws[n]];
    }
  }

  /**
   * After any chain of deals and updates each surviving combo's reach is its prior weight times the
   * product of its likelihoods, and the survivors are the prior combos that avoid every applied dead
   * card and have no zero factor.
   */
  lemma {:induction false} ChainIsClosedForm(ws: seq<Weighted>, ts: seq<Transition>)
    requires PositiveWeights(ws) && FairFactors(ts)
    ensures Chained(ws, ts) == ClosedForm(ws, ts)
  {
    hide Stepped, ClosedForm;
    if ts == [] {
      NoSteps(ws);
    } else {
      var n := |ts| - 1;
      assert ts[..n] + [ts[n]] == ts;
      FairPrefix(ts[..n], ts[n]);
      ChainIsClosedForm(ws, ts[..n]);
      StepClosed(ws, ts[..n], ts[n]);
    }
  }

  /** Membership in the closed form. */
  lemma {:induction false} ClosedFormMembers(ws: seq<Weighted>, ts: seq<Transition>, x: Weighted)
    ensures x in ClosedForm(ws, ts) <==>
            SurvivesAll(ts, x.key) && exists w :: w in ws && w.key == x.key && x.reach == Times(w.reach, FactorProduct(ts, x.key))
  {
    hide Times, SurvivesAll, FactorProduct;
    if ws != [] {
      var n := |ws| - 1;
      ClosedFormMembers(ws[..n], ts, x);
      assert ws == ws[..n] + [ws[n]];
      if SurvivesAll(ts, x.key) && exists w :: w in ws && w.key == x.key && x.reach == Times(w.reach, FactorProduct(ts, x.key)) {
        var w :| w in ws && w.key == x.key && x.reach == Times(w.reach, FactorProduct(ts, x.key));
        if w != ws[n] { assert w in ws[..n]; }
      }
      if x in ClosedForm(ws[..n], ts) {
        var w :| w in ws[..n] && w.key == x.key && x.reach == Times(w.reach, FactorProduct(ts, x.key));
        assert w in ws;
      }
    }
  }

  // ---------------------------------------------------------------- snapshots along a chain

  /** Probabilities are reaches over the total reach. */
  predicate IsNormalized(s: Snapshot) {
    var ws := WeightsOf(s.combos);
    Total(ws) > 0.0 && s.combos == Normalized(ws, Total(ws))
  }

  lemma RatioScale(ws: seq<Weighted>, total: real)
    requires total != 0.0
    ensures Probabilities(Normalized(ws, total)) == Scale(1.0 / total, Reaches(ws))
  {
    forall i | 0 <= i < |ws| ensures Ratio(ws[i].reach, total) == Times(1.0 / total, ws[i].reach) {
      RatioIsTimes(ws[i].reach, total);
    }
  }

  lemma RatioIsTimes(part: real, total: real)
    requires total != 0.0
    ensures Ratio(part, total) == Times(1.0 / total, part)
  {}

  /** The probabilities of a normalized snapshot sum to one. */
  lemma ProbabilitiesSumToOne(s: Snapshot)
    requires IsNormalized(s)
    ensures Sum(Probabilities(s.combos)) == 1.0
  {
    var ws := WeightsOf(s.combos);
    RatioScale(ws, Total(ws));
    SumScale(1.0 / Total(ws), Reaches(ws));
    RatioIsTimes(Total(ws), Total(ws));
  }

  lemma WeightsOfNormalized(ws: seq<Weighted>, total: real)
    requires total != 0.0
    ensures WeightsOf(Normalized(ws, total)) == ws
  {}

  lemma TotalSnoc(ws: seq<Weighted>, w: Weighted)
    ensures Total(ws + [w]) == Total(ws) + w.reach
  {
    assert Reaches(ws + [w]) == Reaches(ws) + [w.reach];
    SumSnoc(Reaches(ws), w.reach);
  }

  lemma {:induction false} PositiveKeepsTotal(ws: seq<Weighted>)
    requires forall i :: 0 <= i < |ws| ==> ws[i].reach >= 0.0
    ensures Total(Positive(ws)) == Total(ws)
  {
    hide Total;
    if ws != [] {
      var n := |ws| - 1;
      PositiveKeepsTotal(ws[..n]);
      assert ws == ws[..n] + [ws[n]];
      TotalSnoc(ws[..n], ws[n]);
      if ws[n].reach > 0.0 {
        TotalSnoc(Positive(ws[..n]), ws[n]);
      } else {
        assert Positive(ws) == Positive(ws[..n]);
      }
    }
  }

  lemma {:induction false} PositiveIsPositive(ws: seq<Weighted>)
    ensures PositiveWeights(Positive(ws))
  {
    if ws != [] { PositiveIsPositive(ws[..|ws| - 1]); }
  }

  lemma {:induction false} UndeadPositive(ws: seq<Weighted>, dead: set<Card>)
    requires PositiveWeights(ws)
    ensures PositiveWeights(Undead(ws, dead))
  {
    if ws != [] { UndeadPositive(ws[..|ws| - 1], dead); }
  }

  /** A deal is a normalized step of the chain. */
  lemma DealStep(s: Snapshot, dead: set<Card>, street: Street, after: int)
    requires PositiveWeights(WeightsOf(s.combos)) && ApplyDeadCards(s, dead, street, after).Done?
    ensures var t := ApplyDeadCards(s, dead, street, after).value;
            && IsNormalized(t) && PositiveWeights(WeightsOf(t.combos))
            && WeightsOf(t.combos) == Stepped(WeightsOf(s.combos), Deal(dead))
            && t.retainedMass == Total(WeightsOf(t.combos))
  {
    hide Ratio;
    UndeadPositive(WeightsOf(s.combos), dead);
    var kept := Undead(WeightsOf(s.combos), dead);
    WeightsOfNormalized(kept, Total(kept));
  }

  /** A policy update is a normalized step of the chain with the matched column's likelihoods. */
  lemma ActStep(s: Snapshot, e: Event, p: Policy, potBefore: Option<nat>, dead: set<Card>)
    requires PositiveWeights(WeightsOf(s.combos)) && ValidPolicy(p) && UpdateBelief(s, e, p, potBefore, dead).Done?
    ensures var t := UpdateBelief(s, e, p, potBefore, dead).value;
            var m := ResolveMatch(p, e.kind, e.amount, potBefore);
            && m.Done? && !m.value.Unsupported?
            && IsNormalized(t) && PositiveWeights(WeightsOf(t.combos))
            && WeightsOf(t.combos) == Stepped(WeightsOf(s.combos), Act(dead, Factor(p, m.value.column)))
            && (forall h :: Factor(p, m.value.column)(h) >= 0.0)
            && t.retainedMass == Total(WeightsOf(t.combos))
  {
    hide Ratio, ResolveMatch;
    var column := ResolveMatch(p, e.kind, e.amount, potBefore).value.column;
    var kept := Undead(WeightsOf(s.combos), dead);
    UndeadPositive(WeightsOf(s.combos), dead);
    var updated := Multiplied(kept, Factor(p, column));
    forall i | 0 <= i < |kept| ensures updated[i].reach >= 0.0 {
      TimesSign(kept[i].reach, Factor(p, column)(kept[i].key));
    }
    PositiveKeepsTotal(updated);
    PositiveIsPositive(updated);
    WeightsOfNormalized(Positive(updated), Total(updated));
  }

  lemma FromRangeStart(r: RangeSpec, seat: int, street: Street, after: int, dead: set<Card>)
    requires FromRange(r, seat, street, after, dead).Done?
    ensures var s := FromRange(r, seat, street, after, dead).value;
            IsNormalized(s) && WeightsOf(s.combos) == Weigh(Expanded(r, dead)) && PositiveWeights(WeightsOf(s.combos))
  {
    hide Expanded, Ratio;
    var entries := Expanded(r, dead);
    ExpansionExact(r, dead);
    forall i | 0 <= i < |entries| ensures entries[i].weight > 0.0 {
      assert entries[i] in entries;
    }
    WeightsOfNormalized(Weigh(entries), Total(Weigh(entries)));
  }
}
