/** The progression advisor: a fixed decision tree over the last (at most)
    three daily top weights of one exercise. The advice is returned as the
    branch taken, with the weight its message would quote. */
module Advisor {
  import opened Ordered
  import opened Wrappers
  import opened Workouts

  function Abs(x: real): real {
    if x < 0.0 then -x else x
  }

  /** Python's `round(x)` on one argument: the nearest integer, ties going to
      the even neighbour. */
  function Round(x: real): (n: int)
    ensures Abs(x - n as real) <= 0.5
    ensures Abs(x - n as real) == 0.5 ==> n % 2 == 0
  {
    var f := x.Floor;
    var frac := x - f as real;
    if frac < 0.5 then f
    else if frac > 0.5 then f + 1
    else if f % 2 == 0 then f
    else f + 1
  }

  /** `Round(x)` is exactly the integer nearer than one half to `x`, or, at a
      distance of one half, the even one. */
  lemma RoundCharacterized(x: real, m: int)
    ensures Round(x) == m <==> Abs(x - m as real) < 0.5 || (Abs(x - m as real) == 0.5 && m % 2 == 0)
  {
    var n := Round(x);
    if m != n {
      assert m < n || m > n;
      assert Abs(x - m as real) >= 0.5;
      if Abs(x - m as real) == 0.5 {
        assert Abs(x - n as real) == 0.5;
        assert m == n - 1 || m == n + 1;
      }
    }
  }

  /** No integer is nearer to `x` than `Round(x)`. */
  lemma RoundNearest(x: real, m: int)
    ensures Abs(x - Round(x) as real) <= Abs(x - m as real)
  {
    var n := Round(x);
    if m != n {
      assert m <= n - 1 || m >= n + 1;
    }
  }

  /** Five branches of advice, and the data-starved case. */
  datatype Advice =
    | NeedMoreData              // "Log a couple sessions first ..."
    | RepeatPlusRep(weightLb: real)   // repeat the only day's top weight, +1 rep
    | Upward(nextWeightLb: real)      // upward trend: aim for the last top + 5 lb
    | Plateau                   // same rounded top weight throughout the window
    | Dip(weightLb: real)       // last top below the window's best: repeat it
    | Solid                     // last top is the window's best

  /** The weight column of the top-set series. */
  function TopWeights(tops: seq<DayTop>): (ws: seq<real>)
    ensures |ws| == |tops|
    ensures forall i :: 0 <= i < |tops| ==> ws[i] == tops[i].topWeightLb
  {
    seq(|tops|, i requires 0 <= i < |tops| => tops[i].topWeightLb)
  }

  /** Python's `ws[-3:]`: the last three values, or all of them when there
      are fewer. */
  function Window(ws: seq<real>): (w: seq<real>)
    ensures |w| == if |ws| < 3 then |ws| else 3
    ensures w == ws[|ws| - |w|..]
  {
    if |ws| <= 3 then ws else ws[|ws| - 3..]
  }

  /** How many values are strictly greater than the one before. */
  function CountIncreases(w: seq<real>): (n: nat)
    ensures |w| > 0 ==> n <= |w| - 1
    ensures |w| > 0 ==> (n == |w| - 1 <==> forall i :: 0 < i < |w| ==> w[i - 1] < w[i])
  {
    if |w| < 2 then 0
    else
      var init := w[..|w| - 1];
      assert forall i :: 0 <= i < |w| - 1 ==> init[i] == w[i];
      CountIncreases(init) + (if w[|w| - 1] > w[|w| - 2] then 1 else 0)
  }

  /** The window's values all round to one integer. */
  predicate SameRounded(w: seq<real>) {
    |(set x | x in w :: Round(x))| == 1
  }

  lemma SameRoundedIff(w: seq<real>)
    requires |w| > 0
    ensures SameRounded(w) <==> forall i :: 0 <= i < |w| ==> Round(w[i]) == Round(w[0])
  {
    var rs := set x | x in w :: Round(x);
    var r0 := Round(w[0]);
    assert r0 in rs;
    if forall i :: 0 <= i < |w| ==> Round(w[i]) == r0 {
      assert rs == {r0};
    }
    if |rs| == 1 {
      assert |rs - {r0}| == 0;
      assert rs == {r0};
      forall i | 0 <= i < |w| ensures Round(w[i]) == r0 {
        assert Round(w[i]) in rs;
      }
    }
  }

  /** Over two or more days, at least two increases in the window means the
      last three days rose strictly. */
  lemma WindowIncreases(ws: seq<real>)
    requires |ws| >= 2
    ensures CountIncreases(Window(ws)) >= 2 <==> RisingThree(ws)
  {
    var w := Window(ws);
    if |ws| >= 3 {
      assert w[0] == ws[|ws| - 3] && w[1] == ws[|ws| - 2] && w[2] == ws[|ws| - 1];
    }
  }

  /** The decision tree of `suggestion_next_goal`, on the daily top weights
      in date order. */
  function Advise(ws: seq<real>): (a: Advice)
    ensures a == NeedMoreData <==> |ws| == 0
    ensures a.RepeatPlusRep? <==> |ws| == 1
    ensures |ws| == 1 ==> a == RepeatPlusRep(ws[0])
  {
    if |ws| == 0 then NeedMoreData
    else if |ws| == 1 then RepeatPlusRep(ws[0])
    else AdviseOnWindow(Window(ws))
  }

  /** The branches taken on the trailing window, once there are two days. */
  function AdviseOnWindow(last: seq<real>): (a: Advice)
    requires |last| >= 2
    ensures !a.NeedMoreData? && !a.RepeatPlusRep?
    ensures a.Upward? ==> a.nextWeightLb == last[|last| - 1] + 5.0
    ensures a.Dip? ==> a.weightLb == last[|last| - 1] < MaxOf(last)
  {
    if CountIncreases(last) >= 2 then Upward(last[|last| - 1] + 5.0)
    else if SameRounded(last) then Plateau
    else if last[|last| - 1] < MaxOf(last) then Dip(last[|last| - 1])
    else Solid
  }

  /** `suggestion_next_goal` on the sets of one exercise. */
  function Suggest(s: seq<LoggedSet>): (a: Advice)
    ensures a == NeedMoreData <==> |s| == 0
    ensures a.RepeatPlusRep? <==> |DateSet(s)| == 1
    ensures a.RepeatPlusRep? ==> forall x :: x in s ==> x.weightLb <= a.weightLb
    ensures a.RepeatPlusRep? ==> exists x :: x in s && x.weightLb == a.weightLb
  {
    var tops := TopSetsByDay(s);
    var ws := TopWeights(tops);
    SingleDay(s);
    assert |tops| == 1 ==> IsTopWeightOn(s, tops[0].date, ws[0]);
    Advise(ws)
  }

  /** With one day in the series, every set is of that day. */
  lemma SingleDay(s: seq<LoggedSet>)
    ensures var tops := TopSetsByDay(s);
            |tops| == 1 ==> tops[0] in tops && forall x :: x in s ==> x.date == tops[0].date
  {
    var tops := TopSetsByDay(s);
    if |tops| == 1 {
      forall x | x in s ensures x.date == tops[0].date {
        assert x.date in TopDates(tops);
      }
    }
  }

  /** The weight a dip quotes, and the base of an upward suggestion, is the
      weight of the last session's top set offered for quick logging. */
  lemma SuggestQuotesLastTopSet(s: seq<LoggedSet>)
    requires |s| > 0
    ensures Suggest(s).Dip? ==> Suggest(s).weightLb == LastTopSet(s).value.weightLb
    ensures Suggest(s).Upward? ==> Suggest(s).nextWeightLb == LastTopSet(s).value.weightLb + 5.0
    ensures Suggest(s).RepeatPlusRep? ==> Suggest(s).weightLb == LastTopSet(s).value.weightLb
  {
    var tops := TopSetsByDay(s);
    var ws := TopWeights(tops);
    LastTopSetIsLastDay(s);
    assert ws[|ws| - 1] == tops[|tops| - 1].topWeightLb;
    assert Suggest(s) == Advise(ws);
    if |ws| >= 2 {
      AdviseUpward(ws);
      if !RisingThree(ws) && !SameRounded(Window(ws)) {
        AdviseDip(ws);
      }
    }
  }

  // ----------------------------------------------------- the branches

  /** The reference condition for an upward trend: three days of strictly
      rising top weights at the end of the series. */
  predicate RisingThree(ws: seq<real>) {
    && |ws| >= 3
    && ws[|ws| - 3] < ws[|ws| - 2] < ws[|ws| - 1]
  }

  /** With two or more days, the upward branch fires exactly on three rising
      days (two days give only one comparison), and suggests the last top
      weight plus 5 lb. */
  lemma AdviseUpward(ws: seq<real>)
    requires |ws| >= 2
    ensures Advise(ws).Upward? <==> RisingThree(ws)
    ensures Advise(ws).Upward? ==> Advise(ws).nextWeightLb == ws[|ws| - 1] + 5.0
  {
    WindowIncreases(ws);
    var w := Window(ws);
    assert w[|w| - 1] == ws[|ws| - 1];
  }

  /** Once the upward branch has not fired, the plateau branch fires exactly
      when every value of the window rounds to the same integer. */
  lemma AdvisePlateau(ws: seq<real>)
    requires |ws| >= 2 && !RisingThree(ws)
    ensures Advise(ws) == Plateau <==> forall i :: 0 <= i < |Window(ws)| ==> Round(Window(ws)[i]) == Round(ws[|ws| - 1])
  {
    WindowIncreases(ws);
    var w := Window(ws);
    assert w[|w| - 1] == ws[|ws| - 1];
    assert Advise(ws) == AdviseOnWindow(w);
    assert AdviseOnWindow(w) == Plateau <==> SameRounded(w);
    SameRoundedIff(w);
    RoundLikeFirstOrLast(w);
  }

  /** All values round like the first exactly when all round like the last. */
  lemma RoundLikeFirstOrLast(w: seq<real>)
    requires |w| > 0
    ensures (forall i :: 0 <= i < |w| ==> Round(w[i]) == Round(w[0]))
        <==> (forall i :: 0 <= i < |w| ==> Round(w[i]) == Round(w[|w| - 1]))
  {
  }

  /** When neither of those fires, the dip branch fires exactly when the last top weight
      is below some value of the window, and quotes the last top weight. */
  lemma AdviseDip(ws: seq<real>)
    requires |ws| >= 2 && !RisingThree(ws) && !SameRounded(Window(ws))
    ensures Advise(ws).Dip? <==> exists i :: 0 <= i < |Window(ws)| && ws[|ws| - 1] < Window(ws)[i]
    ensures Advise(ws).Dip? ==> Advise(ws).weightLb == ws[|ws| - 1]
  {
    WindowIncreases(ws);
    var w := Window(ws);
    var last := w[|w| - 1];
    assert last == ws[|ws| - 1];
    assert Advise(ws) == AdviseOnWindow(w);
    var a := AdviseOnWindow(w);
    assert a == if last < MaxOf(w) then Dip(last) else Solid;
    MaxOfExceeds(w, last);
    assert a.Dip? <==> exists i :: 0 <= i < |w| && last < w[i];
    assert a.Dip? ==> a.weightLb == last;
  }

  /** The fallback is reached only when no earlier branch fired and the last
      top weight is the best of the window; and then it is always reached. */
  lemma AdviseSolid(ws: seq<real>)
    ensures Advise(ws) == Solid <==>
              && |ws| >= 2
              && !RisingThree(ws)
              && !SameRounded(Window(ws))
              && forall i :: 0 <= i < |Window(ws)| ==> Window(ws)[i] <= ws[|ws| - 1]
  {
    if |ws| >= 2 {
      WindowIncreases(ws);
      var w := Window(ws);
      var last := w[|w| - 1];
      assert last == ws[|ws| - 1];
      assert Advise(ws) == AdviseOnWindow(w);
      MaxOfExceeds(w, last);
    }
  }

  /** On the sets of two or more days, the advice is an upward trend exactly
      when the last three daily top weights, in date order, rose strictly. */
  lemma SuggestUpwardOnSets(s: seq<LoggedSet>)
    requires |DateSet(s)| >= 2
    ensures Suggest(s).Upward? <==> RisingThree(TopWeights(TopSetsByDay(s)))
  {
    AdviseUpward(TopWeights(TopSetsByDay(s)));
  }

  // ----------------------------------------------------- scenarios

  lemma RisingSeriesGoesUp()
    ensures Advise([100.0, 105.0, 110.0]) == Upward(115.0)
  {
    AdviseUpward([100.0, 105.0, 110.0]);
  }

  lemma FlatSeriesPlateaus()
    ensures Advise([100.0, 100.0, 100.0]) == Plateau
  {
    var ws := [100.0, 100.0, 100.0];
    RoundCharacterized(100.0, 100);
    assert Window(ws) == ws;
    SameRoundedIff(ws);
    WindowIncreases(ws);
  }

  /** Two equal days: not a trend, a plateau. */
  lemma FlatPairPlateaus()
    ensures Advise([100.0, 100.0]) == Plateau
  {
    var ws := [100.0, 100.0];
    RoundCharacterized(100.0, 100);
    assert Window(ws) == ws;
    SameRoundedIff(ws);
    WindowIncreases(ws);
  }

  /** 100.4 and 99.6 both round to 100: still a plateau. */
  lemma NearlyFlatSeriesPlateaus()
    ensures Advise([99.6, 100.4]) == Plateau
  {
    RoundCharacterized(99.6, 100);
    RoundCharacterized(100.4, 100);
    AdvisePlateau([99.6, 100.4]);
  }

  lemma FallingSeriesDips()
    ensures Advise([110.0, 105.0]) == Dip(105.0)
  {
    RoundCharacterized(110.0, 110);
    RoundCharacterized(105.0, 105);
    assert Window([110.0, 105.0]) == [110.0, 105.0];
    SameRoundedIff([110.0, 105.0]);
    AdviseDip([110.0, 105.0]);
  }

  /** A dip then a new best is not a trend: only one of the two steps rose. */
  lemma DipThenBestIsSolid()
    ensures Advise([105.0, 100.0, 110.0]) == Solid
  {
    var ws := [105.0, 100.0, 110.0];
    RoundCharacterized(105.0, 105);
    RoundCharacterized(110.0, 110);
    SameRoundedIff(ws);
    AdviseSolid(ws);
  }

  /** One step up over two days is not a trend but a new best: solid. */
  lemma OneStepUpIsSolid()
    ensures Advise([100.0, 101.0]) == Solid
  {
    RoundCharacterized(100.0, 100);
    RoundCharacterized(101.0, 101);
    SameRoundedIff([100.0, 101.0]);
    AdviseSolid([100.0, 101.0]);
  }

  /** A single Bench Press set of 135 lb x 5: repeat 135 lb, +1 rep. */
  lemma SingleSetRepeats(d: Date, t: Timestamp)
    ensures Suggest([LoggedSet(d, "Bench Press", 135.0, Some(5), t)]) == RepeatPlusRep(135.0)
  {
    var s := [LoggedSet(d, "Bench Press", 135.0, Some(5), t)];
    assert DateSet(s) == {d};
  }
}
