/** The wellness-tip decision table (lines 96-118): five threshold rules on the
    raw inputs, then two emphasis rules driven by the top factors, each
    guarded by a check on the tips collected so far, and a fallback message
    when nothing fired. */
module Tips {
  import opened Strings
  import opened HeartRecord
  import opened Attribution

  // The tip texts. Each is written as a few short pieces only so that the
  // verifier can inspect the characters of every piece; the strings are the
  // ones the app shows.
  const CholesterolDietTip := "Reduce saturated fats " + "and added sugars to help " + "lower cholesterol."
  const BloodPressureTip := "Lower salt intake and keep " + "regular physical activity " + "to help manage " + "blood pressure" + "."
  const ExerciseTip := "Moderate aerobic exercise " + "can help improve " + "cardiovascular fitness."
  const ConsultTip := "Discuss your stress-test " + "or ECG results with a " + "healthcare provider."
  const MaleRiskTip := "Men have slightly higher " + "heart-disease risk; " + "regular check-ups are " + "important."
  const CholesterolEmphasisTip := "High cholesterol strongly " + "influenced the prediction" + "—consider a heart-healthy " + "diet."
  const BloodPressureEmphasisTip := "Blood pressure" + " was a key factor—monitor " + "and maintain it within a " + "healthy range."
  const FallbackMessage := "Great job! No extra suggestions beyond maintaining a balanced lifestyle."

  /** The threshold rules' tips, in declaration order. */
  const RuleTips: seq<string> := [CholesterolDietTip, BloodPressureTip, ExerciseTip, ConsultTip, MaleRiskTip]

  /** Whether threshold rule `k` fires for the inputs (all comparisons strict). */
  predicate RuleFires(r: Record, k: int)
    ensures RuleFires(r, k) ==> 0 <= k < |RuleTips|
  {
    if k == 0 then r.cholesterol > 240
    else if k == 1 then r.restingBp > 130
    else if k == 2 then r.maxHr < 100 && r.age < 60
    else if k == 3 then r.oldpeak > 2.0
    else k == 4 && r.sex == Male
  }

  /** The rules among the first `n` that fire, in declaration order. */
  function FiredRules(r: Record, n: nat): (ks: seq<int>)
    ensures forall a :: 0 <= a < |ks| ==> 0 <= ks[a] < n
  {
    if n == 0 then []
    else FiredRules(r, n - 1) + (if RuleFires(r, n - 1) then [n - 1] else [])
  }

  /** The tips the first `n` threshold rules contribute. */
  function RuleTipsUpTo(r: Record, n: nat): (t: seq<string>)
    requires n <= |RuleTips|
    ensures |t| <= n
  {
    if n == 0 then []
    else RuleTipsUpTo(r, n - 1) + (if RuleFires(r, n - 1) then [RuleTips[n - 1]] else [])
  }

  /** The tips the five threshold rules contribute (lines 97-106). */
  function ThresholdTips(r: Record): (th: seq<string>)
    ensures |th| <= |RuleTips| && forall i :: 0 <= i < |th| ==> th[i] in RuleTips
  {
    FiredRulesSpec(r, |RuleTips|);
    RuleTipsUpTo(r, |RuleTips|)
  }

  /** `[t.lower() for t in tips]`. */
  function LowerAll(tips: seq<string>): seq<string>
  {
    seq(|tips|, i requires 0 <= i < |tips| => Lower(tips[i]))
  }

  /** One pass of the loop body at lines 108-111 for feature `f`. */
  function FactorStep(tips: seq<string>, f: string): seq<string>
  {
    var t1 := if Contains(f, "cholestoral") && "cholestoral" !in LowerAll(tips)
              then tips + [CholesterolEmphasisTip] else tips;
    if Contains(f, "resting_blood_pressure") && !Contains(Lower(Join(t1, " ")), "blood pressure")
    then t1 + [BloodPressureEmphasisTip] else t1
  }

  /** The loop at line 107 over `top`, visiting only the factors of nonzero
      magnitude (`top[top > 0]`, where `top` holds absolute values). */
  function FactorTips(tips: seq<string>, top: seq<Factor>): seq<string>
  {
    if |top| == 0 then tips
    else
      var before := FactorTips(tips, top[..|top| - 1]);
      var f := top[|top| - 1];
      if f.impact > 0.0 then FactorStep(before, f.feature) else before
  }

  /** The tips collected for inputs `r` and displayed factors `top`. */
  function Tips(r: Record, top: seq<Factor>): seq<string>
  {
    FactorTips(ThresholdTips(r), top)
  }

  /** Lines 96-111: the tip list built step by step. */
  method GenerateTips(r: Record, top: seq<Factor>) returns (tips: seq<string>)
    ensures tips == Tips(r, top)
  {
    tips := CollectThresholdTips(r);
    var i := 0;
    while i < |top|
      invariant 0 <= i <= |top|
      invariant tips == FactorTips(ThresholdTips(r), top[..i])
    {
      FactorTipsSnoc(ThresholdTips(r), top, i);
      if top[i].impact > 0.0 {
        tips := EmphasiseFactor(tips, top[i].feature);
      }
      i := i + 1;
    }
    assert top[..|top|] == top;
  }

  /** Lines 96-106: the five threshold rules, tested in order. */
  method CollectThresholdTips(r: Record) returns (tips: seq<string>)
    ensures tips == ThresholdTips(r)
  {
    tips := [];
    if r.cholesterol > 240 {
      tips := tips + [CholesterolDietTip];
    }
    assert tips == RuleTipsUpTo(r, 1);
    if r.restingBp > 130 {
      tips := tips + [BloodPressureTip];
    }
    assert tips == RuleTipsUpTo(r, 2);
    if r.maxHr < 100 && r.age < 60 {
      tips := tips + [ExerciseTip];
    }
    assert tips == RuleTipsUpTo(r, 3);
    if r.oldpeak > 2.0 {
      tips := tips + [ConsultTip];
    }
    assert tips == RuleTipsUpTo(r, 4);
    if r.sex == Male {
      tips := tips + [MaleRiskTip];
    }
    assert tips == RuleTipsUpTo(r, 5);
  }

  /** Lines 108-111: the body of the factor loop for one factor with a
      positive magnitude. */
  method EmphasiseFactor(tips: seq<string>, feature: string) returns (out: seq<string>)
    ensures out == FactorStep(tips, feature)
  {
    out := tips;
    if Contains(feature, "cholestoral") && "cholestoral" !in LowerAll(out) {
      out := out + [CholesterolEmphasisTip];
    }
    if Contains(feature, "resting_blood_pressure") && !Contains(Lower(Join(out, " ")), "blood pressure") {
      out := out + [BloodPressureEmphasisTip];
    }
  }

  /** One more factor: the loop body runs on it when its magnitude is nonzero. */
  lemma FactorTipsSnoc(tips: seq<string>, top: seq<Factor>, i: int)
    requires 0 <= i < |top|
    ensures FactorTips(tips, top[..i + 1]) ==
      if top[i].impact > 0.0 then FactorStep(FactorTips(tips, top[..i]), top[i].feature) else FactorTips(tips, top[..i])
  {
    assert top[..i + 1][..i] == top[..i];
  }

  /** Lines 113-118: the collected tips, or the fallback message when there
      are none. */
  function Suggestions(r: Record, top: seq<Factor>): (shown: seq<string>)
    ensures |shown| >= 1
    ensures Tips(r, top) != [] ==> shown == Tips(r, top)
    ensures shown == [FallbackMessage] <==> Tips(r, top) == []
  {
    var tips := Tips(r, top);
    ThresholdTipsKnown(r);
    FactorTipsKnown(ThresholdTips(r), top);
    if tips != [] then
      assert tips[0] in KnownTips;
      tips
    else [FallbackMessage]
  }

  // ---------------------------------------------------------------------
  // Facts about the tip texts

  /** Every text the table can produce. */
  const KnownTips: set<string> := {CholesterolDietTip, BloodPressureTip, ExerciseTip, ConsultTip, MaleRiskTip,
                                   CholesterolEmphasisTip, BloodPressureEmphasisTip}

  lemma TipLengths()
    ensures |CholesterolDietTip| == 65 && |BloodPressureTip| == 83 && |ExerciseTip| == 66
    ensures |ConsultTip| == 67 && |MaleRiskTip| == 77 && |CholesterolEmphasisTip| == 82
    ensures |BloodPressureEmphasisTip| == 79 && |FallbackMessage| == 72
  {
  }

  /** A text lowered mentions "blood pressure". */
  ghost predicate MentionsBp(t: string) {
    Contains(Lower(t), "blood pressure")
  }

  /** Some tip in the list mentions "blood pressure" (any case). */
  ghost predicate AnyMentionsBp(tips: seq<string>) {
    exists i :: 0 <= i < |tips| && MentionsBp(tips[i])
  }

  /** A text that cannot hold "blood pressure": no lowered "b" followed by
      "l", and no "b" at its end. */
  ghost predicate ClearOfBp(t: string) {
    LacksPair(t, 'b', 'l') && EndsClearOf(t, 'b')
  }

  lemma BloodPressureTipMentions()
    ensures MentionsBp(BloodPressureTip)
  {
    var head := "Lower salt intake and keep " + "regular physical activity " + "to help manage ";
    var w := "blood pressure";
    assert Lower(w) == w;
    assert BloodPressureTip == head + w + ".";
    LowerAppend(head + w, ".");
    LowerAppend(head, w);
    assert OccursAt(Lower(BloodPressureTip), w, |head|) by {
      assert Lower(BloodPressureTip)[|head|..|head| + |w|] == w;
    }
  }

  lemma BloodPressureEmphasisTipMentions()
    ensures MentionsBp(BloodPressureEmphasisTip)
  {
    var w := "blood pressure";
    var tail := " was a key factor—monitor " + "and maintain it within a " + "healthy range.";
    assert Lower("Blood pressure") == w;
    assert BloodPressureEmphasisTip == "Blood pressure" + tail;
    LowerAppend("Blood pressure", tail);
    assert OccursAt(Lower(BloodPressureEmphasisTip), w, 0) by {
      assert Lower(BloodPressureEmphasisTip)[..|w|] == w;
    }
  }

  lemma BpTipsMention()
    ensures MentionsBp(BloodPressureTip) && MentionsBp(BloodPressureEmphasisTip)
  {
    BloodPressureTipMentions();
    BloodPressureEmphasisTipMentions();
  }

  lemma Clear3(a: string, b: string, c: string)
    requires ClearOfBp(a) && ClearOfBp(b) && ClearOfBp(c) && |b| > 0 && |c| > 0
    ensures ClearOfBp(a + b + c)
  {
    LacksPairAppend(a, b, 'b', 'l');
    LacksPairAppend(a + b, c, 'b', 'l');
  }

  lemma CholesterolDietTipClear()
    ensures ClearOfBp(CholesterolDietTip)
  {
    assert ClearOfBp("Reduce saturated fats ");
    assert ClearOfBp("and added sugars to help ");
    assert ClearOfBp("lower cholesterol.");
    Clear3("Reduce saturated fats ", "and added sugars to help ", "lower cholesterol.");
  }

  lemma ExerciseTipClear()
    ensures ClearOfBp(ExerciseTip)
  {
    assert ClearOfBp("Moderate aerobic exercise ");
    assert ClearOfBp("can help improve ");
    assert ClearOfBp("cardiovascular fitness.");
    Clear3("Moderate aerobic exercise ", "can help improve ", "cardiovascular fitness.");
  }

  lemma ConsultTipClear()
    ensures ClearOfBp(ConsultTip)
  {
    assert ClearOfBp("Discuss your stress-test ");
    assert ClearOfBp("or ECG results with a ");
    assert ClearOfBp("healthcare provider.");
    Clear3("Discuss your stress-test ", "or ECG results with a ", "healthcare provider.");
  }

  lemma MaleRiskTipClear()
    ensures ClearOfBp(MaleRiskTip)
  {
    assert ClearOfBp("Men have slightly higher ");
    assert ClearOfBp("heart-disease risk; ");
    assert ClearOfBp("regular check-ups are ");
    assert ClearOfBp("important.");
    Clear3("Men have slightly higher ", "heart-disease risk; ", "regular check-ups are ");
    LacksPairAppend("Men have slightly higher " + "heart-disease risk; " + "regular check-ups are ", "important.", 'b', 'l');
  }

  lemma CholesterolEmphasisHeadClear()
    ensures ClearOfBp("High cholesterol strongly ") && ClearOfBp("influenced the prediction")
  {
  }

  lemma CholesterolEmphasisTailClear()
    ensures ClearOfBp("—consider a heart-healthy ") && ClearOfBp("diet.")
  {
  }

  lemma CholesterolEmphasisTipClear()
    ensures ClearOfBp(CholesterolEmphasisTip)
  {
    CholesterolEmphasisHeadClear();
    CholesterolEmphasisTailClear();
    Clear3("High cholesterol strongly ", "influenced the prediction", "—consider a heart-healthy ");
    LacksPairAppend("High cholesterol strongly " + "influenced the prediction" + "—consider a heart-healthy ", "diet.", 'b', 'l');
  }

  /** Every tip but the two blood-pressure ones is clear of "blood pressure". */
  lemma OtherTipsClear()
    ensures ClearOfBp(CholesterolDietTip) && ClearOfBp(ExerciseTip) && ClearOfBp(ConsultTip)
    ensures ClearOfBp(MaleRiskTip) && ClearOfBp(CholesterolEmphasisTip)
  {
    CholesterolDietTipClear();
    ExerciseTipClear();
    ConsultTipClear();
    MaleRiskTipClear();
    CholesterolEmphasisTipClear();
  }

  lemma SpaceClear()
    ensures LacksPair(" ", 'b', 'l') && EndsClearOf(" ", 'b')
  {
  }

  lemma BpStartsWithBl()
    ensures |"blood pressure"| >= 2 && "blood pressure"[0] == 'b' && "blood pressure"[1] == 'l'
  {
  }

  /** A list of tips none of which can hold "blood pressure" lowers and joins
      to a string without it. */
  lemma ClearJoinHasNoBp(tips: seq<string>)
    requires forall i :: 0 <= i < |tips| ==> ClearOfBp(tips[i])
    ensures !Contains(Lower(Join(tips, " ")), "blood pressure")
  {
    SpaceClear();
    assert forall i :: 0 <= i < |tips| ==> LacksPair(tips[i], 'b', 'l') && EndsClearOf(tips[i], 'b');
    JoinLacksPair(tips, " ", 'b', 'l');
    BpStartsWithBl();
    LacksPairExcludes(Join(tips, " "), "blood pressure");
  }

  /** The element test at line 108 never fails: no tip lowers to exactly
      "cholestoral". */
  lemma CholestoralNeverATip(tips: seq<string>)
    requires forall i :: 0 <= i < |tips| ==> tips[i] in KnownTips
    ensures "cholestoral" !in LowerAll(tips)
  {
    TipLengths();
    forall i | 0 <= i < |tips| ensures LowerAll(tips)[i] != "cholestoral" {
      assert |LowerAll(tips)[i]| == |tips[i]| > 11;
    }
  }

  // ---------------------------------------------------------------------
  // The threshold rules

  /** The first `n` rules contribute the tips of the rules among them that
      fire, in declaration order. */
  lemma FiredRulesSpec(r: Record, n: nat)
    requires n <= |RuleTips|
    ensures var ks, th := FiredRules(r, n), RuleTipsUpTo(r, n);
      && |ks| == |th|
      && (forall a, b :: 0 <= a < b < |ks| ==> ks[a] < ks[b])
      && (forall a :: 0 <= a < |ks| ==> RuleFires(r, ks[a]) && th[a] == RuleTips[ks[a]])
      && (forall k :: 0 <= k < n && RuleFires(r, k) ==> k in ks)
  {
    FiredRulesAligned(r, n);
    FiredRulesIncreasing(r, n);
    FiredRulesComplete(r, n);
  }

  /** Each collected tip is the tip of the fired rule at the same place. */
  lemma {:induction false} FiredRulesAligned(r: Record, n: nat)
    requires n <= |RuleTips|
    ensures var ks, th := FiredRules(r, n), RuleTipsUpTo(r, n);
      && |ks| == |th|
      && (forall a :: 0 <= a < |ks| ==> RuleFires(r, ks[a]) && th[a] == RuleTips[ks[a]])
  {
    if n > 0 {
      FiredRulesAligned(r, n - 1);
      var prev, ks := FiredRules(r, n - 1), FiredRules(r, n);
      var pth, th := RuleTipsUpTo(r, n - 1), RuleTipsUpTo(r, n);
      assert forall a :: 0 <= a < |prev| ==> ks[a] == prev[a] && th[a] == pth[a];
    }
  }

  lemma {:induction false} FiredRulesIncreasing(r: Record, n: nat)
    ensures forall a, b :: 0 <= a < b < |FiredRules(r, n)| ==> FiredRules(r, n)[a] < FiredRules(r, n)[b]
  {
    if n > 0 {
      FiredRulesIncreasing(r, n - 1);
      var prev, ks := FiredRules(r, n - 1), FiredRules(r, n);
      assert ks == prev + (if RuleFires(r, n - 1) then [n - 1] else []);
      assert forall a :: 0 <= a < |prev| ==> ks[a] == prev[a];
      forall a, b | 0 <= a < b < |ks| ensures ks[a] < ks[b] {
        if b == |prev| {
          assert ks[b] == n - 1 && prev[a] < n - 1;
        } else {
          assert prev[a] < prev[b];
        }
      }
    }
  }

  lemma {:induction false} FiredRulesComplete(r: Record, n: nat)
    ensures forall k :: 0 <= k < n && RuleFires(r, k) ==> k in FiredRules(r, n)
  {
    if n > 0 {
      FiredRulesComplete(r, n - 1);
      var prev, ks := FiredRules(r, n - 1), FiredRules(r, n);
      assert forall k :: k in prev ==> k in ks;
      if RuleFires(r, n - 1) {
        assert ks[|prev|] == n - 1;
      }
    }
  }

  lemma ThresholdTipsUnfold(r: Record)
    ensures ThresholdTips(r) ==
      (if r.cholesterol > 240 then [CholesterolDietTip] else [])
      + (if r.restingBp > 130 then [BloodPressureTip] else [])
      + (if r.maxHr < 100 && r.age < 60 then [ExerciseTip] else [])
      + (if r.oldpeak > 2.0 then [ConsultTip] else [])
      + (if r.sex == Male then [MaleRiskTip] else [])
  {
    assert RuleTipsUpTo(r, 1) == if r.cholesterol > 240 then [CholesterolDietTip] else [];
    assert RuleTipsUpTo(r, 2) == RuleTipsUpTo(r, 1) + if r.restingBp > 130 then [BloodPressureTip] else [];
    assert RuleTipsUpTo(r, 3) == RuleTipsUpTo(r, 2) + if r.maxHr < 100 && r.age < 60 then [ExerciseTip] else [];
    assert RuleTipsUpTo(r, 4) == RuleTipsUpTo(r, 3) + if r.oldpeak > 2.0 then [ConsultTip] else [];
    assert RuleTipsUpTo(r, 5) == RuleTipsUpTo(r, 4) + if r.sex == Male then [MaleRiskTip] else [];
  }

  /** The threshold tips are the tips of exactly the rules that fire, in
      declaration order. */
  lemma ThresholdTipsInRuleOrder(r: Record)
    ensures exists ks: seq<int> ::
      && |ks| == |ThresholdTips(r)|
      && (forall a, b :: 0 <= a < b < |ks| ==> ks[a] < ks[b])
      && (forall a :: 0 <= a < |ks| ==> 0 <= ks[a] < |RuleTips| && RuleFires(r, ks[a]) && ThresholdTips(r)[a] == RuleTips[ks[a]])
      && (forall k :: 0 <= k < |RuleTips| && RuleFires(r, k) ==> k in ks)
  {
    var ks := FiredRules(r, |RuleTips|);
    FiredRulesSpec(r, |RuleTips|);
  }

  // ---------------------------------------------------------------------
  // The factor loop

  /** The loop only appends emphasis tips after the tips it started with. */
  lemma {:induction false} FactorTipsExtend(tips: seq<string>, top: seq<Factor>)
    ensures var out := FactorTips(tips, top);
      && |out| >= |tips| && out[..|tips|] == tips
      && forall k :: |tips| <= k < |out| ==> out[k] == CholesterolEmphasisTip || out[k] == BloodPressureEmphasisTip
  {
    if |top| > 0 {
      FactorTipsExtend(tips, top[..|top| - 1]);
    }
  }

  lemma FactorTipsKnown(tips: seq<string>, top: seq<Factor>)
    requires forall i :: 0 <= i < |tips| ==> tips[i] in KnownTips
    ensures forall i :: 0 <= i < |FactorTips(tips, top)| ==> FactorTips(tips, top)[i] in KnownTips
  {
    var out := FactorTips(tips, top);
    FactorTipsExtend(tips, top);
    forall i | 0 <= i < |out| ensures out[i] in KnownTips {
      if i < |tips| {
        assert out[i] == out[..|tips|][i];
      }
    }
  }

  lemma ThresholdTipsKnown(r: Record)
    ensures forall i :: 0 <= i < |ThresholdTips(r)| ==>
      ThresholdTips(r)[i] in KnownTips && ThresholdTips(r)[i] != CholesterolEmphasisTip && ThresholdTips(r)[i] != BloodPressureEmphasisTip
  {
    ThresholdTipsUnfold(r);
    TipLengths();
  }

  /** Number of factors of nonzero magnitude whose name contains `w`. */
  function MatchingFactors(top: seq<Factor>, w: string): (m: nat)
    ensures m <= |top|
  {
    if |top| == 0 then 0
    else MatchingFactors(top[..|top| - 1], w)
         + (if top[|top| - 1].impact > 0.0 && Contains(top[|top| - 1].feature, w) then 1 else 0)
  }

  lemma {:induction false} MatchingFactorsExist(top: seq<Factor>, w: string)
    ensures MatchingFactors(top, w) > 0 <==>
      exists k :: 0 <= k < |top| && top[k].impact > 0.0 && Contains(top[k].feature, w)
  {
    if |top| > 0 {
      var init := top[..|top| - 1];
      MatchingFactorsExist(init, w);
      if exists k :: 0 <= k < |init| && init[k].impact > 0.0 && Contains(init[k].feature, w) {
        var k :| 0 <= k < |init| && init[k].impact > 0.0 && Contains(init[k].feature, w);
        assert top[k] == init[k];
      }
      if exists k :: 0 <= k < |top| && top[k].impact > 0.0 && Contains(top[k].feature, w) {
        var k :| 0 <= k < |top| && top[k].impact > 0.0 && Contains(top[k].feature, w);
        if k < |init| {
          assert init[k] == top[k];
        }
      }
    }
  }

  /** The cholesterol emphasis tip is appended once per nonzero factor whose
      name contains "cholestoral", whatever the list already holds. */
  lemma {:induction false} FactorTipsCholesterol(tips: seq<string>, top: seq<Factor>)
    requires forall i :: 0 <= i < |tips| ==> tips[i] in KnownTips
    ensures multiset(FactorTips(tips, top))[CholesterolEmphasisTip]
            == multiset(tips)[CholesterolEmphasisTip] + MatchingFactors(top, "cholestoral")
  {
    if |top| > 0 {
      var init := top[..|top| - 1];
      var f := top[|top| - 1];
      var before := FactorTips(tips, init);
      FactorTipsCholesterol(tips, init);
      FactorTipsKnown(tips, init);
      if f.impact > 0.0 {
        CholestoralNeverATip(before);
        TipLengths();
      }
    }
  }

  /** The blood-pressure emphasis tip: once some tip mentions blood pressure
      it is never added, and it is added at most once. */
  lemma {:induction false} FactorTipsBpAtMostOnce(tips: seq<string>, top: seq<Factor>)
    ensures AnyMentionsBp(tips) ==>
      multiset(FactorTips(tips, top))[BloodPressureEmphasisTip] == multiset(tips)[BloodPressureEmphasisTip]
    ensures multiset(FactorTips(tips, top))[BloodPressureEmphasisTip] <= multiset(tips)[BloodPressureEmphasisTip] + 1
  {
    if |top| > 0 {
      var init := top[..|top| - 1];
      var f := top[|top| - 1];
      var before := FactorTips(tips, init);
      FactorTipsBpAtMostOnce(tips, init);
      StepAddsBpAtMostOnce(before, f.feature);
      if AnyMentionsBp(tips) {
        FactorTipsExtend(tips, init);
        var i :| 0 <= i < |tips| && MentionsBp(tips[i]);
        assert before[i] == before[..|tips|][i];
        StepAfterBpMention(before, f.feature);
      } else if multiset(before)[BloodPressureEmphasisTip] > multiset(tips)[BloodPressureEmphasisTip] {
        assert BloodPressureEmphasisTip in before;
        var i :| 0 <= i < |before| && before[i] == BloodPressureEmphasisTip;
        BloodPressureEmphasisTipMentions();
        StepAfterBpMention(before, f.feature);
      }
    }
  }

  /** One pass of the loop body adds the blood-pressure emphasis tip at most once. */
  lemma StepAddsBpAtMostOnce(before: seq<string>, f: string)
    ensures multiset(FactorStep(before, f))[BloodPressureEmphasisTip] <= multiset(before)[BloodPressureEmphasisTip] + 1
  {
    TipLengths();
    assert CholesterolEmphasisTip != BloodPressureEmphasisTip;
  }

  /** Once a tip mentions blood pressure, the loop body adds no blood-pressure
      emphasis tip. */
  lemma StepAfterBpMention(before: seq<string>, f: string)
    requires AnyMentionsBp(before)
    ensures multiset(FactorStep(before, f))[BloodPressureEmphasisTip] == multiset(before)[BloodPressureEmphasisTip]
  {
    var t1 := if Contains(f, "cholestoral") && "cholestoral" !in LowerAll(before)
              then before + [CholesterolEmphasisTip] else before;
    var i :| 0 <= i < |before| && MentionsBp(before[i]);
    assert t1[i] == before[i];
    JoinMentions(t1, " ", "blood pressure", i);
    TipLengths();
    assert CholesterolEmphasisTip != BloodPressureEmphasisTip;
  }

  /** Wherever the blood-pressure emphasis tip stands, no earlier tip
      mentions blood pressure. */
  ghost predicate BpEmphasisUnprompted(tips: seq<string>) {
    forall p :: 0 <= p < |tips| && tips[p] == BloodPressureEmphasisTip ==> !AnyMentionsBp(tips[..p])
  }

  lemma {:induction false} FactorTipsBpUnmentioned(tips: seq<string>, top: seq<Factor>)
    requires BpEmphasisUnprompted(tips)
    ensures BpEmphasisUnprompted(FactorTips(tips, top))
  {
    if |top| > 0 {
      var init := top[..|top| - 1];
      var f := top[|top| - 1];
      var before := FactorTips(tips, init);
      FactorTipsBpUnmentioned(tips, init);
      var t1 := if Contains(f.feature, "cholestoral") && "cholestoral" !in LowerAll(before)
                then before + [CholesterolEmphasisTip] else before;
      var out := FactorTips(tips, top);
      TipLengths();
      var bpAdded := f.impact > 0.0 && Contains(f.feature, "resting_blood_pressure")
                     && !Contains(Lower(Join(t1, " ")), "blood pressure");
      assert out == if f.impact <= 0.0 then before else if bpAdded then t1 + [BloodPressureEmphasisTip] else t1;
      assert CholesterolEmphasisTip != BloodPressureEmphasisTip;
      forall p | 0 <= p < |out| && out[p] == BloodPressureEmphasisTip ensures !AnyMentionsBp(out[..p]) {
        if p < |before| {
          assert out[..p] == before[..p] && out[p] == before[p];
          assert 0 <= p < |before| && before[p] == BloodPressureEmphasisTip;
          assert !AnyMentionsBp(before[..p]);
        } else {
          assert p == |t1| && out[..p] == t1 && bpAdded;
          if AnyMentionsBp(t1) {
            var i :| 0 <= i < |t1| && MentionsBp(t1[i]);
            JoinMentions(t1, " ", "blood pressure", i);
          }
          assert !AnyMentionsBp(t1);
        }
      }
    }
  }

  /** Starting from tips none of which can hold "blood pressure", the
      emphasis tip is added exactly when a nonzero factor names
      `resting_blood_pressure`. */
  lemma {:induction false} FactorTipsBpFires(tips: seq<string>, top: seq<Factor>)
    requires forall i :: 0 <= i < |tips| ==> ClearOfBp(tips[i])
    ensures BloodPressureEmphasisTip in FactorTips(tips, top) <==> MatchingFactors(top, "resting_blood_pressure") > 0
  {
    if |top| > 0 {
      var init := top[..|top| - 1];
      var f := top[|top| - 1];
      var before := FactorTips(tips, init);
      FactorTipsBpFires(tips, init);
      FactorTipsExtend(tips, init);
      OtherTipsClear();
      TipLengths();
      var t1 := if Contains(f.feature, "cholestoral") && "cholestoral" !in LowerAll(before)
                then before + [CholesterolEmphasisTip] else before;
      var out := FactorTips(tips, top);
      var bpAdded := f.impact > 0.0 && Contains(f.feature, "resting_blood_pressure")
                     && !Contains(Lower(Join(t1, " ")), "blood pressure");
      assert out == if f.impact <= 0.0 then before else if bpAdded then t1 + [BloodPressureEmphasisTip] else t1;
      assert CholesterolEmphasisTip != BloodPressureEmphasisTip;
      assert BloodPressureEmphasisTip in t1 <==> BloodPressureEmphasisTip in before;
      if f.impact > 0.0 && Contains(f.feature, "resting_blood_pressure") && BloodPressureEmphasisTip !in before {
        forall i | 0 <= i < |t1| ensures ClearOfBp(t1[i]) {
          if i < |tips| {
            assert t1[i] == before[..|tips|][i];
          } else if i < |before| {
            assert t1[i] == before[i];
          }
        }
        ClearJoinHasNoBp(t1);
        assert bpAdded;
      }
      assert MatchingFactors(top, "resting_blood_pressure") == MatchingFactors(init, "resting_blood_pressure")
        + (if f.impact > 0.0 && Contains(f.feature, "resting_blood_pressure") then 1 else 0);
    } else if BloodPressureEmphasisTip in tips {
      var i :| 0 <= i < |tips| && tips[i] == BloodPressureEmphasisTip;
      BpTipsMention();
      ClearJoinHasNoBp([tips[i]]);
    }
  }

  // ---------------------------------------------------------------------
  // What the table promises

  /** The collected tips begin with the threshold tips; everything after them
      is an emphasis tip. */
  lemma TipsStartWithThresholds(r: Record, top: seq<Factor>)
    ensures var t, th := Tips(r, top), ThresholdTips(r);
      && |t| >= |th| && t[..|th|] == th
      && forall k :: |th| <= k < |t| ==> t[k] == CholesterolEmphasisTip || t[k] == BloodPressureEmphasisTip
  {
    FactorTipsExtend(ThresholdTips(r), top);
  }

  /** A text other than the two emphasis tips is collected exactly when a
      threshold rule contributed it. */
  lemma ThresholdTipShown(r: Record, top: seq<Factor>, x: string)
    requires x != CholesterolEmphasisTip && x != BloodPressureEmphasisTip
    ensures x in Tips(r, top) <==> x in ThresholdTips(r)
  {
    var t, th := Tips(r, top), ThresholdTips(r);
    FactorTipsExtend(th, top);
    if x in th {
      var k :| 0 <= k < |th| && th[k] == x;
      assert t[..|th|][k] == x;
    }
    if x in t {
      var k :| 0 <= k < |t| && t[k] == x;
      assert k < |th|;
      assert t[..|th|][k] == x;
    }
  }

  /** The threshold rules' tips, one by one. */
  lemma ThresholdTipsMembers(r: Record)
    ensures CholesterolDietTip in ThresholdTips(r) <==> r.cholesterol > 240
    ensures BloodPressureTip in ThresholdTips(r) <==> r.restingBp > 130
    ensures ExerciseTip in ThresholdTips(r) <==> r.maxHr < 100 && r.age < 60
    ensures ConsultTip in ThresholdTips(r) <==> r.oldpeak > 2.0
    ensures MaleRiskTip in ThresholdTips(r) <==> r.sex == Male
  {
    ThresholdTipsUnfold(r);
    TipLengths();
  }

  /** Each threshold tip is shown exactly when its strict condition holds. */
  lemma ThresholdRules(r: Record, top: seq<Factor>)
    ensures CholesterolDietTip in Tips(r, top) <==> r.cholesterol > 240
    ensures BloodPressureTip in Tips(r, top) <==> r.restingBp > 130
    ensures ExerciseTip in Tips(r, top) <==> r.maxHr < 100 && r.age < 60
    ensures ConsultTip in Tips(r, top) <==> r.oldpeak > 2.0
    ensures MaleRiskTip in Tips(r, top) <==> r.sex == Male
  {
    TipLengths();
    ThresholdTipsMembers(r);
    ThresholdTipShown(r, top, CholesterolDietTip);
    ThresholdTipShown(r, top, BloodPressureTip);
    ThresholdTipShown(r, top, ExerciseTip);
    ThresholdTipShown(r, top, ConsultTip);
    ThresholdTipShown(r, top, MaleRiskTip);
  }

  /** Line 108 tests for an element equal to "cholestoral", which no tip is,
      so the emphasis tip is appended once for every nonzero factor whose name
      contains "cholestoral", even next to the cholesterol diet tip. */
  lemma CholesterolEmphasisCount(r: Record, top: seq<Factor>)
    ensures multiset(Tips(r, top))[CholesterolEmphasisTip] == MatchingFactors(top, "cholestoral")
  {
    ThresholdTipsKnown(r);
    FactorTipsCholesterol(ThresholdTips(r), top);
    assert CholesterolEmphasisTip !in ThresholdTips(r);
  }

  /** The blood-pressure emphasis tip appears at most once, never after a tip
      that mentions blood pressure, so never when resting blood pressure is
      above 130, and otherwise exactly when a nonzero factor names
      `resting_blood_pressure`. */
  lemma BloodPressureEmphasis(r: Record, top: seq<Factor>)
    ensures multiset(Tips(r, top))[BloodPressureEmphasisTip] <= 1
    ensures BpEmphasisUnprompted(Tips(r, top))
    ensures BloodPressureEmphasisTip in Tips(r, top) <==>
      r.restingBp <= 130 && MatchingFactors(top, "resting_blood_pressure") > 0
  {
    var th := ThresholdTips(r);
    ThresholdTipsKnown(r);
    assert BloodPressureEmphasisTip !in th;
    FactorTipsBpAtMostOnce(th, top);
    FactorTipsBpUnmentioned(th, top);
    ThresholdBpMention(r);
    if r.restingBp <= 130 {
      FactorTipsBpFires(th, top);
    }
  }

  /** The threshold tips mention blood pressure exactly when resting blood
      pressure is above 130; otherwise none of them can. */
  lemma ThresholdBpMention(r: Record)
    ensures r.restingBp > 130 ==> AnyMentionsBp(ThresholdTips(r))
    ensures r.restingBp <= 130 ==> forall i :: 0 <= i < |ThresholdTips(r)| ==> ClearOfBp(ThresholdTips(r)[i])
  {
    var th := ThresholdTips(r);
    ThresholdTipsUnfold(r);
    BpTipsMention();
    if r.restingBp > 130 {
      ThresholdTipsMembers(r);
      var i :| 0 <= i < |th| && th[i] == BloodPressureTip;
      assert MentionsBp(th[i]);
    } else {
      OtherTipsClear();
    }
  }

  /** The fallback message is shown exactly when no threshold rule fires and
      no nonzero factor names `cholestoral` or `resting_blood_pressure`. */
  lemma FallbackWhenNothingFires(r: Record, top: seq<Factor>)
    ensures Suggestions(r, top) == [FallbackMessage] <==>
      && !(r.cholesterol > 240) && !(r.restingBp > 130) && !(r.maxHr < 100 && r.age < 60)
      && !(r.oldpeak > 2.0) && !(r.sex == Male)
      && (forall k :: 0 <= k < |top| && top[k].impact > 0.0 ==>
            !Contains(top[k].feature, "cholestoral") && !Contains(top[k].feature, "resting_blood_pressure"))
  {
    var t, th := Tips(r, top), ThresholdTips(r);
    ThresholdTipsUnfold(r);
    TipsStartWithThresholds(r, top);
    CholesterolEmphasisCount(r, top);
    BloodPressureEmphasis(r, top);
    MatchingFactorsExist(top, "cholestoral");
    MatchingFactorsExist(top, "resting_blood_pressure");
    assert |t| == 0 || t[0] in multiset(t);
  }

  /** For a 50-year-old man with cholesterol 260, resting
      blood pressure 135 and ST depression 2.5: the cholesterol, blood-pressure,
      provider and male-risk tips are shown, and when `cholestoral` is a
      nonzero top factor the cholesterol emphasis tip is shown beside the
      cholesterol diet tip rather than suppressed. These four are exactly the
      threshold tips when the maximum heart rate is at least 100; below 100
      the exercise tip fires as well. */
  lemma ExampleFiftyYearOldMan(r: Record, top: seq<Factor>)
    requires r.age == 50 && r.sex == Male && r.cholesterol == 260 && r.restingBp == 135 && r.oldpeak == 2.5
    ensures CholesterolDietTip in Tips(r, top) && BloodPressureTip in Tips(r, top)
    ensures ConsultTip in Tips(r, top) && MaleRiskTip in Tips(r, top)
    ensures BloodPressureEmphasisTip !in Tips(r, top)
    ensures r.maxHr >= 100 ==> ThresholdTips(r) == [CholesterolDietTip, BloodPressureTip, ConsultTip, MaleRiskTip]
    ensures r.maxHr < 100 ==> ThresholdTips(r) == [CholesterolDietTip, BloodPressureTip, ExerciseTip, ConsultTip, MaleRiskTip]
    ensures (exists k :: 0 <= k < |top| && top[k].impact > 0.0 && Contains(top[k].feature, "cholestoral")) ==>
      CholesterolEmphasisTip in Tips(r, top)
  {
    ThresholdTipsUnfold(r);
    ThresholdRules(r, top);
    BloodPressureEmphasis(r, top);
    CholesterolEmphasisCount(r, top);
    MatchingFactorsExist(top, "cholestoral");
  }
}
