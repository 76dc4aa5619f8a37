/** What the server's feedback rules guarantee, attribute type by attribute type. */
module FeedbackLaws {
  import opened Wrappers
  import opened JsText
  import opened GameData
  import opened Feedback

  lemma SubsetOfSameSize(a: set<string>, b: set<string>)
    requires a <= b && |a| == |b|
    ensures a == b
  {
    var extra := b - a;
    assert b == a + extra && a * extra == {};
    assert |b| == |a| + |extra|;
    assert extra == {};
    assert b == a;
  }

  /** "multiple": equal sets are correct, overlapping sets close, anything else wrong. */
  lemma MultipleClassification(g: Value, t: Value, a: Attribute)
    requires a.attrType == Multiple
    ensures var r := ComputeFieldFeedback(g, t, a);
      var gs := LowerSet(ListOf(g));
      var ts := LowerSet(ListOf(t));
      && r.direction == None
      && (r.kind == Correct <==> gs == ts)
      && (r.kind == Close <==> gs != ts && gs * ts != {})
      && (r.kind == Wrong <==> gs != ts && gs * ts == {})
  {
    var gs := LowerSet(ListOf(g));
    var ts := LowerSet(ListOf(t));
    if |gs| == |ts| && gs <= ts {
      SubsetOfSameSize(gs, ts);
    }
    if gs == {} && ts != {} {
      assert gs * ts == {};
    }
  }

  /** "multiple": two empty lists agree, exactly one empty list is wrong. */
  lemma MultipleEmptyLists(g: Value, t: Value, a: Attribute)
    requires a.attrType == Multiple
    ensures ListOf(g) == [] && ListOf(t) == [] ==> ComputeFieldFeedback(g, t, a).kind == Correct
    ensures (ListOf(g) == []) != (ListOf(t) == []) ==> ComputeFieldFeedback(g, t, a).kind == Wrong
  {
    var gs := LowerSet(ListOf(g));
    var ts := LowerSet(ListOf(t));
    if ListOf(g) != [] {
      assert ToLower(ListOf(g)[0]) in gs;
    }
    if ListOf(t) != [] {
      assert ToLower(ListOf(t)[0]) in ts;
    }
  }

  /** Outside "multiple", equal normalised values are correct before any other rule. */
  lemma ExactMatchIsCorrect(g: Value, t: Value, a: Attribute)
    requires a.attrType != Multiple
    requires ExactMatch(Normal(g), Normal(t))
    ensures ComputeFieldFeedback(g, t, a) == FieldResult(Correct, g, None)
  {
  }

  /** A value is correct against itself unless it normalises to nothing. */
  lemma Reflexive(v: Value, a: Attribute)
    requires a.attrType == Multiple || (Normal(v).Some? && Normal(v).value != "")
    ensures ComputeFieldFeedback(v, v, a).kind == Correct
  {
    if a.attrType == Multiple {
      MultipleClassification(v, v, a);
    }
  }

  /** A sentinel on either side is wrong, unless an ordered attribute's order lists "unknown" or "none". */
  lemma SentinelIsWrong(g: Value, t: Value, a: Attribute)
    requires a.attrType != Multiple
    requires !ExactMatch(Normal(g), Normal(t))
    requires IsSentinel(Normal(g)) || IsSentinel(Normal(t))
    requires !(a.attrType == Ordered && a.order.Some? && ExemptsSentinels(a.order.value))
    ensures ComputeFieldFeedback(g, t, a) == FieldResult(Wrong, OrDash(g), None)
  {
  }

  /** With the exemption, sentinels go on to the ordered comparison. */
  lemma SentinelExempted(g: Value, t: Value, a: Attribute)
    requires a.attrType == Ordered && a.order.Some? && ExemptsSentinels(a.order.value)
    requires !ExactMatch(Normal(g), Normal(t))
    ensures ComputeFieldFeedback(g, t, a) == OrderedFeedback(Normal(g), Normal(t), a.order.value, g)
  {
  }

  /** The comparison of two ranks x (guess) and y (target). */
  predicate RankRule(x: int, y: int, r: FieldResult) {
    && (x == y ==> r.kind == Correct && r.direction == None)
    && (x - y == 1 ==> r.kind == Close && r.direction == Some(Up))
    && (y - x == 1 ==> r.kind == Close && r.direction == Some(Down))
    && (x - y > 1 ==> r.kind == Higher && r.direction == None)
    && (y - x > 1 ==> r.kind == Lower && r.direction == None)
  }

  lemma RankedRule(x: int, y: int, shown: Value)
    ensures RankRule(x, y, Ranked(x, y, shown))
  {
  }

  /** "number": non-numeric is wrong, otherwise the numeric rank rule. */
  lemma NumberRule(g: Value, t: Value, a: Attribute)
    requires a.attrType == NumberType
    requires !ExactMatch(Normal(g), Normal(t))
    requires !IsSentinel(Normal(g)) && !IsSentinel(Normal(t))
    ensures var r := ComputeFieldFeedback(g, t, a);
      if NumberOf(g).None? || NumberOf(t).None? then r.kind == Wrong
      else RankRule(NumberOf(g).value, NumberOf(t).value, r)
  {
    if NumberOf(g).Some? && NumberOf(t).Some? {
      RankedRule(NumberOf(g).value, NumberOf(t).value, g);
    }
  }

  /** "ordered": numbers compare numerically, other values by their position in the order list. */
  lemma OrderedRule(g: Value, t: Value, a: Attribute)
    requires a.attrType == Ordered && a.order.Some?
    requires !ExactMatch(Normal(g), Normal(t))
    requires !SentinelRejects(Normal(g), Normal(t), a)
    ensures var r := ComputeFieldFeedback(g, t, a);
      var gn := NumberOfNormal(Normal(g));
      var tn := NumberOfNormal(Normal(t));
      var gi := FindIndex(a.order.value, Normal(g));
      var ti := FindIndex(a.order.value, Normal(t));
      if gn.Some? && tn.Some? then RankRule(gn.value, tn.value, r)
      else if gi == -1 || ti == -1 then r.kind == Wrong
      else RankRule(gi, ti, r)
  {
    var gl, tl := Normal(g), Normal(t);
    var gn, tn := NumberOfNormal(gl), NumberOfNormal(tl);
    if gn.Some? && tn.Some? {
      RankedRule(gn.value, tn.value, g);
    } else {
      RankedRule(FindIndex(a.order.value, gl), FindIndex(a.order.value, tl), g);
    }
  }

  lemma RankedSwap(x: int, y: int, l1: Value, l2: Value)
    ensures Ranked(y, x, l2).kind == Mirror(Ranked(x, y, l1).kind)
    ensures Ranked(y, x, l2).direction == Flip(Ranked(x, y, l1).direction)
  {
  }

  /** Swapping guess and target on "number" or "ordered" swaps higher and lower, directions included. */
  lemma SwapMirrors(g: Value, t: Value, a: Attribute)
    requires a.attrType == NumberType || a.attrType == Ordered
    ensures ComputeFieldFeedback(t, g, a).kind == Mirror(ComputeFieldFeedback(g, t, a).kind)
    ensures ComputeFieldFeedback(t, g, a).direction == Flip(ComputeFieldFeedback(g, t, a).direction)
  {
    var gl, tl := Normal(g), Normal(t);
    if ExactMatch(gl, tl) || SentinelRejects(gl, tl, a) {
    } else if a.attrType == NumberType {
      var gn, tn := NumberOf(g), NumberOf(t);
      if gn.Some? && tn.Some? {
        RankedSwap(gn.value, tn.value, g, t);
      }
    } else if a.order.Some? {
      var gn, tn := NumberOfNormal(gl), NumberOfNormal(tl);
      if gn.Some? && tn.Some? {
        RankedSwap(gn.value, tn.value, g, t);
      } else {
        RankedSwap(FindIndex(a.order.value, gl), FindIndex(a.order.value, tl), g, t);
      }
    }
  }

  /** Some group lists both values, compared in lower case. */
  predicate ListedTogether(groups: seq<seq<string>>, g: string, t: string) {
    exists i :: 0 <= i < |groups| && g in LowerAll(groups[i]) && t in LowerAll(groups[i])
  }

  /** "text-group": a different pair is close exactly when one group lists both. */
  lemma TextGroupRule(g: Value, t: Value, a: Attribute)
    requires a.attrType == TextGroup && a.groups.Some?
    requires !ExactMatch(Normal(g), Normal(t))
    requires !IsSentinel(Normal(g)) && !IsSentinel(Normal(t))
    ensures var r := ComputeFieldFeedback(g, t, a);
      && (r.kind == Close || r.kind == Wrong)
      && (r.kind == Close <==> ListedTogether(a.groups.value, Normal(g).value, Normal(t).value))
  {
  }

  /** "text": a declared order or hints forbid partial credit; otherwise substrings are close, except male/female. */
  lemma TextRule(g: Value, t: Value, a: Attribute)
    requires a.attrType == Text
    requires !ExactMatch(Normal(g), Normal(t))
    requires !IsSentinel(Normal(g)) && !IsSentinel(Normal(t))
    ensures var r := ComputeFieldFeedback(g, t, a);
      var gl := Normal(g).value;
      var tl := Normal(t).value;
      && (r.kind == Close || r.kind == Wrong)
      && ((a.order.Some? && |a.order.value| > 0) || (a.hints.Some? && |a.hints.value| > 0) ==> r.kind == Wrong)
      && ((a.order.None? || a.order.value == []) && (a.hints.None? || a.hints.value == []) ==>
            (r.kind == Close <==> !MaleFemale(gl, tl) && (Contains(tl, gl) || Contains(gl, tl))))
  {
  }

  /** "male" is a substring of "female", yet the pair is wrong. */
  lemma MaleFemaleIsWrong(a: Attribute)
    requires a.attrType == Text
    ensures ComputeFieldFeedback(Str("Male"), Str("female"), a).kind == Wrong
  {
    assert ToLower("Male") == "male" by {
      assert ToLower("Male")[0] == 'm';
    }
    assert ToLower("female") == "female";
    TrimUnpadded("male");
    TrimUnpadded("female");
  }

  /** A numeric attribute: 5 against 7 is lower, 6 against 7 is close from below. */
  lemma NumberExamples(a: Attribute)
    requires a.attrType == NumberType
    ensures ComputeFieldFeedback(Num(5), Num(7), a) == FieldResult(Lower, Num(5), None)
    ensures ComputeFieldFeedback(Num(6), Num(7), a) == FieldResult(Close, Num(6), Some(Down))
  {
    forall n | 5 <= n <= 7
      ensures Normal(Num(n)) == Some(IntToString(n)) && IntToString(n) == [DigitChar(n)]
    {
      assert ToLower([DigitChar(n)]) == [DigitChar(n)];
      TrimUnpadded([DigitChar(n)]);
    }
    assert DigitChar(5) != DigitChar(7) && DigitChar(6) != DigitChar(7);
  }
}
