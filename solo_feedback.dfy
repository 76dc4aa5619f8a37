/**
 * The solo page's own copy of the feedback rules (`computeFieldFeedback` and
 * `getFeedbackObject` in the solo game page). It has no "multiple" branch,
 * compares numeric ordered values the other way round, and only withholds
 * partial text credit when the guess is itself one of the hints.
 */
module SoloFeedback {
  import opened Wrappers
  import opened JsText
  import opened GameData
  import opened Feedback
  import FeedbackLaws

  /** `h.split('(')[0]`: the text before the first parenthesis. */
  function BeforeParen(h: string): string {
    if |h| == 0 || h[0] == '(' then "" else [h[0]] + BeforeParen(h[1..])
  }

  /** `hints.map(h => h.split('(')[0].trim().toLowerCase())`. */
  function CleanHints(hints: seq<string>): seq<string> {
    seq(|hints|, i requires 0 <= i < |hints| => ToLower(Trim(BeforeParen(hints[i]))))
  }

  /** The solo "ordered" branch: numeric values are ranked target against guess, positions as on the server. */
  function SoloOrderedFeedback(gl: Option<string>, tl: Option<string>, order: seq<string>, g: Value): FieldResult {
    var gn := NumberOfNormal(gl);
    var tn := NumberOfNormal(tl);
    if gn.Some? && tn.Some? then Ranked(tn.value, gn.value, g)
    else
      var gi := FindIndex(order, gl);
      var ti := FindIndex(order, tl);
      if gi == -1 || ti == -1 then FieldResult(Wrong, g, None)
      else Ranked(gi, ti, g)
  }

  /** The solo "text" branch for two non-sentinel, different values. */
  function SoloTextFeedback(g: string, t: string, a: Attribute, shown: Value): FieldResult {
    if a.order.Some? && |a.order.value| > 0 then FieldResult(Wrong, shown, None)
    else if a.hints.Some? && |a.hints.value| > 0 && g in CleanHints(a.hints.value) then FieldResult(Wrong, shown, None)
    else if !MaleFemale(g, t) && (Contains(t, g) || Contains(g, t)) then FieldResult(Close, shown, None)
    else FieldResult(Wrong, shown, None)
  }

  /** `computeFieldFeedback(guessVal, targetVal, attribute)` of the solo page. */
  function SoloFieldFeedback(g: Value, t: Value, a: Attribute): (r: FieldResult)
    ensures r.direction.Some? ==> r.kind == Close
  {
    var gl := Normal(g);
    var tl := Normal(t);
    if ExactMatch(gl, tl) then FieldResult(Correct, g, None)
    else if SentinelRejects(gl, tl, a) then FieldResult(Wrong, OrDash(g), None)
    else if a.attrType == NumberType then NumberFeedback(g, t)
    else if a.attrType == Ordered && a.order.Some? then SoloOrderedFeedback(gl, tl, a.order.value, g)
    else if a.attrType == TextGroup && a.groups.Some? then
      FieldResult(if SharedGroup(a.groups.value, gl, tl) then Close else Wrong, g, None)
    else if a.attrType == Text then SoloTextFeedback(gl.value, tl.value, a, g)
    else FieldResult(Wrong, g, None)
  }

  function SoloCell(guess: Character, target: Character, a: Attribute): FieldResult {
    SoloFieldFeedback(FieldOf(guess, a.key), FieldOf(target, a.key), a)
  }

  /** `getFeedbackObject(guess, target, attributes)` of the solo page. */
  function SoloFeedbackObject(guess: Character, target: Character, attrs: seq<Attribute>): map<string, FieldResult> {
    FeedbackMap(attrs, a => SoloCell(guess, target, a))
  }

  /** Both copies give the same answer whenever the exact-match or the sentinel rule decides. */
  lemma SharedFrontRules(g: Value, t: Value, a: Attribute)
    requires a.attrType != Multiple
    requires ExactMatch(Normal(g), Normal(t)) || SentinelRejects(Normal(g), Normal(t), a)
    ensures SoloFieldFeedback(g, t, a) == ComputeFieldFeedback(g, t, a)
  {
  }

  /** Outside "ordered" and "text" (and "multiple"), the two copies agree on every input. */
  lemma AgreesOnOtherTypes(g: Value, t: Value, a: Attribute)
    requires a.attrType == NumberType || a.attrType == TextGroup || a.attrType.OtherType?
    ensures SoloFieldFeedback(g, t, a) == ComputeFieldFeedback(g, t, a)
  {
  }

  /** "ordered" with two numbers: the solo page answers higher where the server answers lower, and vice versa. */
  lemma OrderedNumbersInverted(g: Value, t: Value, a: Attribute)
    requires a.attrType == Ordered && a.order.Some?
    requires !ExactMatch(Normal(g), Normal(t)) && !SentinelRejects(Normal(g), Normal(t), a)
    requires NumberOfNormal(Normal(g)).Some? && NumberOfNormal(Normal(t)).Some?
    ensures SoloFieldFeedback(g, t, a).kind == Mirror(ComputeFieldFeedback(g, t, a).kind)
    ensures SoloFieldFeedback(g, t, a).direction == Flip(ComputeFieldFeedback(g, t, a).direction)
  {
    var gn, tn := NumberOfNormal(Normal(g)).value, NumberOfNormal(Normal(t)).value;
    FeedbackLaws.RankedSwap(gn, tn, g, g);
  }

  /** "ordered" with a non-number on either side: both copies rank by position and agree. */
  lemma OrderedPositionsAgree(g: Value, t: Value, a: Attribute)
    requires a.attrType == Ordered
    requires a.order.None? || NumberOfNormal(Normal(g)).None? || NumberOfNormal(Normal(t)).None?
    ensures SoloFieldFeedback(g, t, a) == ComputeFieldFeedback(g, t, a)
  {
  }

  /** "text" with hints: partial credit is withheld only when the guess is one of the cleaned hints. */
  lemma TextHintsRule(g: Value, t: Value, a: Attribute)
    requires a.attrType == Text && (a.order.None? || a.order.value == [])
    requires a.hints.Some? && a.hints.value != []
    requires !ExactMatch(Normal(g), Normal(t))
    requires !IsSentinel(Normal(g)) && !IsSentinel(Normal(t))
    ensures var gl := Normal(g).value;
      var tl := Normal(t).value;
      var r := SoloFieldFeedback(g, t, a);
      && (r.kind == Close || r.kind == Wrong)
      && (r.kind == Close <==> gl !in CleanHints(a.hints.value) && !MaleFemale(gl, tl) && (Contains(tl, gl) || Contains(gl, tl)))
  {
  }

  /** "text" without order and hints: both copies agree. */
  lemma TextWithoutHintsAgrees(g: Value, t: Value, a: Attribute)
    requires a.attrType == Text && (a.hints.None? || a.hints.value == [])
    ensures SoloFieldFeedback(g, t, a) == ComputeFieldFeedback(g, t, a)
  {
  }

  /** "text" with a non-empty order list: both copies answer wrong whenever the exact-match and sentinel rules leave it open. */
  lemma TextOrderAgrees(g: Value, t: Value, a: Attribute)
    requires a.attrType == Text && a.order.Some? && a.order.value != []
    ensures SoloFieldFeedback(g, t, a) == ComputeFieldFeedback(g, t, a)
    ensures !ExactMatch(Normal(g), Normal(t)) ==> SoloFieldFeedback(g, t, a).kind == Wrong
  {
  }

  /** "multiple" has no branch of its own on the solo page: only an exact match of the joined text is correct. */
  lemma MultipleFallsThrough(g: Value, t: Value, a: Attribute)
    requires a.attrType == Multiple
    ensures var r := SoloFieldFeedback(g, t, a);
      (r.kind == Correct <==> ExactMatch(Normal(g), Normal(t))) && (r.kind == Correct || r.kind == Wrong)
  {
  }
}
