/**
 * The server's per-attribute feedback (`computeFieldFeedback`) and the
 * per-guess feedback object (`getFeedbackObject`).
 */
module Feedback {
  import opened Wrappers
  import opened JsText
  import opened GameData

  /** The colour class of a feedback cell: "correct", "close", "higher", "lower" or "wrong". */
  datatype Kind = Correct | Close | Higher | Lower | Wrong

  /** The `direction` of a close numeric or ordered value: "higher" (Up) or "lower" (Down). */
  datatype Direction = Up | Down

  /** `{ type, display, direction? }`. */
  datatype FieldResult = FieldResult(kind: Kind, display: Value, direction: Option<Direction>)

  /** The kind seen from the other side: higher and lower swap, the rest stay. */
  function Mirror(k: Kind): Kind {
    match k
    case Higher => Lower
    case Lower => Higher
    case _ => k
  }

  function Flip(d: Option<Direction>): Option<Direction> {
    match d
    case None => None
    case Some(Up) => Some(Down)
    case Some(Down) => Some(Up)
  }

  /** Empty, "unknown" or "none" after normalisation (or no value at all). */
  predicate IsSentinel(o: Option<string>) {
    o.None? || o.value == "" || o.value == "unknown" || o.value == "none"
  }

  /** `gLower && tLower && gLower === tLower`. */
  predicate ExactMatch(gl: Option<string>, tl: Option<string>) {
    gl.Some? && gl.value != "" && gl == tl
  }

  /** An order list that lists "unknown" or "none" lets both sentinels through. */
  predicate ExemptsSentinels(order: seq<string>) {
    "unknown" in LowerAll(order) || "none" in LowerAll(order)
  }

  /** Whether the sentinel rule answers "wrong" before any type-specific rule. */
  predicate SentinelRejects(gl: Option<string>, tl: Option<string>, a: Attribute) {
    if a.attrType == Ordered && a.order.Some? then
      !ExemptsSentinels(a.order.value) && (IsSentinel(gl) || IsSentinel(tl))
    else
      IsSentinel(gl) || IsSentinel(tl)
  }

  /** `guessVal || "-"`. */
  function OrDash(g: Value): Value {
    if Truthy(g) then g else Str("-")
  }

  /** The rank comparison shared by numbers and ordered scales: x is the guess, y the target. */
  function Ranked(x: int, y: int, display: Value): FieldResult {
    if x == y then FieldResult(Correct, display, None)
    else if x - y == 1 || y - x == 1 then FieldResult(Close, display, Some(if x > y then Up else Down))
    else if x > y then FieldResult(Higher, display, None)
    else FieldResult(Lower, display, None)
  }

  /** `Array.isArray(v) ? v : []`. */
  function ListOf(v: Value): seq<string> {
    if v.List? then v.items else []
  }

  /** `new Set(list.map(v => v.toLowerCase()))`. */
  function LowerSet(xs: seq<string>): set<string> {
    set x | x in xs :: ToLower(x)
  }

  /** The "multiple" branch: the two lists compared as case-insensitive sets. */
  function MultipleFeedback(g: Value, t: Value): FieldResult {
    var ga := ListOf(g);
    var gs := LowerSet(ga);
    var ts := LowerSet(ListOf(t));
    var display := if |ga| > 0 then Str(Join(ga, ", ")) else Str("None");
    if |gs| == 0 && |ts| == 0 then FieldResult(Correct, display, None)
    else if |gs| == 0 || |ts| == 0 then FieldResult(Wrong, display, None)
    else if |gs| == |ts| && gs <= ts then FieldResult(Correct, display, None)
    else if gs * ts != {} then FieldResult(Close, display, None)
    else FieldResult(Wrong, display, None)
  }

  /** `order.findIndex(item => item.toLowerCase() === o)`, -1 when absent. */
  function FindIndex(order: seq<string>, o: Option<string>): (r: int)
    ensures -1 <= r < |order|
    ensures r == -1 <==> !Member(o, LowerAll(order))
    ensures r >= 0 ==> o.Some? && ToLower(order[r]) == o.value
    ensures r >= 0 ==> forall j :: 0 <= j < r ==> ToLower(order[j]) != o.value
  {
    if |order| == 0 || o.None? then -1
    else if ToLower(order[0]) == o.value then 0
    else
      var rest := FindIndex(order[1..], o);
      assert LowerAll(order) == [ToLower(order[0])] + LowerAll(order[1..]);
      if rest == -1 then -1 else rest + 1
  }

  /** The "number" branch: `Number(...)` of both raw values. */
  function NumberFeedback(g: Value, t: Value): FieldResult {
    var gn := NumberOf(g);
    var tn := NumberOf(t);
    if gn.None? || tn.None? then FieldResult(Wrong, g, None)
    else Ranked(gn.value, tn.value, g)
  }

  /** `Number(gLower)`, where `Number(null)` is 0. */
  function NumberOfNormal(o: Option<string>): Option<int> {
    if o.None? then Some(0) else JsNumber(o.value)
  }

  /** The "ordered" branch: numeric when both sides are numbers, else by position in `order`. */
  function OrderedFeedback(gl: Option<string>, tl: Option<string>, order: seq<string>, g: Value): FieldResult {
    var gn := NumberOfNormal(gl);
    var tn := NumberOfNormal(tl);
    if gn.Some? && tn.Some? then Ranked(gn.value, tn.value, g)
    else
      var gi := FindIndex(order, gl);
      var ti := FindIndex(order, tl);
      if gi == -1 || ti == -1 then FieldResult(Wrong, g, None)
      else Ranked(gi, ti, g)
  }

  /** The loop over `groups`: does some group list both values? */
  function SharedGroup(groups: seq<seq<string>>, gl: Option<string>, tl: Option<string>): (r: bool)
    ensures r <==> exists i :: 0 <= i < |groups| && Member(gl, LowerAll(groups[i])) && Member(tl, LowerAll(groups[i]))
  {
    if |groups| == 0 then false
    else if Member(gl, LowerAll(groups[0])) && Member(tl, LowerAll(groups[0])) then true
    else
      var r := SharedGroup(groups[1..], gl, tl);
      assert forall i :: 1 <= i < |groups| ==> groups[i] == groups[1..][i - 1];
      r
  }

  /** "male" against "female", in either order. */
  predicate MaleFemale(g: string, t: string) {
    (g == "male" && t == "female") || (g == "female" && t == "male")
  }

  /** The "text" branch for two non-sentinel, different values. */
  function TextFeedback(g: string, t: string, a: Attribute, display: Value): FieldResult {
    if a.order.Some? && |a.order.value| > 0 then FieldResult(Wrong, display, None)
    else if a.hints.Some? && |a.hints.value| > 0 then FieldResult(Wrong, display, None)
    else if !MaleFemale(g, t) && (Contains(t, g) || Contains(g, t)) then FieldResult(Close, display, None)
    else FieldResult(Wrong, display, None)
  }

  /** `computeFieldFeedback(guessVal, targetVal, attribute)` of the duel server. */
  function ComputeFieldFeedback(g: Value, t: Value, a: Attribute): (r: FieldResult)
    ensures r.direction.Some? ==> r.kind == Close
  {
    if a.attrType == Multiple then MultipleFeedback(g, t)
    else
      var gl := Normal(g);
      var tl := Normal(t);
      if ExactMatch(gl, tl) then FieldResult(Correct, g, None)
      else if SentinelRejects(gl, tl, a) then FieldResult(Wrong, OrDash(g), None)
      else if a.attrType == NumberType then NumberFeedback(g, t)
      else if a.attrType == Ordered && a.order.Some? then OrderedFeedback(gl, tl, a.order.value, g)
      else if a.attrType == TextGroup && a.groups.Some? then
        FieldResult(if SharedGroup(a.groups.value, gl, tl) then Close else Wrong, g, None)
      else if a.attrType == Text then TextFeedback(gl.value, tl.value, a, g)
      else FieldResult(Wrong, g, None)
  }

  /** No later attribute of the list has the same key as the i-th. */
  predicate LastWithKey(attrs: seq<Attribute>, i: int)
    requires 0 <= i < |attrs|
  {
    forall j :: i < j < |attrs| ==> attrs[j].key != attrs[i].key
  }

  /** The feedback cell of one attribute: `computeFieldFeedback(guess[key], target[key], attr)`. */
  function Cell(guess: Character, target: Character, a: Attribute): FieldResult {
    ComputeFieldFeedback(FieldOf(guess, a.key), FieldOf(target, a.key), a)
  }

  /**
   * The object `attributes.forEach` fills: one entry per attribute key, the
   * cell of a later attribute overwriting an earlier one with the same key.
   */
  function FeedbackMap(attrs: seq<Attribute>, cell: Attribute -> FieldResult): (m: map<string, FieldResult>)
    ensures m.Keys == set a | a in attrs :: a.key
  {
    if |attrs| == 0 then map[]
    else
      var n := |attrs| - 1;
      var m := FeedbackMap(attrs[..n], cell);
      assert forall x :: x in attrs <==> x in attrs[..n] || x == attrs[n];
      m[attrs[n].key := cell(attrs[n])]
  }

  /** Each key holds the cell of the last attribute with that key. */
  lemma {:induction false} FeedbackMapCell(attrs: seq<Attribute>, cell: Attribute -> FieldResult, i: int)
    requires 0 <= i < |attrs| && LastWithKey(attrs, i)
    ensures attrs[i].key in FeedbackMap(attrs, cell)
    ensures FeedbackMap(attrs, cell)[attrs[i].key] == cell(attrs[i])
  {
    var n := |attrs| - 1;
    if i < n {
      var front := attrs[..n];
      assert front[i] == attrs[i];
      assert LastWithKey(front, i);
      FeedbackMapCell(front, cell, i);
      assert attrs[n].key != attrs[i].key;
    }
  }

  /** `getFeedbackObject(guess, target, attributes)` of the duel server. */
  function FeedbackObject(guess: Character, target: Character, attrs: seq<Attribute>): map<string, FieldResult> {
    FeedbackMap(attrs, a => Cell(guess, target, a))
  }

  /** Exactly one cell per attribute key, computed from the guess's and the target's values under that key. */
  lemma FeedbackObjectCells(guess: Character, target: Character, attrs: seq<Attribute>)
    ensures FeedbackObject(guess, target, attrs).Keys == set a | a in attrs :: a.key
    ensures forall i :: 0 <= i < |attrs| && LastWithKey(attrs, i) ==>
      FeedbackObject(guess, target, attrs)[attrs[i].key] == Cell(guess, target, attrs[i])
  {
    forall i | 0 <= i < |attrs| && LastWithKey(attrs, i)
      ensures FeedbackObject(guess, target, attrs)[attrs[i].key] == Cell(guess, target, attrs[i])
    {
      FeedbackMapCell(attrs, a => Cell(guess, target, a), i);
    }
  }
}
