/**
 * The form that joins a private room: the code field keeps only upper-case
 * letters and digits and at most six of them, and the form submits only a
 * six-character code.
 */
module JoinPrivateRoom {
  import opened Wrappers
  import opened JsText
  import opened RoomCode

  /** `value.toUpperCase().replace(/[^A-Z0-9]/g, '')`. */
  function Sanitize(input: string): (r: string)
    ensures |r| <= |input|
    ensures forall i :: 0 <= i < |r| ==> IsCodeChar(r[i])
    ensures forall c :: c in r <==> c in ToUpper(input) && IsCodeChar(c)
  {
    if |input| == 0 then ""
    else
      var rest := Sanitize(input[1..]);
      assert ToUpper(input) == [UpperChar(input[0])] + ToUpper(input[1..]);
      if IsCodeChar(UpperChar(input[0])) then [UpperChar(input[0])] + rest else rest
  }

  /** Sanitising a concatenation sanitises each part and keeps them in order. */
  lemma {:induction false} SanitizeAppend(a: string, b: string)
    ensures Sanitize(a + b) == Sanitize(a) + Sanitize(b)
  {
    if |a| == 0 {
      assert a + b == b;
    } else {
      assert (a + b)[1..] == a[1..] + b;
      assert (a + b)[0] == a[0];
      SanitizeAppend(a[1..], b);
    }
  }

  /** One character becomes its upper-case form when that is a code character, and disappears otherwise. */
  lemma SanitizeOne(c: char)
    ensures Sanitize([c]) == if IsCodeChar(UpperChar(c)) then [UpperChar(c)] else []
  {
  }

  /** A typed "ab-1" becomes "AB1". */
  lemma SanitizeExample()
    ensures Sanitize("ab-1") == "AB1"
  {
    assert UpperChar('1') == '1' && IsCodeChar('1');
    assert Sanitize("1") == "1" by { assert "1"[1..] == ""; }
    assert UpperChar('-') == '-' && !IsCodeChar('-');
    assert Sanitize("-1") == "1" by { assert "-1"[1..] == "1"; }
    assert UpperChar('b') == 'B' && IsCodeChar('B');
    assert Sanitize("b-1") == "B1" by { assert "b-1"[1..] == "-1"; }
    assert UpperChar('a') == 'A' && IsCodeChar('A');
    assert "ab-1"[1..] == "b-1";
  }


  /** A value made of code characters passes through the sanitiser unchanged. */
  lemma {:induction false} SanitizeKeepsCodes(s: string)
    requires forall i :: 0 <= i < |s| ==> IsCodeChar(s[i])
    ensures Sanitize(s) == s
  {
    if |s| > 0 {
      SanitizeKeepsCodes(s[1..]);
      assert s == [s[0]] + s[1..];
    }
  }

  /** Sanitising twice is sanitising once. */
  lemma SanitizeIdempotent(s: string)
    ensures Sanitize(Sanitize(s)) == Sanitize(s)
  {
    SanitizeKeepsCodes(Sanitize(s));
  }

  /** `handleCodeChange`: the sanitised value replaces the code unless it is longer than six. */
  function HandleCodeChange(code: string, input: string): (next: string)
    ensures |Sanitize(input)| <= CodeLength ==> next == Sanitize(input)
    ensures |Sanitize(input)| > CodeLength ==> next == code
  {
    var value := Sanitize(input);
    if |value| <= CodeLength then value else code
  }

  /** What the field can hold: at most six code characters. */
  predicate FieldOk(code: string) {
    |code| <= CodeLength && forall i :: 0 <= i < |code| ==> IsCodeChar(code[i])
  }

  /** Typing keeps the field well-formed. */
  lemma ChangeKeepsField(code: string, input: string)
    requires FieldOk(code)
    ensures FieldOk(HandleCodeChange(code, input))
  {
  }

  /** `handleSubmit`: `onJoin` gets the trimmed, upper-cased code only when the trimmed code has six characters. */
  function HandleSubmit(code: string): (join: Option<string>)
    ensures join.Some? <==> |Trim(code)| == CodeLength
    ensures join.Some? ==> join.value == ToUpper(Trim(code))
  {
    if |Trim(code)| == CodeLength then Some(ToUpper(Trim(code))) else None
  }

  /** `disabled={code.length !== 6}`. */
  predicate SubmitDisabled(code: string) {
    |code| != CodeLength
  }

  /** On a well-formed field the button and the submit handler agree, and what is submitted is the field itself, a room code. */
  lemma SubmitMatchesButton(code: string)
    requires FieldOk(code)
    ensures HandleSubmit(code).Some? <==> !SubmitDisabled(code)
    ensures HandleSubmit(code).Some? ==> HandleSubmit(code).value == code && IsRoomCode(code)
  {
    if |code| > 0 {
      TrimUnpadded(code);
    }
    assert ToUpper(code) == code;
  }
}
