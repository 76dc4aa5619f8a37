/** Private-room codes: six characters from the upper-case letters and the digits. */
module RoomCode {
  import opened JsText

  /** The alphabet codes are drawn from, in the generator's order. */
  const Alphabet: string := "ABCDEFGHIJKLMNOPQRSTUVWXYZ0123456789"

  const CodeLength: nat := 6

  /** `[A-Z0-9]`. */
  predicate IsCodeChar(c: char) {
    IsAsciiUpper(c) || IsDigit(c)
  }

  predicate IsRoomCode(s: string) {
    |s| == CodeLength && forall i :: 0 <= i < |s| ==> IsCodeChar(s[i])
  }

  /** The alphabet holds exactly the code characters, each once. */
  lemma AlphabetIsCodeChars()
    ensures |Alphabet| == 36
    ensures forall c :: c in Alphabet <==> IsCodeChar(c)
    ensures forall i, j :: 0 <= i < j < |Alphabet| ==> Alphabet[i] != Alphabet[j]
  {
    assert forall i :: 0 <= i < 26 ==> Alphabet[i] == ('A' as int + i) as char;
    assert forall i :: 26 <= i < 36 ==> Alphabet[i] == ('0' as int + i - 26) as char;
    forall c | IsCodeChar(c)
      ensures c in Alphabet
    {
      if IsAsciiUpper(c) {
        assert Alphabet[c as int - 'A' as int] == c;
      } else {
        assert Alphabet[c as int - '0' as int + 26] == c;
      }
    }
  }
}
