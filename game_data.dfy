/**
 * The game data shared by the solo page, the duel server and the character
 * table: characters with attribute values, and attribute descriptors.
 */
module GameData {
  import opened Wrappers
  import opened JsText

  /**
   * An attribute value as it appears in the game's JSON: missing
   * (`undefined`/`null`), a string, an integer, or a list of strings.
   */
  datatype Value = Absent | Str(s: string) | Num(n: int) | List(items: seq<string>)

  /** The comparison rule an attribute declares in its `type`. */
  datatype AttrType = Multiple | NumberType | Ordered | TextGroup | Text | OtherType(name: string)

  /**
   * An attribute descriptor: its key in a character record, its type, and the
   * optional `order` list, equivalence `groups` and closed vocabulary `hints`.
   */
  datatype Attribute = Attribute(
    key: string,
    attrType: AttrType,
    order: Option<seq<string>>,
    groups: Option<seq<seq<string>>>,
    hints: Option<seq<string>>)

  /** A guessable character: its `id` and its attribute values by key. */
  datatype Character = Character(id: int, name: string, fields: map<string, Value>)

  /** The data of one game: its character pool, its attributes and the optional `maxAttempts`. */
  datatype Game = Game(characters: seq<Character>, attributes: seq<Attribute>, maxAttempts: Option<int>)

  /** `character[key]`: a missing key reads as `undefined`. */
  function FieldOf(c: Character, key: string): Value {
    if key in c.fields then c.fields[key] else Absent
  }

  /** JavaScript truthiness of a value: "", 0 and a missing value are falsy, every array is truthy. */
  predicate Truthy(v: Value) {
    match v
    case Absent => false
    case Str(s) => s != ""
    case Num(n) => n != 0
    case List(_) => true
  }

  /** `v.toString()`; arrays join their items with ",". */
  function TextOf(v: Value): string {
    match v
    case Absent => ""
    case Str(s) => s
    case Num(n) => IntToString(n)
    case List(items) => Join(items, ",")
  }

  /** `Number(v)`: a missing value is NaN, an array converts through its text. */
  function NumberOf(v: Value): Option<int> {
    match v
    case Absent => None
    case Str(s) => JsNumber(s)
    case Num(n) => Some(n)
    case List(items) => JsNumber(Join(items, ","))
  }

  /** `v ? v.toString().toLowerCase().trim() : null`. */
  function Normal(v: Value): Option<string> {
    if Truthy(v) then Some(Trim(ToLower(TextOf(v)))) else None
  }

  /** Every entry of a list lower-cased, as `list.map(x => x.toLowerCase())`. */
  function LowerAll(xs: seq<string>): (r: seq<string>)
    ensures |r| == |xs| && forall i :: 0 <= i < |xs| ==> r[i] == ToLower(xs[i])
  {
    seq(|xs|, i requires 0 <= i < |xs| => ToLower(xs[i]))
  }

  /** `list.includes(o)` where o may be `null`, which no string equals. */
  predicate Member(o: Option<string>, xs: seq<string>) {
    o.Some? && o.value in xs
  }

  /** An integer stored as a number reads back as itself through `Number`. */
  lemma NumberOfNumText(n: int)
    ensures NumberOf(Str(IntToString(n))) == NumberOf(Num(n))
  {
    NumberOfIntToString(n);
  }
}
