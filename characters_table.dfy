/**
 * The character table of a game's page: the name filter, the column-aware
 * comparator the rows are sorted with, the sort itself, the page count and
 * the visible slice, and the header click that picks the sort column.
 */
module CharactersTable {
  import opened Wrappers
  import opened JsText
  import opened GameData
  import opened Feedback

  // ---------------------------------------------------------------------------
  // Filter
  // ---------------------------------------------------------------------------

  /** The lower-case name contains the lower-case search text. */
  predicate NameMatches(c: Character, search: string) {
    Contains(ToLower(c.name), ToLower(search))
  }

  /** `characters.filter(...)`: the matching characters, in their order. */
  function Filter(chars: seq<Character>, search: string): (r: seq<Character>)
    ensures forall c :: c in r <==> c in chars && NameMatches(c, search)
    ensures |r| <= |chars|
    ensures (forall i :: 0 <= i < |chars| ==> NameMatches(chars[i], search)) ==> r == chars
  {
    if |chars| == 0 then []
    else
      var rest := Filter(chars[1..], search);
      assert forall c :: c in chars <==> c == chars[0] || c in chars[1..];
      if NameMatches(chars[0], search) then [chars[0]] + rest else rest
  }

  /** Filtering a concatenation filters each part and keeps them in order. */
  lemma {:induction false} FilterAppend(a: seq<Character>, b: seq<Character>, search: string)
    ensures Filter(a + b, search) == Filter(a, search) + Filter(b, search)
  {
    if |a| == 0 {
      assert a + b == b;
    } else {
      assert (a + b)[1..] == a[1..] + b;
      FilterAppend(a[1..], b, search);
    }
  }

  /** One character is kept exactly when its name matches; with `FilterAppend` this fixes the whole result, order and repeats included. */
  lemma FilterOne(c: Character, search: string)
    ensures Filter([c], search) == if NameMatches(c, search) then [c] else []
  {
  }

  // ---------------------------------------------------------------------------
  // Comparator
  // ---------------------------------------------------------------------------

  /** The sort column and direction. */
  datatype SortState = SortState(field: string, asc: bool)

  const Start := SortState("name", true)

  /** `a[sortField] || ""`: the name for the "name" column, and "" for any falsy value. */
  function SortValue(c: Character, field: string): Value {
    var v := if field == "name" then Str(c.name) else FieldOf(c, field);
    if Truthy(v) then v else Str("")
  }

  /** `attributes.find(attr => attr.key === key)`. */
  function FindAttr(attrs: seq<Attribute>, key: string): (r: Option<Attribute>)
    ensures r.Some? ==> r.value in attrs && r.value.key == key
    ensures r.None? <==> forall a :: a in attrs ==> a.key != key
  {
    if |attrs| == 0 then None
    else if attrs[0].key == key then Some(attrs[0])
    else FindAttr(attrs[1..], key)
  }

  /** How a column compares: by position in an order list, by number, or as text. */
  datatype Column = ByOrder(order: seq<string>) | ByNumber | ByText

  function ColumnOf(attrs: seq<Attribute>, field: string): Column {
    match FindAttr(attrs, field)
    case Some(a) =>
      if a.attrType == Ordered && a.order.Some? then ByOrder(a.order.value)
      else if a.attrType == NumberType then ByNumber
      else ByText
    case None => ByText
  }

  /** The rank of a value in a keyed column: its position in the order list, or its number; `None` when not found or NaN. */
  function Key(col: Column, v: Value): Option<int>
    requires !col.ByText?
  {
    match col
    case ByOrder(order) =>
      var i := FindIndex(order, Some(ToLower(TextOf(v))));
      if i == -1 then None else Some(i)
    case ByNumber => NumberOf(v)
  }

  /** Unranked values go last in both directions; ranked ones compare by rank, reversed when descending. */
  function KeyCompare(ka: Option<int>, kb: Option<int>, asc: bool): int {
    if ka.None? && kb.None? then 0
    else if ka.None? then 1
    else if kb.None? then -1
    else if asc then ka.value - kb.value else kb.value - ka.value
  }

  /** JavaScript's `<` on strings: lexicographic by character. */
  predicate LexLess(a: string, b: string) {
    if |a| == 0 then |b| > 0
    else if |b| == 0 then false
    else if a[0] != b[0] then a[0] < b[0]
    else LexLess(a[1..], b[1..])
  }

  function TextCompare(a: string, b: string, asc: bool): int {
    if LexLess(a, b) then (if asc then -1 else 1)
    else if LexLess(b, a) then (if asc then 1 else -1)
    else 0
  }

  /** The comparator on two sort values of a column. */
  function Compare(col: Column, asc: bool, va: Value, vb: Value): int {
    if col.ByText? then TextCompare(ToLower(TextOf(va)), ToLower(TextOf(vb)), asc)
    else KeyCompare(Key(col, va), Key(col, vb), asc)
  }

  /** The comparator `sort` is given, on two rows. */
  function CompareRows(attrs: seq<Attribute>, st: SortState, x: Character, y: Character): int {
    Compare(ColumnOf(attrs, st.field), st.asc, SortValue(x, st.field), SortValue(y, st.field))
  }

  lemma {:induction false} LexAsymmetric(a: string, b: string)
    ensures LexLess(a, b) ==> !LexLess(b, a)
  {
    if |a| > 0 && |b| > 0 && a[0] == b[0] {
      LexAsymmetric(a[1..], b[1..]);
    }
  }

  lemma {:induction false} LexTotal(a: string, b: string)
    ensures !LexLess(a, b) && !LexLess(b, a) ==> a == b
  {
    if |a| > 0 && |b| > 0 && a[0] == b[0] {
      LexTotal(a[1..], b[1..]);
      if a[1..] == b[1..] {
        assert a == [a[0]] + a[1..] && b == [b[0]] + b[1..];
      }
    }
  }

  /** Swapping the operands negates the comparator, in every column and direction. */
  lemma Antisymmetric(col: Column, asc: bool, va: Value, vb: Value)
    ensures Compare(col, asc, va, vb) == -Compare(col, asc, vb, va)
  {
    LexAsymmetric(ToLower(TextOf(va)), ToLower(TextOf(vb)));
    LexAsymmetric(ToLower(TextOf(vb)), ToLower(TextOf(va)));
  }

  /** In an ordered or number column, a value not found (or NaN) sorts after every found one, in both directions, and two such values tie. */
  lemma MissingLast(col: Column, asc: bool, va: Value, vb: Value)
    requires !col.ByText?
    ensures Key(col, va).None? && Key(col, vb).Some? ==> Compare(col, asc, va, vb) > 0 && Compare(col, asc, vb, va) < 0
    ensures Key(col, va).None? && Key(col, vb).None? ==> Compare(col, asc, va, vb) == 0
  {
  }

  /** Among found values, and always in a text column, descending is ascending negated. */
  lemma DescendingNegates(col: Column, va: Value, vb: Value)
    requires col.ByText? || (Key(col, va).Some? && Key(col, vb).Some?)
    ensures Compare(col, false, va, vb) == -Compare(col, true, va, vb)
  {
  }

  /** A text column ties exactly the values whose lower-case texts are equal. */
  lemma TextTiesAreEqual(asc: bool, va: Value, vb: Value)
    ensures Compare(ByText, asc, va, vb) == 0 <==> ToLower(TextOf(va)) == ToLower(TextOf(vb))
  {
    LexTotal(ToLower(TextOf(va)), ToLower(TextOf(vb)));
    LexAsymmetric(ToLower(TextOf(va)), ToLower(TextOf(vb)));
  }

  // ---------------------------------------------------------------------------
  // Sort
  // ---------------------------------------------------------------------------

  /** No row compares above the next one. */
  predicate SortedBy(attrs: seq<Attribute>, st: SortState, rows: seq<Character>) {
    forall i :: 0 <= i < |rows| - 1 ==> CompareRows(attrs, st, rows[i], rows[i + 1]) <= 0
  }

  /** Puts `x` before the first row it does not compare above. */
  function Insert(attrs: seq<Attribute>, st: SortState, x: Character, rows: seq<Character>): (r: seq<Character>)
    requires SortedBy(attrs, st, rows)
    ensures SortedBy(attrs, st, r)
    ensures multiset(r) == multiset(rows) + multiset{x}
    ensures |r| > 0 && (r[0] == x || (|rows| > 0 && r[0] == rows[0]))
  {
    if |rows| == 0 || CompareRows(attrs, st, x, rows[0]) <= 0 then [x] + rows
    else
      var rest := Insert(attrs, st, x, rows[1..]);
      Antisymmetric(ColumnOf(attrs, st.field), st.asc, SortValue(x, st.field), SortValue(rows[0], st.field));
      assert rows == [rows[0]] + rows[1..];
      [rows[0]] + rest
  }

  /**
   * `[...filtered].sort(cmp)`: a stable sort by the comparator. The rows come
   * back rearranged, none lost or added, each not above the next.
   */
  function Sort(attrs: seq<Attribute>, st: SortState, rows: seq<Character>): (r: seq<Character>)
    ensures SortedBy(attrs, st, r)
    ensures multiset(r) == multiset(rows)
  {
    if |rows| == 0 then []
    else
      assert rows == [rows[0]] + rows[1..];
      Insert(attrs, st, rows[0], Sort(attrs, st, rows[1..]))
  }

  // ---------------------------------------------------------------------------
  // Pages and header clicks
  // ---------------------------------------------------------------------------

  const PageSize: nat := 15

  /** `Math.max(1, Math.ceil(n / 15))`. */
  function PageCount(n: nat): (pages: nat)
    ensures pages >= 1
    ensures n > 0 ==> (pages - 1) * PageSize < n <= pages * PageSize
    ensures n == 0 ==> pages == 1
  {
    if n == 0 then 1 else (n + PageSize - 1) / PageSize
  }

  function Min(a: int, b: int): int { if a <= b then a else b }

  /** `sorted.slice(page * 15, page * 15 + 15)`, clamped to the list as `slice` does. */
  function Visible(rows: seq<Character>, page: nat): (v: seq<Character>)
    ensures |v| <= PageSize
    ensures page * PageSize <= |rows| ==> v == rows[page * PageSize..Min(page * PageSize + PageSize, |rows|)]
    ensures page * PageSize >= |rows| ==> v == []
  {
    var start := Min(page * PageSize, |rows|);
    var end := Min(page * PageSize + PageSize, |rows|);
    rows[start..end]
  }

  /** The rows on screen: filter, sort, then slice out the page. */
  function Shown(chars: seq<Character>, attrs: seq<Attribute>, search: string, st: SortState, page: nat): (v: seq<Character>)
    ensures |v| <= PageSize
    ensures forall c :: c in v ==> c in chars && NameMatches(c, search)
  {
    var sorted := Sort(attrs, st, Filter(chars, search));
    var v := Visible(sorted, page);
    assert forall c :: c in v ==> c in multiset(sorted);
    v
  }

  /** Every row is on exactly the page its position says, and every page before the last is full. */
  lemma RowOnItsPage(rows: seq<Character>, i: nat)
    requires i < |rows|
    ensures i / PageSize < PageCount(|rows|)
    ensures Visible(rows, i / PageSize)[i % PageSize] == rows[i]
  {
    var p := i / PageSize;
    assert p * PageSize <= i < p * PageSize + PageSize;
  }

  /** `handleSort`: the same column flips the direction, another column sorts ascending by it. */
  function HandleSort(st: SortState, field: string): (t: SortState)
    ensures t.field == field
    ensures field == st.field ==> t.asc == !st.asc
    ensures field != st.field ==> t.asc
  {
    if field == st.field then st.(asc := !st.asc) else SortState(field, true)
  }

  /** Clicking the same header twice restores the order. */
  lemma SortTwiceRestores(st: SortState)
    ensures HandleSort(HandleSort(st, st.field), st.field) == st
  {
  }

  /** The "previous" and "next" buttons, disabled on the first and last page. */
  function PrevPage(page: nat): nat {
    if page == 0 then 0 else page - 1
  }

  function NextPage(page: nat, pages: nat): nat {
    if page == pages - 1 then page else page + 1
  }

  /** The buttons keep a page that is in range in range. */
  lemma PagesStayInRange(page: nat, pages: nat)
    requires page < pages
    ensures PrevPage(page) < pages && NextPage(page, pages) < pages
  {
  }
}
