// Canonical, bounded values: string validators and the freezing of JSON values.

module Canonical {
  import opened Basics
  import opened Text

  // ---------------------------------------------------------------- validators

  predicate BoundedString(s: string, maximum: nat) {
    && s != []
    && |Utf8(s)| <= maximum
    && forall i :: 0 <= i < |s| ==> s[i] as int >= 32 && s[i] as int != 127
  }

  lemma PlainIsBounded(s: string, maximum: nat)
    requires s != [] && 4 * |s| <= maximum && forall i :: 0 <= i < |s| ==> s[i] as int >= 32 && s[i] as int != 127
    ensures BoundedString(s, maximum)
  {
    Utf8Short(s);
  }

  predicate Alphanumeric(c: char) {
    'A' <= c <= 'Z' || 'a' <= c <= 'z' || '0' <= c <= '9'
  }

  predicate NameChar(c: char) {
    Alphanumeric(c) || c == '_' || c == '.' || c == ':' || c == '/' || c == '-'
  }

  predicate LogicalName(s: string) {
    && BoundedString(s, 256)
    && |s| <= 256
    && Alphanumeric(s[0])
    && forall i :: 0 <= i < |s| ==> NameChar(s[i])
  }

  lemma ShortNameIsLogical(s: string)
    requires 0 < |s| <= 32 && Alphanumeric(s[0]) && forall i :: 0 <= i < |s| ==> NameChar(s[i])
    ensures LogicalName(s)
  {
    PlainIsBounded(s, 256);
  }

  predicate ChannelName(s: string) {
    && BoundedString(s, 128)
    && |s| <= 128
    && Alphanumeric(s[0])
    && forall i :: 0 <= i < |s| ==> Alphanumeric(s[i]) || s[i] == '_' || s[i] == '.' || s[i] == '-'
  }

  predicate IsDigest(s: string) {
    && |s| == 71
    && s[..7] == "sha256:"
    && forall i :: 7 <= i < 71 ==> '0' <= s[i] <= '9' || 'a' <= s[i] <= 'f'
  }

  predicate IsSpace(c: char) {
    var n := c as int;
    || 9 <= n <= 13 || 28 <= n <= 32 || n == 0x85 || n == 0xA0 || n == 0x1680
    || 0x2000 <= n <= 0x200A || n == 0x2028 || n == 0x2029 || n == 0x202F || n == 0x205F || n == 0x3000
  }

  predicate MediaType(s: string) {
    BoundedString(s, 255) && '/' in s && forall i :: 0 <= i < |s| ==> !IsSpace(s[i])
  }

  // string_mapping: at most 64 bounded pairs.
  predicate StringMapping(m: map<string, string>) {
    |m| <= 64 && forall k | k in m :: BoundedString(k, 128) && BoundedString(m[k], 512)
  }

  // ---------------------------------------------------------------- the order of strings

  // Python's comparison of str: lexicographic by code point.
  predicate Before(a: string, b: string) {
    b != [] && (a == [] || a[0] < b[0] || (a[0] == b[0] && Before(a[1..], b[1..])))
  }

  lemma {:induction false} BeforeIsTotal(a: string, b: string)
    ensures Before(a, b) || Before(b, a) || a == b
    ensures !(Before(a, b) && Before(b, a))
    ensures !Before(a, a)
  {
    if a != [] {
      BeforeIsTotal(a[1..], a[1..]);
      if b != [] {
        BeforeIsTotal(a[1..], b[1..]);
        if a[0] == b[0] && a[1..] == b[1..] {
          assert a == [a[0]] + a[1..] && b == [b[0]] + b[1..];
        }
      }
    }
  }

  lemma {:induction false} BeforeIsTransitive(a: string, b: string, c: string)
    requires Before(a, b) && Before(b, c)
    ensures Before(a, c)
  {
    if a != [] && a[0] == b[0] && b[0] == c[0] {
      BeforeIsTransitive(a[1..], b[1..], c[1..]);
    }
  }

  // ---------------------------------------------------------------- JSON

  // A plain JSON value. An object keeps its fields in insertion order, as a dict does.
  datatype Json = Null | Bool(b: bool) | Int(i: int) | Str(s: string) | List(items: Items) | Dict(fields: Fields)

  datatype Items = NoItems | Item(head: Json, tail: Items)

  datatype Fields = NoFields | Field(key: string, value: Json, rest: Fields)

  // A frozen value: tuples for lists and read-only mappings for objects.
  datatype Frozen =
    | FNull | FBool(b: bool) | FInt(i: int) | FStr(s: string)
    | Tuple(elements: Elements) | Proxy(entries: Entries)

  datatype Elements = NoElements | Element(first: Frozen, others: Elements)

  datatype Entries = NoEntries | Entry(name: string, item: Frozen, more: Entries)

  function Insert(k: string, v: Frozen, es: Entries): Entries {
    match es
    case NoEntries => Entry(k, v, NoEntries)
    case Entry(n, w, more) => if Before(n, k) then Entry(n, w, Insert(k, v, more)) else Entry(k, v, es)
  }

  function Freeze(j: Json): Frozen {
    match j
    case Null => FNull
    case Bool(b) => FBool(b)
    case Int(i) => FInt(i)
    case Str(s) => FStr(s)
    case List(items) => Tuple(FreezeItems(items))
    case Dict(fields) => Proxy(FreezeFields(fields))
  }

  function FreezeItems(items: Items): Elements {
    match items
    case NoItems => NoElements
    case Item(head, tail) => Element(Freeze(head), FreezeItems(tail))
  }

  // The fields of an object, each frozen, sorted by key.
  function FreezeFields(fields: Fields): Entries {
    match fields
    case NoFields => NoEntries
    case Field(k, v, rest) => Insert(k, Freeze(v), FreezeFields(rest))
  }

  function Thaw(f: Frozen): Json {
    match f
    case FNull => Null
    case FBool(b) => Bool(b)
    case FInt(i) => Int(i)
    case FStr(s) => Str(s)
    case Tuple(elements) => List(ThawElements(elements))
    case Proxy(entries) => Dict(ThawEntries(entries))
  }

  function ThawElements(es: Elements): Items {
    match es
    case NoElements => NoItems
    case Element(first, others) => Item(Thaw(first), ThawElements(others))
  }

  function ThawEntries(es: Entries): Fields {
    match es
    case NoEntries => NoFields
    case Entry(n, v, more) => Field(n, Thaw(v), ThawEntries(more))
  }

  // ---------------------------------------------------------------- well-formed values

  function Keys(fields: Fields): set<string> {
    match fields
    case NoFields => {}
    case Field(k, _, rest) => {k} + Keys(rest)
  }

  // A dict never holds the same key twice, at any depth.
  predicate WellFormed(j: Json) {
    match j
    case List(items) => WellFormedItems(items)
    case Dict(fields) => WellFormedFields(fields)
    case _ => true
  }

  predicate WellFormedItems(items: Items) {
    items.Item? ==> WellFormed(items.head) && WellFormedItems(items.tail)
  }

  predicate WellFormedFields(fields: Fields) {
    fields.Field? ==> fields.key !in Keys(fields.rest) && WellFormed(fields.value) && WellFormedFields(fields.rest)
  }

  function Names(es: Entries): set<string> {
    match es
    case NoEntries => {}
    case Entry(n, _, more) => {n} + Names(more)
  }

  // Canonical frozen values: every mapping strictly sorted by key, at any depth.
  predicate Sorted(f: Frozen) {
    match f
    case Tuple(elements) => SortedElements(elements)
    case Proxy(entries) => SortedEntries(entries)
    case _ => true
  }

  predicate SortedElements(es: Elements) {
    es.Element? ==> Sorted(es.first) && SortedElements(es.others)
  }

  predicate SortedEntries(es: Entries) {
    es.Entry? ==>
      && Sorted(es.item)
      && SortedEntries(es.more)
      && forall n | n in Names(es.more) :: Before(es.name, n)
  }

  lemma {:induction false} InsertSorted(k: string, v: Frozen, es: Entries)
    requires SortedEntries(es) && Sorted(v) && k !in Names(es)
    ensures SortedEntries(Insert(k, v, es))
    ensures Names(Insert(k, v, es)) == {k} + Names(es)
  {
    if es.Entry? {
      BeforeIsTotal(es.name, k);
      if Before(es.name, k) {
        InsertSorted(k, v, es.more);
      } else {
        forall n | n in Names(es)
          ensures Before(k, n)
        {
          if n != es.name {
            BeforeIsTransitive(k, es.name, n);
          }
        }
      }
    }
  }

  // Freezing yields a canonical value.
  lemma {:induction false} FreezeSorted(j: Json)
    requires WellFormed(j)
    ensures Sorted(Freeze(j))
  {
    match j
    case List(items) => FreezeItemsSorted(items);
    case Dict(fields) => FreezeFieldsSorted(fields);
    case _ =>
  }

  lemma {:induction false} FreezeItemsSorted(items: Items)
    requires WellFormedItems(items)
    ensures SortedElements(FreezeItems(items))
  {
    if items.Item? {
      FreezeSorted(items.head);
      FreezeItemsSorted(items.tail);
    }
  }

  lemma {:induction false} FreezeFieldsSorted(fields: Fields)
    requires WellFormedFields(fields)
    ensures SortedEntries(FreezeFields(fields))
    ensures Names(FreezeFields(fields)) == Keys(fields)
  {
    if fields.Field? {
      FreezeSorted(fields.value);
      FreezeFieldsSorted(fields.rest);
      InsertSorted(fields.key, Freeze(fields.value), FreezeFields(fields.rest));
    }
  }

  // Freezing undoes thawing on canonical values: normalisation is idempotent.
  lemma {:induction false} FreezeThaw(f: Frozen)
    requires Sorted(f)
    ensures Freeze(Thaw(f)) == f
  {
    match f
    case Tuple(elements) => FreezeThawElements(elements);
    case Proxy(entries) => FreezeThawEntries(entries);
    case _ =>
  }

  lemma {:induction false} FreezeThawElements(es: Elements)
    requires SortedElements(es)
    ensures FreezeItems(ThawElements(es)) == es
  {
    if es.Element? {
      FreezeThaw(es.first);
      FreezeThawElements(es.others);
    }
  }

  lemma {:induction false} FreezeThawEntries(es: Entries)
    requires SortedEntries(es)
    ensures FreezeFields(ThawEntries(es)) == es
  {
    if es.Entry? {
      FreezeThaw(es.item);
      FreezeThawEntries(es.more);
      if es.more.Entry? {
        BeforeIsTotal(es.name, es.more.name);
      }
    }
  }

  lemma NormalisationIdempotent(j: Json)
    requires WellFormed(j)
    ensures Freeze(Thaw(Freeze(j))) == Freeze(j)
  {
    FreezeSorted(j);
    FreezeThaw(Freeze(j));
  }

  // ---------------------------------------------------------------- equality of JSON values

  function Find(fields: Fields, k: string): Option<Json> {
    match fields
    case NoFields => None
    case Field(n, v, rest) => if n == k then Some(v) else Find(rest, k)
  }

  function Size(fields: Fields): nat {
    match fields
    case NoFields => 0
    case Field(_, _, rest) => 1 + Size(rest)
  }

  // Equality of JSON values: the order of the fields of an object does not matter.
  predicate Same(a: Json, b: Json) {
    match (a, b)
    case (List(x), List(y)) => SameItems(x, y)
    case (Dict(x), Dict(y)) => Size(x) == Size(y) && SameFields(x, y)
    case _ => a == b
  }

  predicate SameItems(a: Items, b: Items) {
    match (a, b)
    case (NoItems, NoItems) => true
    case (Item(x, s), Item(y, t)) => Same(x, y) && SameItems(s, t)
    case _ => false
  }

  // Every field of a is a field of b with the same value.
  predicate SameFields(a: Fields, b: Fields) {
    match a
    case NoFields => true
    case Field(k, v, rest) => Find(b, k).Some? && Same(v, Find(b, k).value) && SameFields(rest, b)
  }

  function Pick(es: Entries, k: string): Option<Frozen> {
    match es
    case NoEntries => None
    case Entry(n, v, more) => if n == k then Some(v) else Pick(more, k)
  }

  lemma {:induction false} PickInsert(k: string, v: Frozen, es: Entries, q: string)
    requires k !in Names(es)
    ensures Pick(Insert(k, v, es), q) == if q == k then Some(v) else Pick(es, q)
    ensures q !in Names(es) ==> Pick(es, q) == None
  {
    if es.Entry? {
      PickInsert(k, v, es.more, q);
    }
  }

  lemma {:induction false} FindIsField(fields: Fields, k: string)
    requires WellFormedFields(fields)
    ensures Find(fields, k).Some? <==> k in Keys(fields)
    ensures Find(fields, k).Some? ==> WellFormed(Find(fields, k).value) && Find(fields, k).value < fields
  {
    if fields.Field? {
      FindIsField(fields.rest, k);
    }
  }

  // Looking a key up in the frozen object gives the frozen value of that key.
  lemma {:induction false} PickFrozen(fields: Fields, k: string)
    requires WellFormedFields(fields)
    ensures Pick(FreezeFields(fields), k) == if Find(fields, k).Some? then Some(Freeze(Find(fields, k).value)) else None
  {
    if fields.Field? {
      PickFrozen(fields.rest, k);
      FreezeFieldsSorted(fields.rest);
      PickInsert(fields.key, Freeze(fields.value), FreezeFields(fields.rest), k);
    }
  }

  lemma {:induction false} SizeIsKeys(fields: Fields)
    requires WellFormedFields(fields)
    ensures Size(fields) == |Keys(fields)|
  {
    if fields.Field? {
      SizeIsKeys(fields.rest);
    }
  }

  lemma {:induction false} SameFieldsAt(a: Fields, b: Fields, k: string)
    requires WellFormedFields(a) && SameFields(a, b) && k in Keys(a)
    ensures Find(a, k).Some? && Find(b, k).Some? && Same(Find(a, k).value, Find(b, k).value)
  {
    if a.key != k {
      SameFieldsAt(a.rest, b, k);
    }
  }

  lemma {:induction false} SameKeys(a: Fields, b: Fields)
    requires WellFormedFields(a) && WellFormedFields(b) && Size(a) == Size(b) && SameFields(a, b)
    ensures Keys(a) == Keys(b)
  {
    SizeIsKeys(a);
    SizeIsKeys(b);
    forall k | k in Keys(a)
      ensures k in Keys(b)
    {
      SameFieldsAt(a, b, k);
      FindIsField(b, k);
    }
    EqualBySize(Keys(a), Keys(b));
  }

  lemma EqualBySize<T>(a: set<T>, b: set<T>)
    requires a <= b && |a| == |b|
    ensures a == b
  {
    assert b == a + (b - a) && a * (b - a) == {};
    assert |b - a| == 0;
  }

  // A strictly sorted mapping is determined by its lookups.
  lemma {:induction false} SortedDetermined(a: Entries, b: Entries)
    requires SortedEntries(a) && SortedEntries(b) && Names(a) == Names(b)
    requires forall k :: k in Names(a) ==> Pick(a, k) == Pick(b, k)
    ensures a == b
  {
    if a.Entry? {
      assert a.name in Names(b);
      assert b.Entry?;
      assert b.name in Names(a);
      BeforeIsTotal(a.name, b.name);
      assert a.name == b.name;
      BeforeIsTotal(a.name, a.name);
      assert a.name !in Names(a.more) && a.name !in Names(b.more);
      assert Names(a.more) == Names(a) - {a.name} == Names(b.more);
      forall k | k in Names(a.more)
        ensures Pick(a.more, k) == Pick(b.more, k)
      {
        assert Pick(a, k) == Pick(b, k);
      }
      SortedDetermined(a.more, b.more);
    }
  }

  // Freezing is a canonical form: equal JSON values freeze to the same value.
  lemma {:induction false} SameFreeze(a: Json, b: Json)
    requires WellFormed(a) && WellFormed(b) && Same(a, b)
    ensures Freeze(a) == Freeze(b)
    decreases a
  {
    match (a, b)
    case (List(x), List(y)) => SameFreezeItems(x, y);
    case (Dict(x), Dict(y)) =>
      SameKeys(x, y);
      FreezeFieldsSorted(x);
      FreezeFieldsSorted(y);
      forall k | k in Keys(x)
        ensures Pick(FreezeFields(x), k) == Pick(FreezeFields(y), k)
      {
        PickFrozen(x, k);
        PickFrozen(y, k);
        SameFieldsAt(x, y, k);
        FindIsField(x, k);
        FindIsField(y, k);
        SameFreeze(Find(x, k).value, Find(y, k).value);
      }
      SortedDetermined(FreezeFields(x), FreezeFields(y));
    case _ =>
  }

  lemma {:induction false} SameFreezeItems(a: Items, b: Items)
    requires WellFormedItems(a) && WellFormedItems(b) && SameItems(a, b)
    ensures FreezeItems(a) == FreezeItems(b)
    decreases a
  {
    if a.Item? {
      SameFreeze(a.head, b.head);
      SameFreezeItems(a.tail, b.tail);
    }
  }

  // ... and values that freeze alike are equal.
  lemma {:induction false} FreezeSame(a: Json, b: Json)
    requires WellFormed(a) && WellFormed(b) && Freeze(a) == Freeze(b)
    ensures Same(a, b)
    decreases a
  {
    match (a, b)
    case (List(x), List(y)) => FreezeSameItems(x, y);
    case (Dict(x), Dict(y)) =>
      FreezeFieldsSorted(x);
      FreezeFieldsSorted(y);
      SizeIsKeys(x);
      SizeIsKeys(y);
      FreezeSameFields(x, y, x);
    case _ =>
  }

  lemma {:induction false} FreezeSameItems(a: Items, b: Items)
    requires WellFormedItems(a) && WellFormedItems(b) && FreezeItems(a) == FreezeItems(b)
    ensures SameItems(a, b)
    decreases a
  {
    if a.Item? {
      FreezeSame(a.head, b.head);
      FreezeSameItems(a.tail, b.tail);
    }
  }

  // The fields of part, a tail of x, are fields of y.
  lemma {:induction false} FreezeSameFields(x: Fields, y: Fields, part: Fields)
    requires WellFormedFields(x) && WellFormedFields(y) && WellFormedFields(part)
    requires FreezeFields(x) == FreezeFields(y)
    requires forall k | k in Keys(part) :: Find(part, k) == Find(x, k)
    ensures SameFields(part, y)
    decreases part
  {
    if part.Field? {
      var k := part.key;
      assert Find(x, k) == Some(part.value);
      PickFrozen(x, k);
      PickFrozen(y, k);
      FindIsField(y, k);
      FreezeSame(part.value, Find(y, k).value);
      forall q | q in Keys(part.rest)
        ensures Find(part.rest, q) == Find(x, q)
      {
        assert Find(part, q) == Find(x, q);
      }
      FreezeSameFields(x, y, part.rest);
    }
  }

  // The frozen form decides equality, for JSON values of any depth and any field order.
  lemma FrozenFormDecidesEquality(a: Json, b: Json)
    requires WellFormed(a) && WellFormed(b)
    ensures Freeze(a) == Freeze(b) <==> Same(a, b)
  {
    if Same(a, b) {
      SameFreeze(a, b);
    }
    if Freeze(a) == Freeze(b) {
      FreezeSame(a, b);
    }
  }

  // Thawing a canonical value gives a JSON value without repeated keys.
  lemma {:induction false} ThawWellFormed(f: Frozen)
    requires Sorted(f)
    ensures WellFormed(Thaw(f))
  {
    match f
    case Tuple(elements) => ThawElementsWellFormed(elements);
    case Proxy(entries) => ThawEntriesWellFormed(entries);
    case _ =>
  }

  lemma {:induction false} ThawElementsWellFormed(es: Elements)
    requires SortedElements(es)
    ensures WellFormedItems(ThawElements(es))
  {
    if es.Element? {
      ThawWellFormed(es.first);
      ThawElementsWellFormed(es.others);
    }
  }

  lemma {:induction false} ThawEntriesWellFormed(es: Entries)
    requires SortedEntries(es)
    ensures WellFormedFields(ThawEntries(es))
    ensures Keys(ThawEntries(es)) == Names(es)
  {
    if es.Entry? {
      ThawWellFormed(es.item);
      ThawEntriesWellFormed(es.more);
      BeforeIsTotal(es.name, es.name);
    }
  }

  // Thawing undoes freezing: the value that comes back equals the one that went in.
  lemma ThawFreeze(j: Json)
    requires WellFormed(j)
    ensures WellFormed(Thaw(Freeze(j))) && Same(Thaw(Freeze(j)), j)
  {
    FreezeSorted(j);
    ThawWellFormed(Freeze(j));
    NormalisationIdempotent(j);
    FreezeSame(Thaw(Freeze(j)), j);
  }
}
