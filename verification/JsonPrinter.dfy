/**
 * The canonical form of src/domain/gaap-json.ts: no white space, keys in code-unit order, shortest escapes. Printing
 * and parsing undo each other.
 */
module JsonPrinter {
  import opened Options
  import opened JsonValues
  import opened JsonSyntax
  import opened JsonParser
  import opened JsonGrammar

  // ----- key order

  /** The order of `Array.prototype.sort` on strings: by UTF-16 code units, a prefix first. */
  predicate LessEq(a: Text, b: Text) {
    a == [] || (b != [] && (a[0] < b[0] || (a[0] == b[0] && LessEq(a[1..], b[1..]))))
  }

  lemma {:induction false} LessEqReflexive(a: Text)
    ensures LessEq(a, a)
  {
    if a != [] { LessEqReflexive(a[1..]); }
  }

  lemma {:induction false} LessEqTotal(a: Text, b: Text)
    ensures LessEq(a, b) || LessEq(b, a)
    ensures LessEq(a, b) && LessEq(b, a) ==> a == b
  {
    if a != [] && b != [] {
      LessEqTotal(a[1..], b[1..]);
      assert a == [a[0]] + a[1..] && b == [b[0]] + b[1..];
    }
  }

  lemma {:induction false} LessEqTransitive(a: Text, b: Text, c: Text)
    requires LessEq(a, b) && LessEq(b, c)
    ensures LessEq(a, c)
  {
    if a != [] && a[0] == b[0] && b[0] == c[0] { LessEqTransitive(a[1..], b[1..], c[1..]); }
  }

  ghost predicate IsLeast(key: Text, keys: set<Text>) {
    key in keys && forall other :: other in keys ==> LessEq(key, other)
  }

  lemma {:induction false} LeastExists(keys: set<Text>)
    requires keys != {}
    ensures exists least :: IsLeast(least, keys)
  {
    var key :| key in keys;
    LessEqReflexive(key);
    if keys == {key} {
      assert IsLeast(key, keys);
    } else {
      LeastExists(keys - {key});
      var rest :| IsLeast(rest, keys - {key});
      LessEqTotal(key, rest);
      var least := if LessEq(key, rest) then key else rest;
      forall other | other in keys ensures LessEq(least, other) {
        if other != key && least == key { LessEqTransitive(key, rest, other); }
      }
      assert IsLeast(least, keys);
    }
  }

  lemma LeastIsUnique(one: Text, other: Text, keys: set<Text>)
    requires IsLeast(one, keys) && IsLeast(other, keys)
    ensures one == other
  {
    LessEqTotal(one, other);
  }

  /** `Object.keys(entry).sort()` */
  ghost function SortedKeys(keys: set<Text>): (sorted: seq<Text>)
    ensures |sorted| == |keys|
  {
    if keys == {} then []
    else
      LeastExists(keys);
      var least :| IsLeast(least, keys);
      [least] + SortedKeys(keys - {least})
  }

  /** The list holds every key of the set, once. */
  ghost predicate ListsOnce(list: seq<Text>, keys: set<Text>) {
    && (forall key :: key in list <==> key in keys)
    && (forall i, j :: 0 <= i < j < |list| ==> list[i] != list[j])
  }

  ghost predicate InKeyOrder(list: seq<Text>) {
    forall i, j :: 0 <= i < j < |list| ==> LessEq(list[i], list[j])
  }

  lemma PrependKey(first: Text, rest: seq<Text>, keys: set<Text>)
    requires IsLeast(first, keys) && ListsOnce(rest, keys - {first}) && InKeyOrder(rest)
    ensures ListsOnce([first] + rest, keys) && InKeyOrder([first] + rest)
  {
    forall j | 0 <= j < |rest| ensures rest[j] in keys && rest[j] != first {
      assert rest[j] in rest;
    }
  }

  /** Sorting loses no key, repeats none, and orders them. */
  lemma {:induction false} SortedKeysAreTheKeys(keys: set<Text>)
    ensures ListsOnce(SortedKeys(keys), keys) && InKeyOrder(SortedKeys(keys))
  {
    hide ListsOnce, InKeyOrder, LessEq;
    if keys == {} {
      NothingListed();
    } else {
      var first := SortedKeys(keys)[0];
      LeastExists(keys);
      assert IsLeast(first, keys) && SortedKeys(keys) == [first] + SortedKeys(keys - {first});
      SortedKeysAreTheKeys(keys - {first});
      PrependKey(first, SortedKeys(keys - {first}), keys);
    }
  }

  lemma NothingListed()
    ensures ListsOnce([], {}) && InKeyOrder([])
  {
  }

  // ----- numbers and strings

  /** `JSON.stringify` of a safe natural number. */
  function Digits(n: nat): Text {
    if n < 10 then [0x30 + n] else Digits(n / 10) + [0x30 + n % 10]
  }

  lemma {:induction false} DigitsAreGood(n: nat)
    ensures Digits(n) != [] && AllDigits(Digits(n)) && DigitsValue(Digits(n)) == n
    ensures Digits(n)[0] == ZERO ==> n == 0 && |Digits(n)| == 1
  {
    if n < 10 {
      assert Digits(n)[..0] == [];
    } else {
      var init := Digits(n / 10);
      DigitsAreGood(n / 10);
      assert Digits(n)[..|init|] == init;
      assert Digits(n)[0] == init[0];
    }
  }

  function HexDigit(v: nat): CodeUnit
    requires v < 16
  {
    if v < 10 then 0x30 + v else 0x61 + (v - 10)
  }

  /** `JSON.stringify` of one code unit of well-formed text. */
  function PieceOf(u: CodeUnit): Piece {
    if u == QUOTE || u == BACKSLASH then Short(u)
    else if u == 0x08 then Short(0x62)
    else if u == 0x09 then Short(0x74)
    else if u == 0x0A then Short(0x6E)
    else if u == 0x0C then Short(0x66)
    else if u == 0x0D then Short(0x72)
    else if u < 0x20 then Hex(ZERO, ZERO, HexDigit(u / 16), HexDigit(u % 16))
    else Plain(u)
  }

  function PiecesOf(text: Text): seq<Piece> {
    if text == [] then [] else [PieceOf(text[0])] + PiecesOf(text[1..])
  }

  lemma PieceIsExact(u: CodeUnit)
    ensures GoodPiece(PieceOf(u)) && PieceValue(PieceOf(u)) == u
  {
  }

  lemma {:induction false} PiecesAreExact(text: Text)
    ensures GoodPieces(PiecesOf(text)) && PiecesValue(PiecesOf(text)) == text
  {
    if text != [] {
      PieceIsExact(text[0]);
      PiecesAreExact(text[1..]);
      assert PiecesOf(text)[1..] == PiecesOf(text[1..]);
    }
  }

  // ----- which trees can be printed

  /** Depth, strings, keys and numbers are within the limits. */
  ghost predicate Fits(v: Json, depth: nat)
    decreases v
  {
    depth <= MAX_DEPTH &&
    match v
    case Null => true
    case Bool(_) => true
    case Num(n) => IsSafeInteger(n)
    case Str(text) => WellFormed(text)
    case Arr(items) => forall i :: 0 <= i < |items| ==> Fits(items[i], depth + 1)
    case Obj(members) => forall key :: key in members ==> WellFormed(key) && Fits(members[key], depth + 1)
  }

  ghost function Size(v: Json): nat
    decreases v, 0
  {
    match v
    case Arr(items) => 1 + SizeItems(items)
    case Obj(members) => 1 + SizeMembers(v, members.Keys)
    case _ => 1
  }

  ghost function SizeItems(items: seq<Json>): nat
    decreases items, 0
  {
    if items == [] then 0 else Size(items[0]) + SizeItems(items[1..])
  }

  ghost function SizeMembers(v: Json, keys: set<Text>): nat
    requires v.Obj? && keys <= v.members.Keys
    decreases v, 0, keys
  {
    if keys == {} then 0
    else
      var key :| key in keys;
      Size(v.members[key]) + SizeMembers(v, keys - {key})
  }

  /** The size of a set of members does not depend on the order they are counted in. */
  lemma {:induction false} SizeMembersAny(v: Json, keys: set<Text>, key: Text)
    requires v.Obj? && keys <= v.members.Keys && key in keys
    ensures SizeMembers(v, keys) == Size(v.members[key]) + SizeMembers(v, keys - {key})
    decreases keys
  {
    var first :| first in keys && SizeMembers(v, keys) == Size(v.members[first]) + SizeMembers(v, keys - {first});
    if first != key {
      SizeMembersAny(v, keys - {first}, key);
      SizeMembersAny(v, keys - {key}, first);
      assert keys - {first} - {key} == keys - {key} - {first};
    }
  }

  // ----- the canonical tree

  ghost function CanonicalNode(v: Json): Node
    decreases v, 1
  {
    Node([], CanonicalBody(v))
  }

  ghost function CanonicalBody(v: Json): Body
    decreases v, 0
  {
    match v
    case Null => NullBody
    case Bool(flag) => BoolBody(flag)
    case Num(n) => NumBody(n < 0, Digits(if n < 0 then -n else n))
    case Str(text) => StrBody(PiecesOf(text))
    case Arr(items) => if items == [] then EmptyArr([]) else ArrBody(CanonicalItems(items))
    case Obj(members) =>
      SortedKeysAreTheKeys(members.Keys);
      if members == map[] then EmptyObj([]) else ObjBody(CanonicalMembers(v, SortedKeys(members.Keys)))
  }

  ghost function CanonicalItems(items: seq<Json>): Items
    requires items != []
    decreases items, 0
  {
    if |items| == 1 then Last(CanonicalNode(items[0]), [])
    else More(CanonicalNode(items[0]), [], CanonicalItems(items[1..]))
  }

  ghost function CanonicalMembers(v: Json, keys: seq<Text>): Members
    requires v.Obj? && keys != [] && forall i :: 0 <= i < |keys| ==> keys[i] in v.members
    decreases v, 0, |keys|
  {
    var key, node := Key([], PiecesOf(keys[0]), []), CanonicalNode(v.members[keys[0]]);
    if |keys| == 1 then LastMember(key, node, []) else MoreMembers(key, node, [], CanonicalMembers(v, keys[1..]))
  }

  /** `canonicalGaapJson`; `None` where it throws. */
  ghost function Canonical(v: Json): Option<Text> {
    if Fits(v, 0) && Size(v) <= MAX_VALUES then Some(Render(CanonicalNode(v))) else None
  }

  // ----- the canonical tree is good, and stands for the value

  lemma {:induction false} CanonicalIsGood(v: Json, depth: nat)
    requires Fits(v, depth)
    ensures Good(CanonicalNode(v), depth) && Value(CanonicalNode(v)) == v && Count(CanonicalNode(v)) == Size(v)
    decreases v, 1
  {
    hide GoodItems, GoodMembers, CanonicalItems, CanonicalMembers, ItemsValue, MembersValue, SizeMembers, CountItems,
      CountMembers, WellFormed, PiecesOf, Digits, IsSafeInteger, DigitsValue, SortedKeys;
    match v
    case Null =>
    case Bool(_) =>
    case Num(n) => DigitsAreGood(if n < 0 then -n else n);
    case Str(text) => PiecesAreExact(text);
    case Arr(items) =>
      if items != [] { CanonicalItemsAreGood(items, depth + 1); }
    case Obj(members) =>
      if members != map[] { CanonicalObjectIsGood(v, depth); } else { NoMembers(v); assert members.Keys == {}; }
  }

  lemma {:induction false} CanonicalItemsAreGood(items: seq<Json>, depth: nat)
    requires items != [] && forall i :: 0 <= i < |items| ==> Fits(items[i], depth)
    ensures GoodItems(CanonicalItems(items), depth)
    ensures ItemsValue(CanonicalItems(items)) == items && CountItems(CanonicalItems(items)) == SizeItems(items)
    decreases items, 0
  {
    hide Good, Value, Count, CanonicalNode, Fits;
    CanonicalIsGood(items[0], depth);
    if |items| > 1 { CanonicalItemsAreGood(items[1..], depth); }
    assert items == [items[0]] + items[1..];
  }

  lemma CanonicalObjectIsGood(v: Json, depth: nat)
    requires v.Obj? && v.members != map[] && Fits(v, depth)
    ensures Good(CanonicalNode(v), depth) && Value(CanonicalNode(v)) == v && Count(CanonicalNode(v)) == Size(v)
    decreases v, 0, |v.members.Keys| + 1
  {
    hide GoodMembers, MembersValue, CountMembers, CanonicalMembers, ListsOnce, InKeyOrder, SortedKeys, Listed, SetOf,
      SizeMembers, WellFormed, GoodNumber, GoodString, IsSafeInteger, PiecesOf, Digits, NumberValue, PiecesValue;
    var keys := SortedKeys(v.members.Keys);
    SortedKeysAreTheKeys(v.members.Keys);
    ListedInMembers(v, keys);
    CanonicalMembersAreGood(v, keys, depth + 1);
    WholeMap(v, keys);
  }

  lemma ListedInMembers(v: Json, keys: seq<Text>)
    requires v.Obj? && v.members != map[] && ListsOnce(keys, v.members.Keys) && |keys| == |v.members.Keys|
    ensures keys != [] && forall i :: 0 <= i < |keys| ==> keys[i] in v.members
    ensures forall i, j :: 0 <= i < j < |keys| ==> keys[i] != keys[j]
  {
    assert v.members.Keys != {};
    assert forall i :: 0 <= i < |keys| ==> keys[i] in keys;
  }

  ghost function Listed(v: Json, keys: seq<Text>): (listed: map<Text, Json>)
    requires v.Obj? && forall i :: 0 <= i < |keys| ==> keys[i] in v.members
  {
    map key | key in keys :: v.members[key]
  }

  ghost function SetOf(keys: seq<Text>): set<Text> {
    set key | key in keys
  }

  lemma WholeMap(v: Json, keys: seq<Text>)
    requires v.Obj? && ListsOnce(keys, v.members.Keys) && forall i :: 0 <= i < |keys| ==> keys[i] in v.members
    ensures Listed(v, keys) == v.members && SetOf(keys) == v.members.Keys
  {
  }

  lemma {:induction false} CanonicalMembersAreGood(v: Json, keys: seq<Text>, depth: nat)
    requires v.Obj? && keys != [] && forall i :: 0 <= i < |keys| ==> keys[i] in v.members
    requires forall i, j :: 0 <= i < j < |keys| ==> keys[i] != keys[j]
    requires forall key :: key in v.members ==> WellFormed(key) && Fits(v.members[key], depth)
    ensures GoodMembers(CanonicalMembers(v, keys), depth)
    ensures MembersValue(CanonicalMembers(v, keys)) == Listed(v, keys)
    ensures SetOf(keys) <= v.members.Keys && CountMembers(CanonicalMembers(v, keys)) == SizeMembers(v, SetOf(keys))
    decreases v, 0, |keys|
  {
    hide Good, Value, Count, CanonicalNode, Fits, WellFormed, SizeMembers;
    PiecesAreExact(keys[0]);
    CanonicalIsGood(v.members[keys[0]], depth);
    SizeMembersAny(v, SetOf(keys), keys[0]);
    assert SetOf(keys) - {keys[0]} == SetOf(keys[1..]);
    if |keys| == 1 {
      NoMembers(v);
      assert SetOf(keys[1..]) == {};
      assert Listed(v, keys) == map[keys[0] := v.members[keys[0]]];
    } else {
      CanonicalMembersAreGood(v, keys[1..], depth);
      assert Listed(v, keys) == Listed(v, keys[1..])[keys[0] := v.members[keys[0]]];
    }
  }

  lemma NoMembers(v: Json)
    requires v.Obj?
    ensures SizeMembers(v, {}) == 0
  {
  }

  // ----- what a good tree says about its value

  lemma {:induction false} GoodValueFits(node: Node, depth: nat)
    requires Good(node, depth)
    ensures Fits(Value(node), depth) && Size(Value(node)) == Count(node)
    decreases node
  {
    match node.body
    case ArrBody(items) => GoodItemsFit(items, depth + 1);
    case ObjBody(members) => GoodMembersFit(members, depth + 1, Value(node));
    case EmptyObj(_) => NoMembers(Value(node));
    case _ =>
  }

  lemma {:induction false} GoodItemsFit(items: Items, depth: nat)
    requires GoodItems(items, depth)
    ensures forall i :: 0 <= i < |ItemsValue(items)| ==> Fits(ItemsValue(items)[i], depth)
    ensures SizeItems(ItemsValue(items)) == CountItems(items)
    decreases items
  {
    hide Good, Fits, Value, Count;
    GoodValueFits(items.node, depth);
    if items.More? {
      GoodItemsFit(items.items, depth);
      assert ItemsValue(items)[1..] == ItemsValue(items.items);
    } else {
      assert ItemsValue(items)[1..] == [];
    }
  }

  /** `v` is any object that has these members and possibly more. */
  lemma {:induction false} GoodMembersFit(members: Members, depth: nat, v: Json)
    requires GoodMembers(members, depth) && v.Obj?
    requires forall key :: key in MembersValue(members) ==>
               key in v.members && v.members[key] == MembersValue(members)[key]
    ensures forall key :: key in MembersValue(members) ==>
              WellFormed(key) && Fits(MembersValue(members)[key], depth)
    ensures MembersValue(members).Keys <= v.members.Keys
    ensures SizeMembers(v, MembersValue(members).Keys) == CountMembers(members)
    decreases members
  {
    hide Good, Fits, Value, Count, SizeMembers, WellFormed;
    GoodValueFits(members.node, depth);
    var key, all := KeyText(members.key), MembersValue(members).Keys;
    SizeMembersAny(v, all, key);
    if members.MoreMembers? {
      GoodMembersFit(members.members, depth, v);
      assert all - {key} == MembersValue(members.members).Keys;
    } else {
      NoMembers(v);
      assert all - {key} == {};
    }
  }

  // ----- printing and parsing undo each other

  /** Whatever `canonicalGaapJson` prints, `parseGaapJson` reads back as the very tree that was printed. */
  lemma PrintedIsParsed(v: Json)
    requires Canonical(v).Some?
    ensures Parse(Canonical(v).value) == Some(v)
  {
    hide Render, Good, Value, Count, Parse;
    CanonicalIsGood(v, 0);
    var text := Canonical(v).value;
    assert text == Render(CanonicalNode(v)) + [];
    assert IsTextOf(text, CanonicalNode(v), []);
    AcceptsExactlyGoodTrees(text, v);
  }

  /** Whatever is accepted is within the printer's limits, so it can be canonicalised. */
  lemma ParsedIsPrintable(text: Text)
    requires Parse(text).Some?
    ensures Canonical(Parse(text).value).Some?
    ensures Fits(Parse(text).value, 0) && Size(Parse(text).value) <= MAX_VALUES
  {
    hide Render, Good, Value, Count, Parse, Fits, Size;
    AcceptsExactlyGoodTrees(text, Parse(text).value);
    var node, trailing :| IsTextOf(text, node, trailing) && Value(node) == Parse(text).value;
    GoodValueFits(node, 0);
  }

  /** Canonicalising is idempotent: the canonical form of an accepted text is its own canonical form. */
  lemma CanonicalFormIsFixed(text: Text)
    requires Parse(text).Some?
    ensures Canonical(Parse(text).value).Some?
    ensures
      var canonical := Canonical(Parse(text).value).value;
      Parse(canonical) == Parse(text) && Canonical(Parse(canonical).value) == Some(canonical)
  {
    hide Parse, Fits, Size, Render;
    ParsedIsPrintable(text);
    PrintedIsParsed(Parse(text).value);
  }

  /** Canonical texts are identities: two trees share one only if they are equal. */
  lemma CanonicalIsInjective(v: Json, w: Json)
    requires Canonical(v).Some? && Canonical(v) == Canonical(w)
    ensures v == w
  {
    hide Parse, Fits, Size, Render;
    PrintedIsParsed(v);
    PrintedIsParsed(w);
  }
}
