/**
 * Which text the canonical one is: of all texts that stand for a value, the only one with no white space, keys in
 * order, every character in its shortest form and every escape in lower case; and no text is shorter (section 3.2 of
 * RFC 8785).
 */
module JsonCanonical {
  import opened Options
  import opened JsonValues
  import opened JsonSyntax
  import opened JsonParser
  import opened JsonGrammar
  import opened JsonPrinter

  // ----- one character

  /** No other way to write the character is shorter. */
  ghost predicate IsShortest(p: Piece) {
    forall q :: GoodPiece(q) && PieceValue(q) == PieceValue(p) ==> |RenderPiece(p)| <= |RenderPiece(q)|
  }

  predicate IsCapital(u: CodeUnit) {
    0x41 <= u <= 0x5A
  }

  predicate InLowerCase(p: Piece) {
    p.Hex? ==> !IsCapital(p.a) && !IsCapital(p.b) && !IsCapital(p.c) && !IsCapital(p.d)
  }

  lemma PieceOfIsShortest(p: Piece)
    requires GoodPiece(p)
    ensures |RenderPiece(PieceOf(PieceValue(p)))| <= |RenderPiece(p)|
  {
  }

  lemma PieceOfIsTight(u: CodeUnit)
    ensures IsShortest(PieceOf(u)) && InLowerCase(PieceOf(u))
    ensures PieceOf(u).Hex? ==> PieceOf(u).a == ZERO && PieceOf(u).b == ZERO && u < 0x20
  {
    PieceIsExact(u);
    forall q | GoodPiece(q) && PieceValue(q) == u ensures |RenderPiece(PieceOf(u))| <= |RenderPiece(q)| {
      PieceOfIsShortest(q);
    }
  }

  /** A hexadecimal digit without capitals is known by its value. */
  lemma LowerDigit(u: CodeUnit)
    requires IsHexDigit(u) && !IsCapital(u)
    ensures u == HexDigit(HexValue(u))
  {
  }

  lemma HexIsKnown(a: nat, b: nat, c: nat, d: nat, v: nat)
    requires a < 16 && b < 16 && c < 16 && d < 16 && v == a * 0x1000 + b * 0x100 + c * 0x10 + d && v < 0x20
    ensures a == 0 && b == 0 && c == v / 16 && d == v % 16
  {
  }

  /** A good piece is the printer's exactly when it is shortest, and in lower case. */
  lemma PieceIsTheForm(p: Piece)
    requires GoodPiece(p)
    ensures p == PieceOf(PieceValue(p)) <==> IsShortest(p) && InLowerCase(p)
  {
    hide IsShortest;
    PieceOfIsTight(PieceValue(p));
    if IsShortest(p) && InLowerCase(p) {
      NotLonger(p);
      if p.Hex? { HexIsTheForm(p); }
    }
  }

  lemma NotLonger(p: Piece)
    requires IsShortest(p)
    ensures |RenderPiece(p)| <= |RenderPiece(PieceOf(PieceValue(p)))|
  {
    PieceIsExact(PieceValue(p));
  }

  lemma HexIsTheForm(p: Piece)
    requires GoodPiece(p) && p.Hex? && InLowerCase(p) && |RenderPiece(PieceOf(PieceValue(p)))| == 6
    ensures p == PieceOf(PieceValue(p))
  {
    LowerDigit(p.a);
    LowerDigit(p.b);
    LowerDigit(p.c);
    LowerDigit(p.d);
    HexIsKnown(HexValue(p.a), HexValue(p.b), HexValue(p.c), HexValue(p.d), PieceValue(p));
  }

  // ----- strings and numbers

  ghost predicate TightPieces(pieces: seq<Piece>) {
    forall i :: 0 <= i < |pieces| ==> IsShortest(pieces[i]) && InLowerCase(pieces[i])
  }

  lemma {:induction false} PiecesAreTheForm(pieces: seq<Piece>)
    requires GoodPieces(pieces)
    ensures pieces == PiecesOf(PiecesValue(pieces)) <==> TightPieces(pieces)
    ensures |RenderPieces(PiecesOf(PiecesValue(pieces)))| <= |RenderPieces(pieces)|
  {
    hide GoodPiece, IsShortest, InLowerCase, PieceOf, PieceValue, RenderPiece;
    if pieces != [] {
      PiecesAreTheForm(pieces[1..]);
      PieceIsTheForm(pieces[0]);
      PieceOfIsShortest(pieces[0]);
      assert PiecesValue(pieces)[1..] == PiecesValue(pieces[1..]);
      assert pieces == [pieces[0]] + pieces[1..];
      var printed := PiecesOf(PiecesValue(pieces));
      assert printed == [PieceOf(PieceValue(pieces[0]))] + PiecesOf(PiecesValue(pieces[1..]));
      assert printed[1..] == PiecesOf(PiecesValue(pieces[1..]));
    }
  }

  lemma {:induction false} DigitsAreUnique(digits: Text)
    requires digits != [] && AllDigits(digits) && (digits[0] == ZERO ==> |digits| == 1)
    ensures digits == Digits(DigitsValue(digits))
    ensures |digits| > 1 ==> DigitsValue(digits) >= 10
  {
    var n := |digits| - 1;
    assert digits == digits[..n] + [digits[n]];
    if n == 0 {
      assert digits[..0] == [];
    } else {
      DigitsAreUnique(digits[..n]);
      assert DigitsValue(digits[..n]) > 0 by { NoLeadingZero(digits[..n]); }
    }
  }

  lemma {:induction false} NoLeadingZero(digits: Text)
    requires digits != [] && AllDigits(digits) && digits[0] != ZERO
    ensures DigitsValue(digits) > 0
  {
    if |digits| > 1 { NoLeadingZero(digits[..|digits| - 1]); }
  }

  // ----- whole texts

  ghost predicate Tight(node: Node) {
    node.space == [] && TightBody(node.body)
  }

  ghost predicate TightBody(body: Body) {
    match body
    case StrBody(pieces) => TightPieces(pieces)
    case EmptyArr(inside) => inside == []
    case EmptyObj(inside) => inside == []
    case ArrBody(items) => TightItems(items)
    case ObjBody(members) => TightMembers(members) && InKeyOrder(KeysOf(members))
    case _ => true
  }

  ghost predicate TightItems(items: Items) {
    Tight(items.node) && items.after == [] && (items.More? ==> TightItems(items.items))
  }

  ghost predicate TightMembers(members: Members) {
    && members.key.space == [] && members.key.beforeColon == [] && TightPieces(members.key.pieces)
    && Tight(members.node) && members.after == []
    && (members.MoreMembers? ==> TightMembers(members.members))
  }

  /** The keys in the order they are written. */
  function KeysOf(members: Members): (keys: seq<Text>)
    ensures keys != []
  {
    [KeyText(members.key)] + if members.MoreMembers? then KeysOf(members.members) else []
  }

  lemma {:induction false} KeysAreListed(members: Members, depth: nat)
    requires GoodMembers(members, depth)
    ensures ListsOnce(KeysOf(members), MembersValue(members).Keys)
  {
    hide Good, Value, GoodKey, KeyText;
    if members.MoreMembers? {
      KeysAreListed(members.members, depth);
      var rest := KeysOf(members.members);
      assert forall i :: 0 <= i < |rest| ==> rest[i] in rest;
    }
  }

  /** There is only one ordered list of a set of keys. */
  lemma {:induction false} OrderedKeysAreUnique(one: seq<Text>, other: seq<Text>, keys: set<Text>)
    requires ListsOnce(one, keys) && ListsOnce(other, keys) && InKeyOrder(one) && InKeyOrder(other)
    ensures one == other
  {
    hide LessEq;
    assert |other| > 0 ==> other[0] in other;
    if one != [] {
      assert one[0] in one && one[0] in other;
      assert other[0] in other && other[0] in one;
      var p :| 0 <= p < |other| && other[p] == one[0];
      var q :| 0 <= q < |one| && one[q] == other[0];
      LessEqReflexive(one[0]);
      LessEqTotal(one[0], other[0]);
      TailListsOnce(one, keys);
      TailListsOnce(other, keys);
      OrderedKeysAreUnique(one[1..], other[1..], keys - {one[0]});
      assert one == [one[0]] + one[1..] && other == [other[0]] + other[1..];
    }
  }

  lemma TailListsOnce(list: seq<Text>, keys: set<Text>)
    requires list != [] && ListsOnce(list, keys) && InKeyOrder(list)
    ensures ListsOnce(list[1..], keys - {list[0]}) && InKeyOrder(list[1..])
  {
    hide LessEq;
    forall key | key in keys - {list[0]} ensures key in list[1..] {
      var i :| 0 <= i < |list| && list[i] == key;
      assert list[1..][i - 1] == key;
    }
    forall key | key in list[1..] ensures key in keys - {list[0]} {
      var i :| 0 <= i < |list[1..]| && list[1..][i] == key;
      assert list[i + 1] == key && list[i + 1] in list;
    }
  }

  /** A good tree is the canonical tree of its value exactly when it is written tightly. */
  lemma {:induction false} TreeIsTheForm(node: Node, depth: nat)
    requires Good(node, depth)
    ensures node == CanonicalNode(Value(node)) <==> Tight(node)
    decreases node
  {
    hide GoodItems, GoodMembers, CanonicalItems, CanonicalMembers, ItemsValue, MembersValue, WellFormed, PiecesOf,
      Digits, TightItems, TightMembers, InKeyOrder, SortedKeys, TightPieces, DigitsValue, IsSafeInteger, KeysOf;
    match node.body
    case StrBody(pieces) => PiecesAreTheForm(pieces);
    case NumBody(negative, digits) => NumberIsTheForm(negative, digits);
    case ArrBody(items) => ItemsAreTheForm(items, depth + 1);
    case ObjBody(members) => ObjectIsTheForm(node, depth);
    case _ =>
  }

  lemma NumberIsTheForm(negative: bool, digits: Text)
    requires GoodNumber(negative, digits)
    ensures
      var n := NumberValue(negative, digits);
      NumBody(negative, digits) == NumBody(n < 0, Digits(if n < 0 then -n else n))
  {
    DigitsAreUnique(digits);
  }

  lemma {:induction false} ItemsAreTheForm(items: Items, depth: nat)
    requires GoodItems(items, depth)
    ensures ItemsValue(items) != []
    ensures items == CanonicalItems(ItemsValue(items)) <==> TightItems(items)
    decreases items
  {
    hide Good, Value, CanonicalNode, Tight;
    TreeIsTheForm(items.node, depth);
    if items.More? {
      ItemsAreTheForm(items.items, depth);
      assert ItemsValue(items)[1..] == ItemsValue(items.items);
    }
  }

  lemma ObjectIsTheForm(node: Node, depth: nat)
    requires Good(node, depth) && node.body.ObjBody?
    ensures node == CanonicalNode(Value(node)) <==> Tight(node)
    decreases node.body.members, 1
  {
    hide GoodMembers, CanonicalMembers, MembersValue, TightMembers, InKeyOrder, SortedKeys, ListsOnce, KeysOf;
    var members, v := node.body.members, Value(node);
    var keys := KeysOf(members);
    KeysAreListed(members, depth + 1);
    SortedKeysAreTheKeys(v.members.Keys);
    KeysAreThere(members, v, keys);
    MembersAreTheForm(members, depth + 1, v);
    if InKeyOrder(keys) {
      OrderedKeysAreUnique(keys, SortedKeys(v.members.Keys), v.members.Keys);
    } else if node == CanonicalNode(v) {
      ListedInMembers(v, SortedKeys(v.members.Keys));
      CanonicalKeys(v, SortedKeys(v.members.Keys));
    }
  }

  lemma KeysAreThere(members: Members, v: Json, keys: seq<Text>)
    requires v == Obj(MembersValue(members)) && keys == KeysOf(members) && ListsOnce(keys, v.members.Keys)
    ensures v.members != map[] && forall i :: 0 <= i < |keys| ==> keys[i] in v.members
    ensures |SortedKeys(v.members.Keys)| > 0
  {
    assert forall i :: 0 <= i < |keys| ==> keys[i] in keys;
    assert keys[0] in v.members.Keys;
  }

  /** The canonical members are written in the order of the keys they are made from. */
  lemma {:induction false} CanonicalKeys(v: Json, keys: seq<Text>)
    requires v.Obj? && keys != [] && forall i :: 0 <= i < |keys| ==> keys[i] in v.members
    ensures KeysOf(CanonicalMembers(v, keys)) == keys
    decreases |keys|
  {
    hide CanonicalNode;
    PiecesAreExact(keys[0]);
    if |keys| > 1 { CanonicalKeys(v, keys[1..]); }
    assert keys == [keys[0]] + keys[1..];
  }

  /** `v` is any object that has these members and possibly more. */
  lemma {:induction false} MembersAreTheForm(members: Members, depth: nat, v: Json)
    requires GoodMembers(members, depth) && v.Obj?
    requires forall key :: key in MembersValue(members) ==>
               key in v.members && v.members[key] == MembersValue(members)[key]
    ensures forall i :: 0 <= i < |KeysOf(members)| ==> KeysOf(members)[i] in v.members
    ensures members == CanonicalMembers(v, KeysOf(members)) <==> TightMembers(members)
    decreases members, 0
  {
    hide Good, Value, CanonicalNode, Tight, WellFormed, TightPieces, PiecesOf, PiecesValue;
    TreeIsTheForm(members.node, depth);
    PiecesAreTheForm(members.key.pieces);
    var key := KeyText(members.key);
    assert key in MembersValue(members) && v.members[key] == Value(members.node);
    if members.MoreMembers? {
      MembersAreTheForm(members.members, depth, v);
      assert KeysOf(members)[1..] == KeysOf(members.members);
    }
  }

  /**
   * The canonical text is the one text for its value that is written tightly: a text that stands for a value has a
   * good tree, and it is the canonical text if and only if that tree has no white space, keys in order, every
   * character in its shortest form, and no capital in an escape.
   */
  lemma CanonicalFormIsUnique(node: Node, v: Json)
    requires Good(node, 0) && Value(node) == v && Canonical(v).Some?
    ensures Tight(node) ==> Render(node) == Canonical(v).value
    ensures Tight(CanonicalNode(v)) && Good(CanonicalNode(v), 0) && Value(CanonicalNode(v)) == v
    ensures Canonical(v).value == Render(CanonicalNode(v))
  {
    hide Good, Value, Tight, Render, CanonicalNode;
    TreeIsTheForm(node, 0);
    CanonicalIsGood(v, 0);
    TreeIsTheForm(CanonicalNode(v), 0);
  }

  /** Every escape in a canonical text that spells a number spells it `00` and two digits, in lower case. */
  lemma CanonicalEscapes(text: Text, i: nat)
    requires i < |PiecesOf(text)|
    ensures PiecesOf(text)[i].Hex? ==>
              && PiecesOf(text)[i].a == ZERO && PiecesOf(text)[i].b == ZERO
              && !IsCapital(PiecesOf(text)[i].c) && !IsCapital(PiecesOf(text)[i].d)
  {
    if i == 0 {
      PieceOfIsTight(text[0]);
    } else {
      CanonicalEscapes(text[1..], i - 1);
    }
  }

  // ----- no text is shorter

  /** What one member adds to an object: its key, its value, and the character that follows. */
  ghost function MemberLength(v: Json, key: Text): nat
    requires v.Obj? && key in v.members
  {
    |RenderKey(Key([], PiecesOf(key), []))| + |Render(CanonicalNode(v.members[key]))| + 1
  }

  ghost function MembersLength(v: Json, keys: set<Text>): nat
    requires v.Obj? && keys <= v.members.Keys
  {
    if keys == {} then 0
    else
      var key :| key in keys;
      MemberLength(v, key) + MembersLength(v, keys - {key})
  }

  /** The length of a set of members does not depend on the order they are written in. */
  lemma {:induction false} MembersLengthAny(v: Json, keys: set<Text>, key: Text)
    requires v.Obj? && keys <= v.members.Keys && key in keys
    ensures MembersLength(v, keys) == MemberLength(v, key) + MembersLength(v, keys - {key})
    decreases keys
  {
    hide MemberLength;
    var first :| first in keys && MembersLength(v, keys) == MemberLength(v, first) + MembersLength(v, keys - {first});
    if first != key {
      MembersLengthAny(v, keys - {first}, key);
      MembersLengthAny(v, keys - {key}, first);
      assert keys - {first} - {key} == keys - {key} - {first};
    }
  }

  lemma {:induction false} CanonicalMembersLength(v: Json, keys: seq<Text>)
    requires v.Obj? && keys != [] && forall i :: 0 <= i < |keys| ==> keys[i] in v.members
    requires forall i, j :: 0 <= i < j < |keys| ==> keys[i] != keys[j]
    ensures SetOf(keys) <= v.members.Keys
    ensures |RenderMembers(CanonicalMembers(v, keys))| == MembersLength(v, SetOf(keys))
    decreases |keys|
  {
    hide CanonicalNode, RenderKey, Render;
    MembersLengthAny(v, SetOf(keys), keys[0]);
    assert SetOf(keys) - {keys[0]} == SetOf(keys[1..]);
    if |keys| > 1 { CanonicalMembersLength(v, keys[1..]); } else { assert SetOf(keys[1..]) == {}; }
  }

  lemma {:induction false} MembersAreLonger(members: Members, depth: nat, v: Json)
    requires GoodMembers(members, depth) && v.Obj?
    requires forall key :: key in MembersValue(members) ==>
               key in v.members && v.members[key] == MembersValue(members)[key]
    ensures MembersValue(members).Keys <= v.members.Keys
    ensures MembersLength(v, MembersValue(members).Keys) <= |RenderMembers(members)|
    decreases members, 0
  {
    hide Good, Value, CanonicalNode, WellFormed, Render, PiecesOf, PiecesValue, MembersLength;
    var key, all := KeyText(members.key), MembersValue(members).Keys;
    TreeIsShortest(members.node, depth);
    PiecesAreTheForm(members.key.pieces);
    assert key in MembersValue(members) && v.members[key] == Value(members.node);
    MembersLengthAny(v, all, key);
    if members.MoreMembers? {
      MembersAreLonger(members.members, depth, v);
      assert all - {key} == MembersValue(members.members).Keys;
    } else {
      assert all - {key} == {};
      NoMembersLength(v);
    }
  }

  lemma NoMembersLength(v: Json)
    requires v.Obj?
    ensures MembersLength(v, {}) == 0
  {
  }

  lemma {:induction false} ItemsAreShortest(items: Items, depth: nat)
    requires GoodItems(items, depth)
    ensures ItemsValue(items) != [] && |RenderItems(CanonicalItems(ItemsValue(items)))| <= |RenderItems(items)|
    decreases items
  {
    hide Good, Value, CanonicalNode, Render;
    TreeIsShortest(items.node, depth);
    if items.More? {
      ItemsAreShortest(items.items, depth);
      assert ItemsValue(items)[1..] == ItemsValue(items.items);
    }
  }

  lemma ObjectIsShortest(node: Node, depth: nat)
    requires Good(node, depth) && node.body.ObjBody?
    ensures |Render(CanonicalNode(Value(node)))| <= |Render(node)|
    decreases node.body.members, 1
  {
    hide GoodMembers, CanonicalMembers, MembersValue, SortedKeys, ListsOnce, KeysOf, RenderMembers, MembersLength,
      SetOf, InKeyOrder;
    var members, v := node.body.members, Value(node);
    KeysAreListed(members, depth + 1);
    KeysAreThere(members, v, KeysOf(members));
    var keys := SortedKeys(v.members.Keys);
    SortedKeysAreTheKeys(v.members.Keys);
    ListedInMembers(v, keys);
    WholeMap(v, keys);
    CanonicalMembersLength(v, keys);
    MembersAreLonger(members, depth + 1, v);
  }

  lemma {:induction false} TreeIsShortest(node: Node, depth: nat)
    requires Good(node, depth)
    ensures |Render(CanonicalNode(Value(node)))| <= |Render(node)|
    decreases node
  {
    hide GoodItems, GoodMembers, CanonicalItems, CanonicalMembers, ItemsValue, MembersValue, WellFormed, PiecesOf,
      Digits, SortedKeys, DigitsValue, IsSafeInteger, KeysOf, RenderItems, RenderMembers, RenderPieces;
    match node.body
    case StrBody(pieces) => PiecesAreTheForm(pieces);
    case NumBody(negative, digits) => NumberIsTheForm(negative, digits);
    case ArrBody(items) => ItemsAreShortest(items, depth + 1);
    case ObjBody(members) => ObjectIsShortest(node, depth);
    case _ =>
  }

  /** No text that stands for the value, however it is written, is shorter than the canonical one. */
  lemma CanonicalIsShortest(text: Text, v: Json)
    requires Parse(text) == Some(v)
    ensures Canonical(v).Some? && |Canonical(v).value| <= |text|
  {
    hide Parse, Good, Value, Render, CanonicalNode, Fits, Size;
    ParsedIsPrintable(text);
    AcceptsExactlyGoodTrees(text, v);
    var node, trailing :| IsTextOf(text, node, trailing) && Value(node) == v;
    TreeIsShortest(node, 0);
  }
}
