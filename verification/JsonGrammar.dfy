/** The parser accepts exactly the renderings of good syntax trees, and returns their values. */
module JsonGrammar {
  import opened Options
  import opened JsonValues
  import opened JsonSyntax
  import opened JsonParser

  // ----- tokens are read back

  predicate Visible(rest: Text) {
    rest == [] || !IsSpace(rest[0])
  }

  lemma {:induction false} SpaceIsSkipped(space: Text, rest: Text)
    requires AllSpace(space) && Visible(rest)
    ensures SkipSpace(space + rest) == rest
  {
    if space == [] {
      assert space + rest == rest;
    } else {
      assert (space + rest)[1..] == space[1..] + rest;
      SpaceIsSkipped(space[1..], rest);
    }
  }

  lemma {:induction false} DigitsAreTaken(digits: Text, rest: Text)
    requires AllDigits(digits) && (rest != [] ==> !IsDigit(rest[0]))
    ensures TakeDigits(digits + rest) == (digits, rest)
  {
    if digits == [] {
      assert digits + rest == rest;
    } else {
      assert (digits + rest)[1..] == digits[1..] + rest;
      DigitsAreTaken(digits[1..], rest);
      assert digits == [digits[0]] + digits[1..];
    }
  }

  lemma ZeroStandsAlone(digits: Text)
    requires AllDigits(digits) && digits != [] && digits[0] == ZERO && |digits| == 1
    ensures digits == [ZERO]
  {
  }

  lemma NumberIsRead(negative: bool, digits: Text, rest: Text)
    requires GoodNumber(negative, digits) && Stops(rest)
    ensures ParseNumber(RenderNumber(negative, digits) + rest) == Some((NumberValue(negative, digits), rest))
  {
    hide DigitsValue;
    var s := RenderNumber(negative, digits) + rest;
    var unsigned := digits + rest;
    assert (if negative then s[1..] else s) == unsigned;
    DigitsAreTaken(digits, rest);
    if digits[0] == ZERO {
      ZeroStandsAlone(digits);
      assert unsigned[1..] == rest;
    }
  }

  lemma {:induction false} PiecesAreScanned(pieces: seq<Piece>, rest: Text)
    requires GoodPieces(pieces)
    ensures ScanString(RenderPieces(pieces) + ([QUOTE] + rest)) == Some(|RenderPieces(pieces)| + 1)
  {
    if pieces == [] {
      assert RenderPieces(pieces) + ([QUOTE] + rest) == [QUOTE] + rest;
    } else {
      var more := RenderPieces(pieces[1..]) + ([QUOTE] + rest);
      PiecesAreScanned(pieces[1..], rest);
      PieceIsScanned(pieces[0], more);
      assert RenderPieces(pieces) + ([QUOTE] + rest) == RenderPiece(pieces[0]) + more;
    }
  }

  lemma PieceIsScanned(piece: Piece, more: Text)
    requires GoodPiece(piece)
    ensures
      var end := ScanString(more);
      ScanString(RenderPiece(piece) + more) == if end.Some? then Some(|RenderPiece(piece)| + end.value) else None
  {
    hide ScanString;
    match piece
    case Plain(u) => CharacterIsScanned(u, more);
    case Short(letter) => EscapeIsScanned(letter, more);
    case Hex(a, b, c, d) =>
      EscapeIsScanned(LETTER_U, [a, b, c, d] + more);
      HexDigitsAreScanned([a, b, c, d], more);
      assert RenderPiece(piece) + more == [BACKSLASH, LETTER_U] + ([a, b, c, d] + more);
  }

  lemma {:induction false} HexDigitsAreScanned(digits: Text, more: Text)
    requires forall i :: 0 <= i < |digits| ==> IsHexDigit(digits[i])
    ensures
      var end := ScanString(more);
      ScanString(digits + more) == if end.Some? then Some(|digits| + end.value) else None
  {
    hide ScanString;
    if digits == [] {
      assert digits + more == more;
    } else {
      assert digits + more == [digits[0]] + (digits[1..] + more);
      CharacterIsScanned(digits[0], digits[1..] + more);
      HexDigitsAreScanned(digits[1..], more);
    }
  }

  lemma EscapeIsScanned(letter: CodeUnit, more: Text)
    ensures
      var end := ScanString(more);
      ScanString([BACKSLASH, letter] + more) == if end.Some? then Some(end.value + 2) else None
  {
    assert ([BACKSLASH, letter] + more)[2..] == more;
  }

  lemma CharacterIsScanned(u: CodeUnit, more: Text)
    requires u != QUOTE && u != BACKSLASH
    ensures
      var end := ScanString(more);
      ScanString([u] + more) == if end.Some? then Some(end.value + 1) else None
  {
    assert ([u] + more)[1..] == more;
  }

  lemma {:induction false} PiecesAreRead(pieces: seq<Piece>)
    requires GoodPieces(pieces)
    ensures ReadPieces(RenderPieces(pieces)) == Some(pieces)
  {
    if pieces != [] {
      var body, more := RenderPieces(pieces), RenderPieces(pieces[1..]);
      PiecesAreRead(pieces[1..]);
      assert pieces == [pieces[0]] + pieces[1..];
      match pieces[0]
      case Plain(u) => assert body[1..] == more;
      case Short(letter) => assert body[2..] == more;
      case Hex(a, b, c, d) => assert body[6..] == more;
    }
  }

  lemma StringIsRead(pieces: seq<Piece>, rest: Text)
    requires GoodString(pieces)
    ensures ParseString(RenderString(pieces) + rest) == Some((PiecesValue(pieces), rest))
  {
    var s := RenderString(pieces) + rest;
    var body := RenderPieces(pieces);
    PiecesAreScanned(pieces, rest);
    PiecesAreRead(pieces);
    assert s[1..] == body + ([QUOTE] + rest);
    assert s[1..|body| + 1] == body;
    assert s[|body| + 2..] == rest;
  }

  // ----- completeness: renderings are accepted

  /** The first character of a value tells which kind of value it is. */
  lemma BodyIsVisible(body: Body, depth: nat, rest: Text)
    requires GoodBody(body, depth)
    ensures RenderBody(body) != [] && !IsSpace(RenderBody(body)[0])
    ensures RenderBody(body)[0] != CLOSE_BRACKET
  {
    hide DigitsValue, WellFormed, PiecesValue, RenderPieces, RenderItems, RenderMembers;
  }

  predicate Follows(u: CodeUnit) {
    u in {COMMA, CLOSE_BRACKET, CLOSE_BRACE, COLON}
  }

  lemma SeparatorStops(after: Text, separator: CodeUnit, rest: Text)
    requires AllSpace(after) && Follows(separator)
    ensures Stops(after + ([separator] + rest))
    ensures SkipSpace(after + ([separator] + rest)) == [separator] + rest
  {
    SpaceIsSkipped(after, [separator] + rest);
  }

  /** What a value without children is parsed to, once the white space in front is gone. */
  lemma LiteralIsParsed(node: Node, depth: nat, values: nat, rest: Text)
    requires depth <= MAX_DEPTH && values + 1 <= MAX_VALUES
    requires node.body.NullBody? || node.body.BoolBody?
    requires SkipSpace(Render(node) + rest) == RenderBody(node.body) + rest
    ensures ParseValue(Render(node) + rest, depth, values) == Got(Value(node), rest, values + 1)
  {
    hide SkipSpace;
    var t := RenderBody(node.body) + rest;
    assert t[|RenderBody(node.body)|..] == rest;
  }

  lemma ScalarIsParsed(node: Node, depth: nat, values: nat, rest: Text)
    requires depth <= MAX_DEPTH && values + 1 <= MAX_VALUES && Stops(rest) && GoodBody(node.body, depth)
    requires node.body.NumBody? || node.body.StrBody?
    requires SkipSpace(Render(node) + rest) == RenderBody(node.body) + rest
    ensures ParseValue(Render(node) + rest, depth, values) == Got(Value(node), rest, values + 1)
  {
    hide SkipSpace, WellFormed, PiecesValue, RenderPieces, DigitsValue, ParseString, ParseNumber, IsSafeInteger;
    match node.body
    case NumBody(negative, digits) => NumberIsRead(negative, digits, rest);
    case StrBody(pieces) => StringIsRead(pieces, rest);
  }

  lemma EmptyIsParsed(node: Node, depth: nat, values: nat, rest: Text)
    requires depth <= MAX_DEPTH && values + 1 <= MAX_VALUES && GoodBody(node.body, depth)
    requires node.body.EmptyArr? || node.body.EmptyObj?
    requires SkipSpace(Render(node) + rest) == RenderBody(node.body) + rest
    ensures ParseValue(Render(node) + rest, depth, values) == Got(Value(node), rest, values + 1)
  {
    hide SkipSpace, ParseItems, ParseMembers;
    var t := RenderBody(node.body) + rest;
    var close := if node.body.EmptyArr? then CLOSE_BRACKET else CLOSE_BRACE;
    assert t[1..] == node.body.inside + ([close] + rest);
    SeparatorStops(node.body.inside, close, rest);
    assert ([close] + rest)[1..] == rest;
  }

  lemma LeafIsParsed(node: Node, depth: nat, values: nat, rest: Text)
    requires Good(node, depth) && values + Count(node) <= MAX_VALUES && Stops(rest)
    requires !node.body.ArrBody? && !node.body.ObjBody?
    ensures ParseValue(Render(node) + rest, depth, values) == Got(Value(node), rest, values + Count(node))
  {
    hide SkipSpace, ParseValue, Render, RenderBody, Value, GoodBody, Stops;
    NodeInFront(node, depth, rest);
    match node.body
    case NullBody => LiteralIsParsed(node, depth, values, rest);
    case BoolBody(_) => LiteralIsParsed(node, depth, values, rest);
    case NumBody(_, _) => ScalarIsParsed(node, depth, values, rest);
    case StrBody(_) => ScalarIsParsed(node, depth, values, rest);
    case _ => EmptyIsParsed(node, depth, values, rest);
  }

  lemma {:induction false} SkipTwice(s: Text)
    ensures SkipSpace(SkipSpace(s)) == SkipSpace(s)
  {
    if s != [] && IsSpace(s[0]) { SkipTwice(s[1..]); }
  }

  /** A value is read the same with or without the white space in front of it. */
  lemma SpaceInFront(s: Text, depth: nat, values: nat)
    ensures ParseValue(SkipSpace(s), depth, values) == ParseValue(s, depth, values)
    ensures ParseItems(SkipSpace(s), depth, values) == ParseItems(s, depth, values)
    ensures forall seen :: ParseMembers(SkipSpace(s), depth, values, seen) == ParseMembers(s, depth, values, seen)
  {
    SkipTwice(s);
  }

  lemma NodeInFront(node: Node, depth: nat, rest: Text)
    requires Good(node, depth)
    ensures SkipSpace(Render(node) + rest) == RenderBody(node.body) + rest
    ensures RenderBody(node.body) != [] && RenderBody(node.body)[0] != CLOSE_BRACKET
  {
    hide SkipSpace, GoodBody, RenderBody;
    BodyIsVisible(node.body, depth, rest);
    SpaceIsSkipped(node.space, RenderBody(node.body) + rest);
    assert Render(node) + rest == node.space + (RenderBody(node.body) + rest);
  }

  lemma ItemsInFront(items: Items, depth: nat, rest: Text)
    requires GoodItems(items, depth)
    ensures
      var t := SkipSpace(RenderItems(items) + rest);
      t != [] && t[0] != CLOSE_BRACKET
  {
    hide SkipSpace, GoodBody, RenderBody, Render, Good;
    var tail := if items.More? then items.after + [COMMA] + RenderItems(items.items) else items.after + [CLOSE_BRACKET];
    assert RenderItems(items) + rest == Render(items.node) + (tail + rest);
    NodeInFront(items.node, depth, tail + rest);
  }

  lemma MembersInFront(members: Members, depth: nat, rest: Text)
    requires GoodMembers(members, depth)
    ensures
      var t := SkipSpace(RenderMembers(members) + rest);
      t != [] && t[0] == QUOTE
  {
    hide SkipSpace, GoodBody, RenderBody, Render, Good, RenderPieces;
    var tail := RenderMembers(members)[|members.key.space|..];
    SpaceIsSkipped(members.key.space, tail + rest);
    assert RenderMembers(members) + rest == members.key.space + (tail + rest);
  }

  lemma ArrayIsParsed(items: Items, depth: nat, values: nat, rest: Text)
    requires GoodItems(items, depth) && values <= MAX_VALUES
    requires ParseItems(RenderItems(items) + rest, depth, values)
             == Got(ItemsValue(items), rest, values + CountItems(items))
    ensures ParseArray(RenderItems(items) + rest, depth, values)
            == Got(Arr(ItemsValue(items)), rest, values + CountItems(items))
  {
    hide ParseItems, RenderItems, GoodItems, ItemsValue, CountItems;
    ItemsInFront(items, depth, rest);
    SpaceInFront(RenderItems(items) + rest, depth, values);
  }

  lemma ObjectIsParsed(members: Members, depth: nat, values: nat, rest: Text)
    requires GoodMembers(members, depth) && values <= MAX_VALUES
    requires ParseMembers(RenderMembers(members) + rest, depth, values, {})
             == Got(MembersValue(members), rest, values + CountMembers(members))
    ensures ParseObject(RenderMembers(members) + rest, depth, values)
            == Got(Obj(MembersValue(members)), rest, values + CountMembers(members))
  {
    hide ParseMembers, RenderMembers, GoodMembers, MembersValue, CountMembers;
    MembersInFront(members, depth, rest);
    SpaceInFront(RenderMembers(members) + rest, depth, values);
  }

  /** A container is recognised by its opening bracket, whatever stands in front of it. */
  lemma ContainerIsParsed(node: Node, depth: nat, values: nat, tail: Text)
    requires Good(node, depth) && values + 1 <= MAX_VALUES
    requires node.body.ArrBody? || node.body.ObjBody?
    ensures node.body.ArrBody? ==>
              ParseValue(Render(node) + tail, depth, values)
              == ParseArray(RenderItems(node.body.items) + tail, depth + 1, values + 1)
    ensures node.body.ObjBody? ==>
              ParseValue(Render(node) + tail, depth, values)
              == ParseObject(RenderMembers(node.body.members) + tail, depth + 1, values + 1)
  {
    hide ParseArray, ParseObject, GoodBody, RenderItems, RenderMembers;
    var t := RenderBody(node.body) + tail;
    NodeInFront(node, depth, tail);
    match node.body
    case ArrBody(items) => assert t[1..] == RenderItems(items) + tail;
    case ObjBody(members) => assert t[1..] == RenderMembers(members) + tail;
  }

  /** Every rendering of a good tree, in any context that ends the value, is read back as the tree's value. */
  lemma {:induction false} RenderingIsParsed(node: Node, depth: nat, values: nat, rest: Text)
    requires Good(node, depth) && values + Count(node) <= MAX_VALUES && Stops(rest)
    ensures ParseValue(Render(node) + rest, depth, values) == Got(Value(node), rest, values + Count(node))
    decreases node
  {
    hide ParseValue, ParseArray, ParseObject, ParseItems, ParseMembers, RenderItems, RenderMembers, GoodItems,
      GoodMembers, Stops;
    match node.body
    case ArrBody(items) =>
      ContainerIsParsed(node, depth, values, rest);
      ItemsAreParsed(items, depth + 1, values + 1, rest);
      ArrayIsParsed(items, depth + 1, values + 1, rest);
    case ObjBody(members) =>
      ContainerIsParsed(node, depth, values, rest);
      MembersAreParsed(members, depth + 1, values + 1, {}, rest);
      ObjectIsParsed(members, depth + 1, values + 1, rest);
    case _ => LeafIsParsed(node, depth, values, rest);
  }

  lemma {:induction false} ItemsAreParsed(items: Items, depth: nat, values: nat, rest: Text)
    requires GoodItems(items, depth) && values + CountItems(items) <= MAX_VALUES
    ensures ParseItems(RenderItems(items) + rest, depth, values)
            == Got(ItemsValue(items), rest, values + CountItems(items))
    decreases items
  {
    hide ParseValue, Render, Value, Count, Good, SkipSpace;
    var node, after := items.node, items.after;
    match items
    case Last(_, _) =>
      var tail := after + ([CLOSE_BRACKET] + rest);
      SeparatorStops(after, CLOSE_BRACKET, rest);
      RenderingIsParsed(node, depth, values, tail);
      assert RenderItems(items) + rest == Render(node) + tail;
      assert ([CLOSE_BRACKET] + rest)[1..] == rest;
      assert ItemsValue(items) == [Value(node)];
    case More(_, _, more) =>
      var tail := after + ([COMMA] + (RenderItems(more) + rest));
      SeparatorStops(after, COMMA, RenderItems(more) + rest);
      RenderingIsParsed(node, depth, values, tail);
      assert RenderItems(items) + rest == Render(node) + tail;
      assert ([COMMA] + (RenderItems(more) + rest))[1..] == RenderItems(more) + rest;
      ItemsAreParsed(more, depth, values + Count(node), rest);
  }

  lemma KeyIsParsed(key: Key, seen: set<Text>, rest: Text)
    requires GoodKey(key) && KeyText(key) !in seen
    ensures ParseKey(RenderKey(key) + rest, seen) == Some((KeyText(key), rest))
  {
    hide RenderPieces, WellFormed, SkipSpace, ParseString;
    var quoted := RenderString(key.pieces) + (key.beforeColon + ([COLON] + rest));
    assert RenderKey(key) + rest == key.space + quoted;
    SpaceIsSkipped(key.space, quoted);
    StringIsRead(key.pieces, key.beforeColon + ([COLON] + rest));
    SeparatorStops(key.beforeColon, COLON, rest);
    assert ([COLON] + rest)[1..] == rest;
  }

  lemma {:induction false} MembersAreParsed(members: Members, depth: nat, values: nat, seen: set<Text>, rest: Text)
    requires GoodMembers(members, depth) && values + CountMembers(members) <= MAX_VALUES
    requires forall key :: key in MembersValue(members) ==> key !in seen
    ensures ParseMembers(RenderMembers(members) + rest, depth, values, seen)
            == Got(MembersValue(members), rest, values + CountMembers(members))
    decreases members
  {
    hide ParseValue, Render, RenderKey, ParseKey, Value, Count, Good, SkipSpace, GoodKey;
    var key, node, after := members.key, members.node, members.after;
    match members
    case LastMember(_, _, _) =>
      var tail := after + ([CLOSE_BRACE] + rest);
      SeparatorStops(after, CLOSE_BRACE, rest);
      KeyIsParsed(key, seen, Render(node) + tail);
      RenderingIsParsed(node, depth, values, tail);
      assert RenderMembers(members) + rest == RenderKey(key) + (Render(node) + tail);
      assert ([CLOSE_BRACE] + rest)[1..] == rest;
    case MoreMembers(_, _, _, more) =>
      var tail := after + ([COMMA] + (RenderMembers(more) + rest));
      SeparatorStops(after, COMMA, RenderMembers(more) + rest);
      KeyIsParsed(key, seen, Render(node) + tail);
      RenderingIsParsed(node, depth, values, tail);
      assert RenderMembers(members) + rest == RenderKey(key) + (Render(node) + tail);
      assert ([COMMA] + (RenderMembers(more) + rest))[1..] == RenderMembers(more) + rest;
      MembersAreParsed(more, depth, values + Count(node), seen + {KeyText(key)}, rest);
  }

  // ----- soundness: accepted texts have a tree

  function LeadingSpace(s: Text): (space: Text)
    ensures AllSpace(space) && s == space + SkipSpace(s)
  {
    if s != [] && IsSpace(s[0]) then [s[0]] + LeadingSpace(s[1..]) else []
  }

  lemma NumberHasDigits(t: Text) returns (negative: bool, digits: Text)
    requires ParseNumber(t).Some?
    ensures GoodNumber(negative, digits)
    ensures t == RenderNumber(negative, digits) + ParseNumber(t).value.1
    ensures NumberValue(negative, digits) == ParseNumber(t).value.0
  {
    hide DigitsValue;
    negative := t[0] == MINUS;
    var unsigned := if negative then t[1..] else t;
    digits := if unsigned[0] == ZERO then [ZERO] else TakeDigits(unsigned).0;
    assert unsigned == digits + ParseNumber(t).value.1;
  }

  /** Reading takes one good piece off the front. */
  lemma FirstPieceIsGood(body: Text)
    requires body != [] && ReadPieces(body).Some?
    ensures
      var pieces := ReadPieces(body).value;
      && pieces != [] && GoodPiece(pieces[0]) && |RenderPiece(pieces[0])| <= |body|
      && body[..|RenderPiece(pieces[0])|] == RenderPiece(pieces[0])
      && ReadPieces(body[|RenderPiece(pieces[0])|..]) == Some(pieces[1..])
  {
  }

  lemma {:induction false} ReadPiecesAreGood(body: Text)
    requires ReadPieces(body).Some?
    ensures GoodPieces(ReadPieces(body).value) && RenderPieces(ReadPieces(body).value) == body
  {
    if body != [] {
      hide ReadPieces, GoodPiece, RenderPiece;
      var pieces := ReadPieces(body).value;
      FirstPieceIsGood(body);
      var n := |RenderPiece(pieces[0])|;
      ReadPiecesAreGood(body[n..]);
      assert body == body[..n] + body[n..];
    }
  }

  lemma StringHasPieces(t: Text) returns (pieces: seq<Piece>)
    requires t != [] && t[0] == QUOTE && ParseString(t).Some?
    ensures GoodString(pieces)
    ensures t == RenderString(pieces) + ParseString(t).value.1
    ensures PiecesValue(pieces) == ParseString(t).value.0
  {
    hide WellFormed, PiecesValue, ReadPieces, ScanString, RenderPieces;
    var end := ScanString(t[1..]).value;
    var body := t[1..end];
    ReadPiecesAreGood(body);
    pieces := ReadPieces(body).value;
    assert t == [QUOTE] + body + [QUOTE] + t[end + 1..];
  }

  lemma KeyHasTree(s: Text, seen: set<Text>) returns (key: Key)
    requires ParseKey(s, seen).Some?
    ensures GoodKey(key) && KeyText(key) == ParseKey(s, seen).value.0
    ensures s == RenderKey(key) + ParseKey(s, seen).value.1
  {
    hide WellFormed, PiecesValue, RenderPieces, SkipSpace, ParseString;
    var t := SkipSpace(s);
    var pieces := StringHasPieces(t);
    var r := ParseString(t).value.1;
    key := Key(LeadingSpace(s), pieces, LeadingSpace(r));
    assert SkipSpace(r) == [COLON] + SkipSpace(r)[1..];
  }

  ghost predicate IsTreeOf(node: Node, depth: nat, values: nat, s: Text, parsed: Parsed<Json>) {
    && parsed.Got? && s == Render(node) + parsed.rest && Good(node, depth)
    && Value(node) == parsed.value && values + Count(node) == parsed.values
  }

  ghost predicate AreItemsOf(items: Items, depth: nat, values: nat, s: Text, parsed: Parsed<seq<Json>>) {
    && parsed.Got? && s == RenderItems(items) + parsed.rest && GoodItems(items, depth)
    && ItemsValue(items) == parsed.value && values + CountItems(items) == parsed.values
  }

  ghost predicate AreMembersOf(
    members: Members, depth: nat, values: nat, seen: set<Text>, s: Text, parsed: Parsed<map<Text, Json>>)
  {
    && parsed.Got? && s == RenderMembers(members) + parsed.rest && GoodMembers(members, depth)
    && MembersValue(members) == parsed.value && values + CountMembers(members) == parsed.values
    && MembersValue(members).Keys !! seen
  }

  lemma LeafHasTree(s: Text, depth: nat, values: nat) returns (node: Node)
    requires ParseValue(s, depth, values).Got?
    requires SkipSpace(s) != [] && SkipSpace(s)[0] !in {OPEN_BRACE, OPEN_BRACKET}
    ensures IsTreeOf(node, depth, values, s, ParseValue(s, depth, values))
  {
    hide SkipSpace, ParseString, ParseNumber, WellFormed, PiecesValue, RenderPieces, DigitsValue, IsSafeInteger;
    var t, space := SkipSpace(s), LeadingSpace(s);
    if t[0] == QUOTE {
      var pieces := StringHasPieces(t);
      node := Node(space, StrBody(pieces));
    } else if StartsWith(t, NULL) {
      node := Node(space, NullBody);
      assert t == NULL + t[4..];
    } else if StartsWith(t, TRUE) {
      node := Node(space, BoolBody(true));
      assert t == TRUE + t[4..];
    } else if StartsWith(t, FALSE) {
      node := Node(space, BoolBody(false));
      assert t == FALSE + t[5..];
    } else {
      var negative, digits := NumberHasDigits(t);
      node := Node(space, NumBody(negative, digits));
    }
    ContainerTree(node, s, t, depth);
  }

  /** Every accepted text is the rendering of a good tree with the parsed value. */
  lemma {:induction false} AcceptedHasTree(s: Text, depth: nat, values: nat) returns (node: Node)
    requires ParseValue(s, depth, values).Got?
    ensures IsTreeOf(node, depth, values, s, ParseValue(s, depth, values))
    decreases |s|, 0
  {
    hide SkipSpace, ParseItems, ParseMembers, ParseString, ParseNumber, Render, RenderItems, RenderMembers;
    var t := SkipSpace(s);
    if t[0] == OPEN_BRACE {
      var body := ObjectHasTree(t[1..], depth + 1, values + 1);
      node := Node(LeadingSpace(s), body);
      ContainerTree(node, s, t, depth);
    } else if t[0] == OPEN_BRACKET {
      var body := ArrayHasTree(t[1..], depth + 1, values + 1);
      node := Node(LeadingSpace(s), body);
      ContainerTree(node, s, t, depth);
    } else {
      node := LeafHasTree(s, depth, values);
    }
  }

  lemma ContainerTree(node: Node, s: Text, t: Text, depth: nat)
    requires depth <= MAX_DEPTH && s == node.space + t && AllSpace(node.space) && GoodBody(node.body, depth)
    ensures Good(node, depth)
    ensures forall rest :: t == RenderBody(node.body) + rest ==> s == Render(node) + rest
  {
  }

  lemma ArrayHasTree(s: Text, depth: nat, values: nat) returns (body: Body)
    requires depth > 0 && values <= MAX_VALUES && ParseArray(s, depth, values).Got?
    ensures
      var parsed := ParseArray(s, depth, values);
      && GoodBody(body, depth - 1)
      && [OPEN_BRACKET] + s == RenderBody(body) + parsed.rest
      && (forall space :: Value(Node(space, body)) == parsed.value)
      && (forall space :: values + Count(Node(space, body)) - 1 == parsed.values)
    decreases |s|, 2
  {
    hide SkipSpace, ParseItems, RenderItems, ItemsValue, CountItems, GoodItems;
    var t := SkipSpace(s);
    if t != [] && t[0] == CLOSE_BRACKET {
      body := EmptyArr(LeadingSpace(s));
      assert t == [CLOSE_BRACKET] + t[1..];
    } else {
      SpaceInFront(s, depth, values);
      var items := ItemsHaveTree(s, depth, values);
      body := ArrBody(items);
    }
  }

  lemma {:induction false} ItemsHaveTree(s: Text, depth: nat, values: nat) returns (items: Items)
    requires ParseItems(s, depth, values).Got?
    ensures AreItemsOf(items, depth, values, s, ParseItems(s, depth, values))
    decreases |s|, 1
  {
    hide SkipSpace, ParseValue, Render, Value, Count, Good;
    var node := AcceptedHasTree(s, depth, values);
    var parsed := ParseValue(s, depth, values);
    var after, t := LeadingSpace(parsed.rest), SkipSpace(parsed.rest);
    if t[0] == CLOSE_BRACKET {
      items := Last(node, after);
      assert t == [CLOSE_BRACKET] + t[1..];
      assert ItemsValue(items) == [Value(node)];
    } else {
      var more := ItemsHaveTree(t[1..], depth, parsed.values);
      items := More(node, after, more);
      assert t == [COMMA] + t[1..];
    }
  }

  lemma ObjectHasTree(s: Text, depth: nat, values: nat) returns (body: Body)
    requires depth > 0 && values <= MAX_VALUES && ParseObject(s, depth, values).Got?
    ensures
      var parsed := ParseObject(s, depth, values);
      && GoodBody(body, depth - 1)
      && [OPEN_BRACE] + s == RenderBody(body) + parsed.rest
      && (forall space :: Value(Node(space, body)) == parsed.value)
      && (forall space :: values + Count(Node(space, body)) - 1 == parsed.values)
    decreases |s|, 2
  {
    hide SkipSpace, ParseMembers, RenderMembers, MembersValue, CountMembers, GoodMembers;
    var t := SkipSpace(s);
    if t != [] && t[0] == CLOSE_BRACE {
      body := EmptyObj(LeadingSpace(s));
      assert t == [CLOSE_BRACE] + t[1..];
    } else {
      SpaceInFront(s, depth, values);
      var members := MembersHaveTree(s, depth, values, {});
      body := ObjBody(members);
    }
  }

  lemma Regroup(key: Text, node: Text, after: Text, separator: CodeUnit, more: Text, rest: Text)
    ensures key + (node + (after + ([separator] + rest))) == key + (node + (after + [separator])) + rest
    ensures key + (node + (after + ([separator] + (more + rest)))) == key + (node + (after + [separator] + more)) + rest
  {
  }

  lemma LastMemberTree(
    key: Key, node: Node, after: Text, s: Text, depth: nat, values: nat, seen: set<Text>, u: Text, r: Text, rest: Text,
    parsed: Parsed<map<Text, Json>>)
    requires GoodKey(key) && KeyText(key) !in seen && Good(node, depth) && AllSpace(after)
    requires s == RenderKey(key) + u && u == Render(node) + r && r == after + ([CLOSE_BRACE] + rest)
    requires parsed == Got(map[KeyText(key) := Value(node)], rest, values + Count(node))
    ensures AreMembersOf(LastMember(key, node, after), depth, values, seen, s, parsed)
  {
    hide GoodKey, RenderKey, Good, Render, KeyText, Value, Count;
    Regroup(RenderKey(key), Render(node), after, CLOSE_BRACE, [], rest);
  }

  lemma MoreMembersTree(
    key: Key, node: Node, after: Text, more: Members, s: Text, depth: nat, values: nat, seen: set<Text>, u: Text,
    r: Text, t: Text, tail: Parsed<map<Text, Json>>, parsed: Parsed<map<Text, Json>>)
    requires GoodKey(key) && KeyText(key) !in seen && Good(node, depth) && AllSpace(after)
    requires s == RenderKey(key) + u && u == Render(node) + r && r == after + ([COMMA] + t)
    requires AreMembersOf(more, depth, values + Count(node), seen + {KeyText(key)}, t, tail)
    requires parsed == Got(tail.value[KeyText(key) := Value(node)], tail.rest, tail.values)
    ensures AreMembersOf(MoreMembers(key, node, after, more), depth, values, seen, s, parsed)
  {
    hide GoodKey, RenderKey, Good, Render, KeyText, Value, Count;
    Regroup(RenderKey(key), Render(node), after, COMMA, RenderMembers(more), tail.rest);
  }

  lemma {:induction false} MembersHaveTree(s: Text, depth: nat, values: nat, seen: set<Text>) returns (members: Members)
    requires ParseMembers(s, depth, values, seen).Got?
    ensures AreMembersOf(members, depth, values, seen, s, ParseMembers(s, depth, values, seen))
    decreases |s|, 1
  {
    hide SkipSpace, ParseValue, ParseKey, Render, RenderKey, Value, Count, Good, GoodKey, KeyText, AreMembersOf;
    var key := KeyHasTree(s, seen);
    var u := ParseKey(s, seen).value.1;
    var node := AcceptedHasTree(u, depth, values);
    var parsed := ParseValue(u, depth, values);
    var after, t := LeadingSpace(parsed.rest), SkipSpace(parsed.rest);
    assert t == [t[0]] + t[1..];
    if t[0] == CLOSE_BRACE {
      members := LastMember(key, node, after);
      LastMemberTree(
        key, node, after, s, depth, values, seen, u, parsed.rest, t[1..], ParseMembers(s, depth, values, seen));
    } else {
      var more := MembersHaveTree(t[1..], depth, parsed.values, seen + {KeyText(key)});
      members := MoreMembers(key, node, after, more);
      MoreMembersTree(
        key, node, after, more, s, depth, values, seen, u, parsed.rest, t[1..],
        ParseMembers(t[1..], depth, parsed.values, seen + {KeyText(key)}), ParseMembers(s, depth, values, seen));
    }
  }

  // ----- the accepted texts

  /** One good tree, with room for its values, and white space behind it. */
  ghost predicate IsTextOf(text: Text, node: Node, trailing: Text) {
    text == Render(node) + trailing && AllSpace(trailing) && Good(node, 0) && Count(node) <= MAX_VALUES
  }

  /** `parseGaapJson` accepts a text, as a value, exactly when the text renders a good tree of that value. */
  lemma AcceptsExactlyGoodTrees(text: Text, value: Json)
    ensures Parse(text) == Some(value)
            <==> exists node, trailing :: IsTextOf(text, node, trailing) && Value(node) == value
  {
    hide ParseValue, Render, Good, Value, Count, SkipSpace;
    if Parse(text) == Some(value) {
      var node := AcceptedHasTree(text, 0, 0);
      var rest := ParseValue(text, 0, 0).rest;
      assert rest == LeadingSpace(rest);
      assert IsTextOf(text, node, rest);
    }
    if node, trailing :| IsTextOf(text, node, trailing) && Value(node) == value {
      SpaceStops(trailing);
      RenderingIsParsed(node, 0, 0, trailing);
      assert trailing + [] == trailing;
      SpaceIsSkipped(trailing, []);
    }
  }

  lemma SpaceStops(trailing: Text)
    requires AllSpace(trailing)
    ensures Stops(trailing)
  {
  }
}
