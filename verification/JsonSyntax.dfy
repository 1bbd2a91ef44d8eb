/**
 * The concrete syntax of bounded I-JSON texts, with integers only: a syntax tree records every character of a text,
 * so rendering a tree gives the text back and its value is the JSON tree the text stands for.
 */
module JsonSyntax {
  import opened JsonValues

  const MAX_DEPTH := 64

  const MAX_VALUES := 1_000_000

  const QUOTE: CodeUnit := 0x22
  const BACKSLASH: CodeUnit := 0x5C
  const COMMA: CodeUnit := 0x2C
  const COLON: CodeUnit := 0x3A
  const MINUS: CodeUnit := 0x2D
  const ZERO: CodeUnit := 0x30
  const OPEN_BRACKET: CodeUnit := 0x5B
  const CLOSE_BRACKET: CodeUnit := 0x5D
  const OPEN_BRACE: CodeUnit := 0x7B
  const CLOSE_BRACE: CodeUnit := 0x7D
  const LETTER_U: CodeUnit := 0x75

  const NULL: Text := [0x6E, 0x75, 0x6C, 0x6C]
  const TRUE: Text := [0x74, 0x72, 0x75, 0x65]
  const FALSE: Text := [0x66, 0x61, 0x6C, 0x73, 0x65]

  // ----- characters

  predicate IsSpace(u: CodeUnit) {
    u == 0x20 || u == 0x09 || u == 0x0D || u == 0x0A
  }

  predicate AllSpace(text: Text) {
    forall i :: 0 <= i < |text| ==> IsSpace(text[i])
  }

  predicate IsDigit(u: CodeUnit) {
    0x30 <= u <= 0x39
  }

  predicate IsHexDigit(u: CodeUnit) {
    IsDigit(u) || 0x41 <= u <= 0x46 || 0x61 <= u <= 0x66
  }

  function HexValue(u: CodeUnit): (v: nat)
    ensures v < 16
  {
    if IsDigit(u) then u - 0x30
    else if 0x41 <= u <= 0x46 then u - 0x41 + 10
    else if 0x61 <= u <= 0x66 then u - 0x61 + 10
    else 0
  }

  /** What may follow a number: anything that would not have been read as part of it. */
  predicate Stops(rest: Text) {
    rest != [] ==> !IsDigit(rest[0]) && rest[0] !in {0x2E, 0x65, 0x45}
  }

  // ----- strings

  datatype Piece =
    | Plain(unit: CodeUnit)
    | Short(letter: CodeUnit)
    | Hex(a: CodeUnit, b: CodeUnit, c: CodeUnit, d: CodeUnit)

  /** `\"`, `\\`, `\/`, `\b`, `\f`, `\n`, `\r`, `\t` */
  predicate IsEscapeLetter(u: CodeUnit) {
    u in {0x22, 0x5C, 0x2F, 0x62, 0x66, 0x6E, 0x72, 0x74}
  }

  function EscapeValue(letter: CodeUnit): CodeUnit {
    if letter == 0x62 then 0x08
    else if letter == 0x66 then 0x0C
    else if letter == 0x6E then 0x0A
    else if letter == 0x72 then 0x0D
    else if letter == 0x74 then 0x09
    else letter
  }

  predicate GoodPiece(p: Piece) {
    match p
    case Plain(u) => u >= 0x20 && u != QUOTE && u != BACKSLASH
    case Short(letter) => IsEscapeLetter(letter)
    case Hex(a, b, c, d) => IsHexDigit(a) && IsHexDigit(b) && IsHexDigit(c) && IsHexDigit(d)
  }

  function PieceValue(p: Piece): CodeUnit {
    match p
    case Plain(u) => u
    case Short(letter) => EscapeValue(letter)
    case Hex(a, b, c, d) => HexValue(a) * 0x1000 + HexValue(b) * 0x100 + HexValue(c) * 0x10 + HexValue(d)
  }

  function RenderPiece(p: Piece): (text: Text)
    ensures text != []
  {
    match p
    case Plain(u) => [u]
    case Short(letter) => [BACKSLASH, letter]
    case Hex(a, b, c, d) => [BACKSLASH, LETTER_U, a, b, c, d]
  }

  predicate GoodPieces(pieces: seq<Piece>) {
    forall i :: 0 <= i < |pieces| ==> GoodPiece(pieces[i])
  }

  function RenderPieces(pieces: seq<Piece>): Text {
    if pieces == [] then [] else RenderPiece(pieces[0]) + RenderPieces(pieces[1..])
  }

  function PiecesValue(pieces: seq<Piece>): (text: Text)
    ensures |text| == |pieces|
  {
    if pieces == [] then [] else [PieceValue(pieces[0])] + PiecesValue(pieces[1..])
  }

  /** Every surrogate is one half of a pair. */
  predicate WellFormed(text: Text) {
    if text == [] then true
    else if 0xD800 <= text[0] <= 0xDBFF then
      |text| >= 2 && 0xDC00 <= text[1] <= 0xDFFF && WellFormed(text[2..])
    else !(0xDC00 <= text[0] <= 0xDFFF) && WellFormed(text[1..])
  }

  predicate GoodString(pieces: seq<Piece>) {
    GoodPieces(pieces) && WellFormed(PiecesValue(pieces))
  }

  function RenderString(pieces: seq<Piece>): Text {
    [QUOTE] + RenderPieces(pieces) + [QUOTE]
  }

  // ----- numbers

  predicate AllDigits(text: Text) {
    forall i :: 0 <= i < |text| ==> IsDigit(text[i])
  }

  function DigitsValue(digits: Text): nat {
    if digits == [] then 0 else DigitsValue(digits[..|digits| - 1]) * 10 + HexValue(digits[|digits| - 1])
  }

  function NumberValue(negative: bool, digits: Text): int {
    var value: int := DigitsValue(digits);
    if negative then -value else value
  }

  /** No leading zeros, no minus zero, and exactly representable. */
  predicate GoodNumber(negative: bool, digits: Text) {
    && digits != [] && AllDigits(digits)
    && (digits[0] == ZERO ==> |digits| == 1)
    && IsSafeInteger(NumberValue(negative, digits))
    && !(negative && NumberValue(negative, digits) == 0)
  }

  function RenderNumber(negative: bool, digits: Text): Text {
    (if negative then [MINUS] else []) + digits
  }

  // ----- values

  /** A value and the white space in front of it. */
  datatype Node = Node(space: Text, body: Body)

  datatype Body =
    | NullBody
    | BoolBody(flag: bool)
    | NumBody(negative: bool, digits: Text)
    | StrBody(pieces: seq<Piece>)
    | EmptyArr(inside: Text)
    | ArrBody(items: Items)
    | EmptyObj(inside: Text)
    | ObjBody(members: Members)

  /** The items of a nonempty array, each with the white space in front of its separator. */
  datatype Items = Last(node: Node, after: Text) | More(node: Node, after: Text, items: Items)

  datatype Key = Key(space: Text, pieces: seq<Piece>, beforeColon: Text)

  datatype Members =
    | LastMember(key: Key, node: Node, after: Text)
    | MoreMembers(key: Key, node: Node, after: Text, members: Members)

  function Render(node: Node): Text {
    node.space + RenderBody(node.body)
  }

  function RenderBody(body: Body): Text {
    match body
    case NullBody => NULL
    case BoolBody(flag) => if flag then TRUE else FALSE
    case NumBody(negative, digits) => RenderNumber(negative, digits)
    case StrBody(pieces) => RenderString(pieces)
    case EmptyArr(inside) => [OPEN_BRACKET] + inside + [CLOSE_BRACKET]
    case ArrBody(items) => [OPEN_BRACKET] + RenderItems(items)
    case EmptyObj(inside) => [OPEN_BRACE] + inside + [CLOSE_BRACE]
    case ObjBody(members) => [OPEN_BRACE] + RenderMembers(members)
  }

  /** The items up to and including the closing bracket. */
  function RenderItems(items: Items): Text {
    match items
    case Last(node, after) => Render(node) + (after + [CLOSE_BRACKET])
    case More(node, after, more) => Render(node) + (after + [COMMA] + RenderItems(more))
  }

  function RenderKey(key: Key): Text {
    key.space + (RenderString(key.pieces) + (key.beforeColon + [COLON]))
  }

  function RenderMembers(members: Members): Text {
    match members
    case LastMember(key, node, after) => RenderKey(key) + (Render(node) + (after + [CLOSE_BRACE]))
    case MoreMembers(key, node, after, more) =>
      RenderKey(key) + (Render(node) + (after + [COMMA] + RenderMembers(more)))
  }

  // ----- which trees stand for accepted texts

  predicate GoodKey(key: Key) {
    AllSpace(key.space) && GoodString(key.pieces) && AllSpace(key.beforeColon)
  }

  function KeyText(key: Key): Text {
    PiecesValue(key.pieces)
  }

  predicate Good(node: Node, depth: nat) {
    depth <= MAX_DEPTH && AllSpace(node.space) && GoodBody(node.body, depth)
  }

  predicate GoodBody(body: Body, depth: nat) {
    match body
    case NullBody => true
    case BoolBody(_) => true
    case NumBody(negative, digits) => GoodNumber(negative, digits)
    case StrBody(pieces) => GoodString(pieces)
    case EmptyArr(inside) => AllSpace(inside)
    case ArrBody(items) => GoodItems(items, depth + 1)
    case EmptyObj(inside) => AllSpace(inside)
    case ObjBody(members) => GoodMembers(members, depth + 1)
  }

  predicate GoodItems(items: Items, depth: nat) {
    && Good(items.node, depth) && AllSpace(items.after)
    && (items.More? ==> GoodItems(items.items, depth))
  }

  /** No two members share a key. */
  predicate GoodMembers(members: Members, depth: nat) {
    && GoodKey(members.key) && Good(members.node, depth) && AllSpace(members.after)
    && (members.MoreMembers? ==>
          GoodMembers(members.members, depth) && KeyText(members.key) !in MembersValue(members.members))
  }

  function Value(node: Node): Json {
    match node.body
    case NullBody => Null
    case BoolBody(flag) => Bool(flag)
    case NumBody(negative, digits) => Num(NumberValue(negative, digits))
    case StrBody(pieces) => Str(PiecesValue(pieces))
    case EmptyArr(_) => Arr([])
    case ArrBody(items) => Arr(ItemsValue(items))
    case EmptyObj(_) => Obj(map[])
    case ObjBody(members) => Obj(MembersValue(members))
  }

  function ItemsValue(items: Items): seq<Json> {
    [Value(items.node)] + if items.More? then ItemsValue(items.items) else []
  }

  function MembersValue(members: Members): map<Text, Json> {
    if members.MoreMembers? then MembersValue(members.members)[KeyText(members.key) := Value(members.node)]
    else map[KeyText(members.key) := Value(members.node)]
  }

  /** How many values the text holds; keys are not values. */
  function Count(node: Node): nat {
    1 + match node.body
        case ArrBody(items) => CountItems(items)
        case ObjBody(members) => CountMembers(members)
        case _ => 0
  }

  function CountItems(items: Items): nat {
    Count(items.node) + if items.More? then CountItems(items.items) else 0
  }

  function CountMembers(members: Members): nat {
    Count(members.node) + if members.MoreMembers? then CountMembers(members.members) else 0
  }
}
