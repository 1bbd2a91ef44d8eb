/** The hand-written cursor of src/domain/gaap-json.ts, proved against its specification. */
module JsonReader {
  import opened Options
  import opened JsonValues
  import opened JsonSyntax
  import opened JsonParser

  /** What is left to read. */
  function Rest(text: Text, offset: nat): Text
    requires offset <= |text|
  {
    text[offset..]
  }

  lemma RestAdvances(text: Text, offset: nat, n: nat)
    requires offset + n <= |text|
    ensures Rest(text, offset)[n..] == Rest(text, offset + n)
    ensures n == 1 ==> Rest(text, offset) == [text[offset]] + Rest(text, offset + 1)
  {
  }

  /** `wellFormed`: an index loop over the code units. */
  method IsWellFormed(text: Text) returns (ok: bool)
    ensures ok <==> WellFormed(text)
  {
    var index := 0;
    while index < |text|
      invariant 0 <= index <= |text|
      invariant WellFormed(text) <==> WellFormed(text[index..])
    {
      var code := text[index];
      if 0xD800 <= code <= 0xDBFF {
        index := index + 1;
        if index >= |text| || !(0xDC00 <= text[index] <= 0xDFFF) { return false; }
        assert text[index - 1..][2..] == text[index + 1..];
      } else if 0xDC00 <= code <= 0xDFFF {
        return false;
      } else {
        assert text[index..][1..] == text[index + 1..];
      }
      index := index + 1;
    }
    return true;
  }

  class JsonReader {
    const text: Text
    var offset: nat
    var values: nat

    ghost predicate Valid()
      reads this
    {
      offset <= |text|
    }

    constructor (text: Text)
      ensures Valid() && this.text == text && offset == 0 && values == 0
    {
      this.text := text;
      offset, values := 0, 0;
    }

    /** The reader stands where the specification left off. */
    ghost predicate StandsAt(rest: Text)
      reads this
    {
      offset <= |text| && Rest(text, offset) == rest
    }

    method Whitespace()
      requires Valid()
      modifies this`offset
      ensures StandsAt(SkipSpace(Rest(text, old(offset))))
      ensures old(offset) <= offset
    {
      while offset < |text| && IsSpace(text[offset])
        invariant old(offset) <= offset <= |text|
        invariant SkipSpace(Rest(text, offset)) == SkipSpace(Rest(text, old(offset)))
      {
        RestAdvances(text, offset, 1);
        offset := offset + 1;
      }
    }

    method TakeWhileDigits() returns (digits: Text)
      requires Valid()
      modifies this`offset
      ensures digits == TakeDigits(Rest(text, old(offset))).0
      ensures StandsAt(TakeDigits(Rest(text, old(offset))).1)
    {
      hide TakeDigits;
      var start := offset;
      digits := [];
      ghost var taken := TakeDigits(Rest(text, start));
      assert [] + taken.0 == taken.0;
      while offset < |text| && IsDigit(text[offset])
        invariant start <= offset <= |text|
        invariant (digits + TakeDigits(Rest(text, offset)).0, TakeDigits(Rest(text, offset)).1) == taken
      {
        RestAdvances(text, offset, 1);
        DigitIsTaken(digits, Rest(text, offset));
        digits := digits + [text[offset]];
        offset := offset + 1;
      }
      DigitsEnd(digits, Rest(text, offset));
    }

    /** In this mode a token that goes on with `.`, `e` or `E` is refused whatever follows. */
    method Number() returns (number: Option<int>)
      requires Valid() && offset < |text|
      modifies this`offset
      ensures match ParseNumber(Rest(text, old(offset)))
              case None => number.None?
              case Some((value, rest)) => number == Some(value) && StandsAt(rest)
    {
      hide DigitsValue, IsSafeInteger, TakeDigits;
      var negative := text[offset] == MINUS;
      if negative {
        RestAdvances(text, offset, 1);
        offset := offset + 1;
      }
      if offset == |text| || !IsDigit(text[offset]) { return None; }
      var digits: Text;
      if text[offset] == ZERO {
        RestAdvances(text, offset, 1);
        digits := [ZERO];
        offset := offset + 1;
      } else {
        digits := TakeWhileDigits();
      }
      if offset < |text| && text[offset] in {0x2E, 0x65, 0x45} { return None; }
      var value := NumberValue(negative, digits);
      if negative && value == 0 { return None; }
      if !IsSafeInteger(value) { return None; }
      return Some(value);
    }

    /** Moves just past the closing quote, if there is one. */
    method SkipToQuote() returns (found: bool)
      requires Valid()
      modifies this`offset
      ensures match ScanString(Rest(text, old(offset)))
              case None => !found
              case Some(end) => found && offset == old(offset) + end
    {
      hide ScanString, Scanned;
      var start := offset;
      ScanEnds(Rest(text, start));
      while offset < |text|
        invariant start <= offset <= |text|
        invariant Scanned(Rest(text, start), offset - start)
      {
        var character := text[offset];
        ghost var at := offset - start;
        ScanStep(Rest(text, start), at);
        offset := offset + 1;
        if character == BACKSLASH {
          if offset == |text| { return false; }
          offset := offset + 1;
        } else if character == QUOTE {
          return true;
        }
      }
      return false;
    }

    /** Finds the closing quote, then decodes the slice. */
    method String() returns (value: Option<Text>)
      requires Valid() && offset < |text| && text[offset] == QUOTE
      modifies this`offset
      ensures match ParseString(Rest(text, old(offset)))
              case None => value.None?
              case Some((decoded, rest)) => value == Some(decoded) && StandsAt(rest)
    {
      hide WellFormed, PiecesValue, ReadPieces, ScanString;
      var start := offset;
      RestAdvances(text, start, 1);
      offset := offset + 1;
      var found := SkipToQuote();
      if !found { return None; }
      ghost var end := offset - (start + 1);
      assert Rest(text, start)[1..end] == text[start + 1..offset - 1];
      assert Rest(text, start)[end + 1..] == Rest(text, offset);
      var pieces := ReadPieces(text[start + 1..offset - 1]);
      if pieces.None? { return None; }
      var ok := IsWellFormed(PiecesValue(pieces.value));
      return if ok then Some(PiecesValue(pieces.value)) else None;
    }

    method Value(depth: nat) returns (value: Option<Json>)
      requires Valid()
      modifies this
      ensures match ParseValue(Rest(text, old(offset)), depth, old(values))
              case Rejected => value.None?
              case Got(parsed, rest, n) => value == Some(parsed) && StandsAt(rest) && values == n
      decreases |text| - offset, 3
    {
      hide ParseArray, ParseObject, ParseString, ParseNumber, SkipSpace;
      values := values + 1;
      if depth > MAX_DEPTH || values > MAX_VALUES { return None; }
      Whitespace();
      if offset == |text| { return None; }
      var first := text[offset];
      if first == QUOTE {
        var s := String();
        return if s.Some? then Some(Str(s.value)) else None;
      }
      RestAdvances(text, offset, 1);
      if first == OPEN_BRACE {
        value := Object(depth + 1);
        return;
      }
      if first == OPEN_BRACKET {
        value := Array(depth + 1);
        return;
      }
      if NULL <= text[offset..] {
        RestAdvances(text, offset, 4);
        offset := offset + 4;
        return Some(Null);
      }
      if TRUE <= text[offset..] {
        RestAdvances(text, offset, 4);
        offset := offset + 4;
        return Some(Bool(true));
      }
      if FALSE <= text[offset..] {
        RestAdvances(text, offset, 5);
        offset := offset + 5;
        return Some(Bool(false));
      }
      var number := Number();
      return if number.Some? then Some(Num(number.value)) else None;
    }

    method Array(depth: nat) returns (value: Option<Json>)
      requires Valid() && offset < |text| && text[offset] == OPEN_BRACKET && values <= MAX_VALUES
      modifies this
      ensures match ParseArray(Rest(text, old(offset) + 1), depth, old(values))
              case Rejected => value.None?
              case Got(parsed, rest, n) => value == Some(parsed) && StandsAt(rest) && values == n
      decreases |text| - offset, 2
    {
      hide SkipSpace, ParseItems;
      offset := offset + 1;
      Whitespace();
      if offset < |text| && text[offset] == CLOSE_BRACKET {
        RestAdvances(text, offset, 1);
        offset := offset + 1;
        return Some(Arr([]));
      }
      var items := ArrayItems(depth);
      return if items.Some? then Some(Arr(items.value)) else None;
    }

    /** The loop over the items of a nonempty array, up to its closing bracket. */
    method ArrayItems(depth: nat) returns (result: Option<seq<Json>>)
      requires Valid()
      modifies this
      ensures match ParseItems(Rest(text, old(offset)), depth, old(values))
              case Rejected => result.None?
              case Got(parsed, rest, n) => result == Some(parsed) && StandsAt(rest) && values == n
      decreases |text| - offset, 4
    {
      hide SkipSpace, ParseValue;
      var items: seq<Json> := [];
      ghost var whole := ParseItems(Rest(text, offset), depth, values);
      WithNothing(whole, Rejected);
      while true
        invariant Valid() && old(offset) <= offset
        invariant whole == WithItems(items, ParseItems(Rest(text, offset), depth, values))
        decreases |text| - offset
      {
        ghost var start := offset;
        var item := Value(depth);
        if item.None? { return None; }
        Whitespace();
        if offset == |text| { return None; }
        RestAdvances(text, offset, 1);
        var separator := text[offset];
        offset := offset + 1;
        if separator == CLOSE_BRACKET { return Some(items + [item.value]); }
        if separator != COMMA { return None; }
        WithItemsStep(items, item.value, ParseItems(Rest(text, offset), depth, values));
        items := items + [item.value];
      }
    }

    method Object(depth: nat) returns (value: Option<Json>)
      requires Valid() && offset < |text| && text[offset] == OPEN_BRACE && values <= MAX_VALUES
      modifies this
      ensures match ParseObject(Rest(text, old(offset) + 1), depth, old(values))
              case Rejected => value.None?
              case Got(parsed, rest, n) => value == Some(parsed) && StandsAt(rest) && values == n
      decreases |text| - offset, 2
    {
      hide SkipSpace, ParseMembers;
      offset := offset + 1;
      Whitespace();
      if offset < |text| && text[offset] == CLOSE_BRACE {
        RestAdvances(text, offset, 1);
        offset := offset + 1;
        return Some(Obj(map[]));
      }
      var entries := ObjectMembers(depth);
      return if entries.Some? then Some(Obj(entries.value)) else None;
    }

    /** The loop over the members of a nonempty object, up to its closing brace. */
    method ObjectMembers(depth: nat) returns (result: Option<map<Text, Json>>)
      requires Valid()
      modifies this
      ensures match ParseMembers(Rest(text, old(offset)), depth, old(values), {})
              case Rejected => result.None?
              case Got(parsed, rest, n) => result == Some(parsed) && StandsAt(rest) && values == n
      decreases |text| - offset, 4
    {
      hide SkipSpace, ParseValue, ParseKey;
      var entries: map<Text, Json> := map[];
      ghost var whole := ParseMembers(Rest(text, offset), depth, values, {});
      WithNothing(Rejected, whole);
      assert entries.Keys == {};
      while true
        invariant Valid() && old(offset) <= offset
        invariant whole == WithMembers(entries, ParseMembers(Rest(text, offset), depth, values, entries.Keys))
        decreases |text| - offset
      {
        var key := ReadKey(entries.Keys);
        if key.None? { return None; }
        var item := Value(depth);
        if item.None? { return None; }
        Whitespace();
        if offset == |text| { return None; }
        RestAdvances(text, offset, 1);
        var separator := text[offset];
        offset := offset + 1;
        if separator == CLOSE_BRACE {
          assert entries + map[key.value := item.value] == entries[key.value := item.value];
          return Some(entries[key.value := item.value]);
        }
        if separator != COMMA { return None; }
        WithMembersStep(
          entries, key.value, item.value,
          ParseMembers(Rest(text, offset), depth, values, entries.Keys + {key.value}));
        assert entries[key.value := item.value].Keys == entries.Keys + {key.value};
        entries := entries[key.value := item.value];
      }
    }

    /** A quoted key that was not seen before, and its colon. */
    method ReadKey(keys: set<Text>) returns (key: Option<Text>)
      requires Valid()
      modifies this`offset
      ensures match ParseKey(Rest(text, old(offset)), keys)
              case None => key.None?
              case Some((name, rest)) => key == Some(name) && StandsAt(rest)
    {
      hide SkipSpace, ParseString;
      Whitespace();
      if offset == |text| || text[offset] != QUOTE { return None; }
      var name := String();
      if name.None? || name.value in keys { return None; }
      Whitespace();
      if offset == |text| || text[offset] != COLON { return None; }
      RestAdvances(text, offset, 1);
      offset := offset + 1;
      return name;
    }
  }

  lemma DigitIsTaken(digits: Text, s: Text)
    requires s != [] && IsDigit(s[0])
    ensures digits + TakeDigits(s).0 == (digits + [s[0]]) + TakeDigits(s[1..]).0
    ensures TakeDigits(s).1 == TakeDigits(s[1..]).1
  {
  }

  lemma DigitsEnd(digits: Text, s: Text)
    requires s != [] ==> !IsDigit(s[0])
    ensures digits + TakeDigits(s).0 == digits && TakeDigits(s).1 == s
  {
  }

  /** The scan has passed `n` characters of the string, and no closing quote. */
  ghost predicate Scanned(inside: Text, n: nat) {
    n <= |inside| &&
    var more := ScanString(inside[n..]);
    ScanString(inside) == if more.Some? then Some(n + more.value) else None
  }

  lemma ScanEnds(inside: Text)
    ensures Scanned(inside, 0)
    ensures Scanned(inside, |inside|) ==> ScanString(inside).None?
  {
    assert inside[0..] == inside && inside[|inside|..] == [];
  }

  lemma ScanStep(inside: Text, n: nat)
    requires Scanned(inside, n) && n < |inside|
    ensures inside[n] == BACKSLASH ==>
              if n + 2 <= |inside| then Scanned(inside, n + 2) else ScanString(inside).None?
    ensures inside[n] == QUOTE ==> ScanString(inside) == Some(n + 1)
    ensures inside[n] != BACKSLASH && inside[n] != QUOTE ==> Scanned(inside, n + 1)
  {
    hide ScanString;
    ScanUnfolds(inside[n..]);
    assert inside[n..][1..] == inside[n + 1..];
    if n + 2 <= |inside| { assert inside[n..][2..] == inside[n + 2..]; }
  }

  lemma ScanUnfolds(s: Text)
    requires s != []
    ensures s[0] == QUOTE ==> ScanString(s) == Some(1)
    ensures s[0] == BACKSLASH && |s| < 2 ==> ScanString(s).None?
    ensures s[0] == BACKSLASH && |s| >= 2 ==>
              ScanString(s) == if ScanString(s[2..]).Some? then Some(ScanString(s[2..]).value + 2) else None
    ensures s[0] != QUOTE && s[0] != BACKSLASH ==>
              ScanString(s) == if ScanString(s[1..]).Some? then Some(ScanString(s[1..]).value + 1) else None
  {
  }

  lemma WithNothing(items: Parsed<seq<Json>>, members: Parsed<map<Text, Json>>)
    ensures WithItems([], items) == items && WithMembers(map[], members) == members
  {
    if items.Got? { assert [] + items.value == items.value; }
    if members.Got? { assert map[] + members.value == members.value; }
  }

  function WithItems(items: seq<Json>, more: Parsed<seq<Json>>): Parsed<seq<Json>> {
    match more
    case Got(parsed, rest, n) => Got(items + parsed, rest, n)
    case Rejected => Rejected
  }

  lemma WithItemsStep(items: seq<Json>, item: Json, more: Parsed<seq<Json>>)
    ensures WithItems(items, WithItems([item], more)) == WithItems(items + [item], more)
  {
    if more.Got? { assert items + ([item] + more.value) == (items + [item]) + more.value; }
  }

  function WithMembers(entries: map<Text, Json>, more: Parsed<map<Text, Json>>): Parsed<map<Text, Json>> {
    match more
    case Got(parsed, rest, n) => Got(entries + parsed, rest, n)
    case Rejected => Rejected
  }

  lemma WithMembersStep(entries: map<Text, Json>, key: Text, item: Json, more: Parsed<map<Text, Json>>)
    requires key !in entries && (more.Got? ==> more.value.Keys !! (entries.Keys + {key}))
    ensures
      more.Got? ==>
        WithMembers(entries, Got(more.value[key := item], more.rest, more.values))
        == WithMembers(entries[key := item], more)
  {
    if more.Got? {
      assert entries + more.value[key := item] == entries[key := item] + more.value;
    }
  }

  /** `parseGaapJson`, from the decoded text. */
  method ParseGaapJson(text: Text) returns (value: Option<Json>)
    ensures value == Parse(text)
  {
    hide ParseValue, SkipSpace;
    var reader := new JsonReader(text);
    assert Rest(text, 0) == text;
    value := reader.Value(0);
    if value.None? { return None; }
    reader.Whitespace();
    if reader.offset != |text| { return None; }
  }
}
