/** The recursive printer of src/domain/gaap-json.ts, with its running count of values. */
module JsonEncoder {
  import opened Options
  import opened JsonValues
  import opened JsonSyntax
  import opened JsonPrinter

  /** `parts.join(',')` */
  function Join(parts: seq<Text>): Text {
    if parts == [] then []
    else if |parts| == 1 then parts[0]
    else parts[0] + [COMMA] + Join(parts[1..])
  }

  lemma JoinNothing()
    ensures Join([]) == []
  {
  }

  lemma {:induction false} SizeItemsAppend(items: seq<Json>, item: Json)
    ensures SizeItems(items + [item]) == SizeItems(items) + Size(item)
  {
    if items == [] {
      assert (items + [item])[1..] == [];
    } else {
      SizeItemsAppend(items[1..], item);
      assert (items + [item])[1..] == items[1..] + [item];
    }
  }

  lemma {:induction false} SizeItemsGrows(items: seq<Json>, n: nat)
    requires n <= |items|
    ensures SizeItems(items[..n]) <= SizeItems(items)
    decreases |items| - n
  {
    if n < |items| {
      SizeItemsGrows(items, n + 1);
      SizeItemsAppend(items[..n], items[n]);
      assert items[..n + 1] == items[..n] + [items[n]];
    } else {
      assert items[..n] == items;
    }
  }

  lemma {:induction false} SizeMembersGrows(v: Json, some: set<Text>, keys: set<Text>)
    requires v.Obj? && some <= keys <= v.members.Keys
    ensures SizeMembers(v, some) <= SizeMembers(v, keys)
    decreases keys - some
  {
    if key :| key in keys && key !in some {
      SizeMembersAny(v, some + {key}, key);
      assert some + {key} - {key} == some;
      SizeMembersGrows(v, some + {key}, keys);
    } else {
      assert some == keys;
    }
  }

  lemma {:induction false} ItemsAreJoined(items: seq<Json>, parts: seq<Text>)
    requires items != [] && |parts| == |items|
    requires forall i :: 0 <= i < |items| ==> parts[i] == Render(CanonicalNode(items[i]))
    ensures RenderItems(CanonicalItems(items)) == Join(parts) + [CLOSE_BRACKET]
    decreases |items|
  {
    hide Render, CanonicalNode;
    if |items| > 1 { ItemsAreJoined(items[1..], parts[1..]); }
  }

  /** A quoted key, a colon and the value. */
  ghost function MemberText(v: Json, key: Text): Text
    requires v.Obj? && key in v.members
  {
    RenderString(PiecesOf(key)) + [COLON] + Render(CanonicalNode(v.members[key]))
  }

  lemma {:induction false} MembersAreJoined(v: Json, keys: seq<Text>, parts: seq<Text>)
    requires v.Obj? && keys != [] && |parts| == |keys|
    requires forall i :: 0 <= i < |keys| ==> keys[i] in v.members && parts[i] == MemberText(v, keys[i])
    ensures RenderMembers(CanonicalMembers(v, keys)) == Join(parts) + [CLOSE_BRACE]
    decreases |keys|
  {
    hide Render, CanonicalNode, RenderString, PiecesOf;
    if |keys| > 1 { MembersAreJoined(v, keys[1..], parts[1..]); }
  }

  method SortKeys(keys: set<Text>) returns (sorted: seq<Text>)
    ensures sorted == SortedKeys(keys)
  {
    sorted := [];
    var remaining := keys;
    while remaining != {}
      invariant remaining <= keys && SortedKeys(keys) == sorted + SortedKeys(remaining)
      decreases |remaining|
    {
      LeastExists(remaining);
      ghost var smallest :| IsLeast(smallest, remaining);
      var least :| least in remaining && forall other :: other in remaining ==> LessEq(least, other);
      LeastIsUnique(least, SortedKeys(remaining)[0], remaining);
      assert SortedKeys(remaining) == [least] + SortedKeys(remaining - {least});
      sorted := sorted + [least];
      remaining := remaining - {least};
    }
  }

  class Encoder {
    var values: nat

    constructor ()
      ensures values == 0
    {
      values := 0;
    }

    /** `encode`: prints the canonical form, exactly when the tree fits what is left of the limits. */
    method Encode(entry: Json, depth: nat) returns (text: Option<Text>)
      modifies this
      ensures text.Some? <==> Fits(entry, depth) && old(values) + Size(entry) <= MAX_VALUES
      ensures text.Some? ==> text.value == Render(CanonicalNode(entry)) && values == old(values) + Size(entry)
      decreases entry, 2
    {
      hide WellFormed, Digits, PiecesOf, SizeItems, SizeMembers, CanonicalItems, CanonicalMembers, IsSafeInteger;
      values := values + 1;
      if depth > MAX_DEPTH || values > MAX_VALUES { return None; }
      match entry
      case Null => return Some(NULL);
      case Bool(flag) => return Some(if flag then TRUE else FALSE);
      case Str(s) => return if WellFormed(s) then Some(RenderString(PiecesOf(s))) else None;
      case Num(n) =>
        return if IsSafeInteger(n) then Some(RenderNumber(n < 0, Digits(if n < 0 then -n else n))) else None;
      case Arr(items) => text := EncodeItems(entry, depth);
      case Obj(_) => text := EncodeMembers(entry, depth);
    }

    method EncodeItems(entry: Json, depth: nat) returns (text: Option<Text>)
      requires entry.Arr? && depth <= MAX_DEPTH && values <= MAX_VALUES
      modifies this
      ensures text.Some? <==> Fits(entry, depth) && old(values) + SizeItems(entry.items) <= MAX_VALUES
      ensures text.Some? ==>
                text.value == Render(CanonicalNode(entry)) && values == old(values) + SizeItems(entry.items)
      decreases entry, 0
    {
      hide Render, CanonicalNode, Size, Join, RenderItems, CanonicalItems;
      var items := entry.items;
      var elements: seq<Text> := [];
      for index := 0 to |items|
        invariant |elements| == index
        invariant forall i :: 0 <= i < index ==>
                    Fits(items[i], depth + 1) && elements[i] == Render(CanonicalNode(items[i]))
        invariant values == old(values) + SizeItems(items[..index]) <= MAX_VALUES
      {
        SizeItemsAppend(items[..index], items[index]);
        assert items[..index + 1] == items[..index] + [items[index]];
        SizeItemsGrows(items, index + 1);
        var element := Encode(items[index], depth + 1);
        if element.None? { return None; }
        elements := elements + [element.value];
      }
      assert items[..|items|] == items;
      JoinNothing();
      if items != [] { ItemsAreJoined(items, elements); }
      text := Some([OPEN_BRACKET] + Join(elements) + [CLOSE_BRACKET]);
      ArrayText(entry, Join(elements));
    }

    method EncodeMembers(entry: Json, depth: nat) returns (text: Option<Text>)
      requires entry.Obj? && depth <= MAX_DEPTH && values <= MAX_VALUES
      modifies this
      ensures text.Some? <==> Fits(entry, depth) && old(values) + SizeMembers(entry, entry.members.Keys) <= MAX_VALUES
      ensures text.Some? ==>
                && text.value == Render(CanonicalNode(entry))
                && values == old(values) + SizeMembers(entry, entry.members.Keys)
      decreases entry, 1
    {
      hide Render, CanonicalNode, Size, Join, RenderMembers, CanonicalMembers, WellFormed, ListsOnce, InKeyOrder,
        SortedKeys, SizeMembers, MemberText, SetOf;
      var keys := SortKeys(entry.members.Keys);
      SortedKeysAreTheKeys(entry.members.Keys);
      var parts := EncodeKeys(entry, keys, depth);
      if parts.None? { return None; }
      AllKeysFit(entry, keys, depth);
      JoinNothing();
      if keys != [] { MembersAreJoined(entry, keys, parts.value); }
      text := Some([OPEN_BRACE] + Join(parts.value) + [CLOSE_BRACE]);
      ObjectText(entry, keys, Join(parts.value));
    }

    /** The members in key order, each as a quoted key, a colon and its value. */
    method EncodeKeys(entry: Json, keys: seq<Text>, depth: nat) returns (parts: Option<seq<Text>>)
      requires entry.Obj? && ListsOnce(keys, entry.members.Keys) && depth <= MAX_DEPTH && values <= MAX_VALUES
      modifies this
      ensures parts.Some? ==>
                && |parts.value| == |keys|
                && (forall i :: 0 <= i < |keys| ==>
                      && keys[i] in entry.members && WellFormed(keys[i]) && Fits(entry.members[keys[i]], depth + 1)
                      && parts.value[i] == MemberText(entry, keys[i]))
                && values == old(values) + SizeMembers(entry, entry.members.Keys) <= MAX_VALUES
      ensures parts.None? ==>
                !Fits(entry, depth) || old(values) + SizeMembers(entry, entry.members.Keys) > MAX_VALUES
      decreases entry, 0
    {
      hide Render, CanonicalNode, Size, WellFormed, PiecesOf, SizeMembers, ListsOnce, SetOf, RenderString;
      var members := entry.members;
      var built: seq<Text> := [];
      FirstKey(entry, keys);
      for index := 0 to |keys|
        invariant |built| == index && SetOf(keys[..index]) <= members.Keys
        invariant forall i :: 0 <= i < index ==>
                    && keys[i] in members && WellFormed(keys[i]) && Fits(members[keys[i]], depth + 1)
                    && built[i] == MemberText(entry, keys[i])
        invariant values == old(values) + SizeMembers(entry, SetOf(keys[..index])) <= MAX_VALUES
      {
        var key := keys[index];
        NextKey(entry, keys, index);
        if !WellFormed(key) { return None; }
        var value := Encode(members[key], depth + 1);
        if value.None? { return None; }
        built := built + [RenderString(PiecesOf(key)) + [COLON] + value.value];
      }
      return Some(built);
    }
  }

  lemma FirstKey(v: Json, keys: seq<Text>)
    requires v.Obj? && ListsOnce(keys, v.members.Keys)
    ensures SetOf(keys[..0]) == {} && SetOf(keys[..|keys|]) == v.members.Keys && SizeMembers(v, {}) == 0
  {
    NoMembers(v);
    assert keys[..|keys|] == keys;
  }

  lemma NextKey(v: Json, keys: seq<Text>, index: nat)
    requires v.Obj? && index < |keys| && ListsOnce(keys, v.members.Keys)
    ensures keys[index] in v.members
    ensures SetOf(keys[..index]) <= v.members.Keys && SetOf(keys[..index + 1]) <= v.members.Keys
    ensures SizeMembers(v, SetOf(keys[..index + 1]))
            == SizeMembers(v, SetOf(keys[..index])) + Size(v.members[keys[index]])
    ensures SizeMembers(v, SetOf(keys[..index + 1])) <= SizeMembers(v, v.members.Keys)
  {
    hide SizeMembers, Size;
    assert forall i :: 0 <= i < |keys| ==> keys[i] in keys;
    var key, some := keys[index], SetOf(keys[..index + 1]);
    assert keys[..index + 1] == keys[..index] + [key];
    assert some - {key} == SetOf(keys[..index]);
    SizeMembersAny(v, some, key);
    SizeMembersGrows(v, some, v.members.Keys);
  }

  lemma AllKeysFit(v: Json, keys: seq<Text>, depth: nat)
    requires v.Obj? && depth <= MAX_DEPTH && ListsOnce(keys, v.members.Keys)
    requires forall i :: 0 <= i < |keys| ==>
               keys[i] in v.members && WellFormed(keys[i]) && Fits(v.members[keys[i]], depth + 1)
    ensures Fits(v, depth)
  {
    forall key | key in v.members ensures WellFormed(key) && Fits(v.members[key], depth + 1) {
      assert key in keys;
      var i :| 0 <= i < |keys| && keys[i] == key;
    }
  }

  lemma ArrayText(v: Json, joined: Text)
    requires v.Arr?
    requires v.items == [] ==> joined == []
    requires v.items != [] ==> RenderItems(CanonicalItems(v.items)) == joined + [CLOSE_BRACKET]
    ensures Render(CanonicalNode(v)) == [OPEN_BRACKET] + joined + [CLOSE_BRACKET]
  {
  }

  lemma ObjectText(v: Json, keys: seq<Text>, joined: Text)
    requires v.Obj? && keys == SortedKeys(v.members.Keys)
    requires keys == [] ==> joined == []
    requires keys != [] ==>
               && (forall i :: 0 <= i < |keys| ==> keys[i] in v.members)
               && RenderMembers(CanonicalMembers(v, keys)) == joined + [CLOSE_BRACE]
    ensures Render(CanonicalNode(v)) == [OPEN_BRACE] + joined + [CLOSE_BRACE]
  {
    assert keys == [] <==> v.members == map[];
  }

  /** `canonicalGaapJson` */
  method CanonicalGaapJson(value: Json) returns (text: Option<Text>)
    ensures text == Canonical(value)
  {
    var encoder := new Encoder();
    text := encoder.Encode(value, 0);
  }
}
