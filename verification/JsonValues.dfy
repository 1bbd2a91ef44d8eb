/**
 * JSON trees over UTF-16 text, as ECMAScript sees them. Object members form a map, because the order in which a
 * JavaScript object lists its own keys is invisible to every operation modelled here: the printers sort keys first.
 * Numbers are integers (the `integerLiterals` mode of src/domain/gaap-json.ts).
 */
module JsonValues {
  type CodeUnit = unit: int | 0 <= unit < 0x1_0000

  type Text = seq<CodeUnit>

  datatype Json =
    | Null
    | Bool(flag: bool)
    | Num(value: int)
    | Str(text: Text)
    | Arr(items: seq<Json>)
    | Obj(members: map<Text, Json>)

  /** 2^53 - 1, the bound of `Number.isSafeInteger`. */
  const MAX_SAFE_INTEGER := 0x1F_FFFF_FFFF_FFFF

  predicate IsSafeInteger(n: int) {
    -MAX_SAFE_INTEGER <= n <= MAX_SAFE_INTEGER
  }

  function ToCodeUnit(c: char): CodeUnit {
    c as int % 0x1_0000
  }

  /** The code units of a literal; only applied to ASCII literals. */
  function Ascii(literal: string): Text {
    seq(|literal|, i requires 0 <= i < |literal| => ToCodeUnit(literal[i]))
  }
}
