/** Engine payloads as the dictionaries the program passes around. */
module Payloads {

  datatype Option<+T> = None | Some(value: T)

  /** The values a payload field may hold; nested structures keep only their
      truthiness. */
  datatype Value = Null | Bool(b: bool) | Num(r: real) | Str(s: string) | Container(nonempty: bool)

  type Dict = map<string, Value>

  /** How numeric text reads; `None` where it is no number. */
  type Parser = string -> Option<real>

  /** `d.get(key)` */
  function Get(d: Dict, key: string): Value { if key in d then d[key] else Null }

  /** `d.setdefault(key, v)` */
  function SetDefault(d: Dict, key: string, v: Value): Dict { if key in d then d else d[key := v] }

  predicate Truthy(v: Value) {
    match v
    case Null => false
    case Bool(b) => b
    case Num(r) => r != 0.0
    case Str(s) => s != ""
    case Container(nonempty) => nonempty
  }

  /** `float(v)`; `None` where Python raises. */
  function ToFloat(v: Value, parse: Parser): Option<real> {
    match v
    case Null => None
    case Bool(b) => Some(if b then 1.0 else 0.0)
    case Num(r) => Some(r)
    case Str(s) => parse(s)
    case Container(_) => None
  }

  /** `(v or "")` where the program goes on to call a string method. */
  function TextOf(v: Value): string { if v.Str? then v.s else "" }

  /** A field that is text, or falsy and so read as empty text. */
  predicate TextLike(v: Value) { v.Str? || !Truthy(v) }

  /** A field that `float(v or 0.0)` accepts. */
  predicate NumberLike(v: Value, parse: Parser) { !Truthy(v) || ToFloat(v, parse).Some? }

  /** `float(v or 0.0)` for a number-like field. */
  function NumberOf(v: Value, parse: Parser): real {
    if Truthy(v) && ToFloat(v, parse).Some? then ToFloat(v, parse).value else 0.0
  }

  /** The falsy values. */
  lemma FalsyValues(s: string, r: real)
    ensures !Truthy(Null) && !Truthy(Bool(false)) && Truthy(Bool(true)) && !Truthy(Container(false)) && Truthy(Container(true))
    ensures (Truthy(Str(s)) <==> |s| > 0) && (Truthy(Num(r)) <==> r < 0.0 || r > 0.0)
  {
  }

  /** How `float(v or 0.0)` reads a field, and on what it raises. */
  lemma NumbersMeaning(s: string, r: real, parse: Parser)
    ensures NumberOf(Num(r), parse) == r && NumberOf(Bool(true), parse) == 1.0
    ensures NumberOf(Null, parse) == NumberOf(Bool(false), parse) == NumberOf(Str(""), parse) == 0.0
    ensures s != "" && parse(s).Some? ==> NumberOf(Str(s), parse) == parse(s).value
    ensures NumberLike(Num(r), parse) && NumberLike(Null, parse) && NumberLike(Container(false), parse)
    ensures !NumberLike(Container(true), parse)
    ensures NumberLike(Str(s), parse) <==> s == "" || parse(s).Some?
    ensures ToFloat(Null, parse).None? && ToFloat(Bool(false), parse) == Some(0.0) && ToFloat(Container(true), parse).None?
    ensures TextLike(Str(s)) && TextLike(Null) && !TextLike(Bool(true)) && !TextLike(Container(true))
  {
  }
}
