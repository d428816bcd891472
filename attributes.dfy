/**
 * Attribute values a supplier attaches to a vertex or an edge, and their
 * encoding as JSON values: strings and custom kinds quoted, booleans as a
 * bare literal, int and long as unquoted integers, float and double as
 * unquoted decimals. A float or double that is NaN or infinite has no JSON
 * literal (section 6 of RFC 8259) and cannot be encoded.
 */
module Attributes {
  import opened Wrappers
  import opened Json
  import Decimal

  /** Java's int and long. */
  newtype int32 = x: int | -0x8000_0000 <= x < 0x8000_0000
  newtype int64 = x: int | -0x8000_0000_0000_0000 <= x < 0x8000_0000_0000_0000

  /**
   * A float or double value, abstractly: a finite value carries the text
   * Java's Float.toString / Double.toString gives for it ("3.4", "1.0").
   */
  datatype Num = Finite(text: NumberText) | NaN | PositiveInfinity | NegativeInfinity

  datatype Attribute =
    | StringAttr(s: string)
    | BooleanAttr(b: bool)
    | IntAttr(i: int32)
    | LongAttr(l: int64)
    | FloatAttr(f: Num)
    | DoubleAttr(d: Num)
    | CustomAttr(text: string)  // any other kind, exported through its text

  /** One (name, value) pair of a supplier's ordered attribute map. */
  datatype Entry = Entry(name: string, value: Attribute)

  predicate IsNonFinite(a: Attribute) {
    (a.FloatAttr? && !a.f.Finite?) || (a.DoubleAttr? && !a.d.Finite?)
  }

  function IntText(i: int): (t: NumberText)
    ensures t == Decimal.IntToString(i)
  {
    var s := Decimal.IntToString(i);
    assert forall k :: 0 <= k < |s| ==> IsNumberChar(s[k]) by {
      forall k | 0 <= k < |s| ensures IsNumberChar(s[k]) {
        if i < 0 && k > 0 {
          assert s[k] == s[1..][k - 1];
        }
      }
    }
    s
  }

  /** The JSON value of an attribute; None exactly for a non-finite float or double. */
  function Encode(a: Attribute): (r: Option<Value>)
    ensures r.None? <==> IsNonFinite(a)
  {
    match a
    case StringAttr(s) => Some(JString(s))
    case BooleanAttr(b) => Some(JBool(b))
    case IntAttr(i) => Some(JNumber(IntText(i as int)))
    case LongAttr(l) => Some(JNumber(IntText(l as int)))
    case FloatAttr(f) => if f.Finite? then Some(JNumber(f.text)) else None
    case DoubleAttr(d) => if d.Finite? then Some(JNumber(d.text)) else None
    case CustomAttr(t) => Some(JString(t))
  }

  /**
   * Type fidelity of the written literal: a string is a quoted JSON string,
   * a boolean the bare word, an int or long its canonical decimal text (an
   * optional '-', then digits with no leading zero) that reads back as the
   * same number, a finite float or double its own decimal text, unquoted.
   */
  lemma EncodeText(a: Attribute)
    requires !IsNonFinite(a)
    ensures var t := Write(Encode(a).value);
      match a
      case StringAttr(s) => t == Quote(s)
      case CustomAttr(s) => t == Quote(s)
      case BooleanAttr(b) => t == (if b then "true" else "false")
      case IntAttr(i) => t == Decimal.IntToString(i as int) && t[0] != '"' && Decimal.IntValue(t) == i as int
      case LongAttr(l) => t == Decimal.IntToString(l as int) && t[0] != '"' && Decimal.IntValue(t) == l as int
      case FloatAttr(f) => t == f.text && t[0] != '"'
      case DoubleAttr(d) => t == d.text && t[0] != '"'
  {
    match a
    case IntAttr(i) => Decimal.IntToStringRoundTrip(i as int);
    case LongAttr(l) => Decimal.IntToStringRoundTrip(l as int);
    case _ =>
  }
}
