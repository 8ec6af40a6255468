/** Decoded messages and the length of their encoded form.

    A decoded message is plain data (`Value`).  The two bundled codecs differ only in
    how many bytes that data takes, so an encoding is represented by its length. */
module Messages {

  datatype Option<+T> = None | Some(value: T)

  datatype Format = Json | MsgPack

  /** Decoded data.  A dictionary keeps its keys in insertion order; `Float` carries its
      printed digits, since nothing here computes with it. */
  datatype Value =
    | Null
    | Bool(b: bool)
    | Int(i: int)
    | Float(digits: string)
    | Str(s: string)
    | Arr(items: seq<Value>)
    | Obj(fields: seq<Member>)

  datatype Member = Member(key: string, value: Value)

  /** Dictionary lookup. */
  function Get(fields: seq<Member>, key: string): Option<Value>
  {
    if fields == [] then None
    else if fields[0].key == key then Some(fields[0].value)
    else Get(fields[1..], key)
  }

  // ----- Encoded length -----

  /** Bytes of one character inside a JSON string: section 7 of RFC 8259 makes the quote,
      the backslash and the control characters escape; the rest is UTF-8. */
  function EscapedCharSize(c: char): nat
  {
    if c in {'\"', '\\', '\n', '\r', '\t'} || c as int in {8, 12} then 2
    else if c as int < 0x20 then 6
    else Utf8Size(c)
  }

  function Utf8Size(c: char): nat
  {
    if c as int < 0x80 then 1 else if c as int < 0x800 then 2 else if c as int < 0x10000 then 3 else 4
  }

  function CharsSize(f: Format, s: string): nat
  {
    if s == "" then 0
    else (match f case Json => EscapedCharSize(s[0]) case MsgPack => Utf8Size(s[0])) + CharsSize(f, s[1..])
  }

  function StrSize(f: Format, s: string): nat
  {
    var n := CharsSize(f, s);
    match f
    case Json => n + 2
    case MsgPack => n + (if n <= 31 then 1 else if n <= 255 then 2 else if n <= 65535 then 3 else 5)
  }

  function Digits(n: nat): nat
  {
    if n < 10 then 1 else 1 + Digits(n / 10)
  }

  function IntSize(f: Format, i: int): nat
  {
    match f
    case Json => if i < 0 then 1 + Digits(-i) else Digits(i)
    case MsgPack =>
      if -32 <= i <= 127 then 1
      else if -128 <= i <= 255 then 2
      else if -0x8000 <= i <= 0xffff then 3
      else if -0x8000_0000 <= i <= 0xffff_ffff then 5
      else 9
  }

  /** Bytes a list of n elements adds to the elements themselves. */
  function ListOverhead(f: Format, n: nat): nat
  {
    match f
    case Json => if n == 0 then 2 else n + 1
    case MsgPack => if n <= 15 then 1 else if n <= 65535 then 3 else 5
  }

  /** Bytes a dictionary of n members adds to its keys and values. */
  function ObjOverhead(f: Format, n: nat): nat
  {
    match f
    case Json => ListOverhead(f, n) + n
    case MsgPack => ListOverhead(f, n)
  }

  function Size(f: Format, v: Value): nat
  {
    match v
    case Null => (match f case Json => 4 case MsgPack => 1)
    case Bool(b) => (match f case Json => if b then 4 else 5 case MsgPack => 1)
    case Int(i) => IntSize(f, i)
    case Float(digits) => (match f case Json => |digits| case MsgPack => 9)
    case Str(s) => StrSize(f, s)
    case Arr(items) => ListOverhead(f, |items|) + ItemsSize(f, items)
    case Obj(fields) => ObjOverhead(f, |fields|) + MembersSize(f, fields)
  }

  function ItemsSize(f: Format, items: seq<Value>): nat
  {
    if items == [] then 0 else Size(f, items[0]) + ItemsSize(f, items[1..])
  }

  function MembersSize(f: Format, fields: seq<Member>): nat
  {
    if fields == [] then 0
    else StrSize(f, fields[0].key) + Size(f, fields[0].value) + MembersSize(f, fields[1..])
  }

  // ----- The JSON list printer behind ListOverhead -----

  function Joined(parts: seq<string>): string
  {
    if parts == [] then "" else if |parts| == 1 then parts[0] else parts[0] + "," + Joined(parts[1..])
  }

  function JsonList(parts: seq<string>): string
  {
    "[" + Joined(parts) + "]"
  }

  function TotalLength(parts: seq<string>): nat
  {
    if parts == [] then 0 else |parts[0]| + TotalLength(parts[1..])
  }

  /** Joining with commas between brackets costs exactly what ListOverhead charges. */
  lemma {:induction false} JsonListLength(parts: seq<string>)
    ensures |JsonList(parts)| == TotalLength(parts) + ListOverhead(Json, |parts|)
  {
    if |parts| > 1 {
      JsonListLength(parts[1..]);
    } else if |parts| == 1 {
      assert TotalLength(parts[1..]) == 0;
    }
  }

  // ----- Bounds -----

  lemma {:induction false} CharsSizeBound(f: Format, s: string)
    ensures CharsSize(f, s) <= (match f case Json => 6 * |s| case MsgPack => 4 * |s|)
  {
    if s != "" {
      CharsSizeBound(f, s[1..]);
    }
  }

  /** Escaping lengthens a string at most sixfold, quotes or header aside, in either codec. */
  lemma StrSizeBound(f: Format, s: string)
    ensures StrSize(f, s) <= 6 * |s| + 2
  {
    CharsSizeBound(f, s);
  }

  function Pow10(k: nat): nat
  {
    if k == 0 then 1 else 10 * Pow10(k - 1)
  }

  lemma {:induction false} DigitsBound(n: nat, k: nat)
    requires 1 <= k && n < Pow10(k)
    ensures Digits(n) <= k
  {
    if n >= 10 {
      DigitsBound(n / 10, k - 1);
    }
  }

  /** A 64-bit integer takes at most 20 bytes. */
  lemma IntSizeBound(f: Format, i: int)
    requires -0x8000_0000_0000_0000 <= i <= 0x7fff_ffff_ffff_ffff
    ensures IntSize(f, i) <= 20
  {
    assert Pow10(6) == 1_000_000 by { assert Pow10(3) == 1000; }
    assert Pow10(12) == 1_000_000_000_000 by { assert Pow10(9) == 1_000_000_000; }
    assert Pow10(19) == 10_000_000_000_000_000_000 by { assert Pow10(16) == 10_000_000_000_000_000; }
    DigitsBound(if i < 0 then -i else i, 19);
  }

  lemma {:induction false} ItemsSizeAppend(f: Format, items: seq<Value>, v: Value)
    ensures ItemsSize(f, items + [v]) == ItemsSize(f, items) + Size(f, v)
  {
    if items == [] {
      assert items + [v] == [v];
    } else {
      assert (items + [v])[1..] == items[1..] + [v];
      ItemsSizeAppend(f, items[1..], v);
    }
  }
}
