/** The codec of common/rlp.go over nested byte strings and lists. */
module Rlp {
  import opened Wrappers

  type Byte = b: nat | b < 256

  datatype Item = Str(bytes: seq<Byte>) | List(items: seq<Item>)

  /** What decoding returns: a byte below 0x80 stands for itself. */
  datatype Decoded = One(b: Byte) | Bytes(bytes: seq<Byte>) | Items(items: seq<Decoded>)

  /** Go's conversion to byte. */
  function ToByte(n: nat): Byte {
    n % 256
  }

  /** The shortest big-endian form of a number; empty for zero. */
  function BigEndian(n: nat): seq<Byte> {
    if n == 0 then [] else BigEndian(n / 256) + [ToByte(n)]
  }

  /** The number a big-endian string stands for. */
  function Value(s: seq<Byte>): nat {
    if s == [] then 0 else 256 * Value(s[..|s| - 1]) + s[|s| - 1]
  }

  // ---------- encoding ----------

  /** A length with its kind: `short` for up to 55 bytes, `long` plus the length of
      the length otherwise. */
  function Prefix(length: nat, short: nat, long: nat): seq<Byte> {
    if length < 56 then [ToByte(length + short)]
    else [ToByte(|BigEndian(length)| + long)] + BigEndian(length)
  }

  function Encode(x: Item): seq<Byte> {
    match x
    case Str(t) => if |t| == 1 && t[0] <= 0x7f then t else Prefix(|t|, 0x80, 0xb7) + t
    case List(items) => Prefix(|EncodeAll(items)|, 0xc0, 0xf7) + EncodeAll(items)
  }

  function EncodeAll(items: seq<Item>): seq<Byte> {
    if items == [] then [] else Encode(items[0]) + EncodeAll(items[1..])
  }

  // ---------- decoding ----------

  /** `ReadVarInt`: at most eight bytes count. */
  function ReadVarInt(s: seq<Byte>): nat {
    if |s| > 8 then Value(s[..8]) else Value(s)
  }

  type Reading = Option<(Decoded, nat)>

  /** What the first byte, and the length bytes after it, announce. */
  datatype Lead = Single(b: Byte) | Text(from: nat, length: nat) | Sequence(from: nat, length: nat) | Broken

  function ReadLead(data: seq<Byte>, pos: nat): (r: Lead)
    ensures r.Sequence? ==> pos < r.from <= |data|
    ensures r.Text? ==> pos < r.from
    ensures r.Single? ==> pos < |data|
  {
    if pos >= |data| then Broken
    else
      var c: nat := data[pos];
      if c <= 0x7f then Single(c)
      else if c <= 0xb7 then Text(pos + 1, c - 0x80)
      else if c <= 0xbf then LongLead(data, pos, c - 0xb7, false)
      else if c <= 0xf7 then Sequence(pos + 1, c - 0xc0)
      else LongLead(data, pos, c - 0xf7, true)
  }

  function LongLead(data: seq<Byte>, pos: nat, l: nat, list: bool): Lead {
    if pos + 1 + l > |data| then Broken
    else
      var n := ReadVarInt(data[pos + 1..pos + 1 + l]);
      if list then Sequence(pos + 1 + l, n) else Text(pos + 1 + l, n)
  }

  /** `Decode`: the value at an offset and the offset after it; nothing where the
      code runs off the data and panics. */
  function Decode(data: seq<Byte>, pos: nat): (r: Reading)
    ensures r.Some? ==> pos < r.value.1 <= |data|
    decreases |data| - pos, 0
  {
    match ReadLead(data, pos)
    case Broken => None
    case Single(b) => Some((One(b), pos + 1))
    case Text(from, n) => Taken(data, from, n)
    case Sequence(from, n) => Wrapped(DecodeItems(data, from, n))
  }

  function Taken(data: seq<Byte>, from: nat, n: nat): (r: Reading)
    ensures r.Some? ==> from <= r.value.1 <= |data|
  {
    if from + n > |data| then None else Some((Bytes(data[from..from + n]), from + n))
  }

  function Wrapped(r: Option<(seq<Decoded>, nat)>): Reading {
    match r
    case None => None
    case Some((items, next)) => Some((Items(items), next))
  }

  /** Items are read until `left` bytes are used up, or overrun. */
  function DecodeItems(data: seq<Byte>, pos: nat, left: int): (r: Option<(seq<Decoded>, nat)>)
    ensures r.Some? ==> pos <= r.value.1 && (r.value.1 == pos || r.value.1 <= |data|)
    decreases |data| - pos, 1
  {
    if left <= 0 then Some(([], pos))
    else
      match Decode(data, pos)
      case None => None
      case Some((item, next)) =>
        match DecodeItems(data, next, left - (next - pos))
        case None => None
        case Some((items, end)) => Some(([item] + items, end))
  }

  /** A decoded value for each encoded one. */
  function View(x: Item): Decoded {
    match x
    case Str(t) => if |t| == 1 && t[0] <= 0x7f then One(t[0]) else Bytes(t)
    case List(items) => Items(ViewAll(items))
  }

  function ViewAll(items: seq<Item>): seq<Decoded> {
    if items == [] then [] else [View(items[0])] + ViewAll(items[1..])
  }
}
