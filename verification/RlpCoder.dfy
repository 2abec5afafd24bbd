/** The codec's loops: writing items into a buffer, the two writers of list
    headers, and the reading loop with its position counter. */
module RlpCoder {
  import opened Wrappers
  import opened Rlp
  import opened RlpProofs

  function Zeros(n: nat): seq<Byte> {
    seq(n, _ => 0)
  }

  function LeftPadBytes(s: seq<Byte>, l: nat): seq<Byte> {
    if l < |s| then s else Zeros(l - |s|) + s
  }

  lemma {:induction false} PaddedValue(k: nat, s: seq<Byte>)
    ensures Value(Zeros(k) + s) == Value(s)
  {
    var p := Zeros(k) + s;
    if s != [] {
      assert p[..|p| - 1] == Zeros(k) + s[..|s| - 1];
      PaddedValue(k, s[..|s| - 1]);
    } else if k > 0 {
      assert p[..|p| - 1] == Zeros(k - 1) + [];
      PaddedValue(k - 1, []);
    }
  }

  /** `ReadVarInt` pads to the next machine width and reads that many bytes. */
  method ReadPadded(s: seq<Byte>) returns (n: nat)
    ensures n == ReadVarInt(s)
  {
    if |s| > 4 {
      var d := LeftPadBytes(s, 8);
      if |s| <= 8 {
        PaddedValue(8 - |s|, s);
        assert d[..8] == d;
      }
      return Value(d[..8]);
    }
    if |s| > 2 {
      PaddedValue(4 - |s|, s);
      return Value(LeftPadBytes(s, 4));
    }
    if |s| > 1 {
      PaddedValue(2 - |s|, s);
      return Value(LeftPadBytes(s, 2));
    }
    return Value(s);
  }

  /** `intlen`: bytes in a length. */
  method IntLen(n: int) returns (length: nat)
    ensures length == if n > 0 then |BigEndian(n)| else 0
  {
    length := 0;
    var i := n;
    while i > 0
      invariant n > 0 ==> i >= 0 && |BigEndian(n)| == length + |BigEndian(i)|
      invariant n <= 0 ==> i == n && length == 0
      decreases i
    {
      i := i / 256;
      length := length + 1;
    }
  }

  /** n shifted right by k bytes. */
  function Shifted(n: nat, k: nat): nat {
    if k == 0 then n else Shifted(n, k - 1) / 256
  }

  lemma {:induction false} ShiftedByte(n: nat, k: nat)
    requires k < |BigEndian(n)|
    ensures BigEndian(n)[|BigEndian(n)| - 1 - k] == ToByte(Shifted(n, k))
  {
    if k > 0 {
      ShiftedInner(n, k - 1);
      ShiftedByte(n / 256, k - 1);
    }
  }

  lemma {:induction false} ShiftedInner(n: nat, k: nat)
    ensures Shifted(n, k + 1) == Shifted(n / 256, k)
  {
    if k > 0 {
      ShiftedInner(n, k - 1);
    }
  }

  /** The header writer for typed slices fills an array from its end by shifting;
      it writes what the writer for plain lists takes from big-endian bytes. */
  method WriteSliceHeader(length: nat) returns (header: seq<Byte>)
    requires length < MAX_LENGTH
    ensures header == Prefix(length, 0xc0, 0xf7)
  {
    if length < 56 {
      return [ToByte(length + 0xc0)];
    }
    var ilen := IntLen(length);
    EightBytes(length);
    var t := ShiftOut(length, ilen);
    return [ToByte(ilen + 0xf7)] + t;
  }

  method ShiftOut(length: nat, ilen: nat) returns (bytes: seq<Byte>)
    requires ilen == |BigEndian(length)|
    ensures bytes == BigEndian(length)
  {
    var t := new Byte[ilen](_ => 0);
    ghost var be := BigEndian(length);
    var shifted := length;
    for i := 0 to ilen
      invariant shifted == Shifted(length, i)
      invariant forall j :: ilen - i <= j < ilen ==> t[j] == be[j]
    {
      ShiftedByte(length, i);
      t[ilen - i - 1] := ToByte(shifted);
      shifted := shifted / 256;
    }
    return t[..];
  }

  method EncodeItem(x: Item) returns (buff: seq<Byte>)
    ensures buff == Encode(x)
    decreases x, 0
  {
    match x
    case Str(t) =>
      if |t| == 1 && t[0] <= 0x7f {
        return t;
      }
      return Prefix(|t|, 0x80, 0xb7) + t;
    case List(items) =>
      var body := EncodeItems(items);
      return Prefix(|body|, 0xc0, 0xf7) + body;
  }

  method EncodeItems(items: seq<Item>) returns (b: seq<Byte>)
    ensures b == EncodeAll(items)
    decreases items
  {
    b := [];
    for i := 0 to |items|
      invariant b + EncodeAll(items[i..]) == EncodeAll(items)
    {
      var one := EncodeItem(items[i]);
      assert items[i..][1..] == items[i + 1..];
      b := b + one;
    }
  }

  /** `Decode`. */
  method DecodeAt(data: seq<Byte>, pos: nat) returns (r: Reading)
    ensures r == Decode(data, pos)
    decreases |data| - pos, 0
  {
    match ReadLead(data, pos)
    case Broken => return None;
    case Single(b) => return Some((One(b), pos + 1));
    case Text(from, n) => return Taken(data, from, n);
    case Sequence(from, n) =>
      var items := DecodeList(data, from, n);
      return Wrapped(items);
  }

  function Prepend(items: seq<Decoded>, r: Option<(seq<Decoded>, nat)>): Option<(seq<Decoded>, nat)> {
    match r
    case None => None
    case Some((rest, next)) => Some((items + rest, next))
  }

  lemma PrependNothing(r: Option<(seq<Decoded>, nat)>)
    ensures Prepend([], r) == r
  {
    if r.Some? {
      assert [] + r.value.0 == r.value.0;
    }
  }

  lemma PrependMore(items: seq<Decoded>, item: Decoded, r: Option<(seq<Decoded>, nat)>)
    ensures Prepend(items, Prepend([item], r)) == Prepend(items + [item], r)
  {
    if r.Some? {
      assert items + ([item] + r.value.0) == items + [item] + r.value.0;
    }
  }

  /** What is read so far, and what is still to read, make up the whole list. */
  ghost predicate Reads(whole: Option<(seq<Decoded>, nat)>, data: seq<Byte>, slice: seq<Decoded>, pos: nat, left: int) {
    whole == Prepend(slice, DecodeItems(data, pos, left))
  }

  lemma ReadOne(whole: Option<(seq<Decoded>, nat)>, data: seq<Byte>, slice: seq<Decoded>, pos: nat, left: nat, item: Decoded, next: nat)
    requires left > 0 && Decode(data, pos) == Some((item, next)) && Reads(whole, data, slice, pos, left)
    ensures Reads(whole, data, slice + [item], next, left - (next - pos))
  {
    PrependMore(slice, item, DecodeItems(data, next, left - (next - pos)));
  }

  lemma ReadNone(whole: Option<(seq<Decoded>, nat)>, data: seq<Byte>, slice: seq<Decoded>, pos: nat, left: int)
    requires left <= 0 && Reads(whole, data, slice, pos, left)
    ensures whole == Some((slice, pos))
  {
    assert slice + [] == slice;
  }

  lemma ReadFails(whole: Option<(seq<Decoded>, nat)>, data: seq<Byte>, slice: seq<Decoded>, pos: nat, left: nat)
    requires left > 0 && Decode(data, pos).None? && Reads(whole, data, slice, pos, left)
    ensures whole == None
  {
  }

  /** The list loop: counts the bytes each item took against the declared length. */
  method DecodeList(data: seq<Byte>, start: nat, b: nat) returns (r: Option<(seq<Decoded>, nat)>)
    ensures r == DecodeItems(data, start, b)
    decreases |data| - start, 1
  {
    ghost var whole := DecodeItems(data, start, b);
    var slice, pos, i := [], start, 0;
    PrependNothing(whole);
    while i < b
      invariant start <= pos && i == pos - start
      invariant pos > start ==> pos <= |data|
      invariant Reads(whole, data, slice, pos, b - i)
      decreases |data| - pos
    {
      var one := DecodeAt(data, pos);
      if one.None? {
        ReadFails(whole, data, slice, pos, b - i);
        return None;
      }
      var (obj, next) := one.value;
      ReadOne(whole, data, slice, pos, b - i, obj, next);
      slice := slice + [obj];
      i := i + (next - pos);
      pos := next;
    }
    ReadNone(whole, data, slice, pos, b - i);
    return Some((slice, pos));
  }
}
