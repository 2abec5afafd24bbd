/** The round trip through the codec at any offset, and what follows from it. */
module RlpProofs {
  import opened Wrappers
  import opened Rlp

  /** Lengths are Go ints. */
  const MAX_LENGTH := 0x8000_0000_0000_0000

  // ---------- numbers ----------

  lemma {:induction false} ValueOfBigEndian(n: nat)
    ensures Value(BigEndian(n)) == n
  {
    if n > 0 {
      ValueOfBigEndian(n / 256);
      assert BigEndian(n)[..|BigEndian(n)| - 1] == BigEndian(n / 256);
    }
  }

  function Pow256(k: nat): nat {
    if k == 0 then 1 else 256 * Pow256(k - 1)
  }

  lemma {:induction false} BigEndianLength(n: nat, k: nat)
    requires n < Pow256(k)
    ensures |BigEndian(n)| <= k
  {
    if n > 0 {
      BigEndianLength(n / 256, k - 1);
    }
  }

  lemma EightBytes(n: nat)
    requires n < MAX_LENGTH
    ensures |BigEndian(n)| <= 8
  {
    assert Pow256(4) == 0x1_0000_0000;
    assert Pow256(8) == 0x1_0000_0000_0000_0000;
    BigEndianLength(n, 8);
  }

  // ---------- slices ----------

  predicate At(data: seq<Byte>, pos: nat, s: seq<Byte>) {
    pos + |s| <= |data| && data[pos..pos + |s|] == s
  }

  lemma AtSplit(data: seq<Byte>, pos: nat, a: seq<Byte>, b: seq<Byte>)
    requires At(data, pos, a + b)
    ensures At(data, pos, a) && At(data, pos + |a|, b)
  {
    assert data[pos..pos + |a|] == (a + b)[..|a|];
    assert data[pos + |a|..pos + |a| + |b|] == (a + b)[|a|..];
  }

  lemma AtMiddle(pre: seq<Byte>, s: seq<Byte>, post: seq<Byte>)
    ensures At(pre + s + post, |pre|, s)
  {
  }

  lemma AtFirst(data: seq<Byte>, pos: nat, s: seq<Byte>)
    requires At(data, pos, s) && s != []
    ensures data[pos] == s[0]
  {
    assert data[pos..pos + |s|][0] == s[0];
  }

  // ---------- the round trip ----------

  lemma LengthRead(data: seq<Byte>, pos: nat, length: nat)
    requires length < MAX_LENGTH && At(data, pos, BigEndian(length))
    ensures ReadVarInt(data[pos..pos + |BigEndian(length)|]) == length
  {
    EightBytes(length);
    ValueOfBigEndian(length);
  }

  lemma LongPrefix(data: seq<Byte>, pos: nat, length: nat, short: nat, long: nat)
    requires 56 <= length < MAX_LENGTH && long <= 0xf7 && At(data, pos, Prefix(length, short, long))
    ensures var l := |BigEndian(length)|;
            && 1 <= l <= 8 && |Prefix(length, short, long)| == 1 + l
            && data[pos] == long + l && At(data, pos + 1, BigEndian(length))
  {
    var be := BigEndian(length);
    EightBytes(length);
    AtSplit(data, pos, [ToByte(|be| + long)], be);
    AtFirst(data, pos, [ToByte(|be| + long)]);
  }

  lemma ShortPrefix(data: seq<Byte>, pos: nat, length: nat, short: nat, long: nat)
    requires length < 56 && short <= 0xc0 && At(data, pos, Prefix(length, short, long))
    ensures data[pos] == short + length && |Prefix(length, short, long)| == 1
  {
    AtFirst(data, pos, Prefix(length, short, long));
  }

  lemma LongText(data: seq<Byte>, pos: nat, l: nat, n: nat)
    requires 1 <= l <= 8 && pos + 1 + l <= |data| && data[pos] == 0xb7 + l && ReadVarInt(data[pos + 1..pos + 1 + l]) == n
    ensures ReadLead(data, pos) == Text(pos + 1 + l, n)
  {
  }

  lemma LongSequence(data: seq<Byte>, pos: nat, l: nat, n: nat)
    requires 1 <= l <= 8 && pos + 1 + l <= |data| && data[pos] == 0xf7 + l && ReadVarInt(data[pos + 1..pos + 1 + l]) == n
    ensures ReadLead(data, pos) == Sequence(pos + 1 + l, n)
  {
  }

  lemma LongRead(data: seq<Byte>, pos: nat, length: nat, short: nat, long: nat) returns (l: nat)
    requires 56 <= length < MAX_LENGTH && long <= 0xf7 && At(data, pos, Prefix(length, short, long))
    ensures 1 <= l <= 8 && |Prefix(length, short, long)| == 1 + l && pos + 1 + l <= |data| && data[pos] == long + l
    ensures ReadVarInt(data[pos + 1..pos + 1 + l]) == length
  {
    l := |BigEndian(length)|;
    LongPrefix(data, pos, length, short, long);
    LengthRead(data, pos + 1, length);
  }

  lemma ShortText(data: seq<Byte>, pos: nat, n: nat)
    requires n < 56 && pos < |data| && data[pos] == 0x80 + n
    ensures ReadLead(data, pos) == Text(pos + 1, n)
  {
  }

  lemma ShortSequence(data: seq<Byte>, pos: nat, n: nat)
    requires n < 56 && pos < |data| && data[pos] == 0xc0 + n
    ensures ReadLead(data, pos) == Sequence(pos + 1, n)
  {
  }

  /** The announcement of a string, read back. */
  lemma TextLead(data: seq<Byte>, pos: nat, length: nat)
    requires length < MAX_LENGTH && At(data, pos, Prefix(length, 0x80, 0xb7))
    ensures ReadLead(data, pos) == Text(pos + |Prefix(length, 0x80, 0xb7)|, length)
  {
    if length < 56 {
      ShortPrefix(data, pos, length, 0x80, 0xb7);
      ShortText(data, pos, length);
    } else {
      var l := LongRead(data, pos, length, 0x80, 0xb7);
      LongText(data, pos, l, length);
    }
  }

  /** The announcement of a list, read back. */
  lemma SequenceLead(data: seq<Byte>, pos: nat, length: nat)
    requires length < MAX_LENGTH && At(data, pos, Prefix(length, 0xc0, 0xf7))
    ensures ReadLead(data, pos) == Sequence(pos + |Prefix(length, 0xc0, 0xf7)|, length)
  {
    if length < 56 {
      ShortPrefix(data, pos, length, 0xc0, 0xf7);
      ShortSequence(data, pos, length);
    } else {
      var l := LongRead(data, pos, length, 0xc0, 0xf7);
      LongSequence(data, pos, l, length);
    }
  }

  lemma ListTrip(data: seq<Byte>, pos: nat, from: nat, n: nat, items: seq<Decoded>, end: nat)
    requires ReadLead(data, pos) == Sequence(from, n) && DecodeItems(data, from, n) == Some((items, end))
    ensures Decode(data, pos) == Some((Items(items), end))
  {
  }

  lemma ItemsStep(data: seq<Byte>, pos: nat, first: nat, rest: nat, item: Decoded, items: seq<Decoded>)
    requires Decode(data, pos) == Some((item, pos + first))
    requires DecodeItems(data, pos + first, rest) == Some((items, pos + first + rest))
    ensures DecodeItems(data, pos, first + rest) == Some(([item] + items, pos + first + rest))
  {
    assert first + rest - (pos + first - pos) == rest;
  }

  ghost predicate Trip(data: seq<Byte>, pos: nat, x: Item) {
    Decode(data, pos) == Some((View(x), pos + |Encode(x)|))
  }

  ghost predicate TripAll(data: seq<Byte>, pos: nat, items: seq<Item>) {
    DecodeItems(data, pos, |EncodeAll(items)|) == Some((ViewAll(items), pos + |EncodeAll(items)|))
  }

  lemma EncodedItems(items: seq<Item>)
    requires items != []
    ensures |EncodeAll(items)| == |Encode(items[0])| + |EncodeAll(items[1..])|
    ensures ViewAll(items) == [View(items[0])] + ViewAll(items[1..])
  {
  }

  lemma TripCons(data: seq<Byte>, pos: nat, items: seq<Item>, first: nat, rest: nat, v: Decoded, vs: seq<Decoded>)
    requires Decode(data, pos) == Some((v, pos + first))
    requires DecodeItems(data, pos + first, rest) == Some((vs, pos + first + rest))
    requires first + rest == |EncodeAll(items)| && [v] + vs == ViewAll(items)
    ensures TripAll(data, pos, items)
  {
    ItemsStep(data, pos, first, rest, v, vs);
    TripOf(data, pos, items, first + rest, [v] + vs);
  }

  lemma TripJoin(data: seq<Byte>, pos: nat, items: seq<Item>, first: nat, tail: seq<Item>)
    requires items != [] && first == |Encode(items[0])| && tail == items[1..]
    requires Trip(data, pos, items[0]) && TripAll(data, pos + first, tail)
    ensures TripAll(data, pos, items)
  {
    EncodedItems(items);
    TripCons(data, pos, items, first, |EncodeAll(tail)|, View(items[0]), ViewAll(tail));
  }

  lemma TripOf(data: seq<Byte>, pos: nat, items: seq<Item>, n: nat, views: seq<Decoded>)
    requires n == |EncodeAll(items)| && views == ViewAll(items) && DecodeItems(data, pos, n) == Some((views, pos + n))
    ensures TripAll(data, pos, items)
  {
  }

  lemma TripIs(data: seq<Byte>, pos: nat, x: Item, v: Decoded, end: nat)
    requires Decode(data, pos) == Some((v, end)) && v == View(x) && end == pos + |Encode(x)|
    ensures Trip(data, pos, x)
  {
  }

  lemma EncodedList(items: seq<Item>)
    ensures |Encode(List(items))| == |Prefix(|EncodeAll(items)|, 0xc0, 0xf7)| + |EncodeAll(items)|
    ensures View(List(items)) == Items(ViewAll(items))
  {
  }

  lemma TripList(data: seq<Byte>, pos: nat, from: nat, n: nat, items: seq<Item>)
    requires n == |EncodeAll(items)| && from == pos + |Prefix(n, 0xc0, 0xf7)| && ReadLead(data, pos) == Sequence(from, n)
    requires DecodeItems(data, from, n) == Some((ViewAll(items), from + n))
    ensures Trip(data, pos, List(items))
  {
    ListTrip(data, pos, from, n, ViewAll(items), from + n);
    EncodedList(items);
    TripIs(data, pos, List(items), Items(ViewAll(items)), from + n);
  }

  lemma TripWhole(data: seq<Byte>, pos: nat, from: nat, n: nat, items: seq<Item>)
    requires n == |EncodeAll(items)| && from == pos + |Prefix(n, 0xc0, 0xf7)| && ReadLead(data, pos) == Sequence(from, n)
    requires TripAll(data, from, items)
    ensures Trip(data, pos, List(items))
  {
    TripList(data, pos, from, n, items);
  }

  lemma TripByte(data: seq<Byte>, pos: nat, t: seq<Byte>)
    requires At(data, pos, t) && |t| == 1 && t[0] <= 0x7f
    ensures Trip(data, pos, Str(t))
  {
    AtFirst(data, pos, t);
    TripIs(data, pos, Str(t), One(t[0]), pos + 1);
  }

  lemma TripText(data: seq<Byte>, pos: nat, t: seq<Byte>)
    requires At(data, pos, Prefix(|t|, 0x80, 0xb7) + t) && |t| < MAX_LENGTH && !(|t| == 1 && t[0] <= 0x7f)
    ensures Trip(data, pos, Str(t))
  {
    AtSplit(data, pos, Prefix(|t|, 0x80, 0xb7), t);
    TextLead(data, pos, |t|);
    var from := pos + |Prefix(|t|, 0x80, 0xb7)|;
    TextTrip(data, pos, from, t);
    TripIs(data, pos, Str(t), Bytes(t), from + |t|);
  }

  lemma TextTrip(data: seq<Byte>, pos: nat, from: nat, t: seq<Byte>)
    requires ReadLead(data, pos) == Text(from, |t|) && At(data, from, t)
    ensures Decode(data, pos) == Some((Bytes(t), from + |t|))
  {
  }

  lemma TripString(data: seq<Byte>, pos: nat, t: seq<Byte>)
    requires At(data, pos, Encode(Str(t))) && |Encode(Str(t))| < MAX_LENGTH
    ensures Trip(data, pos, Str(t))
  {
    if |t| == 1 && t[0] <= 0x7f {
      TripByte(data, pos, t);
    } else {
      TripText(data, pos, t);
    }
  }

  lemma OpenList(data: seq<Byte>, pos: nat, items: seq<Item>) returns (from: nat, n: nat)
    requires At(data, pos, Encode(List(items))) && |Encode(List(items))| < MAX_LENGTH
    ensures n == |EncodeAll(items)| < MAX_LENGTH && from == pos + |Prefix(n, 0xc0, 0xf7)|
    ensures ReadLead(data, pos) == Sequence(from, n) && At(data, from, EncodeAll(items))
  {
    n := |EncodeAll(items)|;
    from := pos + |Prefix(n, 0xc0, 0xf7)|;
    AtSplit(data, pos, Prefix(n, 0xc0, 0xf7), EncodeAll(items));
    SequenceLead(data, pos, n);
  }

  /** For every value, wherever its encoding lies in the data: decoding there
      returns the value and the offset just past it. */
  lemma {:induction false} RoundTripAt(data: seq<Byte>, pos: nat, x: Item)
    requires At(data, pos, Encode(x)) && |Encode(x)| < MAX_LENGTH
    ensures Trip(data, pos, x)
    decreases x, 0
  {
    match x
    case Str(t) => TripString(data, pos, t);
    case List(items) => RoundTripList(data, pos, items);
  }

  lemma {:induction false} RoundTripList(data: seq<Byte>, pos: nat, items: seq<Item>)
    requires At(data, pos, Encode(List(items))) && |Encode(List(items))| < MAX_LENGTH
    ensures Trip(data, pos, List(items))
    decreases items, 1
  {
    var from, n := OpenList(data, pos, items);
    RoundTripItems(data, from, items);
    TripWhole(data, pos, from, n, items);
  }

  lemma {:induction false} RoundTripItems(data: seq<Byte>, pos: nat, items: seq<Item>)
    requires At(data, pos, EncodeAll(items)) && |EncodeAll(items)| < MAX_LENGTH
    ensures TripAll(data, pos, items)
    decreases items, 0
  {
    if items != [] {
      AtSplit(data, pos, Encode(items[0]), EncodeAll(items[1..]));
      RoundTripAt(data, pos, items[0]);
      RoundTripItems(data, pos + |Encode(items[0])|, items[1..]);
      TripJoin(data, pos, items, |Encode(items[0])|, items[1..]);
    }
  }

  /** The round trip with arbitrary bytes around the encoding. */
  lemma RoundTrip(pre: seq<Byte>, x: Item, post: seq<Byte>)
    requires |Encode(x)| < MAX_LENGTH
    ensures Decode(pre + Encode(x) + post, |pre|) == Some((View(x), |pre| + |Encode(x)|))
  {
    AtMiddle(pre, Encode(x), post);
    RoundTripAt(pre + Encode(x) + post, |pre|, x);
  }

  // ---------- truncated and extended data ----------

  lemma LeadStable(data: seq<Byte>, more: seq<Byte>, pos: nat)
    ensures !ReadLead(data, pos).Broken? ==> ReadLead(data + more, pos) == ReadLead(data, pos)
  {
    if pos < |data| {
      var c := data[pos];
      assert (data + more)[pos] == c;
      if 0xb7 < c <= 0xbf {
        LongLeadStable(data, more, pos, c - 0xb7, false);
      } else if c > 0xf7 {
        LongLeadStable(data, more, pos, c - 0xf7, true);
      }
    }
  }

  lemma LongLeadStable(data: seq<Byte>, more: seq<Byte>, pos: nat, l: nat, list: bool)
    ensures !LongLead(data, pos, l, list).Broken? ==> LongLead(data + more, pos, l, list) == LongLead(data, pos, l, list)
  {
    if pos + 1 + l <= |data| {
      assert (data + more)[pos + 1..pos + 1 + l] == data[pos + 1..pos + 1 + l];
    }
  }

  /** Bytes that follow do not change what decoding finds. */
  lemma {:induction false} Stable(data: seq<Byte>, more: seq<Byte>, pos: nat)
    requires Decode(data, pos).Some?
    ensures Decode(data + more, pos) == Decode(data, pos)
    decreases |data| - pos, 0
  {
    LeadStable(data, more, pos);
    match ReadLead(data, pos)
    case Single(_) =>
    case Text(from, n) => assert (data + more)[from..from + n] == data[from..from + n];
    case Sequence(from, n) => StableItems(data, more, from, n);
  }

  lemma {:induction false} StableItems(data: seq<Byte>, more: seq<Byte>, pos: nat, left: int)
    requires DecodeItems(data, pos, left).Some?
    ensures DecodeItems(data + more, pos, left) == DecodeItems(data, pos, left)
    decreases |data| - pos, 1
  {
    if left > 0 {
      Stable(data, more, pos);
      var next := Decode(data, pos).value.1;
      StableItems(data, more, next, left - (next - pos));
    }
  }

  /** Cut short anywhere, an encoding does not decode. */
  lemma TruncationFails(x: Item, k: nat)
    requires |Encode(x)| < MAX_LENGTH && k < |Encode(x)|
    ensures Decode(Encode(x)[..k], 0).None?
  {
    var e := Encode(x);
    assert e == e[..k] + e[k..];
    if Decode(e[..k], 0).Some? {
      Stable(e[..k], e[k..], 0);
      AtWhole(e);
      RoundTripAt(e, 0, x);
    }
  }

  lemma AtWhole(e: seq<Byte>)
    ensures At(e, 0, e)
  {
    assert e[0..|e|] == e;
  }

  // ---------- consequences ----------

  lemma {:induction false} ViewInjective(x: Item, y: Item)
    requires View(x) == View(y)
    ensures x == y
    decreases x, 0
  {
    match x
    case Str(_) =>
    case List(items) => ViewAllInjective(items, y.items);
  }

  lemma {:induction false} ViewAllInjective(xs: seq<Item>, ys: seq<Item>)
    requires ViewAll(xs) == ViewAll(ys)
    ensures xs == ys
    decreases xs
  {
    if xs != [] && ys != [] {
      assert ViewAll(xs)[0] == View(xs[0]) && ViewAll(xs)[1..] == ViewAll(xs[1..]);
      assert ViewAll(ys)[0] == View(ys[0]) && ViewAll(ys)[1..] == ViewAll(ys[1..]);
      ViewInjective(xs[0], ys[0]);
      ViewAllInjective(xs[1..], ys[1..]);
      assert xs == [xs[0]] + xs[1..] && ys == [ys[0]] + ys[1..];
    }
  }

  /** No encoding is a prefix of another, and different values encode differently. */
  lemma PrefixFree(x: Item, y: Item)
    requires |Encode(x)| < MAX_LENGTH && |Encode(y)| < MAX_LENGTH
    requires Encode(x) <= Encode(y)
    ensures x == y
  {
    var data := Encode(y);
    assert data[0..|Encode(x)|] == Encode(x) && data[0..|data|] == data;
    RoundTripAt(data, 0, x);
    RoundTripAt(data, 0, y);
    ViewInjective(x, y);
  }

  // ---------- numbers as values ----------

  /** The number in a decoded byte or string. */
  function NumberIn(v: Decoded): Option<nat> {
    match v
    case One(b) => Some(b)
    case Bytes(t) => Some(Value(t))
    case Items(_) => None
  }

  function Magnitude(n: int): nat {
    if n < 0 then -n else n
  }

  /** Encoding a big integer keeps its magnitude only. */
  function OfBig(n: int): Item {
    Str(BigEndian(Magnitude(n)))
  }

  const TWO_64 := 0x1_0000_0000_0000_0000
  const TWO_63 := 0x8000_0000_0000_0000

  /** Encoding a uint64 goes through int64. */
  function OfUint64(n: nat): Item
    requires n < TWO_64
  {
    OfBig(if n < TWO_63 then n else n - TWO_64)
  }

  lemma NumberOf(n: int)
    ensures NumberIn(View(OfBig(n))) == Some(Magnitude(n))
  {
    var t := BigEndian(Magnitude(n));
    ValueOfBigEndian(Magnitude(n));
    if |t| == 1 {
      assert t[..0] == [];
      assert Value(t) == 256 * Value(t[..0]) + t[0];
    }
  }

  /** An encoded integer decodes to itself exactly when it is not negative. */
  lemma BigTrip(pre: seq<Byte>, n: int, post: seq<Byte>)
    requires |Encode(OfBig(n))| < MAX_LENGTH
    ensures var r := Decode(pre + Encode(OfBig(n)) + post, |pre|);
            r.Some? && (NumberIn(r.value.0) == Some(n) <==> n >= 0)
  {
    RoundTrip(pre, OfBig(n), post);
    NumberOf(n);
  }

  /** A uint64 decodes to itself exactly up to 2^63; above, its complement comes back. */
  lemma Uint64Trip(pre: seq<Byte>, n: nat, post: seq<Byte>)
    requires n < TWO_64 && |Encode(OfUint64(n))| < MAX_LENGTH
    ensures var r := Decode(pre + Encode(OfUint64(n)) + post, |pre|);
            r.Some? && NumberIn(r.value.0) == Some(if n < TWO_63 then n else TWO_64 - n)
            && (NumberIn(r.value.0) == Some(n) <==> n <= TWO_63)
  {
    RoundTrip(pre, OfUint64(n), post);
    NumberOf(if n < TWO_63 then n else n - TWO_64);
  }

  /** The largest uint64 comes back as one. */
  lemma Uint64Example(n: nat)
    requires n == TWO_64 - 1
    ensures var r := Decode(Encode(OfUint64(n)), 0); r.Some? && NumberIn(r.value.0) == Some(1)
  {
    assert Encode(OfUint64(n)) == [1] by {
      assert BigEndian(0) == [] && BigEndian(1) == [1];
    }
    Uint64Trip([], n, []);
    assert [] + Encode(OfUint64(n)) + [] == Encode(OfUint64(n));
  }
}
