/** Inter-exchange client addresses of common/icap.go: base 36 behind two ISO 13616
    check digits. */
module Icap {

  datatype Result<+T> = Ok(value: T) | Err(error: IcapError)

  datatype IcapError = LengthError | EncodingError | ChecksumError | CountryCodeError | AssetIdentError
                     | InstCodeError | ClientIdentError | NotImplemented | Panic

  const TWO_160 := 0x1_0000_0000_0000_0000_0000_0000_0000_0000_0000_0000

  predicate IsDigit(c: char) {
    48 <= c as int <= 57
  }

  predicate IsLetter(c: char) {
    65 <= c as int <= 90
  }

  /** `validBase36`. */
  predicate ValidBase36(s: string) {
    forall i :: 0 <= i < |s| ==> IsDigit(s[i]) || IsLetter(s[i])
  }

  /** 0 to 9, then A = 10 to Z = 35. */
  function Code(c: char): int {
    if c as int >= 65 then c as int - 55 else c as int - 48
  }

  function Char36(n: nat): char
    requires n < 36
  {
    if n < 10 then (n + 48) as char else (n + 55) as char
  }

  /** Letters become two decimal digits. */
  function ExpandChar(c: char): string {
    if c as int >= 65 && IsLetter(c) then [Char36(Code(c) / 10), Char36(Code(c) % 10)] else [c]
  }

  /** `iso13616Expand`. */
  function Expand(s: string): string {
    if s == [] then [] else Expand(s[..|s| - 1]) + ExpandChar(s[|s| - 1])
  }

  /** The number a string of digits stands for, in base 10 or 36. */
  function Number(s: string, base: nat): int {
    if s == [] then 0 else base * Number(s[..|s| - 1], base) + Code(s[|s| - 1])
  }

  /** What the checksum is taken of. */
  function Sum(s: string): int {
    Number(Expand(s), 10)
  }

  /** `validCheckSum`: country code and check digits go last. */
  function ValidCheckSum(s: string): Result<()>
    requires |s| >= 4
  {
    var r := Rotated(s);
    if !ValidBase36(r) then Err(EncodingError)
    else if Sum(r) % 97 != 1 then Err(ChecksumError)
    else Ok(())
  }

  /** `checkDigits`. */
  function CheckDigits(s: string): string {
    var n := 98 - Sum(s + "XE00") % 97;
    if n < 10 then "0" + [Char36(n)] else [Char36(n / 10), Char36(n % 10)]
  }

  /** `base36Encode`. */
  function Base36(n: nat): string {
    if n < 36 then [Char36(n)] else Base36(n / 36) + [Char36(n % 36)]
  }

  function Zeros(n: nat): string {
    seq(n, _ => '0')
  }

  function Padded(s: string): string {
    if |s| < 30 then Zeros(30 - |s|) + s else s
  }

  /** `AddressToICAP`. */
  function AddressToICAP(a: nat): string {
    var enc := Padded(Base36(a));
    "XE" + CheckDigits(enc) + enc
  }

  function ParseICAP(s: string): Result<nat>
    requires |s| >= 4
  {
    if s[..2] != "XE" then Err(CountryCodeError)
    else
      match ValidCheckSum(s)
      case Err(e) => Err(e)
      case Ok(_) => Ok(Number(s[4..], 36) % TWO_160)
  }

  function ParseIndirectICAP(s: string): Result<nat>
    requires |s| >= 7
  {
    if s[..2] != "XE" then Err(CountryCodeError)
    else if s[4..7] != "ETH" then Err(AssetIdentError)
    else
      match ValidCheckSum(s)
      case Err(e) => Err(e)
      case Ok(_) => Err(NotImplemented)
  }

  /** `ICAPToAddress`. */
  function ICAPToAddress(s: string): Result<nat> {
    if |s| == 35 || |s| == 34 then ParseICAP(s)
    else if |s| == 20 then ParseIndirectICAP(s)
    else Err(LengthError)
  }

  // ---------- numbers ----------

  lemma CodeOfChar(n: nat)
    requires n < 36
    ensures Code(Char36(n)) == n && (IsDigit(Char36(n)) || IsLetter(Char36(n)))
    ensures n < 10 ==> IsDigit(Char36(n))
  {
  }

  lemma {:induction false} NumberOfBase36(n: nat)
    ensures Number(Base36(n), 36) == n && ValidBase36(Base36(n))
  {
    if n < 36 {
      CodeOfChar(n);
      assert Base36(n)[..0] == [];
    } else {
      NumberOfBase36(n / 36);
      CodeOfChar(n % 36);
      assert Base36(n)[..|Base36(n)| - 1] == Base36(n / 36);
    }
  }

  function Power(base: nat, k: nat): nat {
    if k == 0 then 1 else base * Power(base, k - 1)
  }

  lemma {:induction false} Base36Length(n: nat, k: nat)
    requires 1 <= k && n < Power(36, k)
    ensures 1 <= |Base36(n)| <= k
  {
    if n >= 36 {
      assert Power(36, 0) == 1;
      Base36Length(n / 36, k - 1);
    }
  }

  lemma {:induction false} PaddedNumber(k: nat, s: string)
    ensures Number(Zeros(k) + s, 36) == Number(s, 36)
  {
    var p := Zeros(k) + s;
    if s != [] {
      assert p[..|p| - 1] == Zeros(k) + s[..|s| - 1];
      PaddedNumber(k, s[..|s| - 1]);
    } else if k > 0 {
      assert p[..|p| - 1] == Zeros(k - 1) + [];
      PaddedNumber(k - 1, []);
    }
  }

  // ---------- the checksum ----------

  /** Digits to the left weigh more by a power of ten. */
  lemma {:induction false} NumberJoin(a: string, b: string)
    ensures Number(a + b, 10) == Number(a, 10) * Power(10, |b|) + Number(b, 10)
  {
    if b == [] {
      assert a + b == a;
    } else {
      var rest := b[..|b| - 1];
      assert (a + b)[..|a + b| - 1] == a + rest;
      NumberJoin(a, rest);
      Shift(Number(a, 10), Power(10, |rest|), Number(rest, 10), Code(b[|b| - 1]));
    }
  }

  lemma Shift(x: int, p: int, y: int, c: int)
    ensures 10 * (x * p + y) + c == x * (10 * p) + (10 * y + c)
  {
  }

  lemma {:induction false} ExpandJoin(a: string, b: string)
    ensures Expand(a + b) == Expand(a) + Expand(b)
  {
    if b == [] {
      assert a + b == a;
    } else {
      assert (a + b)[..|a + b| - 1] == a + b[..|b| - 1];
      ExpandJoin(a, b[..|b| - 1]);
    }
  }

  lemma SumJoin(a: string, b: string)
    ensures Sum(a + b) == Sum(a) * Power(10, |Expand(b)|) + Sum(b)
  {
    ExpandJoin(a, b);
    NumberJoin(Expand(a), Expand(b));
  }

  lemma NumberOfOne(c: char)
    ensures Number([c], 10) == Code(c)
  {
    assert [c][..0] == [];
  }

  lemma NumberOfTwo(c: char, d: char)
    ensures Number([c, d], 10) == 10 * Code(c) + Code(d)
  {
    assert [c, d][..1] == [c];
    NumberOfOne(c);
  }

  /** One character counts with its code. */
  lemma SumOfChar(c: char)
    requires IsDigit(c) || IsLetter(c)
    ensures Sum([c]) == Code(c) && |Expand([c])| == if IsDigit(c) then 1 else 2
  {
    ExpandOne(c);
    if IsLetter(c) {
      var v := Code(c);
      NumberOfTwo(Char36(v / 10), Char36(v % 10));
      CodeOfChar(v / 10);
      CodeOfChar(v % 10);
    } else {
      NumberOfOne(c);
    }
  }

  lemma ExpandOne(c: char)
    ensures Expand([c]) == ExpandChar(c)
  {
    assert [c][..0] == [];
    assert Expand([c]) == [] + ExpandChar(c);
  }

  lemma SumOfDigit(x: string, c: char)
    requires IsDigit(c)
    ensures Sum(x + [c]) == 10 * Sum(x) + Code(c)
  {
    SumJoin(x, [c]);
    SumOfChar(c);
    PowerTen(Sum(x));
  }

  lemma PowerTen(n: int)
    ensures n * Power(10, 1) == 10 * n
  {
    assert Power(10, 1) == 10 * Power(10, 0);
  }

  /** Two digits at the end count in hundreds. */
  lemma SumOfPair(x: string, c: char, d: char)
    requires IsDigit(c) && IsDigit(d)
    ensures Sum(x + [c, d]) == 100 * Sum(x) + 10 * Code(c) + Code(d)
  {
    assert x + [c, d] == (x + [c]) + [d];
    SumOfDigit(x, c);
    SumOfDigit(x + [c], d);
  }

  /** The check digits are two digits. */
  lemma CheckDigitsShape(s: string)
    ensures var d := CheckDigits(s);
            && |d| == 2 && IsDigit(d[0]) && IsDigit(d[1])
            && 10 * Code(d[0]) + Code(d[1]) == 98 - Sum(s + "XE00") % 97
  {
    var n := 98 - Sum(s + "XE00") % 97;
    CodeOfChar(n / 10);
    CodeOfChar(n % 10);
    assert 2 <= n <= 98;
  }

  function Rotated(s: string): string
    requires |s| >= 4
  {
    s[4..] + s[..4]
  }

  lemma RotatedParts(d: string, body: string)
    requires |d| == 2
    ensures Rotated("XE" + d + body) == (body + "XE") + [d[0], d[1]]
  {
    var s := "XE" + d + body;
    assert s[4..] == body;
    assert s[..4] == "XE" + d;
  }

  lemma OneMod97(n: int, m: int)
    requires m == n + 98 - n % 97
    ensures m % 97 == 1
  {
  }

  lemma SumOfZeros(body: string, x: string, z: string)
    requires x == body + "XE" && z == body + "XE00"
    ensures Sum(z) == 100 * Sum(x)
  {
    assert z == x + ['0', '0'];
    SumOfPair(x, '0', '0');
  }

  lemma CheckDigitsSum(body: string)
    ensures Sum((body + "XE") + CheckDigits(body)) % 97 == 1
  {
    CheckDigitsShape(body);
    DigitsSum(body, body + "XE", body + "XE00", CheckDigits(body));
  }

  lemma DigitsSum(body: string, x: string, z: string, d: string)
    requires x == body + "XE" && z == body + "XE00"
    requires |d| == 2 && IsDigit(d[0]) && IsDigit(d[1]) && 10 * Code(d[0]) + Code(d[1]) == 98 - Sum(z) % 97
    ensures Sum(x + d) % 97 == 1
  {
    assert d == [d[0], d[1]];
    SumOfPair(x, d[0], d[1]);
    SumOfZeros(body, x, z);
    OneMod97(Sum(z), Sum(x + d));
  }

  /** For any base-36 body the check digits validate. */
  lemma CheckDigitsValidate(body: string)
    requires ValidBase36(body)
    ensures ValidCheckSum("XE" + CheckDigits(body) + body) == Ok(())
  {
    var d := CheckDigits(body);
    CheckDigitsShape(body);
    RotatedParts(d, body);
    CheckDigitsSum(body);
    assert d == [d[0], d[1]];
  }

  // ---------- the round trip ----------

  lemma AddressFits(a: nat)
    requires a < TWO_160
    ensures |Padded(Base36(a))| == 30 || |Padded(Base36(a))| == 31
    ensures ValidBase36(Padded(Base36(a))) && Number(Padded(Base36(a)), 36) == a
  {
    assert Power(36, 8) == 2821109907456;
    PowerJoin(36, 8, 8);
    PowerJoin(36, 16, 8);
    PowerJoin(36, 24, 7);
    assert Power(36, 7) == 78364164096;
    Base36Length(a, 31);
    NumberOfBase36(a);
    if |Base36(a)| < 30 {
      PaddedNumber(30 - |Base36(a)|, Base36(a));
    }
  }

  lemma {:induction false} PowerJoin(base: nat, j: nat, k: nat)
    ensures Power(base, j + k) == Power(base, j) * Power(base, k)
  {
    if j > 0 {
      PowerJoin(base, j - 1, k);
      Associates(base, Power(base, j - 1), Power(base, k));
    }
  }

  lemma Associates(a: int, b: int, c: int)
    ensures a * (b * c) == (a * b) * c
  {
  }

  /** Every 160-bit address survives being written and parsed. */
  lemma RoundTrip(a: nat)
    requires a < TWO_160
    ensures ICAPToAddress(AddressToICAP(a)) == Ok(a)
  {
    var enc := Padded(Base36(a));
    var s := AddressToICAP(a);
    AddressFits(a);
    CheckDigitsShape(enc);
    CheckDigitsValidate(enc);
    assert s[..2] == "XE" && s[4..] == enc;
    ParsesTo(s, enc, a);
  }

  lemma ParsesTo(s: string, enc: string, a: nat)
    requires (|s| == 34 || |s| == 35) && s[..2] == "XE" && s[4..] == enc && ValidCheckSum(s) == Ok(())
    requires Number(enc, 36) == a < TWO_160
    ensures ICAPToAddress(s) == Ok(a)
  {
  }

  /** What is parsed to an address, and what an error says: the length is right, the
      country code is XE and the checksum holds of base-36 characters. The indirect
      form is checked but never resolved. */
  lemma ParsesIff(s: string)
    ensures ICAPToAddress(s).Ok? <==>
            (|s| == 34 || |s| == 35) && s[0] == 'X' && s[1] == 'E' && ValidBase36(s) && Sum(s[4..] + s[..4]) % 97 == 1
    ensures ICAPToAddress(s).Ok? ==> ICAPToAddress(s).value < TWO_160 && (ICAPToAddress(s).value - Number(s[4..], 36)) % TWO_160 == 0
    ensures match ICAPToAddress(s)
            case Ok(_) => true
            case Err(LengthError) => |s| != 20 && |s| != 34 && |s| != 35
            case Err(CountryCodeError) => s[..2] != "XE"
            case Err(AssetIdentError) => |s| == 20 && s[4..7] != "ETH"
            case Err(EncodingError) => !ValidBase36(s)
            case Err(ChecksumError) => Sum(s[4..] + s[..4]) % 97 != 1
            case Err(NotImplemented) => |s| == 20 && s[4..7] == "ETH"
            case Err(_) => false
  {
    if |s| >= 4 {
      RotatedValid(s);
    }
  }

  lemma RotatedValid(s: string)
    requires |s| >= 4
    ensures ValidBase36(Rotated(s)) <==> ValidBase36(s)
  {
    var r := Rotated(s);
    assert forall i :: 0 <= i < |s| ==> s[i] == if i >= 4 then r[i - 4] else r[|s| - 4 + i];
    assert forall i :: 0 <= i < |s| ==> r[i] == if i < |s| - 4 then s[i + 4] else s[i - (|s| - 4)];
  }

  // ---------- errors are found ----------

  /** 97 divides no small multiple of a power of ten. */
  lemma {:induction false} NotDivisible(d: int, k: nat)
    requires d % 97 != 0
    ensures (d * Power(10, k)) % 97 != 0
  {
    if k > 0 {
      NotDivisible(d, k - 1);
      var x := d * Power(10, k - 1);
      assert d * Power(10, k) == 10 * x;
      TenTimes(x);
    } else {
      assert Power(10, 0) == 1;
    }
  }

  lemma TenTimes(x: int)
    requires x % 97 != 0
    ensures (10 * x) % 97 != 0
  {
  }

  predicate SameKind(c: char, d: char) {
    (IsDigit(c) && IsDigit(d)) || (IsLetter(c) && IsLetter(d))
  }

  lemma SumOfLast(a: string, c: char, k: nat, x: int)
    requires (IsDigit(c) || IsLetter(c)) && k == (if IsDigit(c) then 1 else 2) && x == Sum(a) * Power(10, k)
    ensures Sum(a + [c]) == x + Code(c)
  {
    SumOfChar(c);
    SumJoin(a, [c]);
  }

  lemma HeadDiffers(a: string, c: char, d: char)
    requires SameKind(c, d)
    ensures Sum(a + [c]) - Sum(a + [d]) == Code(c) - Code(d)
  {
    var k := if IsDigit(c) then 1 else 2;
    var x := Sum(a) * Power(10, k);
    SumOfLast(a, c, k, x);
    SumOfLast(a, d, k, x);
  }

  lemma Distribute(x: int, y: int, p: int, z: int)
    ensures (x * p + z) - (y * p + z) == (x - y) * p
  {
  }

  lemma Congruent(x: int, y: int)
    requires Apart(x, y)
    ensures x % 97 != y % 97
  {
  }

  lemma ShiftedDiffer(x: int, y: int, z: int, k: nat, u: int, v: int)
    requires Apart(x, y)
    requires u == x * Power(10, k) + z && v == y * Power(10, k) + z
    ensures Apart(u, v)
  {
    NotDivisible(x - y, k);
    Distribute(x, y, Power(10, k), z);
  }

  /** Not congruent modulo 97. */
  predicate Apart(x: int, y: int) {
    (x - y) % 97 != 0
  }

  /** A common tail does not hide a difference. */
  lemma TailDiffers(s: string, t: string, b: string)
    requires Apart(Sum(s), Sum(t))
    ensures Apart(Sum(s + b), Sum(t + b))
  {
    SumJoin(s, b);
    SumJoin(t, b);
    ShiftedDiffer(Sum(s), Sum(t), Sum(b), |Expand(b)|, Sum(s + b), Sum(t + b));
  }

  lemma SmallNotDivisible(c: char, d: char, x: int, y: int)
    requires SameKind(c, d) && c != d && x - y == Code(c) - Code(d)
    ensures Apart(x, y)
  {
  }

  lemma HeadNotDivisible(a: string, c: char, d: char)
    requires SameKind(c, d) && c != d
    ensures Apart(Sum(a + [c]), Sum(a + [d]))
  {
    HeadDiffers(a, c, d);
    SmallNotDivisible(c, d, Sum(a + [c]), Sum(a + [d]));
  }

  /** Changing one character for another of its kind changes the checksum. */
  lemma ChangeShows(a: string, c: char, d: char, b: string)
    requires SameKind(c, d) && c != d
    ensures Apart(Sum(a + [c] + b), Sum(a + [d] + b))
  {
    HeadNotDivisible(a, c, d);
    TailDiffers(a + [c], a + [d], b);
  }

  lemma RotatedChange(s: string, i: nat, d: char)
    requires |s| >= 4 && i < |s|
    ensures var k := if i >= 4 then i - 4 else |s| - 4 + i;
            Rotated(s)[k] == s[i] && Rotated(s[i := d]) == Rotated(s)[k := d]
  {
  }

  lemma Around(r: string, k: nat, d: char)
    requires k < |r|
    ensures r == r[..k] + [r[k]] + r[k + 1..] && r[k := d] == r[..k] + [d] + r[k + 1..]
  {
  }

  /** Whatever the length: in a string that validates, a digit changed for another
      digit, or a letter for another letter, is found out. */
  lemma SingleChangeFound(s: string, i: nat, d: char)
    requires |s| >= 4 && i < |s| && ValidCheckSum(s) == Ok(())
    requires SameKind(s[i], d) && d != s[i]
    ensures ValidCheckSum(s[i := d]) == Err(ChecksumError)
  {
    var r, k := Rotated(s), if i >= 4 then i - 4 else |s| - 4 + i;
    RotatedChange(s, i, d);
    Around(r, k, d);
    ChangeShows(r[..k], r[k], d, r[k + 1..]);
    Congruent(Sum(r), Sum(r[k := d]));
  }
}
