/** The loops of common/icap.go, and the indirect form. */
module IcapCoder {
  import opened Icap

  method CheckBase36(s: string) returns (valid: bool)
    ensures valid == ValidBase36(s)
  {
    for k := 0 to |s|
      invariant forall j :: 0 <= j < k ==> IsDigit(s[j]) || IsLetter(s[j])
    {
      var i := s[k] as int;
      if i < 48 || (i > 57 && i < 65) || i > 90 {
        return false;
      }
    }
    return true;
  }

  method Iso13616Expand(s: string) returns (r: Result<string>)
    ensures r == if ValidBase36(s) then Ok(Expand(s)) else Err(EncodingError)
  {
    var valid := CheckBase36(s);
    if !valid {
      return Err(EncodingError);
    }
    var parts: string := [];
    for k := 0 to |s|
      invariant parts == Expand(s[..k])
    {
      assert s[..k + 1][..k] == s[..k];
      var i := s[k] as int;
      if i >= 65 {
        parts := parts + [Char36((i - 55) / 10), Char36((i - 55) % 10)];
      } else {
        parts := parts + [s[k]];
      }
    }
    assert s[..|s|] == s;
    return Ok(parts);
  }

  function Reversed(s: string): string {
    seq(|s|, i requires 0 <= i < |s| => s[|s| - 1 - i])
  }

  /** Swaps ends towards the middle. */
  method Reverse(chars: array<char>)
    modifies chars
    ensures chars[..] == Reversed(old(chars[..]))
  {
    var n := chars.Length;
    var i, j := 0, n - 1;
    while i < j
      invariant 0 <= i <= n && j == n - 1 - i && i <= j + 1 + (if n == 0 then 1 else 0)
      invariant forall k :: 0 <= k < n && (k < i || k > j) ==> chars[k] == old(chars[n - 1 - k])
      invariant forall k :: i <= k <= j ==> chars[k] == old(chars[k])
    {
      chars[i], chars[j] := chars[j], chars[i];
      i, j := i + 1, j - 1;
    }
  }

  /** The digits above those already written. */
  function Above(i: nat): string {
    if i == 0 then [] else Base36(i)
  }

  lemma DigitOut(i: nat, chars: string)
    requires i > 0
    ensures Above(i) + Reversed(chars) == Above(i / 36) + Reversed(chars + [Char36(i % 36)])
  {
    var c := Char36(i % 36);
    assert Above(i) == Above(i / 36) + [c];
    assert Reversed(chars + [c]) == [c] + Reversed(chars);
  }

  /** `base36Encode`: digits come out lowest first and are then turned round. */
  method Base36Encode(n: nat) returns (s: string)
    ensures s == Base36(n)
  {
    var chars: string := [Char36(n % 36)];
    var i: nat := n / 36;
    assert Reversed(chars) == chars;
    while i != 0
      invariant Base36(n) == Above(i) + Reversed(chars)
    {
      DigitOut(i, chars);
      chars := chars + [Char36(i % 36)];
      i := i / 36;
    }
    var a := new char[|chars|](k requires 0 <= k < |chars| => chars[k]);
    assert a[..] == chars;
    Reverse(a);
    return a[..];
  }

  /** `clientIdentToIndirectICAP`: where the identifier should be checked, the
      institution code is checked a second time. */
  function ClientIdentToIndirectICAP(instCode: string, clientIdent: string): Result<string> {
    if |instCode| != 4 || !ValidBase36(instCode) then Err(InstCodeError)
    else if |clientIdent| != 9 || !ValidBase36(instCode) then Err(ClientIdentError)
    else
      var s := "ETH" + instCode + clientIdent;
      if !ValidBase36(s + "XE00") then Err(Panic) else Ok("XE" + CheckDigits(s) + s)
  }

  lemma ValidJoin(a: string, b: string)
    ensures ValidBase36(a + b) <==> ValidBase36(a) && ValidBase36(b)
  {
    assert forall i :: 0 <= i < |a| ==> (a + b)[i] == a[i];
    assert forall i :: 0 <= i < |b| ==> (a + b)[|a| + i] == b[i];
  }

  /** An indirect address is made exactly from a four-character code and a
      nine-character identifier in base 36, and validates; a bad identifier of the
      right length is not refused but panics. */
  lemma IndirectIff(instCode: string, clientIdent: string)
    ensures var r := ClientIdentToIndirectICAP(instCode, clientIdent);
            var sized := |instCode| == 4 && |clientIdent| == 9 && ValidBase36(instCode);
            && (r.Ok? <==> sized && ValidBase36(clientIdent))
            && (r == Err(Panic) <==> sized && !ValidBase36(clientIdent))
            && (r.Ok? ==> |r.value| == 20 && ValidCheckSum(r.value) == Ok(()))
  {
    var s := "ETH" + instCode + clientIdent;
    ValidJoin(s, "XE00");
    ValidJoin("ETH" + instCode, clientIdent);
    ValidJoin("ETH", instCode);
    CheckDigitsShape(s);
    if ValidBase36(s) {
      CheckDigitsValidate(s);
    }
  }
}
