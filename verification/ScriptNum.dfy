/** Script numbers and truth values: little-endian sign-magnitude byte strings (src/chain/script.ts). */
module ScriptNum {
  import opened Genesis

  /** Any non-zero byte makes an item true, except a lone sign bit on top (negative zero). */
  function Truthy(item: Bytes): bool {
    if item == [] then false
    else if item[0] != 0 then !(|item| == 1 && item[0] == 0x80)
    else Truthy(item[1..])
  }

  method IsTruthy(item: Bytes) returns (b: bool)
    ensures b == Truthy(item)
  {
    for i := 0 to |item|
      invariant Truthy(item) == Truthy(item[i..])
    {
      assert item[i..][1..] == item[i + 1..];
      if item[i] != 0 {
        if i == |item| - 1 && item[i] == 0x80 {
          return false;
        }
        return true;
      }
    }
    b := false;
  }

  /** The value of an item without its sign bit. */
  function Magnitude(item: Bytes): nat
    requires item != []
  {
    if |item| == 1 then item[0] % 128 else item[0] + 256 * Magnitude(item[1..])
  }

  predicate Negative(item: Bytes)
    requires item != []
  {
    item[|item| - 1] >= 0x80
  }

  /** The top byte carries magnitude, or a sign its neighbour's high bit leaves no room for. */
  predicate Minimal(item: Bytes)
    requires item != []
  {
    var n := |item|;
    item[n - 1] % 128 == 0 ==> n > 1 && item[n - 2] >= 0x80
  }

  /** A strict decoder: over-long and non-minimal encodings have no value. */
  function DecodeNum(item: Bytes, maxBytes: nat): Option<int> {
    if |item| > maxBytes then None
    else if item == [] then Some(0)
    else if !Minimal(item) then None
    else
      var magnitude: int := Magnitude(item);
      Some(if Negative(item) then -magnitude else magnitude)
  }

  /** The minimal encoding of a positive magnitude with a sign. */
  function EncodeMagnitude(n: nat, neg: bool): (e: Bytes)
    requires n > 0
    ensures e != []
  {
    if n < 128 then [if neg then n + 128 else n]
    else if n < 256 then [n, if neg then 0x80 else 0]
    else [n % 256] + EncodeMagnitude(n / 256, neg)
  }

  function EncodeNum(value: int): Bytes {
    if value == 0 then []
    else if value < 0 then EncodeMagnitude(-value, true)
    else EncodeMagnitude(value, false)
  }

  // ---- The codecs as written ----

  function LittleEndian(item: Bytes): nat {
    if item == [] then 0 else item[0] + 256 * LittleEndian(item[1..])
  }

  function PlaceValue(n: nat): nat {
    if n == 0 then 1 else 256 * PlaceValue(n - 1)
  }

  lemma {:induction false} LittleEndianSnoc(item: Bytes, b: Byte)
    ensures LittleEndian(item + [b]) == LittleEndian(item) + b * PlaceValue(|item|)
  {
    if item == [] {
      assert [b][1..] == [];
    } else {
      LittleEndianSnoc(item[1..], b);
      assert (item + [b])[1..] == item[1..] + [b];
      Distribute(b, PlaceValue(|item| - 1));
    }
  }

  lemma Distribute(b: nat, p: nat)
    ensures 256 * (b * p) == b * (256 * p)
  {
  }

  lemma {:induction false} SignBit(item: Bytes)
    requires item != []
    ensures LittleEndian(item) == Magnitude(item) + if Negative(item) then 128 * PlaceValue(|item| - 1) else 0
    ensures LittleEndian(item) >= 128 * PlaceValue(|item| - 1) <==> Negative(item)
  {
    if |item| == 1 {
      assert item[1..] == [];
    } else {
      SignBit(item[1..]);
    }
  }

  /** `decodeNum` as written: accumulate the bytes, then test and clear the sign bit. */
  method DecodeNumber(item: Bytes, maxBytes: nat) returns (r: Option<int>)
    ensures r == DecodeNum(item, maxBytes)
  {
    if |item| > maxBytes {
      return None;
    }
    if |item| == 0 {
      return Some(0);
    }
    var top := item[|item| - 1];
    if top % 128 == 0 {
      if |item| <= 1 || item[|item| - 2] < 0x80 {
        return None;
      }
    }
    var result: int, place: int := 0, 1;
    for i := 0 to |item|
      invariant place == PlaceValue(i)
      invariant result == LittleEndian(item[..i])
    {
      LittleEndianSnoc(item[..i], item[i]);
      assert item[..i + 1] == item[..i] + [item[i]];
      result, place := result + item[i] * place, 256 * place;
    }
    assert item[..|item|] == item;
    SignBit(item);
    var signBit := place / 2;
    if result >= signBit {
      return Some(-(result - signBit));
    }
    return Some(result);
  }

  /** Little-endian bytes of a natural number. */
  function Digits(n: nat): Bytes {
    if n == 0 then [] else [n % 256] + Digits(n / 256)
  }

  lemma DigitsStep(n: nat)
    ensures Digits(n) == if n == 0 then [] else [n % 256] + Digits(n / 256)
  {
  }

  /** The sign fix-up both encoders end with. */
  function Signed(bytes: Bytes, neg: bool): Bytes
    requires bytes != []
  {
    var n := |bytes| - 1;
    if bytes[n] >= 0x80 then bytes + [if neg then 0x80 else 0]
    else if neg then bytes[..n] + [bytes[n] + 0x80]
    else bytes
  }

  lemma {:induction false} SignedDigits(n: nat, neg: bool)
    requires n > 0
    ensures Digits(n) != [] && Signed(Digits(n), neg) == EncodeMagnitude(n, neg)
  {
    if n < 256 {
      assert Digits(n / 256) == [];
    } else {
      SignedDigits(n / 256, neg);
      var rest := Digits(n / 256);
      assert Signed([n % 256] + rest, neg) == [n % 256] + Signed(rest, neg);
    }
  }

  /** Room for the sign in the top byte, or one more byte for it. */
  method PlaceSign(bytes: Bytes, neg: bool) returns (r: Bytes)
    requires bytes != []
    ensures r == Signed(bytes, neg)
  {
    r := bytes;
    var top := |r| - 1;
    if r[top] >= 0x80 {
      r := r + [if neg then 0x80 else 0];
    } else if neg {
      r := r[..top] + [r[top] + 0x80];
    }
  }

  /** `encodeNum` and, on safe integers, `encodeScriptNum`: peel bytes off, then place the sign. */
  method EncodeNumber(value: int) returns (bytes: Bytes)
    ensures bytes == EncodeNum(value)
  {
    if value == 0 {
      return [];
    }
    var neg := value < 0;
    var abs := if neg then -value else value;
    ghost var n := abs;
    bytes := [];
    hide EncodeMagnitude, Digits, Signed;
    SignedDigits(n, neg);
    while abs > 0
      invariant abs >= 0
      invariant Digits(n) == bytes + Digits(abs)
    {
      DigitsStep(abs);
      assert bytes + ([abs % 256] + Digits(abs / 256)) == bytes + [abs % 256] + Digits(abs / 256);
      bytes := bytes + [abs % 256];
      abs := abs / 256;
    }
    DigitsStep(0);
    assert bytes + [] == bytes;
    bytes := PlaceSign(bytes, neg);
  }

  // ---- Properties ----

  /** The first magnitude that needs more than `k` bytes. */
  function Limit(k: nat): nat {
    if k == 0 then 1 else if k == 1 then 128 else 256 * Limit(k - 1)
  }

  lemma {:induction false} LimitGrows(k: nat)
    ensures Limit(k) >= 1 && (k >= 1 ==> Limit(k) >= 128) && (k >= 2 ==> Limit(k) >= 0x8000)
  {
    if k > 1 {
      LimitGrows(k - 1);
    }
  }

  lemma {:induction false} EncodedMagnitude(n: nat, neg: bool, k: nat)
    requires n > 0
    ensures var e := EncodeMagnitude(n, neg);
      && Minimal(e) && Magnitude(e) == n && Negative(e) == neg
      && (|e| <= k <==> n < Limit(k))
    decreases n
  {
    LimitGrows(k);
    if n >= 256 {
      var rest := EncodeMagnitude(n / 256, neg);
      EncodedMagnitude(n / 256, neg, if k == 0 then 0 else k - 1);
      assert ([n % 256] + rest)[1..] == rest;
    } else if n >= 128 {
      assert [n, if neg then 0x80 else 0][1..] == [if neg then 0x80 else 0];
    }
  }

  /** Decoding inverts encoding exactly when the encoding fits the operand limit. */
  lemma DecodeOfEncode(value: int, maxBytes: nat)
    ensures DecodeNum(EncodeNum(value), maxBytes)
         == if -(Limit(maxBytes) as int) < value < Limit(maxBytes) then Some(value) else None
  {
    LimitGrows(maxBytes);
    if value != 0 {
      EncodedMagnitude(if value < 0 then -value else value, value < 0, maxBytes);
    }
  }

  /** One byte more below a magnitude. */
  lemma EncodeByte(b: Byte, m: nat, neg: bool)
    requires m > 0
    ensures EncodeMagnitude(b + 256 * m, neg) == [b] + EncodeMagnitude(m, neg)
  {
    assert (b + 256 * m) % 256 == b && (b + 256 * m) / 256 == m;
  }

  lemma TwoBytes(item: Bytes)
    requires |item| == 2 && item[1] % 128 == 0 && Minimal(item)
    ensures Magnitude(item) > 0 && EncodeMagnitude(Magnitude(item), Negative(item)) == item
  {
    assert item[1..] == [item[1]];
    assert Magnitude(item) == item[0] >= 128;
  }

  lemma OneByte(item: Bytes)
    requires |item| == 1 && Minimal(item)
    ensures Magnitude(item) > 0 && EncodeMagnitude(Magnitude(item), Negative(item)) == item
  {
  }

  lemma MinimalRest(item: Bytes)
    requires |item| > 1 && Minimal(item) && !(|item| == 2 && item[1] % 128 == 0)
    ensures Minimal(item[1..]) && Negative(item[1..]) == Negative(item)
    ensures Magnitude(item) == item[0] + 256 * Magnitude(item[1..])
  {
  }

  /** Every decodable item is the one encoding of its value. */
  lemma {:induction false} EncodeOfMagnitude(item: Bytes)
    requires item != [] && Minimal(item)
    ensures Magnitude(item) > 0 && EncodeMagnitude(Magnitude(item), Negative(item)) == item
  {
    hide EncodeMagnitude, Magnitude, Minimal, Negative;
    if |item| == 1 {
      OneByte(item);
    } else if |item| == 2 && item[1] % 128 == 0 {
      TwoBytes(item);
    } else {
      var rest := item[1..];
      MinimalRest(item);
      EncodeOfMagnitude(rest);
      EncodeByte(item[0], Magnitude(rest), Negative(item));
      assert item == [item[0]] + rest;
    }
  }

  lemma EncodeOfDecode(item: Bytes, maxBytes: nat)
    requires DecodeNum(item, maxBytes).Some?
    ensures EncodeNum(DecodeNum(item, maxBytes).value) == item
  {
    if item != [] {
      EncodeOfMagnitude(item);
    }
  }

  /** On numbers, truth is being non-zero. */
  lemma {:induction false} TruthyNumber(item: Bytes, maxBytes: nat)
    requires DecodeNum(item, maxBytes).Some?
    ensures Truthy(item) <==> DecodeNum(item, maxBytes).value != 0
  {
    if item != [] {
      EncodeOfMagnitude(item);
      TruthyMinimal(item);
    }
  }

  lemma {:induction false} TruthyMinimal(item: Bytes)
    requires item != [] && Minimal(item)
    ensures Truthy(item)
  {
    if |item| > 1 && item[0] == 0 {
      assert Minimal(item[1..]);
      TruthyMinimal(item[1..]);
    }
  }

  /** The value of a decodable item: its bytes in base 256, least first, the top bit being the sign. */
  lemma ValueOfItem(item: Bytes, maxBytes: nat)
    requires DecodeNum(item, maxBytes).Some? && item != []
    ensures var n, v := LittleEndian(item), DecodeNum(item, maxBytes).value;
      v == if item[|item| - 1] < 0x80 then n else -(n - 128 * PlaceValue(|item| - 1))
  {
    SignBit(item);
  }
}
