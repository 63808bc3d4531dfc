/** The bytes of netstrings as they are sent, written out.  Nothing here is stated by the names of special bytes, or by
    the functions that encode and parse. */
module NetstringWire {
  import opened Common
  import opened Netstring

  /** The first `n` bytes are digits. */
  predicate DigitsOnly(bytes: seq<byte>, n: nat) {
    n <= |bytes| && forall i :: 0 <= i < n ==> 48 <= bytes[i] <= 57
  }

  /** What decimal digits stand for. */
  function Positional(digits: seq<byte>): int {
    if digits == [] then 0 else Positional(digits[..|digits| - 1]) * 10 + (digits[|digits| - 1] as int - 48)
  }

  /** `n` digits that say how long the message is, a colon, the message, and a comma. */
  ghost predicate Wire(bytes: seq<byte>, n: nat, msg: seq<byte>) {
    && n >= 1 && |bytes| == n + 1 + |msg| + 1
    && DigitsOnly(bytes, n) && Positional(bytes[..n]) == |msg| && (bytes[0] == 48 ==> n == 1)
    && bytes[n] == 58
    && bytes[n + 1..n + 1 + |msg|] == msg
    && bytes[n + 1 + |msg|] == 44
  }

  /** The bytes begin with `n` digits and a colon, and the digits stand for `len` in a machine word of 64 bits. */
  ghost predicate Headed(bytes: seq<byte>, n: nat, len: nat) {
    n < |bytes| && DigitsOnly(bytes, n) && bytes[n] == 58
    && len == Positional(bytes[..n]) % 0x1_0000_0000_0000_0000
  }

  /** The bytes begin with a message of length `len`. */
  ghost predicate Framed(bytes: seq<byte>, n: nat, len: nat) {
    Headed(bytes, n, len) && n + 1 + len < |bytes| && bytes[n + 1 + len] == 44
  }

  /** Something else than a digit or a colon is where the length should go on. */
  ghost predicate BadLength(bytes: seq<byte>, n: nat) {
    n < |bytes| && DigitsOnly(bytes, n) && !(48 <= bytes[n] <= 57) && bytes[n] != 58
  }

  /** Something else than a comma is behind the message. */
  ghost predicate BadEnd(bytes: seq<byte>, n: nat, len: nat) {
    Headed(bytes, n, len) && n + 1 + len < |bytes| && bytes[n + 1 + len] != 44
  }

  // ---------------------------------------------------------------- encoding

  lemma {:induction false} DecimalPositional(n: nat)
    ensures Positional(Decimal(n)) == n && DigitsOnly(Decimal(n), |Decimal(n)|)
    ensures Decimal(n)[0] == 48 ==> n == 0 && |Decimal(n)| == 1
  {
    if n < 10 {
      assert Decimal(n)[..0] == [];
    } else {
      DecimalPositional(n / 10);
      assert Decimal(n)[..|Decimal(n)| - 1] == Decimal(n / 10);
    }
  }

  lemma Laid(digits: seq<byte>, colon: byte, msg: seq<byte>, comma: byte)
    ensures var bytes, n := digits + [colon] + msg + [comma], |digits|;
            && |bytes| == n + 1 + |msg| + 1 && bytes[..n] == digits && bytes[n] == colon
            && bytes[n + 1..n + 1 + |msg|] == msg && bytes[n + 1 + |msg|] == comma
  {
  }

  lemma EncodedOnWire(msg: seq<byte>)
    ensures Wire(Encoded(msg), |Decimal(|msg|)|, msg)
  {
    var bytes, digits := Encoded(msg), Decimal(|msg|);
    DecimalPositional(|msg|);
    Laid(digits, COLON, msg, COMMA);
    forall i | 0 <= i < |digits| ensures bytes[i] == digits[i] {
      assert bytes[..|digits|][i] == digits[i];
    }
  }

  // ---------------------------------------------------------------- decoding

  lemma {:induction false} NumValuePositional(digits: seq<byte>)
    requires forall i :: 0 <= i < |digits| ==> IsDigit(digits[i])
    requires DigitsOnly(digits, |digits|)
    ensures Positional(digits) >= 0 && NumValue(0, digits) == Positional(digits) % 0x1_0000_0000_0000_0000
  {
    if digits != [] {
      var init := digits[..|digits| - 1];
      NumValuePositional(init);
      WrapsAround(Positional(init), digits[|digits| - 1] - 48);
    }
  }

  /** Wrapping a number before it is multiplied makes no difference to what it wraps to. */
  lemma WrapsAround(a: int, b: int)
    ensures ((a % 0x1_0000_0000_0000_0000) * 10 + b) % 0x1_0000_0000_0000_0000
         == (a * 10 + b) % 0x1_0000_0000_0000_0000
  {
    var m := 0x1_0000_0000_0000_0000;
    var q := a / m;
    assert a == q * m + a % m;
    assert a * 10 + b == (a % m) * 10 + b + (10 * q) * m;
    ModuloShift((a % m) * 10 + b, 10 * q, m);
  }

  lemma ModuloShift(x: int, k: int, m: int)
    requires m > 0
    ensures (x + k * m) % m == x % m
  {
    var q, r := x / m, x % m;
    assert x + k * m == (q + k) * m + r;
    QuotientUnique(q + k, r, (q + k) * m + r, m);
  }

  lemma QuotientUnique(q: int, r: int, x: int, m: int)
    requires m > 0 && 0 <= r < m && x == q * m + r
    ensures x % m == r
  {
    var d := x / m - q;
    assert d * m == r - x % m;
    assert d >= 1 ==> d * m >= m;
    assert d <= -1 ==> d * m <= -m;
  }

  /** The digits in front of a colon are those that are read as the length. */
  lemma HeadedDigits(bytes: seq<byte>, n: nat, len: nat)
    ensures Headed(bytes, n, len) <==>
              n == Digits(bytes) < |bytes| && bytes[n] == 58 && len == NumValue(0, bytes[..n])
  {
    if Headed(bytes, n, len) {
      DigitsUnique(bytes, n);
    }
    if n == Digits(bytes) < |bytes| || Headed(bytes, n, len) {
      NumValuePositional(bytes[..n]);
    }
  }

  lemma BadLengthDigits(bytes: seq<byte>, n: nat)
    ensures BadLength(bytes, n) <==> n == Digits(bytes) < |bytes| && bytes[n] != 58
  {
    if BadLength(bytes, n) {
      DigitsUnique(bytes, n);
    }
  }

  lemma OnlyHead(bytes: seq<byte>)
    ensures forall k: nat, len: nat :: Headed(bytes, k, len) <==>
              k == Digits(bytes) < |bytes| && bytes[k] == 58 && len == NumValue(0, bytes[..k])
    ensures forall k: nat :: BadLength(bytes, k) <==> k == Digits(bytes) < |bytes| && bytes[k] != 58
  {
    forall k: nat, len: nat
      ensures Headed(bytes, k, len) <==>
                k == Digits(bytes) < |bytes| && bytes[k] == 58 && len == NumValue(0, bytes[..k])
    {
      HeadedDigits(bytes, k, len);
    }
    forall k: nat ensures BadLength(bytes, k) <==> k == Digits(bytes) < |bytes| && bytes[k] != 58 {
      BadLengthDigits(bytes, k);
    }
  }

  /** What is parsed of the bytes, if they begin with a length and a colon in one way only. */
  lemma OneHead(bytes: seq<byte>, n: nat, len: nat, parsed: Parsed)
    requires forall k: nat, l: nat :: Headed(bytes, k, l) <==> k == n && l == len
    requires n < |bytes|
    requires parsed == if |bytes| <= n + 1 + len then Partial(Body(len - (|bytes| - (n + 1))))
                       else if bytes[n + 1 + len] != 44 then Failed(MissingComma)
                       else Complete(bytes[n + 1..n + 1 + len], bytes[n + 1 + len + 1..])
    ensures parsed.Complete? <==> exists k: nat, l: nat :: Framed(bytes, k, l)
    ensures forall k: nat, l: nat :: Framed(bytes, k, l) ==>
              parsed == Complete(bytes[k + 1..k + 1 + l], bytes[k + 1 + l + 1..])
    ensures parsed == Failed(MissingComma) <==> exists k: nat, l: nat :: BadEnd(bytes, k, l)
  {
    assert Headed(bytes, n, len);
    assert Framed(bytes, n, len) <==> n + 1 + len < |bytes| && bytes[n + 1 + len] == 44;
    assert BadEnd(bytes, n, len) <==> n + 1 + len < |bytes| && bytes[n + 1 + len] != 44;
  }

  /** A message is parsed exactly when the bytes begin with one; the parser fails exactly when a length goes wrong, or a
      comma is missing. */
  lemma ParsedOnWire(bytes: seq<byte>)
    ensures Parse(Num(0), bytes).Complete? <==> exists n: nat, len: nat :: Framed(bytes, n, len)
    ensures forall n: nat, len: nat :: Framed(bytes, n, len) ==>
              Parse(Num(0), bytes) == Complete(bytes[n + 1..n + 1 + len], bytes[n + 1 + len + 1..])
    ensures Parse(Num(0), bytes) == Failed(BadCharacter) <==> exists n: nat :: BadLength(bytes, n)
    ensures Parse(Num(0), bytes) == Failed(MissingComma) <==> exists n: nat, len: nat :: BadEnd(bytes, n, len)
    ensures Parse(Num(0), bytes) != Failed(BadState)
  {
    OnlyHead(bytes);
    var n := Digits(bytes);
    if n < |bytes| {
      HeaderRead(bytes, n);
      if bytes[n] == 58 {
        var len := NumValue(0, bytes[..n]);
        BodyParsed(bytes, n + 1, len);
        OneHead(bytes, n, len, Parse(Num(0), bytes));
      } else {
        assert BadLength(bytes, n);
      }
    }
  }

  lemma BodySliced(bytes: seq<byte>, start: nat, len: nat)
    requires start + len < |bytes|
    ensures bytes[start..][..len] == bytes[start..start + len] && bytes[start..][len] == bytes[start + len]
    ensures bytes[start..][len + 1..] == bytes[start + len + 1..]
  {
  }

  lemma BodyParsed(bytes: seq<byte>, start: nat, len: nat)
    requires start <= |bytes|
    ensures ParseBody(len, bytes[start..])
         == if |bytes| <= start + len then Partial(Body(len - (|bytes| - start)))
            else if bytes[start + len] != 44 then Failed(MissingComma)
            else Complete(bytes[start..start + len], bytes[start + len + 1..])
  {
    if start + len < |bytes| {
      BodySliced(bytes, start, len);
    }
  }

  lemma HeaderRead(bytes: seq<byte>, n: nat)
    requires n == Digits(bytes) < |bytes|
    ensures Parse(Num(0), bytes)
         == if bytes[n] == 58 then ParseBody(NumValue(0, bytes[..n]), bytes[n + 1..]) else Failed(BadCharacter)
  {
  }
}
