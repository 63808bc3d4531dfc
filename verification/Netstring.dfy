/** Netstrings: the format, without regard to how it arrives. */
module Netstring {
  import opened Common

  type byte = x: int | 0 <= x < 256

  const ZERO: byte := 48
  const NINE: byte := 57
  const COLON: byte := 58
  const COMMA: byte := 44

  predicate IsDigit(b: byte) {
    ZERO <= b <= NINE
  }

  // ---------------------------------------------------------------- encoding

  /** The decimal digits of `n`. */
  function Decimal(n: nat): (digits: seq<byte>)
    ensures digits != [] && forall i :: 0 <= i < |digits| ==> IsDigit(digits[i])
  {
    if n < 10 then [ZERO + n] else Decimal(n / 10) + [ZERO + n % 10]
  }

  function Encoded(msg: seq<byte>): seq<byte> {
    Decimal(|msg|) + [COLON] + msg + [COMMA]
  }

  function EncodedAll(msgs: seq<seq<byte>>): seq<byte> {
    if msgs == [] then [] else Encoded(msgs[0]) + EncodedAll(msgs[1..])
  }

  // ---------------------------------------------------------------- parsing

  /** What digits add to a number. */
  function NumValue(cur: nat, digits: seq<byte>): nat
    requires forall i :: 0 <= i < |digits| ==> IsDigit(digits[i])
  {
    if digits == [] then cur
    else (NumValue(cur, digits[..|digits| - 1]) * 10 + (digits[|digits| - 1] - ZERO)) % USIZE
  }

  /** The number of leading digits. */
  function Digits(buf: seq<byte>): (n: nat)
    ensures n <= |buf| && (forall i :: 0 <= i < n ==> IsDigit(buf[i])) && (n < |buf| ==> !IsDigit(buf[n]))
  {
    if buf == [] || !IsDigit(buf[0]) then 0 else 1 + Digits(buf[1..])
  }

  lemma {:induction false} DigitsUnique(buf: seq<byte>, n: nat)
    requires n <= |buf| && (forall i :: 0 <= i < n ==> IsDigit(buf[i])) && (n < |buf| ==> !IsDigit(buf[n]))
    ensures Digits(buf) == n
  {
    if n > 0 {
      DigitsUnique(buf[1..], n - 1);
    }
  }

  datatype Error = BadState | BadCharacter | MissingComma

  /** What is expected next: the rest of a length, or the rest of a payload and the comma. */
  datatype State = Num(cur: nat) | Body(len: nat)

  /** The first message of some input, and what follows it; or what is missing. */
  datatype Parsed =
    | Complete(payload: seq<byte>, rest: seq<byte>)
    | Partial(next: State)
    | Failed(error: Error)

  /** The rest of a payload, and the comma. */
  function ParseBody(len: nat, buf: seq<byte>): Parsed {
    if |buf| <= len then Partial(Body(len - |buf|))
    else if buf[len] == COMMA then Complete(buf[..len], buf[len + 1..])
    else Failed(MissingComma)
  }

  function Parse(state: State, buf: seq<byte>): Parsed {
    match state
    case Num(cur) =>
      var n := Digits(buf);
      if n == |buf| then Partial(Num(NumValue(cur, buf)))
      else if buf[n] == COLON then ParseBody(NumValue(cur, buf[..n]), buf[n + 1..])
      else Failed(BadCharacter)
    case Body(len) => ParseBody(len, buf)
  }

  // ---------------------------------------------------------------- decoding what was encoded

  /** Digits are read from the left; a number that fits is read without wrapping. */
  lemma {:induction false} DecimalValue(n: nat)
    requires n < USIZE
    ensures NumValue(0, Decimal(n)) == n
  {
    if n < 10 {
      assert Decimal(n)[..0] == [];
    } else {
      DecimalValue(n / 10);
      assert Decimal(n)[..|Decimal(n)| - 1] == Decimal(n / 10);
    }
  }

  lemma Associative<T>(a: seq<T>, b: seq<T>, c: seq<T>)
    ensures (a + b) + c == a + (b + c)
  {
  }

  lemma FirstPart(digits: seq<byte>, body: seq<byte>)
    ensures var buf, n := digits + ([COLON] + body), |digits|;
            && n < |buf| && buf[n] == COLON && buf[..n] == digits && buf[n + 1..] == body
            && (forall i :: 0 <= i < n ==> buf[i] == digits[i])
  {
  }

  lemma Regrouped(digits: seq<byte>, msg: seq<byte>, rest: seq<byte>)
    ensures digits + [COLON] + msg + [COMMA] + rest == digits + ([COLON] + (msg + [COMMA] + rest))
  {
    var colon, comma: seq<byte> := [COLON], [COMMA];
    Associative(digits + colon + msg, comma, rest);
    Associative(digits + colon, msg, comma + rest);
    Associative(msg, comma, rest);
    Associative(digits, colon, msg + comma + rest);
  }

  lemma EncodedParts(msg: seq<byte>, rest: seq<byte>)
    ensures var buf, n := Encoded(msg) + rest, |Decimal(|msg|)|;
            && n < |buf| && buf[n] == COLON && buf[..n] == Decimal(|msg|) && buf[n + 1..] == msg + [COMMA] + rest
            && Digits(buf) == n
  {
    Regrouped(Decimal(|msg|), msg, rest);
    FirstPart(Decimal(|msg|), msg + [COMMA] + rest);
    DigitsUnique(Encoded(msg) + rest, |Decimal(|msg|)|);
  }

  /** Decoding is the inverse of encoding, whatever follows. */
  lemma ParseEncoded(msg: seq<byte>, rest: seq<byte>)
    requires |msg| < USIZE
    ensures Parse(Num(0), Encoded(msg) + rest) == Complete(msg, rest)
  {
    EncodedParts(msg, rest);
    DecimalValue(|msg|);
    var body := msg + [COMMA] + rest;
    assert body[..|msg|] == msg && body[|msg| + 1..] == rest;
  }

  // ---------------------------------------------------------------- resuming

  lemma {:induction false} NumValueConcat(cur: nat, a: seq<byte>, b: seq<byte>)
    requires (forall i :: 0 <= i < |a| ==> IsDigit(a[i])) && (forall i :: 0 <= i < |b| ==> IsDigit(b[i]))
    ensures NumValue(cur, a + b) == NumValue(NumValue(cur, a), b)
  {
    if b == [] {
      assert a + b == a;
    } else {
      var init := b[..|b| - 1];
      NumValueConcat(cur, a, init);
      assert (a + b)[..|a + b| - 1] == a + init;
    }
  }

  /** The part of the payload that a parser has seen when it stops. */
  function Seen(state: State, a: seq<byte>): (seen: seq<byte>)
    ensures |seen| <= |a| && seen == a[|a| - |seen|..]
  {
    match state
    case Body(_) => a
    case Num(_) => if Digits(a) == |a| then [] else a[Digits(a) + 1..]
  }

  /** `resumed` with the payload `seen` in front is `whole`. */
  ghost predicate Resumes(seen: seq<byte>, resumed: Parsed, whole: Parsed) {
    match resumed
    case Complete(payload, rest) => whole == Complete(seen + payload, rest)
    case _ => whole == resumed
  }

  /** A parser that stopped in some state goes on as if all input had been there from the start. */
  lemma ParseResumed(state: State, a: seq<byte>, b: seq<byte>)
    requires Parse(state, a).Partial?
    ensures Resumes(Seen(state, a), Parse(Parse(state, a).next, b), Parse(state, a + b))
  {
    match state {
      case Body(len) => BodyResumed(len, a, b);
      case Num(cur) =>
        if Digits(a) == |a| {
          NumResumed(cur, a, b);
        } else {
          NumThenBody(cur, a, b, Digits(a));
          BodyResumed(NumValue(cur, a[..Digits(a)]), a[Digits(a) + 1..], b);
        }
    }
  }

  lemma TakeDrop<T>(a: seq<T>, b: seq<T>, m: nat)
    requires m <= |b|
    ensures (a + b)[..|a| + m] == a + b[..m]
    ensures m < |b| ==> (a + b)[|a| + m] == b[m] && (a + b)[|a| + m + 1..] == b[m + 1..]
  {
  }

  lemma DigitsConcat(a: seq<byte>, b: seq<byte>)
    requires Digits(a) == |a|
    ensures Digits(a + b) == |a| + Digits(b)
  {
    var n, m := |a|, Digits(b);
    forall i | 0 <= i < n + m ensures IsDigit((a + b)[i]) {
      assert (a + b)[i] == if i < n then a[i] else b[i - n];
    }
    DigitsUnique(a + b, n + m);
  }

  /** The value of a length that is complete in `a + b`, and where its payload starts. */
  lemma NumConcat(cur: nat, a: seq<byte>, b: seq<byte>)
    requires Digits(a) == |a|
    ensures Digits(a + b) == |a| + Digits(b)
    ensures NumValue(cur, (a + b)[..|a| + Digits(b)]) == NumValue(NumValue(cur, a), b[..Digits(b)])
  {
    DigitsConcat(a, b);
    TakeDrop(a, b, Digits(b));
    NumValueConcat(cur, a, b[..Digits(b)]);
  }

  /** A length of `n` digits that stands for `v`, and what follows it. */
  lemma ParseNum(cur: nat, buf: seq<byte>, n: nat, v: nat)
    requires Digits(buf) == n && v == NumValue(cur, buf[..n])
    ensures n == |buf| ==> Parse(Num(cur), buf) == Partial(Num(v))
    ensures n < |buf| && buf[n] != COLON ==> Parse(Num(cur), buf) == Failed(BadCharacter)
    ensures n < |buf| && buf[n] == COLON ==> Parse(Num(cur), buf) == ParseBody(v, buf[n + 1..])
  {
    if n == |buf| {
      assert buf[..n] == buf;
    }
  }

  lemma NumResumed(cur: nat, a: seq<byte>, b: seq<byte>)
    requires Digits(a) == |a|
    ensures Resumes([], Parse(Num(NumValue(cur, a)), b), Parse(Num(cur), a + b))
  {
    var m := Digits(b);
    var v := NumValue(NumValue(cur, a), b[..m]);
    NumConcat(cur, a, b);
    TakeDrop(a, b, m);
    ParseNum(NumValue(cur, a), b, m, v);
    ParseNum(cur, a + b, |a| + m, v);
    if m < |b| {
      BodyUnseen(v, b[m + 1..]);
    }
  }

  lemma BodyUnseen(len: nat, buf: seq<byte>)
    ensures Resumes([], ParseBody(len, buf), ParseBody(len, buf))
  {
    if |buf| > len {
      assert [] + buf[..len] == buf[..len];
    }
  }

  lemma NumThenBody(cur: nat, a: seq<byte>, b: seq<byte>, n: nat)
    requires n == Digits(a) < |a| && a[n] == COLON
    ensures Parse(Num(cur), a + b) == ParseBody(NumValue(cur, a[..n]), a[n + 1..] + b)
  {
    assert (a + b)[n] == a[n];
    DigitsUnique(a + b, n);
    assert (a + b)[..n] == a[..n] && (a + b)[n + 1..] == a[n + 1..] + b;
  }

  lemma BodyResumed(len: nat, a: seq<byte>, b: seq<byte>)
    requires ParseBody(len, a).Partial?
    ensures Resumes(a, ParseBody(len - |a|, b), ParseBody(len, a + b))
  {
    if |b| > len - |a| {
      assert (a + b)[len] == b[len - |a|];
      assert (a + b)[..len] == a + b[..len - |a|];
      assert (a + b)[len + 1..] == b[len - |a| + 1..];
    }
  }

  /** More input does not change a message that is complete, nor an error. */
  lemma ParseExtended(a: seq<byte>, b: seq<byte>)
    ensures match Parse(Num(0), a)
            case Complete(payload, rest) => Parse(Num(0), a + b) == Complete(payload, rest + b)
            case Failed(error) => Parse(Num(0), a + b) == Failed(error)
            case Partial(_) => true
  {
    var n := Digits(a);
    if n < |a| {
      DigitsUnique(a + b, n);
      assert (a + b)[n] == a[n];
      if a[n] == COLON {
        NumThenBody(0, a, b, n);
        var len, body := NumValue(0, a[..n]), a[n + 1..];
        if |body| > len {
          assert (body + b)[..len] == body[..len] && (body + b)[len] == body[len];
          assert (body + b)[len + 1..] == body[len + 1..] + b;
        }
      }
    }
  }

  // ---------------------------------------------------------------- whole streams

  /** All messages of some input, the input that is left, and whether it is malformed. */
  datatype Decoded = Decoded(msgs: seq<seq<byte>>, rest: seq<byte>, failed: bool)

  function ParseAll(buf: seq<byte>): Decoded
    decreases |buf|
  {
    match Parse(Num(0), buf)
    case Partial(_) => Decoded([], buf, false)
    case Failed(_) => Decoded([], buf, true)
    case Complete(payload, rest) =>
      assert |rest| < |buf|;
      var later := ParseAll(rest);
      later.(msgs := [payload] + later.msgs)
  }

  /** What was decoded first, and then what is decoded from the input that was left with more behind it. */
  function Later(first: Decoded, b: seq<byte>): Decoded {
    if first.failed then first.(rest := first.rest + b)
    else
      var later := ParseAll(first.rest + b);
      later.(msgs := first.msgs + later.msgs)
  }

  lemma LaterPrepend(first: Decoded, b: seq<byte>, msg: seq<byte>)
    ensures Later(first.(msgs := [msg] + first.msgs), b) == Later(first, b).(msgs := [msg] + Later(first, b).msgs)
  {
    if !first.failed {
      Prepended(msg, first.msgs, ParseAll(first.rest + b).msgs);
    }
  }

  lemma Prepended<T>(x: T, a: seq<T>, b: seq<T>)
    ensures [x] + a + b == [x] + (a + b)
  {
  }

  lemma LaterNothing(a: seq<byte>, b: seq<byte>)
    ensures Later(Decoded([], a, false), b) == ParseAll(a + b)
  {
    var later := ParseAll(a + b);
    assert [] + later.msgs == later.msgs;
  }

  /** Parsing what there is, and later the rest with what was left over, is parsing everything. */
  lemma {:induction false} ParseAllExtended(a: seq<byte>, b: seq<byte>)
    ensures ParseAll(a + b) == Later(ParseAll(a), b)
    decreases |a|
  {
    ParseExtended(a, b);
    match Parse(Num(0), a) {
      case Complete(payload, rest) =>
        ParseAllExtended(rest, b);
        LaterPrepend(ParseAll(rest), b, payload);
      case Partial(_) => LaterNothing(a, b);
      case Failed(_) =>
    }
  }

  /** All messages that were encoded are decoded, and nothing is left. */
  lemma {:induction false} ParseAllEncoded(msgs: seq<seq<byte>>)
    requires forall i :: 0 <= i < |msgs| ==> |msgs[i]| < USIZE
    ensures ParseAll(EncodedAll(msgs)) == Decoded(msgs, [], false)
  {
    if msgs != [] {
      ParseEncoded(msgs[0], EncodedAll(msgs[1..]));
      ParseAllEncoded(msgs[1..]);
      assert msgs == [msgs[0]] + msgs[1..];
    }
  }

  // ---------------------------------------------------------------- what the decoder also accepts

  /** The length is written as the standard asks for: with digits, no superfluous zeros, and small enough. */
  ghost predicate Canonical(digits: seq<byte>)
    requires forall i :: 0 <= i < |digits| ==> IsDigit(digits[i])
  {
    digits != [] && (digits[0] == ZERO ==> |digits| == 1) && Unwrapped(digits) < USIZE
  }

  /** The number that digits stand for. */
  ghost function Unwrapped(digits: seq<byte>): nat
    requires forall i :: 0 <= i < |digits| ==> IsDigit(digits[i])
  {
    if digits == [] then 0 else 
      assert IsDigit(digits[|digits| - 1]);
      Unwrapped(digits[..|digits| - 1]) * 10 + (digits[|digits| - 1] - ZERO)
  }

  lemma {:induction false} UnwrappedValue(digits: seq<byte>)
    requires (forall i :: 0 <= i < |digits| ==> IsDigit(digits[i])) && Unwrapped(digits) < USIZE
    ensures NumValue(0, digits) == Unwrapped(digits)
  {
    if digits != [] {
      UnwrappedValue(digits[..|digits| - 1]);
    }
  }

  lemma {:induction false} DecimalCanonical(n: nat)
    requires n < USIZE
    ensures Canonical(Decimal(n)) && Unwrapped(Decimal(n)) == n && (n > 0 ==> Decimal(n)[0] != ZERO)
  {
    if n < 10 {
      assert Decimal(n)[..0] == [];
    } else {
      DecimalCanonical(n / 10);
      assert Decimal(n)[..|Decimal(n)| - 1] == Decimal(n / 10);
    }
  }

  lemma {:induction false} CanonicalDecimal(digits: seq<byte>)
    requires forall i :: 0 <= i < |digits| ==> IsDigit(digits[i])
    requires digits != [] && (digits[0] == ZERO ==> |digits| == 1)
    ensures Decimal(Unwrapped(digits)) == digits && (digits[0] != ZERO ==> Unwrapped(digits) > 0)
  {
    var init, last := digits[..|digits| - 1], digits[|digits| - 1];
    assert digits == init + [last];
    if |digits| > 1 {
      CanonicalDecimal(init);
    } else {
      assert init == [];
    }
  }

  lemma ThreeParts(digits: seq<byte>, msg: seq<byte>, rest: seq<byte>)
    requires digits == Decimal(|msg|)
    ensures digits + ([COLON] + (msg + ([COMMA] + rest))) == Encoded(msg) + rest
  {
    Regrouped(digits, msg, rest);
    Associative(msg, [COMMA], rest);
  }

  lemma Split(buf: seq<byte>, n: nat, b: byte)
    requires n < |buf| && buf[n] == b
    ensures buf == buf[..n] + ([b] + buf[n + 1..])
  {
  }

  /** A message that is decoded is what was encoded if and only if its length is canonical. */
  lemma EncodedIffCanonical(buf: seq<byte>)
    requires Parse(Num(0), buf).Complete?
    ensures var parsed := Parse(Num(0), buf);
            buf == Encoded(parsed.payload) + parsed.rest <==> Canonical(buf[..Digits(buf)])
  {
    var parsed, n := Parse(Num(0), buf), Digits(buf);
    var msg, digits, body := parsed.payload, buf[..n], buf[n + 1..];
    var len := NumValue(0, digits);
    assert ParseBody(len, body) == parsed && len < |body|;
    Split(buf, n, COLON);
    Split(body, len, COMMA);
    if Canonical(digits) {
      UnwrappedValue(digits);
      CanonicalDecimal(digits);
      ThreeParts(digits, msg, parsed.rest);
    }
    if buf == Encoded(msg) + parsed.rest {
      EncodedParts(msg, parsed.rest);
      NumFits(digits);
      DecimalCanonical(|msg|);
    }
  }

  lemma NumFits(digits: seq<byte>)
    requires forall i :: 0 <= i < |digits| ==> IsDigit(digits[i])
    ensures NumValue(0, digits) < USIZE
  {
  }
}
