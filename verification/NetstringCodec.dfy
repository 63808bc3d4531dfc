/** The incremental decoder and the encoder of netstrings. */
module NetstringCodec {
  import opened Common
  import opened Netstring
  import opened NetstringWire

  datatype Result<+T> = Ok(value: T) | Err(error: Error)

  /** A mutable buffer of bytes. */
  class BytesMut {
    var bytes: seq<byte>

    constructor (bytes: seq<byte>)
      ensures this.bytes == bytes
    {
      this.bytes := bytes;
    }

    /** Removes the first `at` bytes. */
    method SplitTo(at: nat) returns (front: BytesMut)
      requires at <= |bytes|
      modifies this
      ensures fresh(front) && front.bytes == old(bytes)[..at] && bytes == old(bytes)[at..]
    {
      front := new BytesMut(bytes[..at]);
      bytes := bytes[at..];
    }

    method PutSlice(slice: seq<byte>)
      modifies this
      ensures bytes == old(bytes) + slice
    {
      bytes := bytes + slice;
    }
  }

  /** A part of a buffer. */
  datatype Slice = Slice(start: nat, len: nat)
  {
    function End(): nat {
      start + len
    }

    ghost predicate In(buf: seq<byte>) {
      End() <= |buf|
    }

    ghost function Of(buf: seq<byte>): seq<byte>
      requires In(buf)
    {
      buf[start..End()]
    }
  }

  /** Appends an encoded message to a buffer. */
  method Encode(msg: seq<byte>, buf: BytesMut)
    modifies buf
    ensures buf.bytes == old(buf.bytes) + Encoded(msg)
    ensures exists n: nat :: Wire(buf.bytes[|old(buf.bytes)|..], n, msg)
  {
    ghost var before := buf.bytes;
    buf.PutSlice(Decimal(|msg|) + [COLON]);
    buf.PutSlice(msg);
    buf.PutSlice([COMMA]);
    EncodedOnWire(msg);
    assert buf.bytes[|before|..] == Encoded(msg);
  }

  class NetstringDecoder {
    var state: Option<State>

    /** Between calls the decoder either expects a new message, or has failed. */
    ghost predicate Valid()
      reads this
    {
      state == None || state == Some(Num(0))
    }

    constructor ()
      ensures Valid() && state == Some(Num(0))
    {
      state := Some(Num(0));
    }

    /** What the scan of a length found: the number so far, and where a colon ends it. */
    static method ScanNum(cur: nat, buf: seq<byte>) returns (r: Result<(nat, Option<nat>)>)
      requires cur < USIZE
      ensures r.Err? ==> Digits(buf) < |buf| && buf[Digits(buf)] != COLON && r.error == BadCharacter
      ensures r.Ok? && r.value.1 == None ==> Digits(buf) == |buf| && r.value.0 == NumValue(cur, buf)
      ensures r.Ok? && r.value.1.Some? ==>
                var colon := r.value.1.value;
                Digits(buf) == colon < |buf| && buf[colon] == COLON && r.value.0 == NumValue(cur, buf[..colon])
      ensures r.Ok? ==> r.value.0 < USIZE
    {
      var num := cur;
      for idx := 0 to |buf|
        invariant forall i :: 0 <= i < idx ==> IsDigit(buf[i])
        invariant num == NumValue(cur, buf[..idx]) && num < USIZE
      {
        if IsDigit(buf[idx]) {
          assert buf[..idx + 1][..idx] == buf[..idx];
          num := (num * 10 + (buf[idx] - ZERO)) % USIZE;
        } else {
          DigitsUnique(buf, idx);
          return if buf[idx] == COLON then Ok((num, Some(idx))) else Err(BadCharacter);
        }
      }
      DigitsUnique(buf, |buf|);
      assert buf[..|buf|] == buf;
      return Ok((num, None));
    }

    /** Parses as much of the buffer as possible.  The result tells how much that is, and which part of it is
        payload, whether complete or not. */
    method DecodeBuf(buf: seq<byte>) returns (r: Result<(nat, Option<(bool, Slice)>)>)
      requires state.Some? && state.value.Num? ==> state.value.cur < USIZE
      modifies this
      ensures old(state) == None ==> r == Err(BadState) && state == None
      ensures old(state).Some? ==>
                match Parse(old(state).value, buf)
                case Failed(error) => r == Err(error) && state == None
                case Partial(next) =>
                  && state == Some(next) && r.Ok? && r.value.0 == |buf|
                  && (match r.value.1
                      case None => Seen(old(state).value, buf) == []
                      case Some(part) =>
                        !part.0 && part.1.In(buf) && part.1.Of(buf) == Seen(old(state).value, buf))
                case Complete(payload, rest) =>
                  && state == Some(Num(0)) && r.Ok? && r.value.1.Some? && r.value.1.value.0
                  && r.value.1.value.1.In(buf) && r.value.1.value.1.Of(buf) == payload
                  && r.value.1.value.1.End() <= r.value.0 <= |buf| && buf[r.value.0..] == rest
    {
      var consumed := 0;
      while true
        invariant consumed <= |buf|
        invariant consumed == 0 ==> state == old(state)
        invariant consumed > 0 ==>
                    && old(state).Some? && old(state).value.Num? && state.Some? && state.value.Body?
                    && consumed == Digits(buf) + 1
                    && Parse(old(state).value, buf) == Parse(state.value, buf[consumed..])
        invariant state.Some? && state.value.Num? ==> state.value.cur < USIZE
        decreases |buf| - consumed, state.Some? && state.value.Num?
      {
        var taken := state;
        state := None;
        if taken == None {
          return Err(BadState);
        }
        match taken.value {
          case Num(cur) =>
            var scanned := ScanNum(cur, buf[consumed..]);
            assert buf[0..] == buf;
            match scanned {
              case Err(error) => return Err(error);
              case Ok((num, None)) =>
                state := Some(Num(num));
                return Ok((|buf|, None));
              case Ok((num, Some(colon))) =>
                consumed := consumed + colon + 1;
                state := Some(Body(num));
            }
          case Body(len) =>
            var rest := buf[consumed..];
            if |rest| > len {
              if rest[len] != COMMA {
                return Err(MissingComma);
              }
              state := Some(Num(0));
              return Ok((consumed + len + 1, Some((true, Slice(consumed, len)))));
            }
            state := Some(Body(len - |rest|));
            return Ok((|buf|, Some((false, Slice(consumed, |rest|)))));
        }
      }
    }

    /** Decodes the first message of the buffer and removes it.  A message that is not complete changes
        neither the buffer nor the decoder; an error is final. */
    method Decode(buf: BytesMut) returns (r: Result<Option<BytesMut>>)
      requires Valid()
      modifies this, buf
      ensures Valid() && (state == None <==> r.Err?)
      ensures old(state) == None ==> r == Err(BadState) && buf.bytes == old(buf.bytes)
      ensures old(state).Some? ==>
                match Parse(Num(0), old(buf.bytes))
                case Partial(_) => r == Ok(None) && buf.bytes == old(buf.bytes)
                case Failed(error) => r == Err(error) && buf.bytes == old(buf.bytes)
                case Complete(payload, rest) =>
                  r.Ok? && r.value.Some? && fresh(r.value.value) && r.value.value.bytes == payload && buf.bytes == rest
      ensures old(state).Some? ==> DecodesWire(old(buf.bytes), r, buf.bytes)
    {
      ParsedOnWire(buf.bytes);
      var saved := state;
      var decoded := DecodeBuf(buf.bytes);
      match decoded {
        case Err(error) => return Err(error);
        case Ok((consumed, Some((true, slice)))) =>
          ghost var bytes := buf.bytes;
          var payload := buf.SplitTo(slice.End());
          if consumed > slice.End() {
            var _ := buf.SplitTo(consumed - slice.End());
          }
          assert buf.bytes == bytes[consumed..];
          var _ := payload.SplitTo(slice.start);
          assert payload.bytes == slice.Of(bytes);
          return Ok(Some(payload));
        case Ok((_, _)) =>
          state := saved;
          return Ok(None);
      }
    }
  }

  /** A message is returned exactly when the bytes begin with one, and is then removed; the decoder fails exactly when
      a length goes wrong or a comma is missing. */
  ghost predicate DecodesWire(bytes: seq<byte>, r: Result<Option<BytesMut>>, rest: seq<byte>)
    reads if r.Ok? && r.value.Some? then {r.value.value} else {}
  {
    && (r.Ok? && r.value.Some? <==> exists n: nat, len: nat :: Framed(bytes, n, len))
    && (forall n: nat, len: nat :: Framed(bytes, n, len) ==>
          r.Ok? && r.value.Some? && r.value.value.bytes == bytes[n + 1..n + 1 + len]
            && rest == bytes[n + 1 + len + 1..])
    && (r == Err(BadCharacter) <==> exists n: nat :: BadLength(bytes, n))
    && (r == Err(MissingComma) <==> exists n: nat, len: nat :: BadEnd(bytes, n, len))
    && r != Err(BadState)
    && (r == Ok(None) ==> rest == bytes)
  }

  /** Decodes messages until more input is needed or the input is malformed. */
  method DecodeAll(decoder: NetstringDecoder, buf: BytesMut) returns (msgs: seq<seq<byte>>)
    requires decoder.Valid()
    modifies decoder, buf
    ensures decoder.Valid()
    ensures old(decoder.state) == None ==> msgs == [] && decoder.state == None && buf.bytes == old(buf.bytes)
    ensures old(decoder.state).Some? ==> ParseAll(old(buf.bytes)) == Decoded(msgs, buf.bytes, decoder.state == None)
  {
    msgs := [];
    while true
      invariant decoder.Valid()
      invariant old(decoder.state) == None ==> msgs == [] && decoder.state == None && buf.bytes == old(buf.bytes)
      invariant old(decoder.state).Some? ==>
                  decoder.state.Some? && ParseAll(old(buf.bytes)) == Onward(msgs, ParseAll(buf.bytes))
      decreases |buf.bytes|
    {
      var r := decoder.Decode(buf);
      if r.Err? || r.value.None? {
        assert msgs + [] == msgs;
        return;
      }
      OnwardNext(msgs, r.value.value.bytes, ParseAll(buf.bytes));
      msgs := msgs + [r.value.value.bytes];
    }
  }

  /** Messages decoded so far, and what is decoded from there on. */
  ghost function Onward(msgs: seq<seq<byte>>, later: Decoded): Decoded {
    later.(msgs := msgs + later.msgs)
  }

  lemma OnwardNext(msgs: seq<seq<byte>>, msg: seq<byte>, later: Decoded)
    ensures Onward(msgs + [msg], later) == Onward(msgs, later.(msgs := [msg] + later.msgs))
  {
    assert msgs + [msg] + later.msgs == msgs + ([msg] + later.msgs);
  }

  ghost function Concat(chunks: seq<seq<byte>>): seq<byte> {
    if chunks == [] then [] else Concat(chunks[..|chunks| - 1]) + chunks[|chunks| - 1]
  }

  lemma ConcatNext(chunks: seq<seq<byte>>, i: nat)
    requires i < |chunks|
    ensures Concat(chunks[..i + 1]) == Concat(chunks[..i]) + chunks[i]
  {
    assert chunks[..i + 1][..i] == chunks[..i];
  }

  /** All messages fit in memory. */
  ghost predicate Sizes(msgs: seq<seq<byte>>) {
    forall i :: 0 <= i < |msgs| ==> |msgs[i]| < USIZE
  }

  /** Decodes a stream of bytes that arrives in chunks.  How it is cut into chunks makes no difference: if it
      is what was encoded, then exactly the messages sent are decoded and nothing is left. */
  method DecodeChunks(chunks: seq<seq<byte>>) returns (msgs: seq<seq<byte>>, rest: seq<byte>, failed: bool)
    ensures ParseAll(Concat(chunks)) == Decoded(msgs, rest, failed)
    ensures forall sent {:trigger EncodedAll(sent)} ::
              Sizes(sent) && Concat(chunks) == EncodedAll(sent) ==> msgs == sent && rest == [] && !failed
  {
    var decoder := new NetstringDecoder();
    var buf := new BytesMut([]);
    msgs := [];
    for i := 0 to |chunks|
      invariant decoder.Valid() && fresh(decoder) && fresh(buf)
      invariant ParseAll(Concat(chunks[..i])) == Decoded(msgs, buf.bytes, decoder.state == None)
    {
      ghost var first := Decoded(msgs, buf.bytes, decoder.state == None);
      ParseAllExtended(Concat(chunks[..i]), chunks[i]);
      ConcatNext(chunks, i);
      assert ParseAll(Concat(chunks[..i + 1])) == Later(first, chunks[i]);
      buf.PutSlice(chunks[i]);
      var more := DecodeAll(decoder, buf);
      assert more == [] ==> msgs + more == msgs;
      msgs := msgs + more;
    }
    assert chunks[..|chunks|] == chunks;
    rest, failed := buf.bytes, decoder.state == None;
    forall sent | Sizes(sent) && Concat(chunks) == EncodedAll(sent) ensures msgs == sent && rest == [] && !failed {
      ParseAllEncoded(sent);
    }
  }

  /** Encodes messages one after the other. */
  method EncodeAll(msgs: seq<seq<byte>>, buf: BytesMut)
    modifies buf
    ensures buf.bytes == old(buf.bytes) + EncodedAll(msgs)
  {
    for i := 0 to |msgs|
      invariant buf.bytes + EncodedAll(msgs[i..]) == old(buf.bytes) + EncodedAll(msgs)
    {
      assert msgs[i..][1..] == msgs[i + 1..];
      ghost var before, encoded, rest := buf.bytes, Encoded(msgs[i]), EncodedAll(msgs[i + 1..]);
      Encode(msgs[i], buf);
      assert before + (encoded + rest) == before + encoded + rest;
    }
    assert buf.bytes + [] == buf.bytes;
  }
}
