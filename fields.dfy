/**
  The instrument ticker as the messages store it: a 4-byte length and then
  one byte per character, written with Java's narrowing `(byte) c` and read
  back through an ASCII view that widens each signed byte to a `char`.
*/
module Ticker {
  import opened Bytes
  import opened Errors
  import opened Flyweight
  import opened Configuration

  /** Java's `(byte) c`: the low eight bits of the character. */
  function CharToByte(c: char): byte
  {
    ((c as int) % 256) as byte
  }

  /** `(char)` of a signed byte: bytes from 0x80 up sign-extend to 0xFF80 and above. */
  function ByteToChar(b: byte): char
  {
    if b < 128 then (b as int) as char else (b as int + 0xFF00) as char
  }

  predicate IsAscii(s: seq<char>)
  {
    forall i | 0 <= i < |s| :: s[i] as int < 128
  }

  function EncodeTicker(s: seq<char>): (r: seq<byte>)
    ensures |r| == |s|
  {
    seq(|s|, i requires 0 <= i < |s| => CharToByte(s[i]))
  }

  function DecodeTicker(b: seq<byte>): (r: seq<char>)
    ensures |r| == |b|
  {
    seq(|b|, i requires 0 <= i < |b| => ByteToChar(b[i]))
  }

  /** An ASCII ticker survives the narrowing and the widening unchanged. */
  lemma AsciiRoundTrip(s: seq<char>)
    requires IsAscii(s)
    ensures DecodeTicker(EncodeTicker(s)) == s
  {
    forall i | 0 <= i < |s|
      ensures DecodeTicker(EncodeTicker(s))[i] == s[i]
    {
      assert EncodeTicker(s)[i] as int == s[i] as int;
    }
  }

  /**
    The ticker stored with its length at `lenPos` and its bytes at
    `tickerPos`; a negative length or one running past the buffer is out of
    bounds.
  */
  function TickerAt(s: seq<byte>, lenPos: int, tickerPos: int): Result<seq<char>>
    requires 0 <= lenPos && lenPos + SIZE_OF_INT <= |s| && 0 <= tickerPos
  {
    var len := GetInt(s, lenPos);
    if len < 0 || tickerPos + len > |s| then Err(IndexOutOfBounds)
    else Ok(DecodeTicker(s[tickerPos..tickerPos + len]))
  }

  /** The bytes after a ticker write: the length, then the narrowed characters. */
  function PutTickerBytes(s: seq<byte>, lenPos: int, tickerPos: int, instrument: seq<char>): (r: seq<byte>)
    requires |instrument| <= INSTRUMENT_MAX_TICKER_LENGTH
    requires 0 <= lenPos && lenPos + SIZE_OF_INT <= |s|
    requires 0 <= tickerPos && tickerPos + INSTRUMENT_MAX_TICKER_LENGTH <= |s|
    ensures |r| == |s|
  {
    Splice(Splice(s, lenPos, EncodeInt(|instrument|)), tickerPos, EncodeTicker(instrument))
  }

  /**
    A ticker within the cap reads back as its narrowed-and-widened
    characters, which for an ASCII ticker are the characters written.
  */
  lemma TickerRoundTrip(s: seq<byte>, lenPos: int, tickerPos: int, instrument: seq<char>)
    requires |instrument| <= INSTRUMENT_MAX_TICKER_LENGTH
    requires 0 <= lenPos && lenPos + SIZE_OF_INT <= tickerPos
    requires tickerPos + INSTRUMENT_MAX_TICKER_LENGTH <= |s|
    ensures TickerAt(PutTickerBytes(s, lenPos, tickerPos, instrument), lenPos, tickerPos) == Ok(DecodeTicker(EncodeTicker(instrument)))
    ensures IsAscii(instrument) ==> TickerAt(PutTickerBytes(s, lenPos, tickerPos, instrument), lenPos, tickerPos) == Ok(instrument)
  {
    var s1 := Splice(s, lenPos, EncodeInt(|instrument|));
    var e := EncodeTicker(instrument);
    GetPutInt(s, lenPos, |instrument|);
    GetIntElsewhere(s1, tickerPos, e, lenPos);
    SpliceAt(s1, tickerPos, e);
    if IsAscii(instrument) {
      AsciiRoundTrip(instrument);
    }
  }

  /** A write that misses the length field and the stored characters leaves the ticker as it was. */
  lemma TickerElsewhere(s: seq<byte>, lenPos: int, tickerPos: int, pos: int, bytes: seq<byte>)
    requires 0 <= lenPos && lenPos + SIZE_OF_INT <= |s| && 0 <= tickerPos
    requires TickerAt(s, lenPos, tickerPos).Ok?
    requires 0 <= pos && pos + |bytes| <= |s|
    requires lenPos + SIZE_OF_INT <= pos || pos + |bytes| <= lenPos
    requires tickerPos + GetInt(s, lenPos) <= pos || pos + |bytes| <= tickerPos
    ensures TickerAt(Splice(s, pos, bytes), lenPos, tickerPos) == TickerAt(s, lenPos, tickerPos)
  {
    GetIntElsewhere(s, pos, bytes, lenPos);
    SpliceElsewhere(s, pos, bytes, tickerPos, GetInt(s, lenPos));
  }

  /** A ticker lying wholly past a changed region reads the same. */
  lemma TickerAfterOutsideWrite(s: seq<byte>, t: seq<byte>, lo: int, hi: int, lenPos: int, tickerPos: int)
    requires SameOutside(s, t, lo, hi)
    requires hi <= lenPos && lenPos + SIZE_OF_INT <= |s| && hi <= tickerPos
    ensures TickerAt(t, lenPos, tickerPos) == TickerAt(s, lenPos, tickerPos)
  {
    SameOutsideSlice(s, t, lo, hi, lenPos, lenPos + SIZE_OF_INT);
    var len := GetInt(s, lenPos);
    if 0 <= len && tickerPos + len <= |s| {
      SameOutsideSlice(s, t, lo, hi, tickerPos, tickerPos + len);
    }
  }

  /** A ticker write changes nothing outside a region that holds both of its fields. */
  lemma PutTickerBytesWithin(s: seq<byte>, lenPos: int, tickerPos: int, instrument: seq<char>, lo: int, hi: int)
    requires |instrument| <= INSTRUMENT_MAX_TICKER_LENGTH
    requires 0 <= lo <= lenPos && lenPos + SIZE_OF_INT <= hi
    requires lo <= tickerPos && tickerPos + INSTRUMENT_MAX_TICKER_LENGTH <= hi <= |s|
    ensures SameOutside(s, PutTickerBytes(s, lenPos, tickerPos, instrument), lo, hi)
  {
    var s1 := Splice(s, lenPos, EncodeInt(|instrument|));
    SpliceWithin(s, lenPos, EncodeInt(|instrument|), lo, hi);
    SpliceWithin(s1, tickerPos, EncodeTicker(instrument), lo, hi);
  }

  /** `b` with one more byte written just past it extends the splice by that byte. */
  lemma SpliceExtend(s: seq<byte>, pos: int, b: seq<byte>, x: byte)
    requires 0 <= pos && pos + |b| + 1 <= |s|
    ensures Splice(s, pos, b + [x]) == Splice(s, pos, b)[pos + |b| := x]
  {
    SpliceAt(s, pos, b + [x]);
    SpliceAt(s, pos, b);
  }

  /** Encoding one more character appends its narrowed byte. */
  lemma EncodeTickerPrefix(instrument: seq<char>, i: int)
    requires 0 <= i < |instrument|
    ensures EncodeTicker(instrument[..i + 1]) == EncodeTicker(instrument[..i]) + [CharToByte(instrument[i])]
  {
  }

  /**
    The per-character loop of `instrument(CharSequence)`: byte i of the
    ticker goes to `pos + i`, each `putByte` bounds-checked, so the first
    character past the buffer's end throws IndexOutOfBoundsException with
    the characters before it already stored.
  */
  method WriteTickerChars(buffer: array<byte>, pos: int, instrument: seq<char>) returns (r: Status)
    requires 0 <= pos <= buffer.Length
    modifies buffer
    ensures r == Done <==> pos + |instrument| <= buffer.Length
    ensures r != Done ==> r == Thrown(IndexOutOfBounds)
    ensures r == Done ==> buffer[..] == Splice(old(buffer[..]), pos, EncodeTicker(instrument))
    ensures r != Done ==> buffer[..] == Splice(old(buffer[..]), pos, EncodeTicker(instrument[..buffer.Length - pos]))
  {
    ghost var s1 := buffer[..];
    var i := 0;
    while i < |instrument|
      invariant 0 <= i <= |instrument| && pos + i <= buffer.Length
      invariant buffer[..] == Splice(s1, pos, EncodeTicker(instrument[..i]))
    {
      if pos + i >= buffer.Length {
        return Thrown(IndexOutOfBounds);
      }
      var b := CharToByte(instrument[i]);
      SpliceExtend(s1, pos, EncodeTicker(instrument[..i]), b);
      EncodeTickerPrefix(instrument, i);
      buffer[pos + i] := b;
      i := i + 1;
    }
    assert instrument[..i] == instrument;
    r := Done;
  }

  /**
    Writes the ticker through `f`: IllegalArgumentException before any byte
    is written when it exceeds INSTRUMENT_MAX_TICKER_LENGTH, otherwise the
    length and then each character.
  */
  method WriteTicker(f: Flyweight, lenRel: int, tickerRel: int, instrument: seq<char>) returns (r: Status)
    requires CanWrite(f, lenRel, SIZE_OF_INT) && CanWrite(f, tickerRel, INSTRUMENT_MAX_TICKER_LENGTH)
    requires lenRel + SIZE_OF_INT <= tickerRel
    modifies f.writeBuffer
    ensures r == Done <==> |instrument| <= INSTRUMENT_MAX_TICKER_LENGTH
    ensures r != Done ==> r == Thrown(IllegalArgument) && f.writeBuffer[..] == old(f.writeBuffer[..])
    ensures r == Done ==>
      f.writeBuffer[..] == PutTickerBytes(old(f.writeBuffer[..]), f.offset + lenRel, f.offset + tickerRel, instrument)
  {
    if |instrument| > INSTRUMENT_MAX_TICKER_LENGTH {
      return Thrown(IllegalArgument);
    }
    var buffer, tickerPos := f.writeBuffer, f.offset + tickerRel;
    WriteInt(f, lenRel, |instrument|);
    r := WriteTickerChars(buffer, tickerPos, instrument);
  }

  /**
    The ticker written at `lenPos` into a buffer that may end before the
    ticker does, every put bounds-checked: IllegalArgumentException with
    nothing written for a ticker over the cap, IndexOutOfBoundsException
    with nothing written when the length does not fit, and otherwise the
    length and the characters that fit, with IndexOutOfBoundsException when
    one does not.
  */
  function CheckedTickerBytes(s: seq<byte>, lenPos: int, instrument: seq<char>): (r: (seq<byte>, Status))
    requires 0 <= lenPos
    ensures |r.0| == |s|
  {
    if |instrument| > INSTRUMENT_MAX_TICKER_LENGTH then (s, Thrown(IllegalArgument))
    else if lenPos + SIZE_OF_INT > |s| then (s, Thrown(IndexOutOfBounds))
    else
      var t, tickerPos := Splice(s, lenPos, EncodeInt(|instrument|)), lenPos + SIZE_OF_INT;
      if tickerPos + |instrument| <= |s| then (Splice(t, tickerPos, EncodeTicker(instrument)), Done)
      else (Splice(t, tickerPos, EncodeTicker(instrument[..|s| - tickerPos])), Thrown(IndexOutOfBounds))
  }

  /**
    The checked ticker write completes exactly when the ticker is within
    its cap and fits, is then the plain write, and changes nothing before
    `lenPos`.
  */
  lemma CheckedTickerOutcome(s: seq<byte>, lenPos: int, instrument: seq<char>)
    requires 0 <= lenPos
    ensures CheckedTickerBytes(s, lenPos, instrument).1 == Done <==>
      |instrument| <= INSTRUMENT_MAX_TICKER_LENGTH && lenPos + SIZE_OF_INT + |instrument| <= |s|
    ensures CheckedTickerBytes(s, lenPos, instrument).1 != Done ==>
      CheckedTickerBytes(s, lenPos, instrument).1 == (if |instrument| > INSTRUMENT_MAX_TICKER_LENGTH then Thrown(IllegalArgument) else Thrown(IndexOutOfBounds))
    ensures |instrument| <= INSTRUMENT_MAX_TICKER_LENGTH && lenPos + SIZE_OF_INT + INSTRUMENT_MAX_TICKER_LENGTH <= |s| ==>
      CheckedTickerBytes(s, lenPos, instrument) == (PutTickerBytes(s, lenPos, lenPos + SIZE_OF_INT, instrument), Done)
    ensures lenPos <= |s| ==> SameOutside(s, CheckedTickerBytes(s, lenPos, instrument).0, lenPos, |s|)
  {
    if |instrument| <= INSTRUMENT_MAX_TICKER_LENGTH && lenPos + SIZE_OF_INT <= |s| {
      var t, tickerPos := Splice(s, lenPos, EncodeInt(|instrument|)), lenPos + SIZE_OF_INT;
      var k := if tickerPos + |instrument| <= |s| then |instrument| else |s| - tickerPos;
      SpliceWithin(s, lenPos, EncodeInt(|instrument|), lenPos, |s|);
      SpliceWithin(t, tickerPos, EncodeTicker(instrument[..k]), lenPos, |s|);
      assert instrument[..|instrument|] == instrument;
      SameOutsideTrans(s, t, CheckedTickerBytes(s, lenPos, instrument).0, lenPos, |s|);
    } else if lenPos <= |s| {
      SpliceWithin(s, lenPos, [], lenPos, |s|);
    }
  }

  /** `instrument(CharSequence)` through `f` with each put bounds-checked against the buffer. */
  method WriteTickerChecked(f: Flyweight, lenRel: int, instrument: seq<char>) returns (r: Status)
    requires f.Valid() && f.writeBuffer != null && 0 <= f.offset + lenRel
    modifies f.writeBuffer
    ensures (f.writeBuffer[..], r) == CheckedTickerBytes(old(f.writeBuffer[..]), f.offset + lenRel, instrument)
  {
    if |instrument| > INSTRUMENT_MAX_TICKER_LENGTH {
      return Thrown(IllegalArgument);
    }
    var buffer, lenPos := f.writeBuffer, f.offset + lenRel;
    if lenPos + SIZE_OF_INT > buffer.Length {
      return Thrown(IndexOutOfBounds);
    }
    WriteInt(f, lenRel, |instrument|);
    r := WriteTickerChars(buffer, lenPos + SIZE_OF_INT, instrument);
  }
}

/**
  The payload of a price record: a 4-byte size and up to
  PRICE_MAX_PAYLOAD_SIZE bytes copied from another buffer.
*/
module PayloadField {
  import opened Bytes
  import opened Errors
  import opened Flyweight
  import opened Configuration

  /** What `getPayload` copies out: the `size` bytes at `payloadPos`, or out of bounds. */
  function PayloadAt(s: seq<byte>, sizePos: int, payloadPos: int): Result<seq<byte>>
    requires 0 <= sizePos && sizePos + SIZE_OF_INT <= |s| && 0 <= payloadPos
  {
    var size := GetInt(s, sizePos);
    if size < 0 || payloadPos + size > |s| then Err(IndexOutOfBounds)
    else Ok(s[payloadPos..payloadPos + size])
  }

  /** A payload lying wholly past a changed region reads the same. */
  lemma PayloadAfterOutsideWrite(s: seq<byte>, t: seq<byte>, lo: int, hi: int, sizePos: int, payloadPos: int)
    requires SameOutside(s, t, lo, hi)
    requires hi <= sizePos && sizePos + SIZE_OF_INT <= |s| && hi <= payloadPos
    ensures PayloadAt(t, sizePos, payloadPos) == PayloadAt(s, sizePos, payloadPos)
  {
    SameOutsideSlice(s, t, lo, hi, sizePos, sizePos + SIZE_OF_INT);
    var size := GetInt(s, sizePos);
    if 0 <= size && payloadPos + size <= |s| {
      SameOutsideSlice(s, t, lo, hi, payloadPos, payloadPos + size);
    }
  }

  /**
    `putPayload` on the bytes `s`: a size above the cap throws before
    anything is written; otherwise the size is stored, and then the copy
    from `from` fails out of bounds on a negative size or a source range
    outside `from`.
  */
  function PutPayloadBytes(s: seq<byte>, sizePos: int, payloadPos: int, from: seq<byte>, fromOffset: int, size: int32)
    : (r: (seq<byte>, Status))
    requires 0 <= sizePos && sizePos + SIZE_OF_INT <= |s|
    requires 0 <= payloadPos && payloadPos + PRICE_MAX_PAYLOAD_SIZE <= |s|
    ensures |r.0| == |s|
  {
    if size > PRICE_MAX_PAYLOAD_SIZE as int then (s, Thrown(IllegalArgument))
    else
      var t := Splice(s, sizePos, EncodeInt(size));
      if size < 0 || fromOffset < 0 || fromOffset + size > |from| then (t, Thrown(IndexOutOfBounds))
      else (Splice(t, payloadPos, from[fromOffset..fromOffset + size]), Done)
  }

  /** A payload write that completes reads back as the copied bytes. */
  lemma PayloadRoundTrip(s: seq<byte>, sizePos: int, payloadPos: int, from: seq<byte>, fromOffset: int, size: int32)
    requires 0 <= sizePos && sizePos + SIZE_OF_INT <= payloadPos
    requires payloadPos + PRICE_MAX_PAYLOAD_SIZE <= |s|
    requires PutPayloadBytes(s, sizePos, payloadPos, from, fromOffset, size).1 == Done
    ensures PayloadAt(PutPayloadBytes(s, sizePos, payloadPos, from, fromOffset, size).0, sizePos, payloadPos)
         == Ok(from[fromOffset..fromOffset + size])
  {
    var t := Splice(s, sizePos, EncodeInt(size));
    var bytes := from[fromOffset..fromOffset + size];
    GetPutInt(s, sizePos, size);
    GetIntElsewhere(t, payloadPos, bytes, sizePos);
    SpliceAt(t, payloadPos, bytes);
  }

  /** A write that misses the size field and the stored bytes leaves the payload as it was. */
  lemma PayloadElsewhere(s: seq<byte>, sizePos: int, payloadPos: int, pos: int, bytes: seq<byte>)
    requires 0 <= sizePos && sizePos + SIZE_OF_INT <= |s| && 0 <= payloadPos
    requires PayloadAt(s, sizePos, payloadPos).Ok?
    requires 0 <= pos && pos + |bytes| <= |s|
    requires sizePos + SIZE_OF_INT <= pos || pos + |bytes| <= sizePos
    requires payloadPos + GetInt(s, sizePos) <= pos || pos + |bytes| <= payloadPos
    ensures PayloadAt(Splice(s, pos, bytes), sizePos, payloadPos) == PayloadAt(s, sizePos, payloadPos)
  {
    GetIntElsewhere(s, pos, bytes, sizePos);
    SpliceElsewhere(s, pos, bytes, payloadPos, GetInt(s, sizePos));
  }

  /** A payload write, complete or not, changes nothing outside a region that holds both of its fields. */
  lemma PutPayloadBytesWithin(s: seq<byte>, sizePos: int, payloadPos: int, from: seq<byte>, fromOffset: int, size: int32, lo: int, hi: int)
    requires 0 <= lo <= sizePos && sizePos + SIZE_OF_INT <= hi
    requires lo <= payloadPos && payloadPos + PRICE_MAX_PAYLOAD_SIZE <= hi <= |s|
    ensures SameOutside(s, PutPayloadBytes(s, sizePos, payloadPos, from, fromOffset, size).0, lo, hi)
  {
    if size <= PRICE_MAX_PAYLOAD_SIZE as int {
      var t := Splice(s, sizePos, EncodeInt(size));
      SpliceWithin(s, sizePos, EncodeInt(size), lo, hi);
      if 0 <= size && 0 <= fromOffset && fromOffset + size <= |from| {
        SpliceWithin(t, payloadPos, from[fromOffset..fromOffset + size], lo, hi);
      }
    }
  }

  /** `putPayload` through the view `f`, with the size field at `sizeRel` and the bytes at `payloadRel`. */
  method PutPayload(f: Flyweight, sizeRel: int, payloadRel: int, from: seq<byte>, fromOffset: int, size: int32)
    returns (r: Status)
    requires CanWrite(f, sizeRel, SIZE_OF_INT) && CanWrite(f, payloadRel, PRICE_MAX_PAYLOAD_SIZE)
    requires sizeRel + SIZE_OF_INT <= payloadRel
    modifies f.writeBuffer
    ensures (f.writeBuffer[..], r)
         == PutPayloadBytes(old(f.writeBuffer[..]), f.offset + sizeRel, f.offset + payloadRel, from, fromOffset, size)
    ensures r == Done <==> 0 <= size <= PRICE_MAX_PAYLOAD_SIZE as int && 0 <= fromOffset && fromOffset + size <= |from|
    ensures size > PRICE_MAX_PAYLOAD_SIZE as int ==> r == Thrown(IllegalArgument) && f.writeBuffer[..] == old(f.writeBuffer[..])
    ensures r == Done ==> PayloadAt(f.writeBuffer[..], f.offset + sizeRel, f.offset + payloadRel) == Ok(from[fromOffset..fromOffset + size])
  {
    if size > PRICE_MAX_PAYLOAD_SIZE as int {
      return Thrown(IllegalArgument);
    }
    r := StorePayload(f, sizeRel, payloadRel, from, fromOffset, size);
  }

  /** The part of `putPayload` past the cap check: the size is stored, then the bytes are copied. */
  method StorePayload(f: Flyweight, sizeRel: int, payloadRel: int, from: seq<byte>, fromOffset: int, size: int32)
    returns (r: Status)
    requires CanWrite(f, sizeRel, SIZE_OF_INT) && CanWrite(f, payloadRel, PRICE_MAX_PAYLOAD_SIZE)
    requires sizeRel + SIZE_OF_INT <= payloadRel && size <= PRICE_MAX_PAYLOAD_SIZE as int
    modifies f.writeBuffer
    ensures (f.writeBuffer[..], r)
         == PutPayloadBytes(old(f.writeBuffer[..]), f.offset + sizeRel, f.offset + payloadRel, from, fromOffset, size)
    ensures r == Done <==> 0 <= size && 0 <= fromOffset && fromOffset + size <= |from|
    ensures r == Done ==> PayloadAt(f.writeBuffer[..], f.offset + sizeRel, f.offset + payloadRel) == Ok(from[fromOffset..fromOffset + size])
  {
    ghost var s0 := f.writeBuffer[..];
    ghost var sizePos, payloadPos := f.offset + sizeRel, f.offset + payloadRel;
    ghost var s1 := Splice(s0, sizePos, EncodeInt(size));
    var fits := 0 <= size && 0 <= fromOffset && fromOffset + size <= |from|;
    if fits {
      PayloadWritten(s0, sizePos, payloadPos, from, fromOffset, size, Splice(s1, payloadPos, from[fromOffset..fromOffset + size]));
    } else {
      assert PutPayloadBytes(s0, sizePos, payloadPos, from, fromOffset, size) == (s1, Thrown(IndexOutOfBounds));
    }
    WriteInt(f, sizeRel, size);
    if !fits {
      return Thrown(IndexOutOfBounds);
    }
    WriteBytes(f, payloadRel, from[fromOffset..fromOffset + size]);
    r := Done;
  }

  /** The two splices `PutPayload` makes are what `PutPayloadBytes` computes, and they read back. */
  lemma PayloadWritten(s: seq<byte>, sizePos: int, payloadPos: int, from: seq<byte>, fromOffset: int, size: int32, t: seq<byte>)
    requires 0 <= sizePos && sizePos + SIZE_OF_INT <= payloadPos && payloadPos + PRICE_MAX_PAYLOAD_SIZE <= |s|
    requires 0 <= size <= PRICE_MAX_PAYLOAD_SIZE as int && 0 <= fromOffset && fromOffset + size <= |from|
    requires t == Splice(Splice(s, sizePos, EncodeInt(size)), payloadPos, from[fromOffset..fromOffset + size])
    ensures PutPayloadBytes(s, sizePos, payloadPos, from, fromOffset, size) == (t, Done)
    ensures PayloadAt(t, sizePos, payloadPos) == Ok(from[fromOffset..fromOffset + size])
    ensures PayloadAt(PutPayloadBytes(s, sizePos, payloadPos, from, fromOffset, size).0, sizePos, payloadPos)
         == Ok(from[fromOffset..fromOffset + size])
  {
    PayloadRoundTrip(s, sizePos, payloadPos, from, fromOffset, size);
  }

  /**
    `putPayload` into a buffer that may end before the payload does, every
    put bounds-checked: a size above the cap throws IllegalArgumentException
    with nothing written, a size field past the end throws
    IndexOutOfBoundsException with nothing written, and otherwise the size
    is stored and the copy throws IndexOutOfBoundsException, copying
    nothing, on a negative size, a source range outside `from` or a
    destination range past the end.
  */
  function CheckedPayloadBytes(s: seq<byte>, sizePos: int, from: seq<byte>, fromOffset: int, size: int32)
    : (r: (seq<byte>, Status))
    requires 0 <= sizePos
    ensures |r.0| == |s|
  {
    if size > PRICE_MAX_PAYLOAD_SIZE as int then (s, Thrown(IllegalArgument))
    else if sizePos + SIZE_OF_INT > |s| then (s, Thrown(IndexOutOfBounds))
    else
      var t, payloadPos := Splice(s, sizePos, EncodeInt(size)), sizePos + SIZE_OF_INT;
      if size < 0 || fromOffset < 0 || fromOffset + size > |from| || payloadPos + size > |s| then (t, Thrown(IndexOutOfBounds))
      else (Splice(t, payloadPos, from[fromOffset..fromOffset + size]), Done)
  }

  /**
    The checked payload write completes exactly when the size and the
    source range are valid and the bytes fit, throws
    IllegalArgumentException with nothing written for a size over the cap,
    is the plain write wherever the whole field fits, and changes nothing
    before `sizePos`.
  */
  lemma CheckedPayloadOutcome(s: seq<byte>, sizePos: int, from: seq<byte>, fromOffset: int, size: int32)
    requires 0 <= sizePos
    ensures CheckedPayloadBytes(s, sizePos, from, fromOffset, size).1 == Done <==>
      0 <= size <= PRICE_MAX_PAYLOAD_SIZE as int && 0 <= fromOffset && fromOffset + size <= |from| && sizePos + SIZE_OF_INT + size <= |s|
    ensures size > PRICE_MAX_PAYLOAD_SIZE as int ==> CheckedPayloadBytes(s, sizePos, from, fromOffset, size) == (s, Thrown(IllegalArgument))
    ensures size <= PRICE_MAX_PAYLOAD_SIZE as int && CheckedPayloadBytes(s, sizePos, from, fromOffset, size).1 != Done ==>
      CheckedPayloadBytes(s, sizePos, from, fromOffset, size).1 == Thrown(IndexOutOfBounds)
    ensures sizePos + SIZE_OF_INT + PRICE_MAX_PAYLOAD_SIZE <= |s| ==>
      CheckedPayloadBytes(s, sizePos, from, fromOffset, size) == PutPayloadBytes(s, sizePos, sizePos + SIZE_OF_INT, from, fromOffset, size)
    ensures sizePos <= |s| ==> SameOutside(s, CheckedPayloadBytes(s, sizePos, from, fromOffset, size).0, sizePos, |s|)
  {
    if size <= PRICE_MAX_PAYLOAD_SIZE as int && sizePos + SIZE_OF_INT <= |s| {
      var t, payloadPos := Splice(s, sizePos, EncodeInt(size)), sizePos + SIZE_OF_INT;
      SpliceWithin(s, sizePos, EncodeInt(size), sizePos, |s|);
      if 0 <= size && 0 <= fromOffset && fromOffset + size <= |from| && payloadPos + size <= |s| {
        SpliceWithin(t, payloadPos, from[fromOffset..fromOffset + size], sizePos, |s|);
        SameOutsideTrans(s, t, CheckedPayloadBytes(s, sizePos, from, fromOffset, size).0, sizePos, |s|);
      }
    } else if sizePos <= |s| {
      SpliceWithin(s, sizePos, [], sizePos, |s|);
    }
  }

  /** `putPayload` through `f` with each put bounds-checked against the buffer; the bytes follow the size field. */
  method PutPayloadChecked(f: Flyweight, sizeRel: int, from: seq<byte>, fromOffset: int, size: int32) returns (r: Status)
    requires f.Valid() && f.writeBuffer != null && 0 <= f.offset + sizeRel
    modifies f.writeBuffer
    ensures (f.writeBuffer[..], r) == CheckedPayloadBytes(old(f.writeBuffer[..]), f.offset + sizeRel, from, fromOffset, size)
  {
    if size > PRICE_MAX_PAYLOAD_SIZE as int {
      return Thrown(IllegalArgument);
    }
    var sizePos := f.offset + sizeRel;
    if sizePos + SIZE_OF_INT > f.writeBuffer.Length {
      return Thrown(IndexOutOfBounds);
    }
    WriteInt(f, sizeRel, size);
    if size < 0 || fromOffset < 0 || fromOffset + size > |from| || sizePos + SIZE_OF_INT + size > f.writeBuffer.Length {
      return Thrown(IndexOutOfBounds);
    }
    WriteBytes(f, sizeRel + SIZE_OF_INT, from[fromOffset..fromOffset + size]);
    r := Done;
  }

  /**
    `getPayload`: copies the stored payload to `writeOffset` of `writeTo`;
    a stored size that is negative or runs past either buffer is out of bounds.
  */
  method GetPayload(f: Flyweight, sizeRel: int, payloadRel: int, writeTo: array<byte>, writeOffset: int) returns (r: Status)
    requires CanRead(f, sizeRel, SIZE_OF_INT) && 0 <= f.offset + payloadRel
    modifies writeTo
    ensures r == Done <==>
      && old(PayloadAt(f.readBuffer[..], f.offset + sizeRel, f.offset + payloadRel)).Ok?
      && 0 <= writeOffset
      && writeOffset + |old(PayloadAt(f.readBuffer[..], f.offset + sizeRel, f.offset + payloadRel)).value| <= writeTo.Length
    ensures r == Done ==>
      writeTo[..] == Splice(old(writeTo[..]), writeOffset, old(PayloadAt(f.readBuffer[..], f.offset + sizeRel, f.offset + payloadRel)).value)
    ensures r != Done ==> r == Thrown(IndexOutOfBounds) && writeTo[..] == old(writeTo[..])
  {
    var payload := PayloadAt(f.readBuffer[..], f.offset + sizeRel, f.offset + payloadRel);
    if payload.Err? || writeOffset < 0 || writeOffset + |payload.value| > writeTo.Length {
      return Thrown(IndexOutOfBounds);
    }
    var bytes := payload.value;
    forall i | 0 <= i < |bytes| {
      writeTo[writeOffset + i] := bytes[i];
    }
    SpliceAt(old(writeTo[..]), writeOffset, bytes);
    assert writeTo[..] == Splice(old(writeTo[..]), writeOffset, bytes);
    r := Done;
  }
}
