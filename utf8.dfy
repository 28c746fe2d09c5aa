/** `str::as_bytes`: the UTF-8 encoding of text, which is what `Client::send`
    puts on a connection's outbound channel. */
module Utf8 {
  import opened Wrappers

  newtype byte = x: int | 0 <= x < 256

  /** The UTF-8 encoding of one Unicode scalar value (RFC 3629, section 3). */
  function EncodeChar(c: char): (r: seq<byte>)
    ensures 1 <= |r| <= 4
    ensures |r| == 1 <==> c as int < 0x80
  {
    var n := c as int;
    if n < 0x80 then [n as byte]
    else if n < 0x800 then [(0xC0 + n / 64) as byte, (0x80 + n % 64) as byte]
    else if n < 0x10000 then
      [(0xE0 + n / 4096) as byte, (0x80 + (n / 64) % 64) as byte, (0x80 + n % 64) as byte]
    else
      [(0xF0 + n / 262144) as byte, (0x80 + (n / 4096) % 64) as byte,
       (0x80 + (n / 64) % 64) as byte, (0x80 + n % 64) as byte]
  }

  /** The UTF-8 encoding of a string: its characters' encodings, in order. */
  function Encode(s: string): (r: seq<byte>)
    ensures |s| <= |r| <= 4 * |s|
  {
    if s == [] then [] else Encode(s[..|s| - 1]) + EncodeChar(s[|s| - 1])
  }

  /** Concatenation is associative (a step the solver is slow to find
      on its own). */
  lemma ConcatAssoc<T>(x: seq<T>, y: seq<T>, z: seq<T>)
    ensures x + y + z == x + (y + z)
  {
  }

  /** Encoding a concatenation concatenates the encodings. */
  lemma {:induction false} EncodeConcat(a: string, b: string)
    ensures Encode(a + b) == Encode(a) + Encode(b)
    decreases |b|
  {
    if b == [] {
      assert a + b == a;
    } else {
      var b', c := b[..|b| - 1], b[|b| - 1];
      assert (a + b)[..|a + b| - 1] == a + b';
      EncodeConcat(a, b');
      ConcatAssoc(Encode(a), Encode(b'), EncodeChar(c));
    }
  }

  /** The encoding read from the front: the first character's bytes, then
      the rest's. */
  lemma EncodeFront(s: string)
    requires s != []
    ensures Encode(s) == EncodeChar(s[0]) + Encode(s[1..])
  {
    assert s == [s[0]] + s[1..];
    EncodeConcat([s[0]], s[1..]);
    assert Encode([s[0]]) == EncodeChar(s[0]) by {
      assert [s[0]][..0] == [];
    }
  }

  predicate IsContinuation(b: byte)
  {
    0x80 <= b < 0xC0
  }

  /** Reads one scalar value from the front of `b`; returns it and the number
      of bytes it took. */
  function DecodeChar(b: seq<byte>): Option<(char, nat)>
  {
    if |b| == 0 then None
    else if b[0] < 0x80 then Some((b[0] as char, 1))
    else if b[0] < 0xC0 then None
    else if b[0] < 0xE0 then
      if |b| < 2 || !IsContinuation(b[1]) then None
      else
        var n := (b[0] as int - 0xC0) * 64 + (b[1] as int - 0x80);
        if n < 0x80 then None else Some((n as char, 2))
    else if b[0] < 0xF0 then
      if |b| < 3 || !IsContinuation(b[1]) || !IsContinuation(b[2]) then None
      else
        var n := (b[0] as int - 0xE0) * 4096 + (b[1] as int - 0x80) * 64 + (b[2] as int - 0x80);
        if n < 0x800 || 0xD800 <= n < 0xE000 then None else Some((n as char, 3))
    else
      if |b| < 4 || !IsContinuation(b[1]) || !IsContinuation(b[2]) || !IsContinuation(b[3]) then None
      else
        var n := (b[0] as int - 0xF0) * 262144 + (b[1] as int - 0x80) * 4096
                 + (b[2] as int - 0x80) * 64 + (b[3] as int - 0x80);
        if n < 0x10000 || 0x110000 <= n then None else Some((n as char, 4))
  }

  /** Decodes a whole byte string, or fails. */
  function Decode(b: seq<byte>): Option<string>
    decreases |b|
  {
    if b == [] then Some([])
    else match DecodeChar(b)
      case None => None
      case Some(p) =>
        if p.1 == 0 || p.1 > |b| then None
        else match Decode(b[p.1..])
          case None => None
          case Some(rest) => Some([p.0] + rest)
  }

  lemma SplitTwo(n: int)
    requires 0 <= n
    ensures (n / 64) * 64 + n % 64 == n && 0 <= n % 64 < 64
  {
  }

  lemma SplitThree(n: int)
    requires 0 <= n
    ensures (n / 4096) * 4096 + ((n / 64) % 64) * 64 + n % 64 == n
    ensures 0 <= (n / 64) % 64 < 64
  {
    SplitTwo(n);
    SplitTwo(n / 64);
    assert n / 64 / 64 == n / 4096;
  }

  lemma SplitFour(n: int)
    requires 0 <= n
    ensures (n / 262144) * 262144 + ((n / 4096) % 64) * 4096 + ((n / 64) % 64) * 64 + n % 64 == n
    ensures 0 <= (n / 4096) % 64 < 64
  {
    SplitThree(n);
    SplitTwo(n / 4096);
    assert n / 4096 / 64 == n / 262144;
  }

  lemma DecodeEncodedChar(c: char, rest: seq<byte>)
    ensures DecodeChar(EncodeChar(c) + rest) == Some((c, |EncodeChar(c)|))
  {
    var n := c as int;
    var b := EncodeChar(c) + rest;
    if n < 0x80 {
    } else if n < 0x800 {
      SplitTwo(n);
      assert b[0] as int - 0xC0 == n / 64 && b[1] as int - 0x80 == n % 64;
    } else if n < 0x10000 {
      SplitThree(n);
      assert b[0] as int - 0xE0 == n / 4096;
      assert b[1] as int - 0x80 == (n / 64) % 64;
      assert b[2] as int - 0x80 == n % 64;
    } else {
      SplitFour(n);
      assert b[0] as int - 0xF0 == n / 262144;
      assert b[1] as int - 0x80 == (n / 4096) % 64;
      assert b[2] as int - 0x80 == (n / 64) % 64;
      assert b[3] as int - 0x80 == n % 64;
    }
  }

  /** Decoding undoes encoding, so the bytes `send` enqueues determine the text. */
  lemma {:induction false} DecodeEncode(s: string)
    ensures Decode(Encode(s)) == Some(s)
  {
    if s != [] {
      var e := EncodeChar(s[0]);
      var b := Encode(s);
      EncodeFront(s);
      DecodeEncodedChar(s[0], Encode(s[1..]));
      assert b[|e|..] == Encode(s[1..]);
      DecodeEncode(s[1..]);
      assert Decode(b) == Some([s[0]] + s[1..]);
      assert [s[0]] + s[1..] == s;
    }
  }

  /** Text made of ASCII characters encodes to one byte per character, each
      equal to the character's code. */
  lemma {:induction false} EncodeAscii(s: string)
    requires forall i :: 0 <= i < |s| ==> s[i] as int < 0x80
    ensures |Encode(s)| == |s|
    ensures forall i :: 0 <= i < |s| ==> Encode(s)[i] as int == s[i] as int
  {
    if s != [] {
      var p := s[..|s| - 1];
      EncodeAscii(p);
      assert forall i :: 0 <= i < |p| ==> Encode(s)[i] == Encode(p)[i];
    }
  }
}
