/** Byte streams: little-endian integers, length-prefixed strings, and the reader and writer
    objects that every serializer of the server goes through. */
module Bytes {
  type byte = x: int | 0 <= x < 0x100

  datatype Option<+T> = None | Some(value: T)

  function Pow256(n: nat): (r: nat)
    ensures r > 0
  {
    if n == 0 then 1 else 256 * Pow256(n - 1)
  }

  /** The n low-order bytes of v, least significant first. */
  function EncodeLE(v: nat, n: nat): (b: seq<byte>)
    ensures |b| == n
  {
    if n == 0 then [] else [v % 256] + EncodeLE(v / 256, n - 1)
  }

  function DecodeLE(b: seq<byte>): (v: nat)
    ensures v < Pow256(|b|)
  {
    if b == [] then 0 else b[0] + 256 * DecodeLE(b[1..])
  }

  /** Writing n bytes keeps exactly the value modulo 256^n: this is the cast of the C++ writer. */
  lemma {:induction false} DecodeEncode(v: nat, n: nat)
    ensures DecodeLE(EncodeLE(v, n)) == v % Pow256(n)
  {
    if n > 0 {
      var b := EncodeLE(v, n);
      DecodeEncode(v / 256, n - 1);
      assert b[1..] == EncodeLE(v / 256, n - 1);
      ModSplit(v, Pow256(n - 1));
    }
  }

  lemma ModSplit(v: nat, m: nat)
    requires m > 0
    ensures v % (256 * m) == v % 256 + 256 * ((v / 256) % m)
  {
    var q, r := v / 256, v % 256;
    var a, c := q / m, q % m;
    assert v == 256 * (a * m + c) + r;
    assert v == a * (256 * m) + (256 * c + r) by {
      assert 256 * (a * m) == a * (256 * m);
    }
    assert 0 <= 256 * c + r < 256 * m;
    DivModUnique(v, 256 * m, a, 256 * c + r);
  }

  lemma MulAtLeast(k: int, m: int)
    requires k >= 1 && m > 0
    ensures k * m >= m
  {
    assert k * m == m + (k - 1) * m;
    assert (k - 1) * m >= 0;
  }

  lemma DivModUnique(v: int, m: int, q: int, r: int)
    requires m > 0 && v == q * m + r && 0 <= r < m
    ensures v / m == q && v % m == r
  {
    var q', r' := v / m, v % m;
    assert v == q' * m + r';
    var k := q - q';
    assert k * m == q * m - q' * m;
    if k >= 1 {
      MulAtLeast(k, m);
      assert false;
    } else if k <= -1 {
      assert (-k) * m == -(k * m);
      MulAtLeast(-k, m);
      assert false;
    }
  }

  lemma {:induction false} EncodeDecode(b: seq<byte>)
    ensures EncodeLE(DecodeLE(b), |b|) == b
  {
    if b != [] {
      EncodeDecode(b[1..]);
      var v := DecodeLE(b);
      DivModUnique(v, 256, DecodeLE(b[1..]), b[0]);
    }
  }

  /** A value that fits the field survives the field. */
  lemma EncodeFits(v: nat, n: nat)
    requires v < Pow256(n)
    ensures DecodeLE(EncodeLE(v, n)) == v
  {
    DecodeEncode(v, n);
    DivModUnique(v, Pow256(n), 0, v);
  }

  /** Reading a fixed-width field off the front of what is left of a stream. */
  function TakeLE(s: seq<byte>, n: nat): Option<(nat, seq<byte>)> {
    if |s| < n then None else Some((DecodeLE(s[..n]), s[n..]))
  }

  lemma TakeEncoded(v: nat, n: nat, tail: seq<byte>)
    requires v < Pow256(n)
    ensures TakeLE(EncodeLE(v, n) + tail, n) == Some((v, tail))
  {
    var s := EncodeLE(v, n) + tail;
    assert s[..n] == EncodeLE(v, n) && s[n..] == tail;
    EncodeFits(v, n);
  }

  lemma Powers()
    ensures Pow256(1) == 0x100 && Pow256(2) == 0x1_0000 && Pow256(4) == 0x1_0000_0000
  {
    assert Pow256(1) == 256 * Pow256(0);
    assert Pow256(2) == 256 * Pow256(1);
    assert Pow256(3) == 256 * Pow256(2);
    assert Pow256(4) == 256 * Pow256(3);
  }

  /** What a string looks like on the wire: a string too long for the 16-bit length is replaced by
      the empty one. */
  function StringField(text: seq<byte>): seq<byte> {
    if |text| > 0xFFFF then EncodeLE(0, 2) else EncodeLE(|text|, 2) + text
  }

  function TakeString(s: seq<byte>): Option<(seq<byte>, seq<byte>)> {
    match TakeLE(s, 2)
    case None => None
    case Some((len, rest)) => if |rest| < len then None else Some((rest[..len], rest[len..]))
  }

  /** A string survives the wire exactly when its length fits 16 bits; otherwise it comes back empty. */
  lemma StringRoundTrip(text: seq<byte>, tail: seq<byte>)
    ensures TakeString(StringField(text) + tail) == Some((if |text| <= 0xFFFF then text else [], tail))
    ensures TakeString(StringField(text) + tail) == Some((text, tail)) <==> |text| <= 0xFFFF
  {
    Powers();
    if |text| > 0xFFFF {
      TakeEncoded(0, 2, tail);
      assert tail[..0] == [] && tail[0..] == tail;
    } else {
      assert StringField(text) + tail == EncodeLE(|text|, 2) + (text + tail);
      TakeEncoded(|text|, 2, text + tail);
      assert (text + tail)[..|text|] == text && (text + tail)[|text|..] == tail;
    }
  }

  /** The reader: a buffer and a position that only moves forward. */
  class PropStream {
    var data: seq<byte>
    var p: nat

    ghost predicate Valid()
      reads this
    {
      p <= |data|
    }

    ghost function Rest(): seq<byte>
      requires Valid()
      reads this
    {
      data[p..]
    }

    constructor (a: seq<byte>)
      ensures Valid() && Rest() == a
    {
      data, p := a, 0;
    }

    method Init(a: seq<byte>)
      modifies this
      ensures Valid() && Rest() == a
    {
      data, p := a, 0;
    }

    method Read(n: nat) returns (ok: bool, v: nat)
      requires Valid()
      modifies `p
      ensures Valid()
      ensures ok == TakeLE(old(Rest()), n).Some?
      ensures ok ==> TakeLE(old(Rest()), n) == Some((v, Rest()))
      ensures !ok ==> Rest() == old(Rest())
    {
      ok, v := false, 0;
      if |data| - p >= n {
        ghost var was := Rest();
        ok, v := true, DecodeLE(data[p..p + n]);
        assert was[..n] == data[p..p + n];
        p := p + n;
        assert was[n..] == data[p..];
      }
    }

    /** read of a whole structure. */
    method ReadRaw(n: nat) returns (ok: bool, raw: seq<byte>)
      requires Valid()
      modifies `p
      ensures Valid()
      ensures ok == (n <= |old(Rest())|)
      ensures ok ==> raw == old(Rest())[..n] && Rest() == old(Rest())[n..]
      ensures !ok ==> Rest() == old(Rest())
    {
      ok, raw := false, [];
      if |data| - p >= n {
        ghost var was := Rest();
        ok, raw := true, data[p..p + n];
        assert was[..n] == raw;
        p := p + n;
        assert was[n..] == data[p..];
      }
    }

    /** On a short body the two length bytes stay consumed, as in the original. */
    method ReadString() returns (ok: bool, text: seq<byte>)
      requires Valid()
      modifies `p
      ensures Valid()
      ensures ok == TakeString(old(Rest())).Some?
      ensures ok ==> TakeString(old(Rest())) == Some((text, Rest()))
      ensures !ok ==> Rest() == (if |old(Rest())| < 2 then old(Rest()) else old(Rest())[2..])
    {
      text := [];
      var len;
      ok, len := Read(2);
      if ok {
        ok := |data| - p >= len;
        if ok {
          ghost var was := Rest();
          text := data[p..p + len];
          assert was[..len] == text;
          p := p + len;
          assert was[len..] == Rest();
        }
      }
    }

    method Skip(n: nat) returns (ok: bool)
      requires Valid()
      modifies `p
      ensures Valid()
      ensures ok == (n <= |old(Rest())|)
      ensures Rest() == if ok then old(Rest())[n..] else old(Rest())
    {
      ok := |data| - p >= n;
      if ok {
        ghost var was := Rest();
        p := p + n;
        assert was[n..] == Rest();
      }
    }
  }

  /** The writer: fields are appended to a growing buffer. */
  class PropWriteStream {
    var buffer: seq<byte>

    constructor ()
      ensures buffer == []
    {
      buffer := [];
    }

    method Clear()
      modifies this
      ensures buffer == []
    {
      buffer := [];
    }

    method Write(v: nat, n: nat)
      modifies this
      ensures buffer == old(buffer) + EncodeLE(v, n)
    {
      buffer := buffer + EncodeLE(v, n);
    }

    method WriteBytes(raw: seq<byte>)
      modifies this
      ensures buffer == old(buffer) + raw
    {
      buffer := buffer + raw;
    }

    method WriteString(text: seq<byte>)
      modifies this
      ensures buffer == old(buffer) + StringField(text)
    {
      if |text| > 0xFFFF {
        Write(0, 2);
        return;
      }
      Write(|text|, 2);
      buffer := buffer + text;
    }
  }
}
