/** TLS length-value framing with a 2-byte length tag: the encoding that
    `public_key_bits` produces for a composite key and that
    `raw_kem_decrypt` reads back from a composite ciphertext. Each value is
    written as its length in two big-endian bytes followed by its bytes. */
module TlsLengthValue {
  import opened Base

  /** The largest value a 2-byte tag can announce. */
  const MAX_VALUE_LENGTH: nat := 0xFFFF

  /** The length announced by a big-endian 2-byte tag. */
  function TagValue(hi: byte, lo: byte): nat {
    (hi as int) * 256 + (lo as int)
  }

  /** One value with its 2-byte length tag. */
  function LengthPrefixed(v: seq<byte>): (e: seq<byte>)
    requires |v| <= MAX_VALUE_LENGTH
    ensures |e| == 2 + |v|
    ensures TagValue(e[0], e[1]) == |v| && e[2..] == v
  {
    [|v| / 256, |v| % 256] + v
  }

  predicate AllFit(vs: seq<seq<byte>>) {
    forall i :: 0 <= i < |vs| ==> |vs[i]| <= MAX_VALUE_LENGTH
  }

  /** The values, each length-prefixed, concatenated in order. */
  function EncodeAll(vs: seq<seq<byte>>): seq<byte>
    requires AllFit(vs)
  {
    if vs == [] then [] else LengthPrefixed(vs[0]) + EncodeAll(vs[1..])
  }

  /** Total size of the encoding: two bytes of tag per value plus the values. */
  function EncodedSize(vs: seq<seq<byte>>): nat {
    if vs == [] then 0 else 2 + |vs[0]| + EncodedSize(vs[1..])
  }

  /** A leftover that cannot be read as one more value: a lone byte, or a
      tag announcing more bytes than remain. */
  predicate Truncated(t: seq<byte>) {
    |t| == 1 || (|t| >= 2 && TagValue(t[0], t[1]) > |t| - 2)
  }

  /** Read length-prefixed values until the input is exhausted; None when a
      value is cut short. */
  function Parse(s: seq<byte>): Option<seq<seq<byte>>>
    decreases |s|
  {
    if |s| == 0 then Some([])
    else if |s| < 2 then None
    else
      var n := TagValue(s[0], s[1]);
      if |s| - 2 < n then None
      else
        match Parse(s[2 + n..])
        case None => None
        case Some(rest) => Some([s[2..2 + n]] + rest)
  }

  /** Prepends decoded values to a parse result. */
  function Prepend(vs: seq<seq<byte>>, r: Option<seq<seq<byte>>>): Option<seq<seq<byte>>> {
    match r
    case None => None
    case Some(ws) => Some(vs + ws)
  }

  lemma {:induction false} EncodeAllLength(vs: seq<seq<byte>>)
    requires AllFit(vs)
    ensures |EncodeAll(vs)| == EncodedSize(vs)
  {
    if vs != [] {
      EncodeAllLength(vs[1..]);
    }
  }

  /** One step of the parser: a complete first value is split off. */
  lemma ParseStep(s: seq<byte>)
    requires |s| >= 2 && TagValue(s[0], s[1]) <= |s| - 2
    ensures Parse(s) == Prepend([s[2..2 + TagValue(s[0], s[1])]], Parse(s[2 + TagValue(s[0], s[1])..]))
  {
  }

  /** A length-prefixed value at the front of the input is read back. */
  lemma ParseLengthPrefixed(v: seq<byte>, t: seq<byte>)
    requires |v| <= MAX_VALUE_LENGTH
    ensures Parse(LengthPrefixed(v) + t) == Prepend([v], Parse(t))
  {
    var e := LengthPrefixed(v);
    var s := e + t;
    assert s[0] == e[0] && s[1] == e[1];
    assert s[2..2 + |v|] == e[2..] == v;
    assert s[2 + |v|..] == t;
    ParseStep(s);
  }

  /** Parsing an encoding followed by more input decodes the encoded values
      and then carries on with the rest. */
  lemma {:induction false} ParseAppend(vs: seq<seq<byte>>, t: seq<byte>)
    requires AllFit(vs)
    ensures Parse(EncodeAll(vs) + t) == Prepend(vs, Parse(t))
    decreases |vs|
  {
    if vs == [] {
      assert EncodeAll(vs) + t == t;
      if Parse(t).Some? {
        assert vs + Parse(t).value == Parse(t).value;
      }
    } else {
      var rest := EncodeAll(vs[1..]) + t;
      assert EncodeAll(vs) + t == LengthPrefixed(vs[0]) + rest;
      ParseLengthPrefixed(vs[0], rest);
      ParseAppend(vs[1..], t);
      PrependPrepend([vs[0]], vs[1..], Parse(t));
      assert [vs[0]] + vs[1..] == vs;
    }
  }

  lemma PrependPrepend(us: seq<seq<byte>>, vs: seq<seq<byte>>, r: Option<seq<seq<byte>>>)
    ensures Prepend(us, Prepend(vs, r)) == Prepend(us + vs, r)
  {
    if r.Some? {
      assert us + (vs + r.value) == (us + vs) + r.value;
    }
  }

  /** Round trip: parsing the encoding gives back exactly the encoded list. */
  lemma ParseEncodeAll(vs: seq<seq<byte>>)
    requires AllFit(vs)
    ensures Parse(EncodeAll(vs)) == Some(vs)
  {
    ParseAppend(vs, []);
    assert EncodeAll(vs) + [] == EncodeAll(vs);
    assert vs + [] == vs;
  }

  /** A truncated trailing value makes the whole input fail to parse. */
  lemma TruncatedRejected(vs: seq<seq<byte>>, t: seq<byte>)
    requires AllFit(vs) && Truncated(t)
    ensures Parse(EncodeAll(vs) + t) == None
  {
    ParseAppend(vs, t);
  }

  /** The two tag bytes are recovered from the announced length. */
  lemma TagBytes(hi: byte, lo: byte)
    ensures TagValue(hi, lo) / 256 == hi && TagValue(hi, lo) % 256 == lo
  {
  }

  /** The tag and the value the parser splits off are a length-prefixed
      value, and the rest of the input follows it. */
  lemma HeadIsLengthPrefixed(s: seq<byte>)
    requires |s| >= 2 && TagValue(s[0], s[1]) <= |s| - 2
    ensures LengthPrefixed(s[2..2 + TagValue(s[0], s[1])]) + s[2 + TagValue(s[0], s[1])..] == s
  {
    var n := TagValue(s[0], s[1]);
    TagBytes(s[0], s[1]);
    var e := LengthPrefixed(s[2..2 + n]);
    assert e[0] == s[0] && e[1] == s[1];
    assert e[2..] == s[2..2 + n];
    assert e == s[..2 + n];
    assert s == s[..2 + n] + s[2 + n..];
  }

  /** Whatever the parser accepts is the encoding of what it returns, so the
      parser and the encoder are inverse in both directions. */
  lemma ParseSound(s: seq<byte>)
    ensures Parse(s).Some? ==> AllFit(Parse(s).value) && EncodeAll(Parse(s).value) == s
  {
    if Parse(s).Some? {
      ParseInverse(s, Parse(s).value);
    }
  }

  lemma {:induction false} ParseInverse(s: seq<byte>, vs: seq<seq<byte>>)
    requires Parse(s) == Some(vs)
    ensures AllFit(vs) && EncodeAll(vs) == s
    decreases |s|
  {
    if |s| > 0 {
      assert |s| >= 2 && TagValue(s[0], s[1]) <= |s| - 2;
      var n := TagValue(s[0], s[1]);
      ParseStep(s);
      var rest := Parse(s[2 + n..]).value;
      assert vs == [s[2..2 + n]] + rest;
      ParseInverse(s[2 + n..], rest);
      EncodeCons(s[2..2 + n], rest);
      HeadIsLengthPrefixed(s);
    }
  }

  /** Encoding one more value in front. */
  lemma EncodeCons(v: seq<byte>, rest: seq<seq<byte>>)
    requires |v| <= MAX_VALUE_LENGTH && AllFit(rest)
    ensures AllFit([v] + rest)
    ensures EncodeAll([v] + rest) == LengthPrefixed(v) + EncodeAll(rest)
  {
    var vs := [v] + rest;
    assert vs[1..] == rest;
  }
}
