/** The named elliptic curves that the classifier and the hybrid groups refer
    to. Curve arithmetic is outside the model; a curve only contributes its
    DER encoding as a named curve (its object identifier, section 2.1.1.1 of
    RFC 5480), which is kept as a constant byte string. */
module EcGroups {
  import opened Base

  datatype NamedCurve = Secp256r1 | Secp384r1 | Secp521r1

  /** `EC_Group(name).DER_encode(NamedCurve)`: the OBJECT IDENTIFIER TLV of
      the curve (1.2.840.10045.3.1.7, 1.3.132.0.34, 1.3.132.0.35). */
  function NamedCurveDer(c: NamedCurve): (der: seq<byte>)
    ensures |der| >= 2 && der[0] == 0x06 && der[1] == |der| - 2
  {
    match c
    case Secp256r1 => [0x06, 0x08, 0x2A, 0x86, 0x48, 0xCE, 0x3D, 0x03, 0x01, 0x07]
    case Secp384r1 => [0x06, 0x05, 0x2B, 0x81, 0x04, 0x00, 0x22]
    case Secp521r1 => [0x06, 0x05, 0x2B, 0x81, 0x04, 0x00, 0x23]
  }

  /** Field size of the curve in bits. */
  function CurveBits(c: NamedCurve): nat {
    match c
    case Secp256r1 => 256
    case Secp384r1 => 384
    case Secp521r1 => 521
  }

  /** No two curves share an encoding. */
  lemma NamedCurveDerInjective(a: NamedCurve, b: NamedCurve)
    ensures NamedCurveDer(a) == NamedCurveDer(b) ==> a == b
  {
    if a != b {
      match a
      case Secp256r1 => assert |NamedCurveDer(a)| != |NamedCurveDer(b)|;
      case Secp384r1 => assert |NamedCurveDer(a)| != |NamedCurveDer(b)| || NamedCurveDer(a)[6] != NamedCurveDer(b)[6];
      case Secp521r1 => assert |NamedCurveDer(a)| != |NamedCurveDer(b)| || NamedCurveDer(a)[6] != NamedCurveDer(b)[6];
    }
  }
}
