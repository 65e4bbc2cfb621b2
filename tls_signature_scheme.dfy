/** The TLS signature-scheme classifier. A `SignatureScheme` wraps one 16-bit
    wire code of the SignatureScheme registry (section 4.2.3 of RFC 8446).
    Every descriptor is a total function of that code: a switch over the
    seventeen recognised codes whose default arm yields an "unknown"
    sentinel instead of failing. Two policy predicates, compatibility with a
    protocol version and suitability for a private key, sit on top, and a
    fixed ordered registry lists the schemes that are offered. */
module TlsSignatureScheme {
  import opened Base
  import opened Decimal
  import opened EcGroups

  // Wire codes. The TLS 1.2 style codes are (hash byte, signature byte)
  // pairs as in section 7.4.1.4.1 of RFC 5246; 0x08xx are the RFC 8446 codes.
  const NONE: uint16 := 0x0000

  const RSA_PKCS1_SHA1: uint16 := 0x0201
  const RSA_PKCS1_SHA256: uint16 := 0x0401
  const RSA_PKCS1_SHA384: uint16 := 0x0501
  const RSA_PKCS1_SHA512: uint16 := 0x0601

  const DSA_SHA1: uint16 := 0x0202
  const DSA_SHA256: uint16 := 0x0402
  const DSA_SHA384: uint16 := 0x0502
  const DSA_SHA512: uint16 := 0x0602

  const ECDSA_SHA1: uint16 := 0x0203
  const ECDSA_SHA256: uint16 := 0x0403
  const ECDSA_SHA384: uint16 := 0x0503
  const ECDSA_SHA512: uint16 := 0x0603

  const RSA_PSS_SHA256: uint16 := 0x0804
  const RSA_PSS_SHA384: uint16 := 0x0805
  const RSA_PSS_SHA512: uint16 := 0x0806

  const EDDSA_25519: uint16 := 0x0807
  const EDDSA_448: uint16 := 0x0808

  // Families of codes, used by the properties to talk about the classifiers.
  const RSA_PKCS1_CODES: set<uint16> := {RSA_PKCS1_SHA1, RSA_PKCS1_SHA256, RSA_PKCS1_SHA384, RSA_PKCS1_SHA512}
  const RSA_PSS_CODES: set<uint16> := {RSA_PSS_SHA256, RSA_PSS_SHA384, RSA_PSS_SHA512}
  const ECDSA_CODES: set<uint16> := {ECDSA_SHA1, ECDSA_SHA256, ECDSA_SHA384, ECDSA_SHA512}
  const EDDSA_CODES: set<uint16> := {EDDSA_25519, EDDSA_448}
  const DSA_CODES: set<uint16> := {DSA_SHA1, DSA_SHA256, DSA_SHA384, DSA_SHA512}

  /** The seventeen codes that have a case label in the switches. */
  const KNOWN_CODES: set<uint16> := RSA_PKCS1_CODES + RSA_PSS_CODES + ECDSA_CODES + EDDSA_CODES + DSA_CODES

  const UNKNOWN_SCHEME_PREFIX: string := "Unknown signature scheme: "
  const UNKNOWN_HASH: string := "Unknown hash function"
  const UNKNOWN_PADDING: string := "Unknown padding"
  const UNKNOWN_ALGORITHM: string := "Unknown algorithm"

  /** A signature scheme: its identity is its wire code. The datatype
      constructor is the constructor from a `uint16_t`. */
  datatype SignatureScheme = SignatureScheme(code: uint16)

  /** How a signature value is serialised on the wire. */
  datatype SignatureFormat = IEEE_1363 | DER_SEQUENCE

  /** Parameters of an AlgorithmIdentifier: explicitly empty, an explicit
      ASN.1 NULL, or a DER encoding supplied by the caller. */
  datatype Parameters = EmptyParam | NullParam | Encoded(der: seq<byte>)

  datatype AlgorithmIdentifier = AlgorithmIdentifier(name: string, parameters: Parameters)

  /** The default-constructed, empty identifier. */
  const EMPTY_IDENTIFIER: AlgorithmIdentifier := AlgorithmIdentifier("", EmptyParam)

  /** A protocol version as its two version bytes (3.3 is TLS 1.2, 3.4 is
      TLS 1.3, 254.253 is DTLS 1.2, 254.252 is DTLS 1.3). */
  datatype ProtocolVersion = ProtocolVersion(major: byte, minor: byte)

  const TLS_V12: ProtocolVersion := ProtocolVersion(3, 3)
  const TLS_V13: ProtocolVersion := ProtocolVersion(3, 4)
  const DTLS_V12: ProtocolVersion := ProtocolVersion(254, 253)
  const DTLS_V13: ProtocolVersion := ProtocolVersion(254, 252)

  predicate IsDatagramProtocol(v: ProtocolVersion) {
    v.major > 250
  }

  function VersionCode(v: ProtocolVersion): nat {
    v.major * 256 + v.minor
  }

  /** Stream versions up to TLS 1.2, and datagram versions up to DTLS 1.2
      (whose version numbers count downwards). */
  predicate IsPreTls13(v: ProtocolVersion) {
    if IsDatagramProtocol(v) then VersionCode(v) >= VersionCode(DTLS_V12)
    else VersionCode(v) <= VersionCode(TLS_V12)
  }

  /** What the suitability check reads of a private key. */
  datatype PrivateKey = PrivateKey(algoName: string, keyLength: nat)

  // ---------------------------------------------------------------------
  // Construction and the registry

  /** The default constructor: the unset scheme. */
  function Unset(): (s: SignatureScheme)
    ensures !IsSet(s) && s.code !in KNOWN_CODES
  {
    SignatureScheme(NONE)
  }

  predicate IsSet(s: SignatureScheme) {
    s.code != NONE
  }

  /** The offered schemes, most preferred first. Ed25519 is deliberately
      not offered. */
  const ALL_AVAILABLE_SCHEMES: seq<SignatureScheme> := [
    SignatureScheme(RSA_PSS_SHA384),
    SignatureScheme(RSA_PSS_SHA256),
    SignatureScheme(RSA_PSS_SHA512),

    SignatureScheme(RSA_PKCS1_SHA384),
    SignatureScheme(RSA_PKCS1_SHA512),
    SignatureScheme(RSA_PKCS1_SHA256),

    SignatureScheme(ECDSA_SHA384),
    SignatureScheme(ECDSA_SHA512),
    SignatureScheme(ECDSA_SHA256)
  ]

  /** Linear membership test over a vector. */
  function ValueExists(v: seq<SignatureScheme>, x: SignatureScheme): (found: bool)
    ensures found <==> x in v
  {
    if v == [] then false
    else v[0] == x || ValueExists(v[1..], x)
  }

  predicate IsAvailable(s: SignatureScheme) {
    ValueExists(ALL_AVAILABLE_SCHEMES, s)
  }

  // ---------------------------------------------------------------------
  // Descriptors

  function ToString(s: SignatureScheme): string {
    match s.code
    case RSA_PKCS1_SHA1 => "RSA_PKCS1_SHA1"
    case RSA_PKCS1_SHA256 => "RSA_PKCS1_SHA256"
    case RSA_PKCS1_SHA384 => "RSA_PKCS1_SHA384"
    case RSA_PKCS1_SHA512 => "RSA_PKCS1_SHA512"

    case ECDSA_SHA1 => "ECDSA_SHA1"
    case ECDSA_SHA256 => "ECDSA_SHA256"
    case ECDSA_SHA384 => "ECDSA_SHA384"
    case ECDSA_SHA512 => "ECDSA_SHA512"

    case RSA_PSS_SHA256 => "RSA_PSS_SHA256"
    case RSA_PSS_SHA384 => "RSA_PSS_SHA384"
    case RSA_PSS_SHA512 => "RSA_PSS_SHA512"

    case EDDSA_25519 => "EDDSA_25519"
    case EDDSA_448 => "EDDSA_448"

    case DSA_SHA1 => "DSA_SHA1"
    case DSA_SHA256 => "DSA_SHA256"
    case DSA_SHA384 => "DSA_SHA384"
    case DSA_SHA512 => "DSA_SHA512"

    case _ => UNKNOWN_SCHEME_PREFIX + NatToString(s.code)
  }

  function HashFunctionName(s: SignatureScheme): string {
    match s.code
    case RSA_PKCS1_SHA1 | ECDSA_SHA1 | DSA_SHA1 => "SHA-1"
    case ECDSA_SHA256 | RSA_PKCS1_SHA256 | RSA_PSS_SHA256 | DSA_SHA256 => "SHA-256"
    case ECDSA_SHA384 | RSA_PKCS1_SHA384 | RSA_PSS_SHA384 | DSA_SHA384 => "SHA-384"
    case ECDSA_SHA512 | RSA_PKCS1_SHA512 | RSA_PSS_SHA512 | DSA_SHA512 => "SHA-512"
    case EDDSA_25519 | EDDSA_448 => "Pure"
    case _ => UNKNOWN_HASH
  }

  function PaddingString(s: SignatureScheme): string {
    match s.code
    case RSA_PKCS1_SHA1 => "EMSA_PKCS1(SHA-1)"
    case RSA_PKCS1_SHA256 => "EMSA_PKCS1(SHA-256)"
    case RSA_PKCS1_SHA384 => "EMSA_PKCS1(SHA-384)"
    case RSA_PKCS1_SHA512 => "EMSA_PKCS1(SHA-512)"

    case ECDSA_SHA1 => "EMSA1(SHA-1)"
    case ECDSA_SHA256 => "EMSA1(SHA-256)"
    case ECDSA_SHA384 => "EMSA1(SHA-384)"
    case ECDSA_SHA512 => "EMSA1(SHA-512)"

    case RSA_PSS_SHA256 => "PSSR(SHA-256,MGF1,32)"
    case RSA_PSS_SHA384 => "PSSR(SHA-384,MGF1,48)"
    case RSA_PSS_SHA512 => "PSSR(SHA-512,MGF1,64)"

    case EDDSA_25519 => "Pure"
    case EDDSA_448 => "Pure"

    case _ => UNKNOWN_PADDING
  }

  function AlgorithmName(s: SignatureScheme): string {
    match s.code
    case RSA_PKCS1_SHA1 | RSA_PKCS1_SHA256 | RSA_PKCS1_SHA384 | RSA_PKCS1_SHA512
       | RSA_PSS_SHA256 | RSA_PSS_SHA384 | RSA_PSS_SHA512 => "RSA"
    case ECDSA_SHA1 | ECDSA_SHA256 | ECDSA_SHA384 | ECDSA_SHA512 => "ECDSA"
    case EDDSA_25519 => "Ed25519"
    case EDDSA_448 => "Ed448"
    case DSA_SHA1 | DSA_SHA256 | DSA_SHA384 | DSA_SHA512 => "DSA"
    case _ => UNKNOWN_ALGORITHM
  }

  function GetAlgorithmIdentifier(s: SignatureScheme): AlgorithmIdentifier {
    match s.code
    case ECDSA_SHA256 => AlgorithmIdentifier("ECDSA", Encoded(NamedCurveDer(Secp256r1)))
    case ECDSA_SHA384 => AlgorithmIdentifier("ECDSA", Encoded(NamedCurveDer(Secp384r1)))
    case ECDSA_SHA512 => AlgorithmIdentifier("ECDSA", Encoded(NamedCurveDer(Secp521r1)))
    case EDDSA_25519 => AlgorithmIdentifier("Ed25519", EmptyParam)
    case RSA_PKCS1_SHA1 | RSA_PKCS1_SHA256 | RSA_PKCS1_SHA384 | RSA_PKCS1_SHA512
       | RSA_PSS_SHA256 | RSA_PSS_SHA384 | RSA_PSS_SHA512 => AlgorithmIdentifier("RSA", NullParam)
    case _ => EMPTY_IDENTIFIER
  }

  function Format(s: SignatureScheme): Option<SignatureFormat> {
    match s.code
    case RSA_PKCS1_SHA1 | RSA_PKCS1_SHA256 | RSA_PKCS1_SHA384 | RSA_PKCS1_SHA512
       | RSA_PSS_SHA256 | RSA_PSS_SHA384 | RSA_PSS_SHA512 => Some(IEEE_1363)
    case ECDSA_SHA1 | ECDSA_SHA256 | ECDSA_SHA384 | ECDSA_SHA512
       | EDDSA_25519 | EDDSA_448
       | DSA_SHA1 | DSA_SHA256 | DSA_SHA384 | DSA_SHA512 => Some(DER_SEQUENCE)
    case _ => None
  }

  // ---------------------------------------------------------------------
  // Policy predicates

  /** Section 4.4.3 of RFC 8446: no SHA-1 in any version, and no
      RSASSA-PKCS1-v1_5 from TLS 1.3 on. */
  predicate IsCompatibleWith(s: SignatureScheme, v: ProtocolVersion) {
    if HashFunctionName(s) == "SHA-1" then false
    else if !IsPreTls13(v) &&
            (s.code == RSA_PKCS1_SHA1 ||
             s.code == RSA_PKCS1_SHA256 ||
             s.code == RSA_PKCS1_SHA384 ||
             s.code == RSA_PKCS1_SHA512) then false
    else true
  }

  /** Same algorithm family, a key longer than 250 bits, and for ECDSA with
      SHA-2 a key length in the band of the hash. */
  predicate IsSuitableFor(s: SignatureScheme, key: PrivateKey) {
    if AlgorithmName(s) != key.algoName then false
    else
      var keylen := key.keyLength;
      if keylen <= 250 then false
      else if s.code == ECDSA_SHA256 && !(keylen >= 250 && keylen <= 350) then false
      else if s.code == ECDSA_SHA384 && !(keylen >= 350 && keylen <= 450) then false
      else if s.code == ECDSA_SHA512 && !(keylen >= 450 && keylen <= 550) then false
      else true
  }
}
