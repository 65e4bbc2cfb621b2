/** Properties of the signature-scheme classifier: the registry, the
    sentinels of the default arms, the agreement between the descriptors, and
    the two policy predicates. */
module TlsSignatureSchemeProperties {
  import opened Base
  import opened Decimal
  import opened EcGroups
  import opened TlsSignatureScheme

  // ---------------------------------------------------------------------
  // Reference definitions

  /** Hash byte of a TLS 1.2 SignatureAndHashAlgorithm pair (section
      7.4.1.4.1 of RFC 5246). */
  function HashOfByte(b: int): string {
    if b == 2 then "SHA-1"
    else if b == 4 then "SHA-256"
    else if b == 5 then "SHA-384"
    else if b == 6 then "SHA-512"
    else UNKNOWN_HASH
  }

  /** Signature byte of a TLS 1.2 SignatureAndHashAlgorithm pair. */
  function SignatureOfByte(b: int): string {
    if b == 1 then "RSA"
    else if b == 2 then "DSA"
    else if b == 3 then "ECDSA"
    else UNKNOWN_ALGORITHM
  }

  /** Output length in bytes of a SHA-2 hash, by name. */
  function DigestBytes(hash: string): nat {
    if hash == "SHA-256" then 32
    else if hash == "SHA-384" then 48
    else if hash == "SHA-512" then 64
    else 0
  }

  /** The curve conventionally paired with a SHA-2 hash. */
  function CurveForHash(hash: string): NamedCurve {
    if hash == "SHA-256" then Secp256r1
    else if hash == "SHA-384" then Secp384r1
    else Secp521r1
  }

  /** Preference rank of a family in the registry: PSS, then PKCS1, then
      ECDSA. */
  function FamilyRank(s: SignatureScheme): nat {
    if s.code in RSA_PSS_CODES then 0
    else if s.code in RSA_PKCS1_CODES then 1
    else 2
  }

  /** The code a scheme name stands for. */
  function KnownName(name: string): Option<uint16> {
    if name == "RSA_PKCS1_SHA1" then Some(RSA_PKCS1_SHA1)
    else if name == "RSA_PKCS1_SHA256" then Some(RSA_PKCS1_SHA256)
    else if name == "RSA_PKCS1_SHA384" then Some(RSA_PKCS1_SHA384)
    else if name == "RSA_PKCS1_SHA512" then Some(RSA_PKCS1_SHA512)
    else if name == "ECDSA_SHA1" then Some(ECDSA_SHA1)
    else if name == "ECDSA_SHA256" then Some(ECDSA_SHA256)
    else if name == "ECDSA_SHA384" then Some(ECDSA_SHA384)
    else if name == "ECDSA_SHA512" then Some(ECDSA_SHA512)
    else if name == "RSA_PSS_SHA256" then Some(RSA_PSS_SHA256)
    else if name == "RSA_PSS_SHA384" then Some(RSA_PSS_SHA384)
    else if name == "RSA_PSS_SHA512" then Some(RSA_PSS_SHA512)
    else if name == "EDDSA_25519" then Some(EDDSA_25519)
    else if name == "EDDSA_448" then Some(EDDSA_448)
    else if name == "DSA_SHA1" then Some(DSA_SHA1)
    else if name == "DSA_SHA256" then Some(DSA_SHA256)
    else if name == "DSA_SHA384" then Some(DSA_SHA384)
    else if name == "DSA_SHA512" then Some(DSA_SHA512)
    else None
  }

  /** The code embedded in an "unknown scheme" sentinel. */
  function SentinelCode(name: string): Option<uint16> {
    var n := |UNKNOWN_SCHEME_PREFIX|;
    if |name| > n && name[..n] == UNKNOWN_SCHEME_PREFIX
       && IsDigits(name[n..]) && DecimalValue(name[n..]) < 0x1_0000
    then Some(DecimalValue(name[n..]) as uint16)
    else None
  }

  /** Inverse of `ToString`: recognises a scheme name or the sentinel that
      embeds an unrecognised code. */
  function ParseSchemeName(name: string): Option<SignatureScheme> {
    match KnownName(name)
    case Some(code) => Some(SignatureScheme(code))
    case None =>
      match SentinelCode(name)
      case Some(code) => Some(SignatureScheme(code))
      case None => None
  }

  // ---------------------------------------------------------------------
  // Construction and the registry

  /** Building a scheme from any 16-bit value and reading the code back is
      the identity; only the zero code is unset. */
  lemma WireCodeRoundTrip(w: uint16)
    ensures SignatureScheme(w).code == w
    ensures IsSet(SignatureScheme(w)) <==> w != 0
  {
  }

  /** The registry: nine distinct schemes, in the order PSS before PKCS1
      before ECDSA. */
  lemma RegistryOrder()
    ensures |ALL_AVAILABLE_SCHEMES| == 9
    ensures forall i, j :: 0 <= i < j < |ALL_AVAILABLE_SCHEMES| ==>
              ALL_AVAILABLE_SCHEMES[i].code != ALL_AVAILABLE_SCHEMES[j].code
    ensures forall i, j :: 0 <= i < j < |ALL_AVAILABLE_SCHEMES| ==>
              FamilyRank(ALL_AVAILABLE_SCHEMES[i]) <= FamilyRank(ALL_AVAILABLE_SCHEMES[j])
  {
  }

  /** Every registered scheme is SHA-2 based RSA or ECDSA: no SHA-1, no
      EdDSA and no DSA scheme is offered. */
  lemma RegistryFamilies(s: SignatureScheme)
    requires s in ALL_AVAILABLE_SCHEMES
    ensures HashFunctionName(s) in {"SHA-256", "SHA-384", "SHA-512"}
    ensures AlgorithmName(s) in {"RSA", "ECDSA"}
    ensures s.code !in EDDSA_CODES + DSA_CODES
  {
  }

  /** `is_available` holds exactly for the nine offered codes: every PSS,
      PKCS1 and ECDSA code except the two SHA-1 ones. */
  lemma IsAvailableExactly(s: SignatureScheme)
    ensures IsAvailable(s) <==>
              s.code in (RSA_PSS_CODES + RSA_PKCS1_CODES + ECDSA_CODES) - {RSA_PKCS1_SHA1, ECDSA_SHA1}
  {
  }

  /** Every offered scheme is fully classified and may be used up to TLS 1.2;
      from TLS 1.3 on exactly the PKCS1 ones drop out. */
  lemma RegistrySchemesUsable(s: SignatureScheme, v: ProtocolVersion)
    requires IsAvailable(s)
    ensures Format(s).Some? && ParseSchemeName(ToString(s)) == Some(s)
    ensures IsPreTls13(v) ==> IsCompatibleWith(s, v)
    ensures !IsPreTls13(v) ==> (IsCompatibleWith(s, v) <==> s.code !in RSA_PKCS1_CODES)
  {
    IsAvailableExactly(s);
    NameRoundTrip(s);
  }

  // ---------------------------------------------------------------------
  // Names and sentinels

  /** `to_string` can be read back, the numeric code included for an
      unrecognised one; hence no two schemes share a name. */
  lemma NameRoundTrip(s: SignatureScheme)
    ensures ParseSchemeName(ToString(s)) == Some(s)
  {
    if s.code in RSA_PKCS1_CODES + RSA_PSS_CODES {
      RsaNameRoundTrip(s);
    } else if s.code in ECDSA_CODES + EDDSA_CODES {
      EcNameRoundTrip(s);
    } else if s.code in DSA_CODES {
      DsaNameRoundTrip(s);
    } else {
      UnknownNameRoundTrip(s);
    }
  }

  lemma RsaNameRoundTrip(s: SignatureScheme)
    requires s.code in RSA_PKCS1_CODES + RSA_PSS_CODES
    ensures ParseSchemeName(ToString(s)) == Some(s)
  {
  }

  lemma EcNameRoundTrip(s: SignatureScheme)
    requires s.code in ECDSA_CODES + EDDSA_CODES
    ensures ParseSchemeName(ToString(s)) == Some(s)
  {
  }

  lemma DsaNameRoundTrip(s: SignatureScheme)
    requires s.code in DSA_CODES
    ensures ParseSchemeName(ToString(s)) == Some(s)
  {
  }

  /** The sentinel name is longer than every scheme name, so only its last
      arm can read it, and that arm decodes the embedded code. */
  lemma UnknownNameRoundTrip(s: SignatureScheme)
    requires s.code !in KNOWN_CODES
    ensures ParseSchemeName(ToString(s)) == Some(s)
  {
    var digits := NatToString(s.code);
    assert ToString(s) == UNKNOWN_SCHEME_PREFIX + digits;
    LongNamesUnknown(ToString(s));
    SplitConcat(UNKNOWN_SCHEME_PREFIX, digits);
    DecimalRoundTrip(s.code);
  }

  /** Every scheme name has at most sixteen characters. */
  lemma LongNamesUnknown(name: string)
    requires |name| > 16
    ensures KnownName(name) == None
  {
  }

  lemma SplitConcat(p: string, d: string)
    ensures |p + d| == |p| + |d|
    ensures (p + d)[..|p|] == p && (p + d)[|p|..] == d
  {
  }

  lemma ToStringInjective(a: SignatureScheme, b: SignatureScheme)
    ensures ToString(a) == ToString(b) ==> a == b
  {
    NameRoundTrip(a);
    NameRoundTrip(b);
  }

  /** Every code outside the seventeen recognised ones gets the sentinels,
      and the name embeds the code in decimal. */
  lemma UnknownCodeSentinels(s: SignatureScheme)
    requires s.code !in KNOWN_CODES
    ensures ToString(s) == UNKNOWN_SCHEME_PREFIX + NatToString(s.code)
    ensures DecimalValue(ToString(s)[|UNKNOWN_SCHEME_PREFIX|..]) == s.code
    ensures HashFunctionName(s) == UNKNOWN_HASH
    ensures PaddingString(s) == UNKNOWN_PADDING
    ensures AlgorithmName(s) == UNKNOWN_ALGORITHM
    ensures GetAlgorithmIdentifier(s) == EMPTY_IDENTIFIER
    ensures Format(s) == None
    ensures !IsAvailable(s)
  {
    assert ToString(s)[|UNKNOWN_SCHEME_PREFIX|..] == NatToString(s.code);
    DecimalRoundTrip(s.code);
    IsAvailableExactly(s);
  }

  /** The sentinels appear exactly where the switches have no case label:
      every descriptor except the padding string and the identifier is
      defined for all seventeen codes; the padding string is missing for the
      DSA codes and the identifier for ECDSA_SHA1, Ed448 and DSA. */
  lemma SentinelsExactlyForUnknownCodes(s: SignatureScheme)
    ensures HashFunctionName(s) == UNKNOWN_HASH <==> s.code !in KNOWN_CODES
    ensures AlgorithmName(s) == UNKNOWN_ALGORITHM <==> s.code !in KNOWN_CODES
    ensures Format(s) == None <==> s.code !in KNOWN_CODES
    ensures (|ToString(s)| > 16) <==> s.code !in KNOWN_CODES
    ensures PaddingString(s) == UNKNOWN_PADDING <==> s.code !in KNOWN_CODES || s.code in DSA_CODES
    ensures GetAlgorithmIdentifier(s) == EMPTY_IDENTIFIER <==>
              s.code !in KNOWN_CODES || s.code in DSA_CODES + {ECDSA_SHA1, EDDSA_448}
  {
    if s.code !in KNOWN_CODES {
      UnknownCodeSentinels(s);
    }
  }

  // ---------------------------------------------------------------------
  // Agreement between the descriptors

  /** The TLS 1.2 style codes are (hash, signature) byte pairs, and the hash
      and algorithm names agree with those bytes. */
  lemma LegacyCodeLayout(s: SignatureScheme)
    requires s.code in RSA_PKCS1_CODES + ECDSA_CODES + DSA_CODES
    ensures HashFunctionName(s) == HashOfByte(s.code / 256)
    ensures AlgorithmName(s) == SignatureOfByte(s.code % 256)
  {
  }

  /** The RFC 8446 codes 0x0804 to 0x0808: RSA-PSS with SHA-256, SHA-384 and
      SHA-512, then Ed25519 and Ed448. */
  lemma Tls13CodeLayout(s: SignatureScheme)
    requires s.code in RSA_PSS_CODES + EDDSA_CODES
    ensures s.code / 256 == 8
    ensures s.code % 256 <= 6 ==>
              AlgorithmName(s) == "RSA" && HashFunctionName(s) == HashOfByte(s.code % 256)
    ensures s.code % 256 == 7 ==> AlgorithmName(s) == "Ed25519" && HashFunctionName(s) == "Pure"
    ensures s.code % 256 == 8 ==> AlgorithmName(s) == "Ed448" && HashFunctionName(s) == "Pure"
  {
  }

  /** The padding string names the same hash as `hash_function_name`; for
      RSA-PSS the salt length is that hash's output length. */
  lemma PaddingNamesHash(s: SignatureScheme)
    ensures s.code in RSA_PKCS1_CODES ==> PaddingString(s) == "EMSA_PKCS1(" + HashFunctionName(s) + ")"
    ensures s.code in ECDSA_CODES ==> PaddingString(s) == "EMSA1(" + HashFunctionName(s) + ")"
    ensures s.code in RSA_PSS_CODES ==>
              && DigestBytes(HashFunctionName(s)) in {32, 48, 64}
              && PaddingString(s) ==
                 "PSSR(" + HashFunctionName(s) + ",MGF1," + NatToString(DigestBytes(HashFunctionName(s))) + ")"
    ensures s.code in EDDSA_CODES ==> PaddingString(s) == HashFunctionName(s) == "Pure"
  {
    if s.code in RSA_PKCS1_CODES {
      Pkcs1PaddingNamesHash(s);
    } else if s.code in ECDSA_CODES {
      EcdsaPaddingNamesHash(s);
    } else if s.code in RSA_PSS_CODES {
      PssPaddingNamesHash(s);
    }
  }

  lemma Pkcs1PaddingNamesHash(s: SignatureScheme)
    requires s.code in RSA_PKCS1_CODES
    ensures PaddingString(s) == "EMSA_PKCS1(" + HashFunctionName(s) + ")"
  {
  }

  lemma EcdsaPaddingNamesHash(s: SignatureScheme)
    requires s.code in ECDSA_CODES
    ensures PaddingString(s) == "EMSA1(" + HashFunctionName(s) + ")"
  {
  }

  lemma PssPaddingNamesHash(s: SignatureScheme)
    requires s.code in RSA_PSS_CODES
    ensures DigestBytes(HashFunctionName(s)) in {32, 48, 64}
    ensures PaddingString(s) ==
            "PSSR(" + HashFunctionName(s) + ",MGF1," + NatToString(DigestBytes(HashFunctionName(s))) + ")"
  {
    if s.code == RSA_PSS_SHA256 {
      PssSha256Padding(s);
    } else if s.code == RSA_PSS_SHA384 {
      PssSha384Padding(s);
    } else {
      PssSha512Padding(s);
    }
  }

  lemma PssSha256Padding(s: SignatureScheme)
    requires s.code == RSA_PSS_SHA256
    ensures PaddingString(s) == "PSSR(" + HashFunctionName(s) + ",MGF1," + NatToString(32) + ")"
  {
    PssPadding(s, "SHA-256", 3, 2);
  }

  lemma PssSha384Padding(s: SignatureScheme)
    requires s.code == RSA_PSS_SHA384
    ensures PaddingString(s) == "PSSR(" + HashFunctionName(s) + ",MGF1," + NatToString(48) + ")"
  {
    PssPadding(s, "SHA-384", 4, 8);
  }

  lemma PssSha512Padding(s: SignatureScheme)
    requires s.code == RSA_PSS_SHA512
    ensures PaddingString(s) == "PSSR(" + HashFunctionName(s) + ",MGF1," + NatToString(64) + ")"
  {
    PssPadding(s, "SHA-512", 6, 4);
  }

  /** The PSS padding string of a scheme whose hash outputs `hi lo` bytes
      (two decimal digits) names the hash and that length. */
  lemma PssPadding(s: SignatureScheme, hash: string, hi: nat, lo: nat)
    requires 1 <= hi < 10 && lo < 10
    requires PaddingString(s) == "PSSR(" + hash + ",MGF1," + [DigitChar(hi), DigitChar(lo)] + ")"
    ensures PaddingString(s) == "PSSR(" + hash + ",MGF1," + NatToString(hi * 10 + lo) + ")"
  {
    var n := hi * 10 + lo;
    assert n / 10 == hi && n % 10 == lo;
    assert NatToString(n) == [DigitChar(hi), DigitChar(lo)];
  }

  /** `format()` is IEEE_1363 exactly for the RSA family, DER_SEQUENCE
      exactly for the ECDSA, EdDSA and DSA families, and absent exactly when
      the algorithm is unknown. */
  lemma FormatFollowsAlgorithm(s: SignatureScheme)
    ensures Format(s) == Some(IEEE_1363) <==> AlgorithmName(s) == "RSA"
    ensures Format(s) == Some(DER_SEQUENCE) <==> AlgorithmName(s) in {"ECDSA", "Ed25519", "Ed448", "DSA"}
    ensures Format(s) == None <==> AlgorithmName(s) == UNKNOWN_ALGORITHM
  {
  }

  /** The certificate algorithm identifier: NULL-parameter RSA for all seven
      RSA codes, ECDSA with the curve that matches the hash, Ed25519 with
      empty parameters, and otherwise the empty identifier. A non-empty
      identifier is named after the algorithm family. */
  lemma AlgorithmIdentifierByFamily(s: SignatureScheme)
    ensures s.code in RSA_PKCS1_CODES + RSA_PSS_CODES ==>
              GetAlgorithmIdentifier(s) == AlgorithmIdentifier("RSA", NullParam)
    ensures s.code in ECDSA_CODES - {ECDSA_SHA1} ==>
              GetAlgorithmIdentifier(s) ==
              AlgorithmIdentifier("ECDSA", Encoded(NamedCurveDer(CurveForHash(HashFunctionName(s)))))
    ensures s.code == EDDSA_25519 ==> GetAlgorithmIdentifier(s) == AlgorithmIdentifier("Ed25519", EmptyParam)
    ensures GetAlgorithmIdentifier(s) != EMPTY_IDENTIFIER ==>
              GetAlgorithmIdentifier(s).name == AlgorithmName(s)
  {
  }

  // ---------------------------------------------------------------------
  // Protocol compatibility

  lemma VersionConstants()
    ensures IsPreTls13(TLS_V12) && IsPreTls13(DTLS_V12)
    ensures !IsPreTls13(TLS_V13) && !IsPreTls13(DTLS_V13)
  {
  }

  /** Compatibility, family by family: SHA-1 never; PKCS1 with SHA-2 only
      before TLS 1.3; every other code, unrecognised ones included, always. */
  lemma CompatibilityByFamily(s: SignatureScheme, v: ProtocolVersion)
    ensures HashFunctionName(s) == "SHA-1" ==> !IsCompatibleWith(s, v)
    ensures s.code in {RSA_PKCS1_SHA1, ECDSA_SHA1, DSA_SHA1} ==> !IsCompatibleWith(s, v)
    ensures s.code in RSA_PKCS1_CODES - {RSA_PKCS1_SHA1} ==> (IsCompatibleWith(s, v) <==> IsPreTls13(v))
    ensures s.code in RSA_PSS_CODES ==> IsCompatibleWith(s, v)
    ensures s.code in ECDSA_CODES - {ECDSA_SHA1} ==> IsCompatibleWith(s, v)
    ensures s.code !in RSA_PKCS1_CODES && HashFunctionName(s) != "SHA-1" ==> IsCompatibleWith(s, v)
  {
  }

  // ---------------------------------------------------------------------
  // Key suitability

  /** A suitable key has the scheme's algorithm and more than 250 bits; the
      ECDSA SHA-2 codes add a key-length band, every other code only the
      floor. */
  lemma SuitabilityBands(s: SignatureScheme, key: PrivateKey)
    ensures IsSuitableFor(s, key) ==> AlgorithmName(s) == key.algoName && key.keyLength > 250
    ensures AlgorithmName(s) == key.algoName ==>
              && (s.code == ECDSA_SHA256 ==> (IsSuitableFor(s, key) <==> 250 < key.keyLength <= 350))
              && (s.code == ECDSA_SHA384 ==> (IsSuitableFor(s, key) <==> 350 <= key.keyLength <= 450))
              && (s.code == ECDSA_SHA512 ==> (IsSuitableFor(s, key) <==> 450 <= key.keyLength <= 550))
              && (s.code !in {ECDSA_SHA256, ECDSA_SHA384, ECDSA_SHA512} ==>
                    (IsSuitableFor(s, key) <==> key.keyLength > 250))
  {
  }

  /** The band edges for ECDSA_SHA256: 250 is rejected, 251 and 350 are
      accepted, 351 is rejected; 350 is also inside the SHA-384 band. */
  lemma EcdsaSha256Boundaries()
    ensures !IsSuitableFor(SignatureScheme(ECDSA_SHA256), PrivateKey("ECDSA", 250))
    ensures IsSuitableFor(SignatureScheme(ECDSA_SHA256), PrivateKey("ECDSA", 251))
    ensures IsSuitableFor(SignatureScheme(ECDSA_SHA256), PrivateKey("ECDSA", 350))
    ensures !IsSuitableFor(SignatureScheme(ECDSA_SHA256), PrivateKey("ECDSA", 351))
    ensures IsSuitableFor(SignatureScheme(ECDSA_SHA384), PrivateKey("ECDSA", 350))
    ensures !IsSuitableFor(SignatureScheme(ECDSA_SHA256), PrivateKey("RSA", 300))
  {
  }
}
