# TLS signature schemes and hybrid composite keys, in Dafny

This project models two parts of the TLS layer of the Botan cryptography
library and proves properties of the model.

**Signature schemes** (`tls_signature_scheme.dfy`,
`tls_signature_scheme_properties.dfy`). A signature scheme is a 16-bit wire
code. The model includes:

- the nine schemes Botan offers, in preference order;
- `is_available` and `is_set`;
- the descriptor switches: `to_string`, `hash_function_name`,
  `padding_string`, `algorithm_name`, `algorithm_identifier` and `format`;
- the two policy predicates `is_compatible_with` (the rule of section 4.4.3 of
  RFC 8446: no SHA-1, and no RSASSA-PKCS1-v1_5 from TLS 1.3 on) and
  `is_suitable_for` (key algorithm and key-length bands).

The numeric codes are those of section 4.2.3 of RFC 8446 and, for DSA, the
(hash, signature) byte pairs of section 7.4.1.4.1 of RFC 5246.

The proved properties are these:

- the registry contents and order;
- which codes are available;
- a name parser that inverts `to_string`, unknown codes included;
- where the "Unknown ..." sentinels appear, exactly;
- agreement between the descriptors;
- the compatibility and suitability rules, family by family.

**Hybrid composite keys** (`composite_public_key.dfy`,
`composite_private_key.dfy`, `length_value.dfy`). These follow
draft-ietf-tls-hybrid-design-04. A composite public key is a list of
component public keys. The local helper `reduce` is a left fold; it becomes
the method `Reduce`, proved equal to the function `FoldLeft`. The operations
are specified by that fold and by independent reference definitions:

- `algo_name` is "Composite(" followed by the names joined by commas and ")";
  it can be cut back into the names.
- `estimated_strength` is the maximum component strength.
- `key_length` is the sum of the component key lengths.
- `check_key` holds when every component passes its own check.
- `public_key_bits` writes every component's encoding after a 2-byte length.
  The model proves that parsing this encoding gives back the components'
  encodings, and that the encoder and parser are inverse in both directions.

A composite private key is built for one hybrid key-exchange group. It holds
the classical key (ECDH on NIST P-256, P-384 or P-521, or X25519) followed by
the Kyber key of the matching level. `raw_kem_decrypt` splits a composite
ciphertext into length-prefixed parts. `decapsulate` runs each part through
its component key and concatenates the shared secrets in key order.

The Curve25519 branch of `decapsulate` checks the peer share of the first
ciphertext rather than its own. The model keeps this as written and proves it
harmless: every key the constructor builds has X25519 only at index 0.

Random number generation, key generation, key agreement, KEM decryption and
the policy's peer-key check are foreign to this model. They enter as
function parameters (`keygen`, `KeyAgreement`).

## Model

| member | source | states |
|---|---|---|
| Decimal.DecimalRoundTrip | src/lib/tls/tls_signature_scheme.cpp:115 | the decimal rendering of a code that `to_string` embeds reads back as that code |
| TlsSignatureScheme.Unset | src/lib/tls/tls_signature_scheme.cpp:49-51 | the default scheme is not set and has no recognised code |
| TlsSignatureScheme.ValueExists | src/lib/tls/tls_signature_scheme.cpp:61-64 | the linear search finds a scheme exactly when it is in the registry |
| TlsSignatureSchemeProperties.WireCodeRoundTrip | src/lib/tls/tls_signature_scheme.cpp:53-69 | a scheme built from any 16-bit code keeps that code, and is set exactly when the code is non-zero |
| TlsSignatureSchemeProperties.RegistryOrder | src/lib/tls/tls_signature_scheme.cpp:17-46 | the registry holds nine distinct codes, with the PSS schemes first, then PKCS1, then ECDSA |
| TlsSignatureSchemeProperties.RegistryFamilies | src/lib/tls/tls_signature_scheme.cpp:17-46 | every offered scheme is RSA or ECDSA with a SHA-2 hash; no EdDSA, DSA or SHA-1 scheme is offered |
| TlsSignatureSchemeProperties.IsAvailableExactly | src/lib/tls/tls_signature_scheme.cpp:61-64 | `is_available` holds exactly for the PSS, PKCS1 and ECDSA codes other than the two SHA-1 ones |
| TlsSignatureSchemeProperties.RegistrySchemesUsable | src/lib/tls/tls_signature_scheme.cpp:17-46 | every available scheme has a format and a parseable name; it is usable before TLS 1.3, and from TLS 1.3 on it is usable exactly when it is not PKCS1 |
| TlsSignatureSchemeProperties.NameRoundTrip | src/lib/tls/tls_signature_scheme.cpp:71-117 | an independent parser recovers every scheme from its `to_string` name, including the decimal code of an unknown one |
| TlsSignatureSchemeProperties.ToStringInjective | src/lib/tls/tls_signature_scheme.cpp:71-117 | distinct schemes have distinct names |
| TlsSignatureSchemeProperties.UnknownCodeSentinels | src/lib/tls/tls_signature_scheme.cpp:71-287 | an unrecognised code gets "Unknown signature scheme: " followed by its decimal value, the unknown hash, padding and algorithm, the empty identifier and no format, and it is not available |
| TlsSignatureSchemeProperties.SentinelsExactlyForUnknownCodes | src/lib/tls/tls_signature_scheme.cpp:119-287 | each sentinel appears exactly for the codes its switch has no case label for; the padding string also has none for DSA, and the identifier none for DSA, ECDSA_SHA1 and Ed448 |
| TlsSignatureSchemeProperties.LegacyCodeLayout | src/lib/tls/tls_signature_scheme.cpp:119-228 | for the PKCS1, ECDSA and DSA codes, the hash name is given by the high byte and the algorithm name by the low byte of the code |
| TlsSignatureSchemeProperties.Tls13CodeLayout | src/lib/tls/tls_signature_scheme.cpp:119-228 | the codes 0x0804 to 0x0808 are RSA-PSS with the hash given by the low byte, then Ed25519 and Ed448 with "Pure" |
| TlsSignatureSchemeProperties.PaddingNamesHash | src/lib/tls/tls_signature_scheme.cpp:155-192 | the padding string names the same hash as `hash_function_name`; for PSS the salt length is that hash's output size (32, 48 or 64) |
| TlsSignatureSchemeProperties.FormatFollowsAlgorithm | src/lib/tls/tls_signature_scheme.cpp:259-287 | the format is IEEE 1363 exactly for RSA, a DER sequence exactly for ECDSA, EdDSA and DSA, and absent exactly for an unknown algorithm |
| TlsSignatureSchemeProperties.AlgorithmIdentifierByFamily | src/lib/tls/tls_signature_scheme.cpp:230-257 | RSA codes get RSA with NULL parameters; ECDSA SHA-2 codes get ECDSA with the curve matching the hash; Ed25519 gets empty parameters; a non-empty identifier carries the algorithm name |
| TlsSignatureSchemeProperties.VersionConstants | src/lib/tls/tls_signature_scheme.cpp:289-312 | TLS 1.2 and DTLS 1.2 are before TLS 1.3; TLS 1.3 and DTLS 1.3 are not |
| TlsSignatureSchemeProperties.CompatibilityByFamily | src/lib/tls/tls_signature_scheme.cpp:289-312 | SHA-1 schemes are never compatible; SHA-2 PKCS1 schemes are compatible exactly before TLS 1.3; every other scheme is always compatible |
| TlsSignatureSchemeProperties.SuitabilityBands | src/lib/tls/tls_signature_scheme.cpp:314-334 | a suitable key has the scheme's algorithm and more than 250 bits; ECDSA with SHA-256/384/512 also needs a key length within 250-350, 350-450 or 450-550 |
| TlsSignatureSchemeProperties.EcdsaSha256Boundaries | src/lib/tls/tls_signature_scheme.cpp:314-334 | the band edges: 250 and 351 bits are rejected for ECDSA_SHA256 and 251 and 350 accepted; 350 is also accepted for SHA-384 |
| EcGroups.NamedCurveDerInjective | src/lib/tls/tls_signature_scheme.cpp:240-247 | the three named-curve encodings used as ECDSA parameters are distinct |
| TlsLengthValue.LengthPrefixed | src/lib/tls/tls13_pqc/composite_public_key.cpp:112 | a value of at most 65535 bytes is written as its big-endian 2-byte length followed by its bytes |
| TlsLengthValue.ParseEncodeAll | src/lib/tls/tls13_pqc/composite_public_key.cpp:97-115 | parsing the length-prefixed concatenation gives back exactly the encoded values |
| TlsLengthValue.ParseSound | src/lib/tls/tls13_pqc/composite_public_key.cpp:276-291 | whatever the ciphertext reader accepts is the encoding of what it returns |
| TlsLengthValue.TruncatedRejected | src/lib/tls/tls13_pqc/composite_public_key.cpp:276-291 | a trailing lone byte or over-long length tag makes the whole input fail to parse |
| TlsLengthValue.EncodeAllLength | src/lib/tls/tls13_pqc/composite_public_key.cpp:97-115 | the encoding takes two bytes per value plus the values |
| CompositePublicKeys.FoldLeftSnoc | src/lib/tls/tls13_pqc/composite_public_key.cpp:35-43 | folding one more key applies the reducer once more to the previous accumulator |
| CompositePublicKeys.Reduce | src/lib/tls/tls13_pqc/composite_public_key.cpp:35-43 | the loop computes the left fold of the reducer over the keys in order |
| CompositePublicKeys.NewCompositePublicKey | src/lib/tls/tls13_pqc/composite_public_key.cpp:47-51 | construction succeeds exactly for at least two component keys and keeps them; otherwise it is an internal error |
| CompositePublicKeys.AlgoName | src/lib/tls/tls13_pqc/composite_public_key.cpp:53-66 | the loop builds "Composite(" followed by the component names joined by single commas and ")" |
| CompositePublicKeys.CompositeNameLists | src/lib/tls/tls13_pqc/composite_public_key.cpp:53-66 | for comma-free component names, the composite name can be cut back into exactly those names |
| CompositePublicKeys.MaxStrengthFold | src/lib/tls/tls13_pqc/composite_public_key.cpp:68-74 | folding `max` gives at least the accumulator and every component strength, and equals the accumulator or one of those strengths |
| CompositePublicKeys.EstimatedStrength | src/lib/tls/tls13_pqc/composite_public_key.cpp:68-74 | the result is an upper bound of every component strength and is 0 or one of them |
| CompositePublicKeys.AddLengthFold | src/lib/tls/tls13_pqc/composite_public_key.cpp:76-82 | folding addition adds the recursive sum of the key lengths to the accumulator |
| CompositePublicKeys.KeyLength | src/lib/tls/tls13_pqc/composite_public_key.cpp:76-82 | the key length is the sum of the component key lengths |
| CompositePublicKeys.AndCheckFold | src/lib/tls/tls13_pqc/composite_public_key.cpp:84-90 | folding conjunction holds exactly when the accumulator and every component check hold |
| CompositePublicKeys.CheckKey | src/lib/tls/tls13_pqc/composite_public_key.cpp:84-90 | the composite passes its check exactly when every component passes |
| CompositePublicKeys.ComponentBits | src/lib/tls/tls13_pqc/composite_public_key.cpp:97-115 | lists each component's public-key encoding, in order |
| CompositePublicKeys.AppendLengthValueFold | src/lib/tls/tls13_pqc/composite_public_key.cpp:97-115 | the fold appends the length-value encoding of every component, and fails with "value too large" exactly when some encoding exceeds 65535 bytes |
| CompositePublicKeys.PublicKeyBits | src/lib/tls/tls13_pqc/composite_public_key.cpp:97-115 | it succeeds exactly when every component encoding fits a 2-byte length; the result is the length-prefixed concatenation, of the expected size, and parses back to the components' encodings |
| CompositePublicKeys.CheckProvider | src/lib/tls/tls13_pqc/composite_public_key.cpp:147-149 | only the empty provider and "base" are accepted; any other is "provider not found" |
| CompositePublicKeys.CreateKemEncryptionOp | src/lib/tls/tls13_pqc/composite_public_key.cpp:117-150 | always fails: "not implemented" for the default provider, otherwise "provider not found" naming the composite algorithm |
| CompositePrivateKeys.HybridGroupShape | src/lib/tls/tls13_pqc/composite_public_key.cpp:175-229 | every hybrid group pairs a classical key with the Kyber key of the matching level (256 with 512, 384 with 768, 521 with 1024), the 90s groups with 90s Kyber; every other group has no components |
| CompositePrivateKeys.NewCompositePrivateKey | src/lib/tls/tls13_pqc/composite_public_key.cpp:175-235 | the constructor builds the group's two keys in order, classical first, and stores their public keys; any other group is an invalid argument naming the group |
| CompositePrivateKeys.PublicKeysOf | src/lib/tls/tls13_pqc/composite_public_key.cpp:242-248 | the public keys are those of the private keys, one each, in order |
| CompositePrivateKeys.PublicKey | src/lib/tls/tls13_pqc/composite_public_key.cpp:250-253 | the public key is built by the composite public key's constructor, which accepts every constructed key; it holds each private component's public key, in order |
| CompositePrivateKeys.CheckPrivateKey | src/lib/tls/tls13_pqc/composite_public_key.cpp:255-261 | the private key passes its check exactly when every component's public key passes |
| CompositePrivateKeys.AppendFold | src/lib/tls/tls13_pqc/composite_public_key.cpp:363-369 | folding `concat` over the shared secrets appends them all, in order, to the accumulator |
| CompositePrivateKeys.Decapsulate | src/lib/tls/tls13_pqc/composite_public_key.cpp:309-320 | a ciphertext count different from the key count is an invalid argument that gives the count in decimal |
| CompositePrivateKeys.ShareOfByKind | src/lib/tls/tls13_pqc/composite_public_key.cpp:322-362 | the dispatch on the algorithm names "ECDH", "Curve25519" and "Kyber-r3" never reaches the unknown-key `Invalid_State`: Kyber decrypts without a check, ECDH derives only after its own peer share is accepted, Curve25519 only after the first ciphertext's share is accepted |
| CompositePrivateKeys.SharedSecretsOwnShares | src/lib/tls/tls13_pqc/composite_public_key.cpp:322-362 | when every Curve25519 key's ciphertext is the one its check reads, the per-key steps all succeed exactly when every classical peer share is accepted and no key agreement or decryption throws; then they yield the derived secret of key i for each i, and otherwise the error is a rejected peer key or a failed derivation |
| CompositePrivateKeys.X25519IsFirst | src/lib/tls/tls13_pqc/composite_public_key.cpp:339-347 | in every constructed key the Curve25519 component can only be at index 0, so the `at(0)` read is its own ciphertext |
| CompositePrivateKeys.DecapsulateCorrect | src/lib/tls/tls13_pqc/composite_public_key.cpp:309-370 | for a constructed key and one ciphertext per key: a rejected classical peer share fails first, then a throwing key agreement or Kyber decryption; otherwise the result is the two shared secrets concatenated, classical first |
| CompositePrivateKeys.CreateKemDecryptionOp | src/lib/tls/tls13_pqc/composite_public_key.cpp:298-307 | the default provider yields an operation bound to the key; any other is "provider not found" naming the composite algorithm |
| CompositePrivateKeys.ReaderStep | src/lib/tls/tls13_pqc/composite_public_key.cpp:282-287 | reading one complete length-prefixed value keeps the reader's list in step with the parser; a value cut short makes the whole input undecodable |
| CompositePrivateKeys.ReaderDone | src/lib/tls/tls13_pqc/composite_public_key.cpp:285-288 | once the input is exhausted, the values read are exactly what the parser returns |
| CompositePrivateKeys.RawKemDecrypt | src/lib/tls/tls13_pqc/composite_public_key.cpp:276-291 | the reader loop fails with a decoding error exactly when the input is not a sequence of complete length-prefixed values; otherwise it decapsulates the values it read, in order |

## Left out

- The cryptography itself is not modelled: key generation, ECDH and X25519 agreement, Kyber decryption, and the KDF of the KEM operations. Key generation is the `keygen` parameter, and agreement and decryption are `KeyAgreement.derive`. Any exception `derive_key` or `decrypt` throws becomes the single error `DerivationFailed`, so which exception it was is not modelled.
- Decoding a peer share (`OS2ECP`, the Curve25519 public-key constructor) and `Policy::check_peer_key_acceptable` are combined into the predicate `KeyAgreement.peerAcceptable`. Its `false` becomes the single error `PeerKeyRejected`, so the individual exceptions are not modelled.
- The random number generator, and the provider string that `decapsulate` forwards to `PK_Key_Agreement` and `PK_KEM_Decryptor`, are not modelled, because they only select foreign code.
- CompositePublicKeys.KeyLength: does not model the wrap-around of the `size_t` sum, because component key lengths are a few thousand bits.
- CompositePublicKeys.CheckKey: the `&&` in the reducer skips the remaining component checks once one fails. The model computes the same boolean but does not show which checks run; the `strong` flag is not modelled.
- The `Composite_KEM_Encryption_Operation` members throw before doing anything, so only the provider dispatch of `create_kem_encryption_op` is modelled.
- `Composite_PrivateKey::private_key_bits` always throws "not implemented". It is not modelled as a member.
- `Composite_PublicKey::algorithm_identifier` returns an empty identifier. It is not modelled as a member.
- The `Invalid_State` throw for an unknown private key in `decapsulate` is modelled, but it cannot happen: `KeyKind` is closed, and every kind's algorithm name has a branch (`ShareOfByKind`).
- The `#if defined(BOTAN_HAS_...)` build switches are taken as all enabled.
- The signature-scheme codes, `Protocol_Version`, `TLS_Data_Reader`, `append_tls_length_value`, `value_exists` and `EC_Group` are declared outside the two modelled source files. The model restates their behaviour as follows (`ValueExists`, `IsPreTls13`, `TagValue`, `Parse`, `LengthPrefixed`, `NamedCurveDer`):
  - the codes come from RFC 8446 and RFC 5246;
  - a version is datagram when its major byte exceeds 250, and DTLS counts minor versions downwards;
  - a length-value tag is two big-endian bytes, and a value longer than 65535 bytes is an error;
  - the named-curve parameters of the ECDSA identifiers are the curves' object identifiers encoded in DER.
- The function-local static registry is a constant. Its one-time initialisation is not modelled.
- `is_compatible_with` and `is_suitable_for` take only the fields they read: the protocol version, and a private key's algorithm name and key length.
- `src/tests/test_newhope.cpp` tests foreign key-exchange code and is not part of this model.
