/** The hybrid composite private key: built for one hybrid key-exchange
    group as a classical key (ECDH on a NIST curve, or X25519) followed by
    the matching Kyber key, in the order the group's definition names them.
    Decapsulation splits the composite ciphertext into one value per
    component key, runs each component's own key agreement or KEM
    decryption, and concatenates the shared secrets in order. Key
    generation, key agreement, KEM decryption and the policy's peer-key
    check are foreign operations and enter the model as parameters. */
module CompositePrivateKeys {
  import opened Base
  import opened Decimal
  import opened EcGroups
  import opened TlsLengthValue
  import opened CompositePublicKeys

  datatype KyberMode = Kyber512 | Kyber768 | Kyber1024 | Kyber512_90s | Kyber768_90s | Kyber1024_90s

  /** The kind of a component private key. */
  datatype KeyKind = Ecdh(curve: NamedCurve) | X25519 | Kyber(mode: KyberMode)

  /** The algorithm name a component key reports. */
  function KindAlgoName(kind: KeyKind): string {
    match kind
    case Ecdh(_) => "ECDH"
    case X25519 => "Curve25519"
    case Kyber(_) => "Kyber-r3"
  }

  /** Key-exchange groups: the seven hybrid ones, and every other group. */
  datatype GroupParams =
    | X25519_KYBER_R3_512
    | SECP256R1_KYBER_R3_512
    | SECP384R1_KYBER_R3_768
    | SECP521R1_KYBER_R3_1024
    | SECP256R1_KYBER_90s_R3_512
    | SECP384R1_KYBER_90s_R3_768
    | SECP521R1_KYBER_90s_R3_1024
    | OtherGroup(name: string)

  /** A component private key: its kind and the public key it yields; its
      secret material is not modelled. */
  datatype PrivateComponent = PrivateComponent(kind: KeyKind, publicKey: PublicComponent)

  datatype CompositePrivateKey = CompositePrivateKey(
    groups: GroupParams,
    privateKeys: seq<PrivateComponent>,
    publicKeys: seq<PublicComponent>)

  /** The foreign per-component operations: whether the policy accepts a
      peer share for a key of this kind (decoding it included), and the
      shared secret a key derives from a ciphertext, or `None` when the key
      agreement or KEM decryption throws. */
  datatype KeyAgreement = KeyAgreement(
    peerAcceptable: (KeyKind, seq<byte>) -> bool,
    derive: (PrivateComponent, seq<byte>) -> Option<seq<byte>>)

  // ---------------------------------------------------------------------
  // Construction

  /** Reference table of the hybrid groups: classical key, then Kyber key. */
  function HybridComponents(g: GroupParams): Option<(KeyKind, KeyKind)> {
    match g
    case X25519_KYBER_R3_512 => Some((X25519, Kyber(Kyber512)))
    case SECP256R1_KYBER_R3_512 => Some((Ecdh(Secp256r1), Kyber(Kyber512)))
    case SECP384R1_KYBER_R3_768 => Some((Ecdh(Secp384r1), Kyber(Kyber768)))
    case SECP521R1_KYBER_R3_1024 => Some((Ecdh(Secp521r1), Kyber(Kyber1024)))
    case SECP256R1_KYBER_90s_R3_512 => Some((Ecdh(Secp256r1), Kyber(Kyber512_90s)))
    case SECP384R1_KYBER_90s_R3_768 => Some((Ecdh(Secp384r1), Kyber(Kyber768_90s)))
    case SECP521R1_KYBER_90s_R3_1024 => Some((Ecdh(Secp521r1), Kyber(Kyber1024_90s)))
    case OtherGroup(_) => None
  }

  /** Security level of a classical key, in bits of curve size. */
  function ClassicalBits(kind: KeyKind): nat {
    match kind
    case Ecdh(c) => CurveBits(c)
    case X25519 => 256
    case Kyber(_) => 0
  }

  /** The Kyber parameter set's module rank times 256 (512, 768, 1024). */
  function KyberLevel(mode: KyberMode): nat {
    match mode
    case Kyber512 | Kyber512_90s => 512
    case Kyber768 | Kyber768_90s => 768
    case Kyber1024 | Kyber1024_90s => 1024
  }

  predicate Is90sMode(mode: KyberMode) {
    mode in {Kyber512_90s, Kyber768_90s, Kyber1024_90s}
  }

  predicate Is90sGroup(g: GroupParams) {
    g in {SECP256R1_KYBER_90s_R3_512, SECP384R1_KYBER_90s_R3_768, SECP521R1_KYBER_90s_R3_1024}
  }

  /** Every hybrid group pairs a classical key with a Kyber key of the
      matching level: a 256-bit curve with Kyber512, P-384 with Kyber768,
      P-521 with Kyber1024; the 90s groups use the 90s Kyber variants. Only
      the seven hybrid groups have components. */
  lemma HybridGroupShape(g: GroupParams)
    ensures HybridComponents(g).None? <==> g.OtherGroup?
    ensures HybridComponents(g).Some? ==>
              var (classical, pq) := HybridComponents(g).value;
              && !classical.Kyber? && pq.Kyber?
              && (ClassicalBits(classical) == 256 <==> KyberLevel(pq.mode) == 512)
              && (ClassicalBits(classical) == 384 <==> KyberLevel(pq.mode) == 768)
              && (ClassicalBits(classical) == 521 <==> KyberLevel(pq.mode) == 1024)
              && (Is90sMode(pq.mode) <==> Is90sGroup(g))
              && (classical == X25519 <==> g == X25519_KYBER_R3_512)
  {
  }

  function PublicKeysOf(privateKeys: seq<PrivateComponent>): (pks: seq<PublicComponent>)
    ensures |pks| == |privateKeys|
    ensures forall i :: 0 <= i < |pks| ==> pks[i] == privateKeys[i].publicKey
  {
    seq(|privateKeys|, i requires 0 <= i < |privateKeys| => privateKeys[i].publicKey)
  }

  /** A key as the constructor leaves it: the group's two components in
      order, and the public keys taken from them. */
  predicate BuiltForGroup(key: CompositePrivateKey) {
    && |key.privateKeys| == 2
    && HybridComponents(key.groups) == Some((key.privateKeys[0].kind, key.privateKeys[1].kind))
    && key.publicKeys == PublicKeysOf(key.privateKeys)
  }

  /** The constructor: one key per component of the group, generated by
      `keygen` (which stands for key generation from the random number
      generator); any other group is an invalid argument. */
  method NewCompositePrivateKey(groups: GroupParams, keygen: KeyKind -> PublicComponent)
    returns (r: Result<CompositePrivateKey, Error>)
    ensures r.Err? <==> groups.OtherGroup?
    ensures r.Err? ==> r.error == InvalidArgument("failed to create a composite private key for " + groups.name)
    ensures r.Ok? ==> r.value.groups == groups && BuiltForGroup(r.value)
    ensures r.Ok? ==> forall i :: 0 <= i < 2 ==>
              r.value.privateKeys[i].publicKey == keygen(r.value.privateKeys[i].kind)
  {
    var privateKeys: seq<PrivateComponent> := [];
    match groups {
      case X25519_KYBER_R3_512 =>
        privateKeys := privateKeys + [Generate(X25519, keygen)];
        privateKeys := privateKeys + [Generate(Kyber(Kyber512), keygen)];
      case SECP256R1_KYBER_R3_512 =>
        privateKeys := privateKeys + [Generate(Ecdh(Secp256r1), keygen)];
        privateKeys := privateKeys + [Generate(Kyber(Kyber512), keygen)];
      case SECP384R1_KYBER_R3_768 =>
        privateKeys := privateKeys + [Generate(Ecdh(Secp384r1), keygen)];
        privateKeys := privateKeys + [Generate(Kyber(Kyber768), keygen)];
      case SECP521R1_KYBER_R3_1024 =>
        privateKeys := privateKeys + [Generate(Ecdh(Secp521r1), keygen)];
        privateKeys := privateKeys + [Generate(Kyber(Kyber1024), keygen)];
      case SECP256R1_KYBER_90s_R3_512 =>
        privateKeys := privateKeys + [Generate(Ecdh(Secp256r1), keygen)];
        privateKeys := privateKeys + [Generate(Kyber(Kyber512_90s), keygen)];
      case SECP384R1_KYBER_90s_R3_768 =>
        privateKeys := privateKeys + [Generate(Ecdh(Secp384r1), keygen)];
        privateKeys := privateKeys + [Generate(Kyber(Kyber768_90s), keygen)];
      case SECP521R1_KYBER_90s_R3_1024 =>
        privateKeys := privateKeys + [Generate(Ecdh(Secp521r1), keygen)];
        privateKeys := privateKeys + [Generate(Kyber(Kyber1024_90s), keygen)];
      case OtherGroup(name) =>
        return Err(InvalidArgument("failed to create a composite private key for " + name));
    }
    assert |privateKeys| >= 2;
    r := Ok(CompositePrivateKey(groups, privateKeys, PublicKeysOf(privateKeys)));
  }

  function Generate(kind: KeyKind, keygen: KeyKind -> PublicComponent): PrivateComponent {
    PrivateComponent(kind, keygen(kind))
  }

  /** `public_key`: the components' public keys, passed through the
      composite public key's constructor, which accepts them because a
      built key has two components. */
  function PublicKey(key: CompositePrivateKey): (r: Result<CompositePublicKey, Error>)
    ensures r.Ok? <==> |key.privateKeys| >= 2
    ensures BuiltForGroup(key) ==> r.Ok?
    ensures r.Ok? ==> |r.value.publicKeys| == |key.privateKeys|
    ensures r.Ok? ==> forall i :: 0 <= i < |key.privateKeys| ==> r.value.publicKeys[i] == key.privateKeys[i].publicKey
  {
    NewCompositePublicKey(PublicKeysOf(key.privateKeys))
  }

  /** `check_key` of the private key folds over the public keys the
      constructor stored, so it holds exactly when every component's public
      key passes its check. */
  function CheckPrivateKey(key: CompositePrivateKey): (ok: bool)
    requires BuiltForGroup(key)
    ensures ok <==> forall i :: 0 <= i < |key.privateKeys| ==> key.privateKeys[i].publicKey.checkKey
  {
    CheckKey(key.publicKeys)
  }

  // ---------------------------------------------------------------------
  // Decapsulation

  /** A component's shared secret, or the exception its key agreement or
      KEM decryption threw. */
  function Derived(secret: Option<seq<byte>>): Result<seq<byte>, Error> {
    match secret
    case Some(ss) => Ok(ss)
    case None => Err(DerivationFailed)
  }

  /** The per-key step of `decapsulate`, which dispatches on the key's
      algorithm name. ECDH checks the peer share it is given; the Curve25519
      branch checks the share of the FIRST ciphertext (`firstCiphertext`)
      rather than its own; Kyber decrypts directly; any other name is an
      invalid state. */
  function ShareOf(key: PrivateComponent, ciphertext: seq<byte>, firstCiphertext: seq<byte>, ka: KeyAgreement)
    : Result<seq<byte>, Error>
  {
    var name := KindAlgoName(key.kind);
    if name == "ECDH" then
      if ka.peerAcceptable(key.kind, ciphertext) then Derived(ka.derive(key, ciphertext)) else Err(PeerKeyRejected)
    else if name == "Curve25519" then
      if ka.peerAcceptable(key.kind, firstCiphertext) then Derived(ka.derive(key, ciphertext)) else Err(PeerKeyRejected)
    else if name == "Kyber-r3" then
      Derived(ka.derive(key, ciphertext))
    else
      Err(InvalidState("Encountered an unknown private key"))
  }

  /** The three algorithm names tell the three kinds apart. */
  lemma KindAlgoNameDispatch(kind: KeyKind)
    ensures KindAlgoName(kind) == "ECDH" <==> kind.Ecdh?
    ensures KindAlgoName(kind) == "Curve25519" <==> kind == X25519
    ensures KindAlgoName(kind) == "Kyber-r3" <==> kind.Kyber?
  {
    assert "ECDH"[0] != "Curve25519"[0] && "ECDH"[0] != "Kyber-r3"[0] && "Curve25519"[0] != "Kyber-r3"[0];
  }

  /** Every component kind reaches one of the three named branches, so the
      unknown-key state is never raised: Kyber keys decrypt without a check,
      classical keys derive only after the policy accepts a peer share,
      their own for ECDH and the first ciphertext for Curve25519. */
  lemma ShareOfByKind(key: PrivateComponent, ciphertext: seq<byte>, firstCiphertext: seq<byte>, ka: KeyAgreement)
    ensures ShareOf(key, ciphertext, firstCiphertext, ka) ==
              if key.kind.Kyber? then Derived(ka.derive(key, ciphertext))
              else if ka.peerAcceptable(key.kind, if key.kind == X25519 then firstCiphertext else ciphertext)
              then Derived(ka.derive(key, ciphertext))
              else Err(PeerKeyRejected)
  {
    KindAlgoNameDispatch(key.kind);
  }

  /** The shared secrets of all keys, in order; the first failure aborts. */
  function SharedSecrets(keys: seq<PrivateComponent>, cts: seq<seq<byte>>, first: seq<byte>, ka: KeyAgreement)
    : Result<seq<seq<byte>>, Error>
    requires |keys| == |cts|
    decreases |keys|
  {
    if keys == [] then Ok([])
    else
      match ShareOf(keys[0], cts[0], first, ka)
      case Err(e) => Err(e)
      case Ok(ss) =>
        match SharedSecrets(keys[1..], cts[1..], first, ka)
        case Err(e) => Err(e)
        case Ok(rest) => Ok([ss] + rest)
  }

  function Append(acc: seq<byte>, ss: seq<byte>): seq<byte> {
    acc + ss
  }

  /** All the secrets, one after the other. */
  function Flatten(secrets: seq<seq<byte>>): seq<byte> {
    if secrets == [] then [] else secrets[0] + Flatten(secrets[1..])
  }

  lemma {:induction false} AppendFold(acc: seq<byte>, secrets: seq<seq<byte>>)
    ensures FoldLeft(Append, acc, secrets) == acc + Flatten(secrets)
    decreases |secrets|
  {
    if secrets != [] {
      AppendFold(acc + secrets[0], secrets[1..]);
      assert acc + secrets[0] + Flatten(secrets[1..]) == acc + (secrets[0] + Flatten(secrets[1..]));
    } else {
      assert acc + [] == acc;
    }
  }

  /** `decapsulate`: one ciphertext per private key, else an invalid
      argument that names the count; then the per-key shared secrets,
      concatenated in key order. */
  function Decapsulate(key: CompositePrivateKey, ciphertexts: seq<seq<byte>>, ka: KeyAgreement)
    : (r: Result<seq<byte>, Error>)
    ensures |ciphertexts| != |key.privateKeys| ==>
              r == Err(InvalidArgument("unexpected number of composite ciphertexts: " + NatToString(|ciphertexts|)))
  {
    if |ciphertexts| != |key.privateKeys| then
      Err(InvalidArgument("unexpected number of composite ciphertexts: " + NatToString(|ciphertexts|)))
    else
      var first := if |ciphertexts| > 0 then ciphertexts[0] else [];
      match SharedSecrets(key.privateKeys, ciphertexts, first, ka)
      case Err(e) => Err(e)
      case Ok(secrets) =>
        AppendFold([], secrets);
        assert [] + Flatten(secrets) == Flatten(secrets);
        Ok(FoldLeft(Append, [], secrets))
  }

  /** The peer-share check of key `i` passes on its own ciphertext. */
  predicate OwnShareAccepted(keys: seq<PrivateComponent>, cts: seq<seq<byte>>, ka: KeyAgreement, i: nat)
    requires |keys| == |cts| && i < |keys|
  {
    keys[i].kind.Kyber? || ka.peerAcceptable(keys[i].kind, cts[i])
  }

  /** Key `i`'s step passes its peer check on its own ciphertext and its
      key agreement or decryption does not throw. */
  predicate ShareSucceeds(keys: seq<PrivateComponent>, cts: seq<seq<byte>>, ka: KeyAgreement, i: nat)
    requires |keys| == |cts| && i < |keys|
  {
    OwnShareAccepted(keys, cts, ka, i) && ka.derive(keys[i], cts[i]).Some?
  }

  /** The shared secrets of all keys, when the peer checks read each key's
      own ciphertext: they exist exactly when every key's step succeeds,
      are then the derived secrets in key order, and otherwise the error is
      a rejected peer share or a failed derivation. */
  lemma {:induction false} SharedSecretsOwnShares(
    keys: seq<PrivateComponent>, cts: seq<seq<byte>>, first: seq<byte>, ka: KeyAgreement)
    requires |keys| == |cts|
    requires forall i :: 0 <= i < |keys| && keys[i].kind == X25519 ==> cts[i] == first
    ensures var r := SharedSecrets(keys, cts, first, ka);
            && (r.Ok? <==> forall i :: 0 <= i < |keys| ==> ShareSucceeds(keys, cts, ka, i))
            && (r.Err? ==> r.error == PeerKeyRejected || r.error == DerivationFailed)
            && (r.Ok? ==> |r.value| == |keys|)
            && (r.Ok? ==> forall i :: 0 <= i < |keys| ==> Some(r.value[i]) == ka.derive(keys[i], cts[i]))
    decreases |keys|
  {
    if keys != [] {
      assert forall i :: 1 <= i < |keys| ==>
               keys[i] == keys[1..][i - 1] && cts[i] == cts[1..][i - 1];
      SharedSecretsOwnShares(keys[1..], cts[1..], first, ka);
      ShareOfByKind(keys[0], cts[0], first, ka);
      assert forall i :: 1 <= i < |keys| ==>
               (ShareSucceeds(keys, cts, ka, i) <==> ShareSucceeds(keys[1..], cts[1..], ka, i - 1));
      assert forall j :: 0 <= j < |keys| - 1 ==>
               (ShareSucceeds(keys[1..], cts[1..], ka, j) <==> ShareSucceeds(keys, cts, ka, j + 1));
      assert ShareOf(keys[0], cts[0], first, ka).Ok? <==> ShareSucceeds(keys, cts, ka, 0);
      assert (forall i :: 0 <= i < |keys| ==> ShareSucceeds(keys, cts, ka, i)) <==>
             (ShareSucceeds(keys, cts, ka, 0) &&
              forall j :: 0 <= j < |keys| - 1 ==> ShareSucceeds(keys[1..], cts[1..], ka, j));
    }
  }

  /** For a key built for a hybrid group the Curve25519 key, when there is
      one, is the first component, so reading `ciphertexts.at(0)` for it
      reads its own ciphertext. */
  lemma X25519IsFirst(key: CompositePrivateKey)
    requires BuiltForGroup(key)
    ensures forall i :: 0 <= i < |key.privateKeys| && key.privateKeys[i].kind == X25519 ==> i == 0
  {
  }

  /** Decapsulation for a key built for a hybrid group, with one ciphertext
      per key: a rejected classical peer share comes first, then a throwing
      key agreement or decryption; otherwise the result is the two shared
      secrets concatenated in key order, classical first. */
  lemma DecapsulateCorrect(key: CompositePrivateKey, ciphertexts: seq<seq<byte>>, ka: KeyAgreement)
    requires BuiltForGroup(key) && |ciphertexts| == |key.privateKeys|
    ensures var keys := key.privateKeys;
            var classical := ka.derive(keys[0], ciphertexts[0]);
            var pq := ka.derive(keys[1], ciphertexts[1]);
            Decapsulate(key, ciphertexts, ka) ==
              if !ka.peerAcceptable(keys[0].kind, ciphertexts[0]) then Err(PeerKeyRejected)
              else if classical.None? || pq.None? then Err(DerivationFailed)
              else Ok(classical.value + pq.value)
  {
    var keys := key.privateKeys;
    var first := ciphertexts[0];
    HybridGroupShape(key.groups);
    ShareOfByKind(keys[0], ciphertexts[0], first, ka);
    ShareOfByKind(keys[1], ciphertexts[1], first, ka);
    var r0 := ShareOf(keys[0], ciphertexts[0], first, ka);
    var r1 := ShareOf(keys[1], ciphertexts[1], first, ka);
    var tailKeys: seq<PrivateComponent> := keys[1..];
    var tailCts: seq<seq<byte>> := ciphertexts[1..];
    assert tailKeys[0] == keys[1] && tailCts[0] == ciphertexts[1];
    assert tailKeys[1..] == [] && tailCts[1..] == [];
    assert SharedSecrets(tailKeys[1..], tailCts[1..], first, ka) == Ok([]);
    if r1.Ok? {
      assert [r1.value] + [] == [r1.value];
    }
    assert SharedSecrets(tailKeys, tailCts, first, ka) == if r1.Ok? then Ok([r1.value]) else Err(r1.error);
    if r0.Ok? && r1.Ok? {
      assert [r0.value] + [r1.value] == [r0.value, r1.value];
    }
    var s := SharedSecrets(keys, ciphertexts, first, ka);
    assert s == if r0.Err? then Err(r0.error) else if r1.Err? then Err(r1.error) else Ok([r0.value, r1.value]);
    if s.Ok? {
      var secrets: seq<seq<byte>> := s.value;
      var tail: seq<seq<byte>> := secrets[1..];
      assert tail == [secrets[1]] && tail[1..] == [];
      assert Flatten(secrets) == secrets[0] + (secrets[1] + Flatten(tail[1..]));
      assert secrets[1] + Flatten(tail[1..]) == secrets[1];
      AppendFold([], secrets);
      assert [] + Flatten(secrets) == Flatten(secrets);
      assert secrets[0] == ka.derive(keys[0], ciphertexts[0]).value;
      assert secrets[1] == ka.derive(keys[1], ciphertexts[1]).value;
    }
  }

  // ---------------------------------------------------------------------
  // The decryption operation

  /** A KEM decryption operation bound to a key (and the provider the
      caller asked for). */
  datatype KemDecryption = KemDecryption(key: CompositePrivateKey, provider: string)

  /** `create_kem_decryption_op`: only the default provider is available. */
  function CreateKemDecryptionOp(key: CompositePrivateKey, provider: string): (r: Result<KemDecryption, Error>)
    ensures r.Ok? <==> provider in {"", "base"}
    ensures r.Ok? ==> r.value == KemDecryption(key, provider)
    ensures r.Err? ==> r.error == ProviderNotFound(CompositeName(key.publicKeys), provider)
  {
    match CheckProvider(CompositeName(key.publicKeys), provider)
    case Err(e) => Err(e)
    case Ok(_) => Ok(KemDecryption(key, provider))
  }

  /** What the reader has consumed up to `pos` are the values `read`, and
      the parser's result on the whole input is `read` followed by its
      result on the rest. */
  predicate ReadSoFar(encapKey: seq<byte>, pos: nat, read: seq<seq<byte>>) {
    pos <= |encapKey| && Parse(encapKey) == Prepend(read, Parse(encapKey[pos..]))
  }

  lemma ReaderStart(encapKey: seq<byte>)
    ensures ReadSoFar(encapKey, 0, [])
  {
    assert encapKey[0..] == encapKey;
    if Parse(encapKey).Some? {
      assert [] + Parse(encapKey).value == Parse(encapKey).value;
    }
  }

  /** Reading one complete value keeps the reader in step with the parser;
      a value cut short makes the whole input unparseable. */
  lemma ReaderStep(encapKey: seq<byte>, pos: nat, read: seq<seq<byte>>)
    requires ReadSoFar(encapKey, pos, read) && pos < |encapKey|
    ensures Truncated(encapKey[pos..]) ==> Parse(encapKey) == None
    ensures !Truncated(encapKey[pos..]) ==>
              var rest := encapKey[pos..];
              var n := TagValue(rest[0], rest[1]);
              ReadSoFar(encapKey, pos + 2 + n, read + [rest[2..2 + n]])
  {
    var rest := encapKey[pos..];
    if !Truncated(rest) {
      var n := TagValue(rest[0], rest[1]);
      ParseStep(rest);
      assert rest[2 + n..] == encapKey[pos + 2 + n..];
      PrependPrepend(read, [rest[2..2 + n]], Parse(encapKey[pos + 2 + n..]));
    }
  }

  lemma ReaderDone(encapKey: seq<byte>, read: seq<seq<byte>>)
    requires ReadSoFar(encapKey, |encapKey|, read)
    ensures Parse(encapKey) == Some(read)
  {
    assert encapKey[|encapKey|..] == [];
    assert read + [] == read;
  }

  /** `raw_kem_decrypt`: read 2-byte length-prefixed ciphertexts until the
      input is exhausted, then decapsulate them. */
  method RawKemDecrypt(op: KemDecryption, encapKey: seq<byte>, ka: KeyAgreement)
    returns (r: Result<seq<byte>, Error>)
    ensures r == match Parse(encapKey)
                 case None => Err(DecodingError)
                 case Some(cts) => Decapsulate(op.key, cts, ka)
  {
    var ciphertexts: seq<seq<byte>> := [];
    var pos := 0;
    ReaderStart(encapKey);
    while pos < |encapKey|
      invariant ReadSoFar(encapKey, pos, ciphertexts)
      decreases |encapKey| - pos
    {
      ReaderStep(encapKey, pos, ciphertexts);
      var rest := encapKey[pos..];
      if |rest| < 2 {
        return Err(DecodingError);
      }
      var n := TagValue(rest[0], rest[1]);
      if |rest| - 2 < n {
        return Err(DecodingError);
      }
      ciphertexts := ciphertexts + [rest[2..2 + n]];
      pos := pos + 2 + n;
    }
    ReaderDone(encapKey, ciphertexts);
    r := Decapsulate(op.key, ciphertexts, ka);
  }
}
