/** The hybrid composite public key: a list of at least two component keys
    presented as one key. Its descriptors are left folds over the
    components; its encoding concatenates the components' encodings, each
    with a 2-byte length tag. A component key is abstracted to the values
    the composite reads from it. */
module CompositePublicKeys {
  import opened Base
  import opened Decimal
  import opened TlsLengthValue

  /** The exceptions the composite key code can raise. */
  datatype Error =
    | InternalError                                        // a failed BOTAN_ASSERT
    | InvalidArgument(message: string)
    | ValueTooLarge                                        // a value too long for its 2-byte tag
    | DecodingError                                        // a ciphertext value cut short
    | ProviderNotFound(algoName: string, provider: string)
    | NotImplemented
    | PeerKeyRejected                                      // the policy refused a peer share
    | DerivationFailed                                     // a component's agreement or decryption threw
    | InvalidState(message: string)

  /** What the composite reads of one component key. */
  datatype PublicComponent = PublicComponent(
    algoName: string,
    estimatedStrength: nat,
    keyLength: nat,
    publicKeyBits: seq<byte>,
    checkKey: bool)

  datatype CompositePublicKey = CompositePublicKey(publicKeys: seq<PublicComponent>)

  // ---------------------------------------------------------------------
  // reduce

  /** The left fold that `reduce` computes. */
  function FoldLeft<A, K>(f: (A, K) -> A, acc: A, keys: seq<K>): A
    decreases |keys|
  {
    if keys == [] then acc else FoldLeft(f, f(acc, keys[0]), keys[1..])
  }

  lemma {:induction false} FoldLeftSnoc<A, K>(f: (A, K) -> A, acc: A, keys: seq<K>, k: K)
    ensures FoldLeft(f, acc, keys + [k]) == f(FoldLeft(f, acc, keys), k)
    decreases |keys|
  {
    if keys != [] {
      assert (keys + [k])[1..] == keys[1..] + [k];
      FoldLeftSnoc(f, f(acc, keys[0]), keys[1..], k);
    }
  }

  /** `reduce`: run the reducer over the keys in order, threading the
      accumulator. */
  method Reduce<A, K>(keys: seq<K>, acc: A, reducer: (A, K) -> A) returns (r: A)
    ensures r == FoldLeft(reducer, acc, keys)
  {
    r := acc;
    for i := 0 to |keys|
      invariant r == FoldLeft(reducer, acc, keys[..i])
    {
      assert keys[..i + 1] == keys[..i] + [keys[i]];
      FoldLeftSnoc(reducer, acc, keys[..i], keys[i]);
      r := reducer(r, keys[i]);
    }
    assert keys[..|keys|] == keys;
  }

  // ---------------------------------------------------------------------
  // Construction

  /** The constructor asserts that at least two component keys are given. */
  function NewCompositePublicKey(pks: seq<PublicComponent>): (r: Result<CompositePublicKey, Error>)
    ensures r.Ok? <==> |pks| >= 2
    ensures r.Ok? ==> r.value.publicKeys == pks
    ensures r.Err? ==> r.error == InternalError
  {
    if |pks| >= 2 then Ok(CompositePublicKey(pks)) else Err(InternalError)
  }

  // ---------------------------------------------------------------------
  // algo_name

  /** The names joined by single commas. */
  function Join(names: seq<string>): string {
    if |names| == 0 then ""
    else if |names| == 1 then names[0]
    else names[0] + "," + Join(names[1..])
  }

  function ComponentNames(pks: seq<PublicComponent>): seq<string> {
    seq(|pks|, i requires 0 <= i < |pks| => pks[i].algoName)
  }

  /** The name `algo_name` builds. */
  function CompositeName(pks: seq<PublicComponent>): string {
    "Composite(" + Join(ComponentNames(pks)) + ")"
  }

  lemma {:induction false} JoinSnoc(names: seq<string>, n: string)
    requires names != []
    ensures Join(names + [n]) == Join(names) + "," + n
    decreases |names|
  {
    if |names| == 1 {
      assert names + [n] == [names[0], n];
    } else {
      assert (names + [n])[1..] == names[1..] + [n];
      JoinSnoc(names[1..], n);
    }
  }

  /** `algo_name`: appends each component name and, after every name but the
      last, a comma. */
  method AlgoName(pks: seq<PublicComponent>) returns (name: string)
    ensures name == CompositeName(pks)
  {
    var names := ComponentNames(pks);
    name := "Composite(";
    for i := 0 to |pks|
      invariant name == "Composite(" + Join(names[..i]) + (if 0 < i < |pks| then "," else "")
    {
      if i > 0 {
        JoinSnoc(names[..i], names[i]);
      }
      assert names[..i + 1] == names[..i] + [names[i]];
      name := name + pks[i].algoName;
      if i < |pks| - 1 {
        name := name + ",";
      }
    }
    assert names[..|pks|] == names;
    name := name + ")";
  }

  /** Position of the first comma. */
  function FirstComma(s: string): (i: nat)
    requires ',' in s
    ensures i < |s| && s[i] == ',' && ',' !in s[..i]
  {
    if s[0] == ',' then 0
    else
      assert ',' in s[1..] by { var k :| 0 <= k < |s| && s[k] == ','; assert s[1..][k - 1] == ','; }
      var j := FirstComma(s[1..]);
      assert s[..j + 1] == [s[0]] + s[1..][..j];
      j + 1
  }

  /** Cut a string at every comma. */
  function Split(s: string): seq<string>
    decreases |s|
  {
    if ',' in s then
      var i := FirstComma(s);
      [s[..i]] + Split(s[i + 1..])
    else [s]
  }

  lemma {:induction false} FirstCommaAfter(a: string, b: string)
    requires ',' !in a
    ensures ',' in a + "," + b && FirstComma(a + "," + b) == |a|
  {
    var s := a + "," + b;
    assert s[|a|] == ',';
    assert s[..|a|] == a;
  }

  /** The joined list can be cut back into the names, provided no name holds
      a comma: the names appear in order, one comma between neighbours and
      none at the end. */
  lemma {:induction false} SplitJoin(names: seq<string>)
    requires |names| >= 1
    requires forall i :: 0 <= i < |names| ==> ',' !in names[i]
    ensures Split(Join(names)) == names
    decreases |names|
  {
    if |names| > 1 {
      var a := names[0];
      var rest := names[1..];
      var tail := Join(rest);
      assert Join(names) == a + "," + tail;
      FirstCommaAfter(a, tail);
      SplitAt(a, tail);
      assert forall i :: 0 <= i < |rest| ==> rest[i] == names[i + 1];
      SplitJoin(rest);
      assert names == [a] + rest;
    }
  }

  /** Cutting at the first comma of `a + "," + b` gives `a`, then the cuts
      of `b`. */
  lemma SplitAt(a: string, b: string)
    requires ',' !in a
    ensures Split(a + "," + b) == [a] + Split(b)
  {
    var s := a + "," + b;
    FirstCommaAfter(a, b);
    assert s[..|a|] == a;
    assert s[|a| + 1..] == b;
  }

  /** The composite name of comma-free component names: "Composite(", the
      names in order separated by single commas, ")". */
  lemma CompositeNameLists(pks: seq<PublicComponent>)
    requires |pks| >= 1
    requires forall i :: 0 <= i < |pks| ==> ',' !in pks[i].algoName
    ensures var name := CompositeName(pks);
            && |name| >= 11
            && name[..10] == "Composite("
            && name[|name| - 1] == ')'
            && Split(name[10..|name| - 1]) == ComponentNames(pks)
  {
    var name := CompositeName(pks);
    assert name[10..|name| - 1] == Join(ComponentNames(pks));
    SplitJoin(ComponentNames(pks));
  }

  // ---------------------------------------------------------------------
  // estimated_strength, key_length, check_key

  function MaxStrength(es: nat, key: PublicComponent): nat {
    if es < key.estimatedStrength then key.estimatedStrength else es
  }

  function AddLength(kl: nat, key: PublicComponent): nat {
    kl + key.keyLength
  }

  function AndCheck(ckr: bool, key: PublicComponent): bool {
    ckr && key.checkKey
  }

  lemma {:induction false} MaxStrengthFold(acc: nat, pks: seq<PublicComponent>)
    ensures var r := FoldLeft(MaxStrength, acc, pks);
            && acc <= r
            && (forall i :: 0 <= i < |pks| ==> pks[i].estimatedStrength <= r)
            && (r == acc || exists i :: 0 <= i < |pks| && pks[i].estimatedStrength == r)
    decreases |pks|
  {
    if pks != [] {
      var next := MaxStrength(acc, pks[0]);
      MaxStrengthFold(next, pks[1..]);
      var r := FoldLeft(MaxStrength, next, pks[1..]);
      forall i | 0 <= i < |pks| ensures pks[i].estimatedStrength <= r {
        if i > 0 { assert pks[i] == pks[1..][i - 1]; }
      }
      if r != acc && r != next {
        var j :| 0 <= j < |pks[1..]| && pks[1..][j].estimatedStrength == r;
        assert pks[j + 1].estimatedStrength == r;
      }
    }
  }

  /** `estimated_strength`: the strongest component, starting from 0. */
  function EstimatedStrength(pks: seq<PublicComponent>): (r: nat)
    ensures forall i :: 0 <= i < |pks| ==> pks[i].estimatedStrength <= r
    ensures r == 0 || exists i :: 0 <= i < |pks| && pks[i].estimatedStrength == r
  {
    MaxStrengthFold(0, pks);
    FoldLeft(MaxStrength, 0, pks)
  }

  /** The total of the component key lengths. */
  function SumLengths(pks: seq<PublicComponent>): nat {
    if pks == [] then 0 else pks[0].keyLength + SumLengths(pks[1..])
  }

  lemma {:induction false} AddLengthFold(acc: nat, pks: seq<PublicComponent>)
    ensures FoldLeft(AddLength, acc, pks) == acc + SumLengths(pks)
    decreases |pks|
  {
    if pks != [] {
      AddLengthFold(acc + pks[0].keyLength, pks[1..]);
    }
  }

  /** `key_length`: the sum of the component key lengths. */
  function KeyLength(pks: seq<PublicComponent>): (r: nat)
    ensures r == SumLengths(pks)
  {
    AddLengthFold(0, pks);
    FoldLeft(AddLength, 0, pks)
  }

  lemma {:induction false} AndCheckFold(acc: bool, pks: seq<PublicComponent>)
    ensures FoldLeft(AndCheck, acc, pks) <==> acc && forall i :: 0 <= i < |pks| ==> pks[i].checkKey
    decreases |pks|
  {
    if pks != [] {
      AndCheckFold(acc && pks[0].checkKey, pks[1..]);
      assert forall i :: 1 <= i < |pks| ==> pks[i] == pks[1..][i - 1];
    }
  }

  /** `check_key`: every component passes its own check. */
  function CheckKey(pks: seq<PublicComponent>): (ok: bool)
    ensures ok <==> forall i :: 0 <= i < |pks| ==> pks[i].checkKey
  {
    AndCheckFold(true, pks);
    FoldLeft(AndCheck, true, pks)
  }

  // ---------------------------------------------------------------------
  // public_key_bits

  /** The components' encodings, in order. */
  function ComponentBits(pks: seq<PublicComponent>): (bits: seq<seq<byte>>)
    ensures |bits| == |pks|
    ensures forall i :: 0 <= i < |pks| ==> bits[i] == pks[i].publicKeyBits
  {
    if pks == [] then [] else [pks[0].publicKeyBits] + ComponentBits(pks[1..])
  }

  /** One step of `public_key_bits`: append the next encoding with its
      2-byte length tag; a value too long for the tag aborts. */
  function AppendLengthValue(acc: Result<seq<byte>, Error>, key: PublicComponent): Result<seq<byte>, Error> {
    match acc
    case Err(e) => Err(e)
    case Ok(buf) =>
      if |key.publicKeyBits| > MAX_VALUE_LENGTH then Err(ValueTooLarge)
      else Ok(buf + LengthPrefixed(key.publicKeyBits))
  }

  lemma {:induction false} AppendLengthValueFold(acc: Result<seq<byte>, Error>, pks: seq<PublicComponent>)
    ensures var r := FoldLeft(AppendLengthValue, acc, pks);
            && (acc.Err? ==> r == acc)
            && (acc.Ok? && AllFit(ComponentBits(pks)) ==> r == Ok(acc.value + EncodeAll(ComponentBits(pks))))
            && (acc.Ok? && !AllFit(ComponentBits(pks)) ==> r == Err(ValueTooLarge))
    decreases |pks|
  {
    if pks != [] {
      var next := AppendLengthValue(acc, pks[0]);
      AppendLengthValueFold(next, pks[1..]);
      var bits := ComponentBits(pks);
      assert bits[1..] == ComponentBits(pks[1..]);
      assert AllFit(bits) <==> |pks[0].publicKeyBits| <= MAX_VALUE_LENGTH && AllFit(bits[1..]) by {
        assert forall i :: 1 <= i < |bits| ==> bits[i] == bits[1..][i - 1];
      }
      assert FoldLeft(AppendLengthValue, acc, pks) == FoldLeft(AppendLengthValue, next, pks[1..]);
      if acc.Ok? && AllFit(bits) {
        assert next == Ok(acc.value + LengthPrefixed(pks[0].publicKeyBits));
        assert AllFit(ComponentBits(pks[1..]));
        assert EncodeAll(bits) == LengthPrefixed(bits[0]) + EncodeAll(bits[1..]);
        assert acc.value + EncodeAll(bits) ==
               (acc.value + LengthPrefixed(pks[0].publicKeyBits)) + EncodeAll(bits[1..]);
      }
    } else if acc.Ok? {
      assert acc.value + EncodeAll(ComponentBits(pks)) == acc.value;
    }
  }

  /** `public_key_bits`: every component encoding with its 2-byte length
      tag, concatenated in order; it fails when an encoding is too long for
      the tag, and otherwise parses back into the component encodings. */
  function PublicKeyBits(pks: seq<PublicComponent>): (r: Result<seq<byte>, Error>)
    ensures r.Ok? <==> AllFit(ComponentBits(pks))
    ensures r.Err? ==> r.error == ValueTooLarge
    ensures r.Ok? ==> && r.value == EncodeAll(ComponentBits(pks))
                      && |r.value| == EncodedSize(ComponentBits(pks))
                      && Parse(r.value) == Some(ComponentBits(pks))
  {
    AppendLengthValueFold(Ok([]), pks);
    var r := FoldLeft(AppendLengthValue, Ok([]), pks);
    if r.Ok? then
      EncodeAllLength(ComponentBits(pks));
      ParseEncodeAll(ComponentBits(pks));
      assert [] + EncodeAll(ComponentBits(pks)) == EncodeAll(ComponentBits(pks));
      r
    else r
  }

  // ---------------------------------------------------------------------
  // Operations

  /** Only the default provider ("" or "base") is available. */
  function CheckProvider(algoName: string, provider: string): (r: Result<(), Error>)
    ensures r.Ok? <==> provider in {"", "base"}
    ensures r.Err? ==> r.error == ProviderNotFound(algoName, provider)
  {
    if provider == "" || provider == "base" then Ok(()) else Err(ProviderNotFound(algoName, provider))
  }

  /** `create_kem_encryption_op`: the provider check, after which the
      encryption operation itself is not implemented. */
  function CreateKemEncryptionOp(key: CompositePublicKey, provider: string): (r: Result<(), Error>)
    ensures r.Err?
    ensures r.error == (if provider in {"", "base"} then NotImplemented
                        else ProviderNotFound(CompositeName(key.publicKeys), provider))
  {
    match CheckProvider(CompositeName(key.publicKeys), provider)
    case Err(e) => Err(e)
    case Ok(_) => Err(NotImplemented)
  }
}
