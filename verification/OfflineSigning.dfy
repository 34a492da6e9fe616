/** Offline signing: a signer signs every body of a frozen transaction and sends the tuple as text
    (cli/sign.js, core/SignatureCollector.js); the coordinator parses and verifies it. */
module OfflineSigning {
  import opened Wrappers
  import opened Base64
  import opened SignatureVerifier

  /** A private key, by the public key it prints and the signatures it makes. */
  datatype PrivateKey = PrivateKey(publicKey: string, sign: Bytes -> Bytes)

  /** One base64 signature per body. */
  function SignBodies(key: PrivateKey, bodies: seq<Bytes>): (r: seq<string>)
    ensures |r| == |bodies|
    ensures forall i :: 0 <= i < |bodies| ==> r[i] == Encode(key.sign(bodies[i]))
  {
    seq(|bodies|, i requires 0 <= i < |bodies| => Encode(key.sign(bodies[i])))
  }

  /** `_signWithPrivateKey`; `None` where extracting the bodies throws. */
  function SignWithPrivateKey(sdk: Sdk, bytes: Bytes, key: PrivateKey): Option<SignatureTuple> {
    match sdk.bodies(bytes)
    case None => None
    case Some(bodies) =>
      var sigs := SignBodies(key, bodies);
      Some(SignatureTuple(key.publicKey, Some(sigs), if sigs == [] then None else Some(sigs[0])))
  }

  /** `generateSignatures`: one tuple per key, in order; `None` where any of them throws. */
  method GenerateSignatures(sdk: Sdk, bytes: Bytes, keys: seq<PrivateKey>) returns (r: Option<seq<SignatureTuple>>)
    ensures r.Some? <==> keys == [] || sdk.bodies(bytes).Some?
    ensures r.Some? ==>
              && |r.value| == |keys|
              && forall i :: 0 <= i < |keys| ==>
                   && SignWithPrivateKey(sdk, bytes, keys[i]) == Some(r.value[i])
                   && sdk.bodies(bytes).Some? && r.value[i].publicKey == keys[i].publicKey
                   && r.value[i].signatures == Some(SignBodies(keys[i], sdk.bodies(bytes).value))
                   && (sdk.bodies(bytes).value != [] ==> r.value[i].signature == Some(r.value[i].signatures.value[0]))
  {
    var signatures: seq<SignatureTuple> := [];
    for i := 0 to |keys|
      invariant |signatures| == i
      invariant i > 0 ==> sdk.bodies(bytes).Some?
      invariant forall k :: 0 <= k < i ==> SignWithPrivateKey(sdk, bytes, keys[k]) == Some(signatures[k])
    {
      var signed := SignWithPrivateKey(sdk, bytes, keys[i]);
      if signed.None? { return None; }
      signatures := signatures + [signed.value];
    }
    r := Some(signatures);
  }

  /** The signer's own check before sending. It decodes every signature as base64, never as hex. */
  method SelfCheck(sdk: Sdk, publicKey: string, bodies: seq<Bytes>, signaturesB64: seq<string>) returns (allValid: bool)
    requires |signaturesB64| == |bodies|
    ensures allValid <==> forall i :: 0 <= i < |bodies| ==> sdk.verify(publicKey, bodies[i], Decode(signaturesB64[i]))
  {
    allValid := true;
    var i := 0;
    while i < |bodies|
      invariant 0 <= i <= |bodies| && allValid
      invariant forall k :: 0 <= k < i ==> sdk.verify(publicKey, bodies[k], Decode(signaturesB64[k]))
    {
      if !sdk.verify(publicKey, bodies[i], Decode(signaturesB64[i])) {
        allValid := false;
        break;
      }
      i := i + 1;
    }
  }

  /** The SDK accepts what this key signs, and the key signs every body with something. */
  ghost predicate Signs(sdk: Sdk, key: PrivateKey, bodies: seq<Bytes>) {
    && sdk.parsesKey(key.publicKey)
    && forall i :: 0 <= i < |bodies| ==> key.sign(bodies[i]) != [] && sdk.verify(key.publicKey, bodies[i], key.sign(bodies[i]))
  }

  /** No signature begins with the twelve bits that base64 writes as "0x". */
  predicate NoneLooks0x(key: PrivateKey, bodies: seq<Bytes>) {
    forall i :: 0 <= i < |bodies| ==> !Looks0x(key.sign(bodies[i]))
  }

  function AsTuple(t: ParsedTuple): SignatureTuple {
    SignatureTuple(t.publicKey, Some(t.signatures), Some(t.signature))
  }

  lemma {:induction false} EncodedTextIsBase64(bytes: Bytes)
    requires bytes != []
    ensures IsBase64Text(Encode(bytes))
    decreases |bytes|
  {
    hide Digit, IsBase64Char;
    var s := Encode(bytes);
    if |bytes| <= 3 {
      if |bytes| == 3 {
        assert bytes[3..] == [];
      }
      DigitsAreBase64();
      assert PaddedAt(s, |bytes| + 1);
    } else {
      EncodedTextIsBase64(bytes[3..]);
      var rest := Encode(bytes[3..]);
      var k: nat :| 0 < k <= |rest| && PaddedAt(rest, k);
      DigitsAreBase64();
      assert s[..4] + rest == s;
      PaddedLater(s[..4], rest, k);
    }
  }

  lemma DigitsAreBase64()
    ensures forall n: nat :: n < 64 ==> IsBase64Char(Digit(n))
  {
  }

  lemma PaddedLater(front: string, rest: string, k: nat)
    requires forall i :: 0 <= i < |front| ==> IsBase64Char(front[i])
    requires PaddedAt(rest, k)
    ensures PaddedAt(front + rest, |front| + k)
  {
    hide IsBase64Char;
  }

  /** The printed tuple of a key in an accepted form parses back to exactly the signatures made. */
  lemma PrintedTupleParses(key: PrivateKey, bodies: seq<Bytes>)
    requires bodies != []
    requires forall i :: 0 <= i < |bodies| ==> key.sign(bodies[i]) != []
    ensures var sigs := SignBodies(key, bodies);
            ParseSignatureTuple(PrintTuple(key.publicKey, sigs)) ==
            if IsAcceptedKey(key.publicKey) then Some(ParsedTuple(key.publicKey, sigs[0], sigs)) else None
  {
    var sigs := SignBodies(key, bodies);
    forall i | 0 <= i < |sigs| ensures IsSignatureText(sigs[i]) {
      EncodedTextIsBase64(key.sign(bodies[i]));
    }
    ParsePrint(key.publicKey, sigs);
  }

  /** Sign, print, parse, verify: the tuple of a genuine signer is valid, with nothing partial about
      it, when its key is of an accepted form and no signature reads as hex. */
  lemma OfflineRoundTrip(sdk: Sdk, bytes: Bytes, key: PrivateKey)
    requires sdk.bodies(bytes).Some? && sdk.bodies(bytes).value != []
    requires Signs(sdk, key, sdk.bodies(bytes).value)
    requires IsAcceptedKey(key.publicKey) && NoneLooks0x(key, sdk.bodies(bytes).value)
    ensures var bodies := sdk.bodies(bytes).value;
            var parsed := ParseSignatureTuple(PrintTuple(key.publicKey, SignBodies(key, bodies)));
            && parsed.Some?
            && TupleVerifies(sdk, bytes, AsTuple(parsed.value))
            && SignatureList(AsTuple(parsed.value)).Some?
            && |SignatureList(AsTuple(parsed.value)).value| == |bodies|
  {
    var bodies := sdk.bodies(bytes).value;
    PrintedTupleParses(key, bodies);
    forall i | 0 <= i < |bodies| ensures DecodeSignature(SignBodies(key, bodies)[i]) == key.sign(bodies[i]) {
      SignatureSurvivesDecoding(key.sign(bodies[i]));
    }
  }

  /** Where the SDK accepts exactly the signature the key makes, the round trip succeeds if and only
      if the key's text form is accepted and no signature reads as hex. */
  lemma OfflineRoundTripExactly(sdk: Sdk, bytes: Bytes, key: PrivateKey)
    requires sdk.bodies(bytes).Some? && sdk.bodies(bytes).value != []
    requires Signs(sdk, key, sdk.bodies(bytes).value)
    requires forall i, s :: 0 <= i < |sdk.bodies(bytes).value| && sdk.verify(key.publicKey, sdk.bodies(bytes).value[i], s)
                            ==> s == key.sign(sdk.bodies(bytes).value[i])
    ensures var bodies := sdk.bodies(bytes).value;
            var parsed := ParseSignatureTuple(PrintTuple(key.publicKey, SignBodies(key, bodies)));
            (parsed.Some? && TupleVerifies(sdk, bytes, AsTuple(parsed.value)))
            <==> IsAcceptedKey(key.publicKey) && NoneLooks0x(key, bodies)
  {
    var bodies := sdk.bodies(bytes).value;
    PrintedTupleParses(key, bodies);
    forall i | 0 <= i < |bodies|
      ensures DecodeSignature(SignBodies(key, bodies)[i]) == key.sign(bodies[i]) <==> !Looks0x(key.sign(bodies[i]))
    {
      SignatureSurvivesDecoding(key.sign(bodies[i]));
    }
    if IsAcceptedKey(key.publicKey) && NoneLooks0x(key, bodies) {
      OfflineRoundTrip(sdk, bytes, key);
    }
  }

  /** The signer's self-check cannot see the difference: it passes for every genuine signer. */
  lemma SelfCheckAlwaysPasses(sdk: Sdk, key: PrivateKey, bodies: seq<Bytes>)
    requires Signs(sdk, key, bodies)
    ensures forall i :: 0 <= i < |bodies| ==> sdk.verify(key.publicKey, bodies[i], Decode(SignBodies(key, bodies)[i]))
  {
    forall i | 0 <= i < |bodies| ensures Decode(SignBodies(key, bodies)[i]) == key.sign(bodies[i]) {
      DecodeEncode(key.sign(bodies[i]));
    }
  }

  /** The DER form of an ECDSA secp256k1 key (66 hex digits after the prefix), which the command line
      can print, never parses back, whatever the signatures are. Only a tail of 36 digits would make
      the text long enough to pass for a raw key. */
  lemma EcdsaDerTupleIsRefused(raw: string, signatures: seq<string>)
    requires |raw| != 36
    requires signatures != [] && forall i :: 0 <= i < |signatures| ==> IsSignatureText(signatures[i])
    ensures ParseSignatureTuple(PrintTuple("302d300706052b8104000a032200" + raw, signatures)) == None
  {
    var key := "302d300706052b8104000a032200" + raw;
    ParsePrint(key, signatures);
    assert key[..4] == "302d";
    assert key[..4][3] == 'd';
  }
}
