/** Signature tuples: their text form and their verification against a frozen transaction
    (core/SignatureVerifier.js). */
module SignatureVerifier {
  import opened Wrappers
  import opened Text
  import opened Base64

  /** What the verifier and the executor ask of the Hedera SDK. `bodies` is `None` where
      `extractAllBodyBytes` throws; `attaches` is false where `addSignature` throws. */
  datatype Sdk = Sdk(
    parsesKey: string -> bool,
    verify: (string, Bytes, Bytes) -> bool,
    bodies: Bytes -> Option<seq<Bytes>>,
    attaches: (string, seq<Bytes>, seq<Bytes>) -> bool
  )

  datatype SignatureTuple = SignatureTuple(publicKey: string, signatures: Option<seq<string>>, signature: Option<string>)

  /** The signature list a tuple stands for: the canonical array, or the legacy single signature. */
  function SignatureList(t: SignatureTuple): (r: Option<seq<string>>)
    ensures r.Some? ==> r.value != []
  {
    if t.signatures.Some? && t.signatures.value != [] then t.signatures
    else if t.signature.Some? && t.signature.value != "" then Some([t.signature.value])
    else None
  }

  function Min(a: nat, b: nat): nat {
    if a <= b then a else b
  }

  /** Signature `i` verifies against body `i`, for as many pairs as there are. */
  predicate VerifiesPairwise(sdk: Sdk, key: string, bodies: seq<Bytes>, sigs: seq<string>) {
    forall i :: 0 <= i < Min(|sigs|, |bodies|) ==> sdk.verify(key, bodies[i], DecodeSignature(sigs[i]))
  }

  predicate TupleVerifies(sdk: Sdk, bytes: Bytes, t: SignatureTuple) {
    && sdk.parsesKey(t.publicKey)
    && SignatureList(t).Some?
    && sdk.bodies(bytes).Some? && sdk.bodies(bytes).value != []
    && VerifiesPairwise(sdk, t.publicKey, sdk.bodies(bytes).value, SignatureList(t).value)
  }

  datatype VerifyError = InvalidKey | NoSignature | CannotExtractBodies | NothingToVerify | Mismatch(index: nat)

  datatype PartialNote = PartialNote(expectedCount: nat, providedCount: nat)

  datatype SignatureStatus = SignatureStatus(publicKey: string, valid: bool, error: Option<VerifyError>, partial: Option<PartialNote>)

  /** Verify one tuple. A mismatch reports the first pair that fails. */
  method VerifySingle(sdk: Sdk, bytes: Bytes, t: SignatureTuple) returns (status: SignatureStatus)
    ensures status.publicKey == t.publicKey
    ensures status.valid <==> TupleVerifies(sdk, bytes, t)
    ensures status.valid <==> status.error.None?
    ensures status.partial ==
            if status.valid && |SignatureList(t).value| != |sdk.bodies(bytes).value|
            then Some(PartialNote(|sdk.bodies(bytes).value|, |SignatureList(t).value|)) else None
    ensures status.error.Some? && status.error.value.Mismatch? ==>
              var i := status.error.value.index;
              && SignatureList(t).Some? && sdk.bodies(bytes).Some?
              && i < Min(|SignatureList(t).value|, |sdk.bodies(bytes).value|)
              && !sdk.verify(t.publicKey, sdk.bodies(bytes).value[i], DecodeSignature(SignatureList(t).value[i]))
              && VerifiesPairwise(sdk, t.publicKey, sdk.bodies(bytes).value[..i], SignatureList(t).value)
  {
    status := SignatureStatus(t.publicKey, false, None, None);
    if !sdk.parsesKey(t.publicKey) {
      return status.(error := Some(InvalidKey));
    }
    var list := SignatureList(t);
    if list.None? {
      return status.(error := Some(NoSignature));
    }
    var inputSigs := list.value;
    var extracted := sdk.bodies(bytes);
    if extracted.None? {
      return status.(error := Some(CannotExtractBodies));
    }
    var bodies := extracted.value;
    var pairCount := Min(|inputSigs|, |bodies|);
    if pairCount == 0 {
      return status.(error := Some(NothingToVerify));
    }
    var allValid, firstError := true, None;
    var i := 0;
    while i < pairCount
      invariant 0 <= i <= pairCount
      invariant allValid && firstError.None?
      invariant forall k :: 0 <= k < i ==> sdk.verify(t.publicKey, bodies[k], DecodeSignature(inputSigs[k]))
    {
      var signatureBytes := DecodeSignature(inputSigs[i]);
      if !sdk.verify(t.publicKey, bodies[i], signatureBytes) {
        allValid, firstError := false, Some(Mismatch(i));
        break;
      }
      i := i + 1;
    }
    if allValid && |inputSigs| != |bodies| {
      status := status.(partial := Some(PartialNote(|bodies|, |inputSigs|)));
    }
    if allValid {
      status := status.(valid := true);
    } else {
      status := status.(error := firstError);
    }
  }

  /** How many of the tuples verify. */
  function CountVerified(sdk: Sdk, bytes: Bytes, tuples: seq<SignatureTuple>): (n: nat)
    ensures n <= |tuples|
  {
    if tuples == [] then 0
    else CountVerified(sdk, bytes, tuples[..|tuples| - 1]) + if TupleVerifies(sdk, bytes, tuples[|tuples| - 1]) then 1 else 0
  }

  lemma {:induction false} CountVerifiedIsAll(sdk: Sdk, bytes: Bytes, tuples: seq<SignatureTuple>)
    ensures CountVerified(sdk, bytes, tuples) == |tuples| <==>
            forall i :: 0 <= i < |tuples| ==> TupleVerifies(sdk, bytes, tuples[i])
  {
    hide TupleVerifies;
    if tuples != [] {
      CountVerifiedIsAll(sdk, bytes, tuples[..|tuples| - 1]);
    }
  }

  datatype VerifyOptions = VerifyOptions(expectedPublicKeys: seq<string>, threshold: int)

  datatype VerificationResult = VerificationResult(valid: bool, validCount: nat, totalCount: nat, details: seq<SignatureStatus>, errors: nat)

  /** No valid tuple carries a key outside the whitelist; an empty whitelist allows every key. */
  predicate KeysExpected(sdk: Sdk, bytes: Bytes, tuples: seq<SignatureTuple>, expected: seq<string>) {
    expected != [] ==>
      forall i :: 0 <= i < |tuples| && TupleVerifies(sdk, bytes, tuples[i]) ==> tuples[i].publicKey in expected
  }

  /** What verifying a list of tuples asks for. With a threshold (0 stands for "none") it is enough that
      so many tuples verify; without one, all must. The count is of tuples, not of distinct keys. */
  predicate IsValid(sdk: Sdk, bytes: Option<Bytes>, tuples: seq<SignatureTuple>, options: VerifyOptions) {
    && bytes.Some? && tuples != []
    && KeysExpected(sdk, bytes.value, tuples, options.expectedPublicKeys)
    && (if options.threshold != 0 then CountVerified(sdk, bytes.value, tuples) >= options.threshold
        else forall i :: 0 <= i < |tuples| ==> TupleVerifies(sdk, bytes.value, tuples[i]))
  }

  /** One expected tuple sent `n` times meets every threshold up to `n`, and none beyond, if it verifies;
      otherwise only a negative one. */
  lemma {:induction false} RepeatedTupleCounts(sdk: Sdk, bytes: Bytes, t: SignatureTuple, n: nat, options: VerifyOptions)
    requires n > 0 && options.threshold != 0
    requires options.expectedPublicKeys == [] || t.publicKey in options.expectedPublicKeys
    ensures IsValid(sdk, Some(bytes), seq(n, _ => t), options) <==>
            options.threshold <= if TupleVerifies(sdk, bytes, t) then n else 0
  {
    hide TupleVerifies;
    CountRepeated(sdk, bytes, t, n);
  }

  lemma {:induction false} CountRepeated(sdk: Sdk, bytes: Bytes, t: SignatureTuple, n: nat)
    ensures CountVerified(sdk, bytes, seq(n, _ => t)) == if TupleVerifies(sdk, bytes, t) then n else 0
  {
    hide TupleVerifies;
    if n > 0 {
      assert seq(n, _ => t)[..n - 1] == seq(n - 1, _ => t);
      CountRepeated(sdk, bytes, t, n - 1);
    }
  }

  /** `verify`: the verdict with its details. */
  method Verify(sdk: Sdk, bytes: Option<Bytes>, tuples: seq<SignatureTuple>, options: VerifyOptions)
    returns (result: VerificationResult)
    ensures result.valid <==> IsValid(sdk, bytes, tuples, options)
    ensures result.totalCount == |tuples|
    ensures bytes.Some? ==> result.validCount == CountVerified(sdk, bytes.value, tuples) && |result.details| == |tuples|
    ensures bytes.Some? ==> forall i :: 0 <= i < |tuples| ==>
              && result.details[i].publicKey == tuples[i].publicKey
              && (result.details[i].valid <==> TupleVerifies(sdk, bytes.value, tuples[i]))
    ensures result.errors > 0 ==> !result.valid
  {
    result := VerificationResult(false, 0, |tuples|, [], 0);
    if bytes.None? {
      return result.(errors := 1);
    }
    if tuples == [] {
      return result.(errors := 1);
    }
    var i := 0;
    while i < |tuples|
      invariant 0 <= i <= |tuples| && |result.details| == i
      invariant result.totalCount == |tuples| && result.errors == 0 && !result.valid
      invariant result.validCount == CountVerified(sdk, bytes.value, tuples[..i])
      invariant forall k :: 0 <= k < i ==>
                  && result.details[k].publicKey == tuples[k].publicKey
                  && (result.details[k].valid <==> TupleVerifies(sdk, bytes.value, tuples[k]))
    {
      var status := VerifySingle(sdk, bytes.value, tuples[i]);
      result := result.(details := result.details + [status]);
      if status.valid {
        result := result.(validCount := result.validCount + 1);
      }
      assert tuples[..i + 1][..i] == tuples[..i];
      i := i + 1;
    }
    assert tuples[..i] == tuples;
    CountVerifiedIsAll(sdk, bytes.value, tuples);

    if options.expectedPublicKeys != [] {
      if exists k :: 0 <= k < |result.details| && result.details[k].valid
                     && result.details[k].publicKey !in options.expectedPublicKeys {
        return result.(errors := 1);
      }
    }
    if options.threshold != 0 {
      if !CheckThreshold(options.threshold, result.validCount) {
        return result.(errors := 1);
      }
    }
    if options.threshold != 0 {
      result := result.(valid := result.validCount >= options.threshold);
    } else {
      result := result.(valid := result.validCount == result.totalCount);
    }
  }

  predicate CheckThreshold(threshold: int, providedCount: nat) {
    providedCount >= threshold
  }

  // ---- The text form "publicKey:sig0,sig1,...,sigN"

  predicate IsHexChar(c: char) {
    '0' <= c <= '9' || 'a' <= c <= 'f' || 'A' <= c <= 'F'
  }

  predicate AllHex(s: string) {
    forall i :: 0 <= i < |s| ==> IsHexChar(s[i])
  }

  predicate IsBase64Char(c: char) {
    'A' <= c <= 'Z' || 'a' <= c <= 'z' || '0' <= c <= '9' || c == '+' || c == '/'
  }

  /** `^[0-9a-fA-F]{64}$` or `^302[ae][0-9a-fA-F]+$` */
  predicate IsAcceptedKey(key: string) {
    || (|key| == 64 && AllHex(key))
    || (|key| > 4 && (StartsWith(key, "302a") || StartsWith(key, "302e")) && AllHex(key))
  }

  /** `k` alphabet characters, then only padding. */
  predicate PaddedAt(s: string, k: nat) {
    && k <= |s|
    && (forall i :: 0 <= i < k ==> IsBase64Char(s[i]))
    && (forall i :: k <= i < |s| ==> s[i] == '=')
  }

  /** `[A-Za-z0-9+/]+=*` */
  predicate IsBase64Text(s: string) {
    exists k: nat :: 0 < k <= |s| && PaddedAt(s, k)
  }

  /** `(0x)?[0-9a-fA-F]+` */
  predicate IsHexText(s: string) {
    var digits := if StartsWith(s, "0x") then s[2..] else s;
    digits != "" && AllHex(digits)
  }

  predicate IsSignatureText(s: string) {
    IsBase64Text(s) || IsHexText(s)
  }

  datatype ParsedTuple = ParsedTuple(publicKey: string, signature: string, signatures: seq<string>)

  /** The trimmed, non-empty fields. */
  function Fields(parts: seq<string>): seq<string> {
    if parts == [] then []
    else (if Trim(parts[0]) == "" then [] else [Trim(parts[0])]) + Fields(parts[1..])
  }

  function ParseSignatureTuple(input: string): Option<ParsedTuple> {
    var colonIndex := LastIndexOf(input, ':');
    if colonIndex == -1 then None else
    var publicKey := input[..colonIndex];
    var sigField := input[colonIndex + 1..];
    if publicKey == "" || sigField == "" || !IsAcceptedKey(publicKey) then None else
    var signatures := Fields(Split(sigField, ','));
    if signatures == [] || exists i :: 0 <= i < |signatures| && !IsSignatureText(signatures[i]) then None
    else Some(ParsedTuple(publicKey, signatures[0], signatures))
  }

  function PrintTuple(publicKey: string, signatures: seq<string>): string {
    publicKey + ":" + Join(signatures, ',')
  }

  /** The hex alternative of the signature pattern adds nothing: base64 already covers it. */
  lemma HexTextIsBase64Text(s: string)
    requires IsHexText(s)
    ensures IsBase64Text(s)
  {
    if StartsWith(s, "0x") {
      assert s[..2] == "0x";
      assert s[0] == s[..2][0] && s[1] == s[..2][1];
      assert forall i :: 2 <= i < |s| ==> s[i] == s[2..][i - 2];
    }
    assert PaddedAt(s, |s|);
  }

  lemma SignatureTextIsClean(s: string)
    requires IsSignatureText(s)
    ensures s != "" && Trimmed(s) && Trim(s) == s
    ensures !Contains(s, ',') && !Contains(s, ':')
  {
    if IsHexText(s) {
      HexTextIsBase64Text(s);
    }
    assert "" + s + "" == s;
    TrimPadded("", s, "");
  }

  lemma {:induction false} FieldsOfClean(parts: seq<string>)
    requires forall i :: 0 <= i < |parts| ==> IsSignatureText(parts[i])
    ensures Fields(parts) == parts
  {
    if parts != [] {
      SignatureTextIsClean(parts[0]);
      FieldsOfClean(parts[1..]);
    }
  }

  /** Parsing undoes printing for every non-empty list of signature texts, exactly when the key is of
      a form the parser accepts; otherwise the printed tuple is refused. */
  lemma ParsePrint(publicKey: string, signatures: seq<string>)
    requires signatures != []
    requires forall i :: 0 <= i < |signatures| ==> IsSignatureText(signatures[i])
    ensures ParseSignatureTuple(PrintTuple(publicKey, signatures)) ==
            if IsAcceptedKey(publicKey) then Some(ParsedTuple(publicKey, signatures[0], signatures)) else None
  {
    forall i | 0 <= i < |signatures|
      ensures signatures[i] != "" && !Contains(signatures[i], ',') && !Contains(signatures[i], ':')
    {
      SignatureTextIsClean(signatures[i]);
    }
    var field := Join(signatures, ',');
    JoinChars(signatures, ',', ':');
    var input := publicKey + ":" + field;
    var colon := LastIndexOf(input, ':');
    assert input[|publicKey|] == ':';
    assert forall i :: |publicKey| < i < |input| ==> input[i] == field[i - |publicKey| - 1];
    assert colon == |publicKey|;
    assert input[..colon] == publicKey && input[colon + 1..] == field;
    SplitJoin(signatures, ',');
    FieldsOfClean(signatures);
    assert Split("", ',') == [""];
    assert field != "";
  }

  /** For every accepted input, printing the parsed tuple and parsing again changes nothing. */
  lemma PrintParseIsStable(input: string)
    requires ParseSignatureTuple(input).Some?
    ensures var t := ParseSignatureTuple(input).value;
            && t.signatures != [] && t.signature == t.signatures[0]
            && ParseSignatureTuple(PrintTuple(t.publicKey, t.signatures)) == Some(t)
  {
    var t := ParseSignatureTuple(input).value;
    ParsePrint(t.publicKey, t.signatures);
  }

  lemma {:induction false} FieldsUnchanged(parts: seq<string>)
    ensures Fields(parts) == parts <==> forall i :: 0 <= i < |parts| ==> parts[i] != "" && Trim(parts[i]) == parts[i]
    ensures |Fields(parts)| <= |parts|
  {
    if parts != [] {
      FieldsUnchanged(parts[1..]);
      if Trim(parts[0]) != "" {
        assert Fields(parts)[1..] == Fields(parts[1..]);
        assert parts == [parts[0]] + parts[1..];
      }
    }
  }

  lemma {:induction false} JoinSplit(s: string, sep: char)
    ensures Join(Split(s, sep), sep) == s
    decreases |s|
  {
    var i := IndexOf(s, sep);
    if i < |s| {
      JoinSplit(s[i + 1..], sep);
      var parts := Split(s, sep);
      assert parts[1..] == Split(s[i + 1..], sep);
      assert s == s[..i] + [sep] + s[i + 1..];
    }
  }

  /** An accepted input is its own normal form exactly when none of its comma-separated fields is
      empty or padded with white space. */
  lemma AcceptedInputIsNormalForm(input: string)
    requires ParseSignatureTuple(input).Some?
    ensures var t := ParseSignatureTuple(input).value;
            var parts := Split(input[LastIndexOf(input, ':') + 1..], ',');
            PrintTuple(t.publicKey, t.signatures) == input
            <==> forall i :: 0 <= i < |parts| ==> parts[i] != "" && Trim(parts[i]) == parts[i]
  {
    hide Split, Join, Fields, Trim, IsSignatureText, IsAcceptedKey;
    var t := ParseSignatureTuple(input).value;
    var colon := LastIndexOf(input, ':');
    var field := input[colon + 1..];
    var parts := Split(field, ',');
    assert t.publicKey == input[..colon] && t.signatures == Fields(parts);
    FieldsUnchanged(parts);
    JoinSplit(field, ',');
    assert input == t.publicKey + ":" + field;
    if Fields(parts) == parts {
      assert PrintTuple(t.publicKey, t.signatures) == input;
    }
    if PrintTuple(t.publicKey, t.signatures) == input {
      assert PrintTuple(t.publicKey, t.signatures)[colon + 1..] == Join(t.signatures, ',');
      forall i | 0 <= i < |t.signatures| ensures !Contains(t.signatures[i], ',') {
        SignatureTextIsClean(t.signatures[i]);
      }
      SplitJoin(t.signatures, ',');
      assert parts == t.signatures;
    }
  }

  datatype ParsedInputs = ParsedInputs(valid: seq<ParsedTuple>, invalid: seq<string>, errors: nat)

  /** The tuples of the inputs that parse, in order, and the inputs that do not. */
  function Accepted(inputs: seq<string>): seq<ParsedTuple> {
    if inputs == [] then []
    else Accepted(inputs[..|inputs| - 1]) +
         match ParseSignatureTuple(inputs[|inputs| - 1]) { case Some(t) => [t] case None => [] }
  }

  function Refused(inputs: seq<string>): seq<string> {
    if inputs == [] then []
    else Refused(inputs[..|inputs| - 1]) +
         if ParseSignatureTuple(inputs[|inputs| - 1]).Some? then [] else [inputs[|inputs| - 1]]
  }

  lemma SortOneMore(inputs: seq<string>, i: nat)
    requires i < |inputs|
    ensures var parsed := ParseSignatureTuple(inputs[i]);
            && Accepted(inputs[..i + 1]) == Accepted(inputs[..i]) + (if parsed.Some? then [parsed.value] else [])
            && Refused(inputs[..i + 1]) == Refused(inputs[..i]) + (if parsed.Some? then [] else [inputs[i]])
  {
    assert inputs[..i + 1][..i] == inputs[..i];
  }

  /** Every input ends up in exactly one of the two lists, in the order given. */
  method ParseMultipleSignatureTuples(inputs: seq<string>) returns (result: ParsedInputs)
    ensures result.valid == Accepted(inputs) && result.invalid == Refused(inputs)
    ensures |result.valid| + |result.invalid| == |inputs|
    ensures result.errors == |result.invalid|
  {
    result := ParsedInputs([], [], 0);
    for i := 0 to |inputs|
      invariant result.valid == Accepted(inputs[..i]) && result.invalid == Refused(inputs[..i])
      invariant |result.valid| + |result.invalid| == i && result.errors == |result.invalid|
    {
      SortOneMore(inputs, i);
      var parsed := ParseSignatureTuple(inputs[i]);
      if parsed.Some? {
        result := result.(valid := result.valid + [parsed.value]);
      } else {
        result := result.(invalid := result.invalid + [inputs[i]], errors := result.errors + 1);
      }
    }
    assert inputs[..|inputs|] == inputs;
  }

  predicate AllIn(s: string, chars: string) {
    forall i :: 0 <= i < |s| ==> s[i] in chars
  }

  lemma HexCharsAre(s: string)
    ensures AllHex(s) <==> AllIn(s, "0123456789abcdefABCDEF")
  {
    assert forall c :: IsHexChar(c) <==> c in "0123456789abcdefABCDEF";
  }

  /** The characters of a signature text are the 64 that encoding writes. */
  lemma Base64CharsAre(c: char)
    ensures IsBase64Char(c) <==> exists n: nat :: n < 64 && Digit(n) == c
  {
    if 'A' <= c <= 'Z' { assert Digit(c as int - 65) == c; }
    if 'a' <= c <= 'z' { assert Digit(c as int - 71) == c; }
    if '0' <= c <= '9' { assert Digit(c as int + 4) == c; }
    if c == '+' { assert Digit(62) == c; }
    if c == '/' { assert Digit(63) == c; }
  }

  /** The keys the parser accepts: 64 hex digits, or `302a` or `302e` and at least one more. */
  lemma AcceptedKeysAre(key: string)
    ensures IsAcceptedKey(key) <==>
            && AllIn(key, "0123456789abcdefABCDEF")
            && (|key| == 64 || (|key| >= 5 && (key[..4] == "302a" || key[..4] == "302e")))
  {
    HexCharsAre(key);
  }

  /** The signature texts it accepts: at least one base64 character and then any padding. */
  lemma SignatureTextsAre(s: string)
    ensures IsSignatureText(s) <==>
            exists k: nat :: 0 < k <= |s| && (forall i :: 0 <= i < k ==> IsBase64Char(s[i])) && AllIn(s[k..], "=")
  {
    hide IsBase64Char;
    if IsSignatureText(s) {
      if IsHexText(s) { HexTextIsBase64Text(s); }
      var k: nat :| 0 < k <= |s| && PaddedAt(s, k);
      assert forall i :: 0 <= i < |s[k..]| ==> s[k..][i] == s[k + i];
      assert AllIn(s[k..], "=");
    }
    if k: nat :| 0 < k <= |s| && (forall i :: 0 <= i < k ==> IsBase64Char(s[i])) && AllIn(s[k..], "=") {
      forall i | k <= i < |s| ensures s[i] == '=' {
        assert s[k..][i - k] == s[i];
      }
      assert PaddedAt(s, k);
    }
  }

  /** A tuple is printed as its key, a colon, and its signatures with commas between. */
  lemma PrintedAs(publicKey: string, first: string, more: seq<string>)
    ensures PrintTuple(publicKey, [first]) == publicKey + ":" + first
    ensures more != [] ==> PrintTuple(publicKey, [first] + more) == publicKey + ":" + first + "," + Join(more, ',')
  {
    if more != [] {
      assert ([first] + more)[1..] == more;
      assert PrintTuple(publicKey, [first] + more) == publicKey + ":" + (first + "," + Join(more, ','));
    }
  }

  /** A tuple verifies exactly if its key parses, it has signatures in either form and there are bodies,
      and no signature that has a body fails against it. */
  lemma TupleVerifiesExactly(sdk: Sdk, bytes: Bytes, t: SignatureTuple)
    ensures var many := t.signatures.Some? && t.signatures.value != [];
            var one := t.signature.Some? && t.signature.value != "";
            var list := if many then t.signatures.value else if one then [t.signature.value] else [];
            TupleVerifies(sdk, bytes, t) <==>
            && sdk.parsesKey(t.publicKey) && (many || one)
            && sdk.bodies(bytes).Some? && sdk.bodies(bytes).value != []
            && forall i :: 0 <= i < |list| && i < |sdk.bodies(bytes).value| ==>
                 sdk.verify(t.publicKey, sdk.bodies(bytes).value[i], DecodeSignature(list[i]))
  {
    hide DecodeSignature;
  }

  /** One verifying tuple under a key that is not expected makes the whole list invalid. */
  lemma UnexpectedKeySpoils(sdk: Sdk, bytes: Bytes, tuples: seq<SignatureTuple>, options: VerifyOptions, i: nat)
    requires i < |tuples| && TupleVerifies(sdk, bytes, tuples[i])
    requires options.expectedPublicKeys != [] && tuples[i].publicKey !in options.expectedPublicKeys
    ensures !IsValid(sdk, Some(bytes), tuples, options)
  {
    hide TupleVerifies;
  }
}
