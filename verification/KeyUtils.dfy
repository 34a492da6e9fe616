/** Public-key canonicalisation (shared/crypto-utils.js) and the eligibility test built on it
    (server/utils/keyUtils.js). */
module KeyUtils {
  import opened Text

  const ED25519_DER_PREFIX := "302a300506032b6570032100"
  const ECDSA_SECP256K1_DER_PREFIX := "302d300706052b8104000a032200"

  /** Strip at most one of the two known DER prefixes. */
  function StripDer(hex: string): string {
    if StartsWith(hex, ED25519_DER_PREFIX) then hex[|ED25519_DER_PREFIX|..]
    else if StartsWith(hex, ECDSA_SECP256K1_DER_PREFIX) then hex[|ECDSA_SECP256K1_DER_PREFIX|..]
    else hex
  }

  function Strip0x(hex: string): string {
    if StartsWith(hex, "0x") then hex[2..] else hex
  }

  function ToRawPublicKeyHex(key: string): string {
    StripDer(Strip0x(Lower(Trim(key))))
  }

  predicate IsKeyEligible(key: string, eligibleKeys: seq<string>) {
    && key != "" && eligibleKeys != []
    && ToRawPublicKeyHex(key) != ""
    && exists i :: 0 <= i < |eligibleKeys| && ToRawPublicKeyHex(eligibleKeys[i]) == ToRawPublicKeyHex(key)
  }

  predicate IsLowerHexChar(c: char) {
    '0' <= c <= '9' || 'a' <= c <= 'f'
  }

  /** A raw key as the canonical form writes it: non-empty lowercase hex. */
  predicate IsRawHex(raw: string) {
    raw != "" && forall i :: 0 <= i < |raw| ==> IsLowerHexChar(raw[i])
  }

  /** The raw text does not itself look like a DER key: it begins with neither prefix. */
  predicate NotDer(raw: string) {
    && (|raw| >= 24 ==> raw[..24] != "302a300506032b6570032100")
    && (|raw| >= 28 ==> raw[..28] != "302d300706052b8104000a032200")
  }

  /** `core` is `low` with some of its letters in upper case. */
  predicate Capitalises(core: string, low: string) {
    && |core| == |low|
    && forall i :: 0 <= i < |core| ==> core[i] == low[i] || ('A' <= core[i] <= 'Z' && low[i] as int == core[i] as int + 32)
  }

  /** `text` writes `raw` with an optional `0x`, an optional DER prefix, in any mixture of letter
      cases, surrounded by white space. `der` is the prefix used, "" for none. */
  ghost predicate Spells(text: string, raw: string, der: string) {
    && der in {"", "302a300506032b6570032100", "302d300706052b8104000a032200"}
    && exists before, core, after ::
         && text == before + core + after
         && IsBlank(before) && IsBlank(after)
         && (Capitalises(core, der + raw) || Capitalises(core, "0x" + der + raw))
  }

  /** Any of the spellings, by its parts. */
  lemma SpellingParts(text: string, raw: string, der: string) returns (before: string, core: string, after: string)
    requires IsRawHex(raw) && Spells(text, raw, der)
    ensures text == before + core + after && AllSpace(before) && AllSpace(after)
    ensures Lower(core) == der + raw || Lower(core) == "0x" + der + raw
    ensures der in {"", ED25519_DER_PREFIX, ECDSA_SECP256K1_DER_PREFIX}
    ensures NotDer(raw) <==> !StartsWith(raw, ED25519_DER_PREFIX) && !StartsWith(raw, ECDSA_SECP256K1_DER_PREFIX)
  {
    before, core, after :|
      && text == before + core + after
      && IsBlank(before) && IsBlank(after)
      && (Capitalises(core, der + raw) || Capitalises(core, "0x" + der + raw));
    BlankIsSpace(before);
    BlankIsSpace(after);
    LowDigits(raw, der);
    if Capitalises(core, der + raw) {
      CapitalisedLowers(core, der + raw);
    } else {
      CapitalisedLowers(core, "0x" + der + raw);
    }
    assert |ED25519_DER_PREFIX| == 24 && |ECDSA_SECP256K1_DER_PREFIX| == 28;
  }

  /** Nothing in a spelling in lower case is a capital. */
  predicate NoCapitals(low: string) {
    forall i :: 0 <= i < |low| ==> !('A' <= low[i] <= 'Z')
  }

  lemma LowDigits(raw: string, der: string)
    requires IsRawHex(raw) && der in {"", "302a300506032b6570032100", "302d300706052b8104000a032200"}
    ensures NoCapitals(der + raw) && NoCapitals("0x" + der + raw)
  {
    assert NoCapitals("") && NoCapitals("302a300506032b6570032100") && NoCapitals("302d300706052b8104000a032200") && NoCapitals("0x");
    assert NoCapitals(raw) by {
      assert forall i :: 0 <= i < |raw| ==> IsLowerHexChar(raw[i]);
    }
    NoCapitalsOfConcat(der, raw);
    NoCapitalsOfConcat("0x", der);
    NoCapitalsOfConcat("0x" + der, raw);
  }

  lemma NoCapitalsOfConcat(a: string, b: string)
    requires NoCapitals(a) && NoCapitals(b)
    ensures NoCapitals(a + b)
  {
  }

  lemma CapitalisedLowers(core: string, low: string)
    requires Capitalises(core, low) && NoCapitals(low)
    ensures Lower(core) == low
  {
    forall i | 0 <= i < |core| ensures LowerChar(core[i]) == low[i] {
    }
  }

  lemma LowerHexNotSpace(core: string, raw: string, der: string)
    requires IsRawHex(raw)
    requires der in {"", ED25519_DER_PREFIX, ECDSA_SECP256K1_DER_PREFIX}
    requires Lower(core) == der + raw || Lower(core) == "0x" + der + raw
    ensures core != "" && Trimmed(core)
  {
    var low := Lower(core);
    assert |low| == |core|;
    assert low[|low| - 1] == raw[|raw| - 1];
    assert low[|low| - 1] == LowerChar(core[|core| - 1]);
    assert low[0] == LowerChar(core[0]);
  }

  lemma StripDerOf(raw: string, der: string)
    requires der in {"", ED25519_DER_PREFIX, ECDSA_SECP256K1_DER_PREFIX}
    ensures der != "" ==> StripDer(der + raw) == raw
    ensures der == "" ==>
              (StripDer(der + raw) == raw <==> !StartsWith(raw, ED25519_DER_PREFIX) && !StartsWith(raw, ECDSA_SECP256K1_DER_PREFIX))
  {
    var s := der + raw;
    assert s[..|der|] == der && s[|der|..] == raw;
    if der == ECDSA_SECP256K1_DER_PREFIX {
      assert s[3] == 'd' && ED25519_DER_PREFIX[3] == 'a';
      var n := |ED25519_DER_PREFIX|;
      assert n <= |s| ==> s[..n][3] == s[3];
    }
  }

  lemma Strip0xOf(raw: string, der: string)
    requires IsRawHex(raw)
    requires der in {"", ED25519_DER_PREFIX, ECDSA_SECP256K1_DER_PREFIX}
    ensures Strip0x(der + raw) == der + raw
    ensures Strip0x("0x" + der + raw) == der + raw
  {
    var s := der + raw;
    assert |s| > 1 ==> s[1] != 'x' by {
      if der == "" {
        assert |raw| > 1 ==> IsLowerHexChar(raw[1]);
      }
    }
    NoPrefix0x(s);
    assert "0x" + der + raw == "0x" + s;
    Prefix0x(s);
  }

  lemma NoPrefix0x(s: string)
    requires |s| > 1 ==> s[1] != 'x'
    ensures Strip0x(s) == s
  {
    assert |s| > 1 ==> s[..2][1] == s[1];
  }

  lemma Prefix0x(s: string)
    ensures Strip0x("0x" + s) == s
  {
    assert ("0x" + s)[..2] == "0x" && ("0x" + s)[2..] == s;
  }

  /** Every spelling of a key maps to its lowercase raw hex; a spelling without a DER prefix does so
      exactly when the raw text does not itself begin with one. */
  lemma CanonicalOfSpelling(text: string, raw: string, der: string)
    requires IsRawHex(raw) && Spells(text, raw, der)
    ensures der != "" ==> ToRawPublicKeyHex(text) == raw
    ensures der == "" ==> (ToRawPublicKeyHex(text) == raw <==> NotDer(raw))
  {
    var before, core, after := SpellingParts(text, raw, der);
    LowerHexNotSpace(core, raw, der);
    TrimPadded(before, core, after);
    Strip0xOf(raw, der);
    StripDerOf(raw, der);
  }

  /** Two spellings canonicalise alike exactly when they spell the same key. */
  lemma CanonicalDecidesSameKey(text1: string, raw1: string, der1: string, text2: string, raw2: string, der2: string)
    requires IsRawHex(raw1) && Spells(text1, raw1, der1) && (der1 == "" ==> NotDer(raw1))
    requires IsRawHex(raw2) && Spells(text2, raw2, der2) && (der2 == "" ==> NotDer(raw2))
    ensures ToRawPublicKeyHex(text1) == ToRawPublicKeyHex(text2) <==> raw1 == raw2
  {
    CanonicalOfSpelling(text1, raw1, der1);
    CanonicalOfSpelling(text2, raw2, der2);
  }

  /** With an eligible list that spells the keys `raws`, whatever the producers' encodings, a key is
      eligible exactly when the list holds the key it spells. */
  lemma EligibilityIsBySpelledKey(text: string, raw: string, der: string,
                                  eligible: seq<string>, raws: seq<string>, ders: seq<string>)
    requires IsRawHex(raw) && Spells(text, raw, der) && (der == "" ==> NotDer(raw))
    requires |eligible| == |raws| == |ders|
    requires forall i :: 0 <= i < |raws| ==> IsRawHex(raws[i])
    requires forall i :: 0 <= i < |raws| ==> ders[i] == "" ==> NotDer(raws[i])
    requires forall i :: 0 <= i < |raws| ==> Spells(eligible[i], raws[i], ders[i])
    ensures IsKeyEligible(text, eligible) <==> raw in raws
  {
    CanonicalOfSpelling(text, raw, der);
    SpellingNotEmpty(text, raw, der);
    forall i | 0 <= i < |raws| ensures ToRawPublicKeyHex(eligible[i]) == raws[i] {
      CanonicalOfSpelling(eligible[i], raws[i], ders[i]);
    }
    if raw in raws {
      var i :| 0 <= i < |raws| && raws[i] == raw;
      assert ToRawPublicKeyHex(eligible[i]) == ToRawPublicKeyHex(text);
    }
  }

  lemma SpellingNotEmpty(text: string, raw: string, der: string)
    requires IsRawHex(raw) && Spells(text, raw, der)
    ensures text != ""
  {
    var before, core, after := SpellingParts(text, raw, der);
    LowerHexNotSpace(core, raw, der);
  }

  /** A text that holds nothing but white space, or nothing after its prefixes, is never eligible. */
  lemma EmptyKeyIsNotEligible(text: string, eligible: seq<string>)
    requires IsBlank(text) || ToRawPublicKeyHex(text) == ""
    ensures !IsKeyEligible(text, eligible)
  {
    if IsBlank(text) {
      BlankIsSpace(text);
      TrimAllSpace(text);
    }
  }
}
