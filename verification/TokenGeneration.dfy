/** Unbiased random tokens by rejection sampling: the session PIN (`_generatePin` in
    server/SigningSessionManager.js) and the passphrase helper (`generatePassphrase` in
    keyManagement/EncryptedFileProvider.js). The two share their nested loop. */
module TokenGeneration {

  type Byte = b: int | 0 <= b < 256

  // The PIN leaves out I, L, O, 0 and 1; the passphrase leaves out I, O, l, 0 and 1.
  const PIN_CAPITALS := "ABCDEFGHJKMNPQRSTUVWXYZ"
  const CAPITALS := "ABCDEFGHJKLMNPQRSTUVWXYZ"
  const SMALL_LETTERS := "abcdefghijkmnopqrstuvwxyz"
  const DIGITS := "23456789"
  const SYMBOLS := "!@#$%^&*"

  const PIN_CHARS := PIN_CAPITALS + DIGITS
  const PIN_LENGTH: nat := 8
  const PASSPHRASE_CHARS := CAPITALS + SMALL_LETTERS + DIGITS + SYMBOLS

  /** The largest multiple of `n` that is at most 256. */
  function MaxUnbiased(n: int): int
    requires n > 0
  {
    256 / n * n
  }

  predicate IsAccepted(n: int, b: Byte)
    requires n > 0
  {
    b < MaxUnbiased(n)
  }

  /** The character a byte stands for. */
  function CharOf(chars: string, b: Byte): char
    requires chars != ""
  {
    chars[b % |chars|]
  }

  function CountAccepted(n: int, bytes: seq<Byte>): nat
    requires n > 0
  {
    if bytes == [] then 0 else (if IsAccepted(n, bytes[0]) then 1 else 0) + CountAccepted(n, bytes[1..])
  }

  /** The simple form: the first `length` accepted bytes of the stream, mapped through the alphabet. */
  function FirstAccepted(chars: string, bytes: seq<Byte>, length: nat): string
    requires chars != ""
  {
    if length == 0 || bytes == [] then ""
    else if IsAccepted(|chars|, bytes[0]) then [CharOf(chars, bytes[0])] + FirstAccepted(chars, bytes[1..], length - 1)
    else FirstAccepted(chars, bytes[1..], length)
  }

  /** How far into the stream the `length`-th accepted byte lies. */
  function UpTo(n: int, bytes: seq<Byte>, length: nat): nat
    requires n > 0
  {
    if length == 0 || bytes == [] then 0
    else 1 + UpTo(n, bytes[1..], if IsAccepted(n, bytes[0]) then length - 1 else length)
  }

  lemma {:induction false} CountAtMostAll(n: int, bytes: seq<Byte>)
    requires n > 0
    ensures CountAccepted(n, bytes) <= |bytes|
  {
    if bytes != [] {
      CountAtMostAll(n, bytes[1..]);
    }
  }

  /** A source of random bytes, as the stream it will produce. */
  class RandomSource {
    const stream: seq<Byte>
    var position: nat

    constructor (stream: seq<Byte>)
      ensures this.stream == stream && position == 0
    {
      this.stream := stream;
      position := 0;
    }

    method RandomBytes(n: nat) returns (bytes: seq<Byte>)
      requires position + n <= |stream|
      modifies this
      ensures position == old(position) + n && bytes == stream[old(position)..position]
    {
      bytes := stream[position..position + n];
      position := position + n;
    }
  }

  /** Draw as many bytes as characters are still missing, keep the unbiased ones, and repeat. The
      token is the simple form's, and not a byte beyond the last one used is drawn. */
  method Sample(chars: string, length: nat, source: RandomSource) returns (token: string)
    requires chars != "" && source.position <= |source.stream|
    requires CountAccepted(|chars|, source.stream[source.position..]) >= length
    modifies source
    ensures old(source.position) <= source.position <= |source.stream|
    ensures token == FirstAccepted(chars, source.stream[old(source.position)..], length)
    ensures source.position - old(source.position) == UpTo(|chars|, source.stream[old(source.position)..], length)
  {
    hide MaxUnbiased, CharOf, Pending, FirstAccepted, UpTo, CountAccepted;
    var maxUnbiased := MaxUnbiased(|chars|);
    ghost var start := source.position;
    ghost var all := source.stream[start..];
    token := "";
    NothingDrawn(chars, all, length);
    while |token| < length
      invariant start <= source.position <= |source.stream| && |token| <= length
      invariant Pending(chars, all, length, token, source.stream[source.position..], source.position - start)
      decreases |source.stream| - source.position
    {
      ghost var base, had := source.position, |token|;
      EnoughLeft(chars, all, length, token, source.stream[base..], base - start);
      var bytes := source.RandomBytes(length - |token|);
      var i := 0;
      while i < |bytes| && |token| < length
        invariant source.position == base + |bytes| && |bytes| == length - had
        invariant 0 <= i <= |bytes| && |token| <= had + i && |token| <= length
        invariant Pending(chars, all, length, token, source.stream[base + i..], base + i - start)
      {
        OneByte(chars, all, length, token, source.stream[base + i..], base + i - start);
        assert source.stream[base + i..][1..] == source.stream[base + i + 1..];
        assert bytes[i] == source.stream[base + i];
        if bytes[i] < maxUnbiased {
          token := token + [CharOf(chars, bytes[i])];
        }
        i := i + 1;
      }
    }
    NothingMissing(chars, all, length, token, source.stream[source.position..], source.position - start);
  }

  /** What the token still lacks is what the simple form makes of the rest of the stream. */
  ghost predicate Pending(chars: string, all: seq<Byte>, length: nat, token: string, rest: seq<Byte>, drawn: int)
    requires chars != ""
  {
    && |token| <= length
    && FirstAccepted(chars, all, length) == token + FirstAccepted(chars, rest, length - |token|)
    && UpTo(|chars|, all, length) == drawn + UpTo(|chars|, rest, length - |token|)
    && CountAccepted(|chars|, rest) >= length - |token|
  }

  lemma NothingDrawn(chars: string, all: seq<Byte>, length: nat)
    requires chars != "" && CountAccepted(|chars|, all) >= length
    ensures Pending(chars, all, length, "", all, 0)
  {
    assert "" + FirstAccepted(chars, all, length) == FirstAccepted(chars, all, length);
  }

  lemma EnoughLeft(chars: string, all: seq<Byte>, length: nat, token: string, rest: seq<Byte>, drawn: int)
    requires chars != "" && Pending(chars, all, length, token, rest, drawn)
    ensures length - |token| <= |rest|
  {
    CountAtMostAll(|chars|, rest);
  }

  lemma NothingMissing(chars: string, all: seq<Byte>, length: nat, token: string, rest: seq<Byte>, drawn: int)
    requires chars != "" && Pending(chars, all, length, token, rest, drawn) && |token| == length
    ensures token == FirstAccepted(chars, all, length) && drawn == UpTo(|chars|, all, length)
  {
    assert FirstAccepted(chars, rest, 0) == "";
  }

  lemma OneByte(chars: string, all: seq<Byte>, length: nat, token: string, rest: seq<Byte>, drawn: int)
    requires chars != "" && Pending(chars, all, length, token, rest, drawn)
    requires |token| < length && rest != []
    ensures Pending(chars, all, length,
                    if IsAccepted(|chars|, rest[0]) then token + [CharOf(chars, rest[0])] else token, rest[1..], drawn + 1)
  {
    hide MaxUnbiased, CharOf;
    var missing := length - |token|;
    if IsAccepted(|chars|, rest[0]) {
      var c := [CharOf(chars, rest[0])];
      assert token + (c + FirstAccepted(chars, rest[1..], missing - 1)) == token + c + FirstAccepted(chars, rest[1..], missing - 1);
    }
  }

  method GeneratePin(source: RandomSource) returns (token: string)
    requires source.position <= |source.stream|
    requires CountAccepted(|PIN_CHARS|, source.stream[source.position..]) >= PIN_LENGTH
    modifies source
    ensures old(source.position) <= source.position <= |source.stream|
    ensures token == FirstAccepted(PIN_CHARS, source.stream[old(source.position)..], 8)
    ensures source.position - old(source.position) == UpTo(|PIN_CHARS|, source.stream[old(source.position)..], PIN_LENGTH)
  {
    token := Sample(PIN_CHARS, PIN_LENGTH, source);
  }

  method GeneratePassphrase(length: nat, source: RandomSource) returns (passphrase: string)
    requires source.position <= |source.stream|
    requires CountAccepted(|PASSPHRASE_CHARS|, source.stream[source.position..]) >= length
    modifies source
    ensures old(source.position) <= source.position <= |source.stream|
    ensures passphrase == FirstAccepted(PASSPHRASE_CHARS, source.stream[old(source.position)..], length)
    ensures source.position - old(source.position) == UpTo(|PASSPHRASE_CHARS|, source.stream[old(source.position)..], length)
  {
    passphrase := Sample(PASSPHRASE_CHARS, length, source);
  }

  /** The token has the length asked for whenever the stream holds enough accepted bytes. */
  lemma {:induction false} TokenLength(chars: string, bytes: seq<Byte>, length: nat)
    requires chars != "" && CountAccepted(|chars|, bytes) >= length
    ensures |FirstAccepted(chars, bytes, length)| == length
    decreases |bytes|
  {
    if length > 0 {
      TokenLength(chars, bytes[1..], if IsAccepted(|chars|, bytes[0]) then length - 1 else length);
    }
  }

  function Rem(b: int, n: int): int
    requires n > 0
  {
    b % n
  }

  /** The values below `limit` that leave remainder `c`. */
  ghost function Hits(n: int, limit: int, c: int): set<int>
    requires n > 0
  {
    set b | 0 <= b < limit && Rem(b, n) == c
  }

  lemma {:induction false} HitsCount(n: int, m: nat, c: int)
    requires 0 <= c < n
    ensures |Hits(n, m * n, c)| == m
  {
    hide Hits, Rem;
    if m == 0 {
      NoHits(n, c);
    } else {
      HitsCount(n, m - 1, c);
      var limit := (m - 1) * n;
      assert m * n == limit + n;
      forall b | limit <= b < limit + n ensures Rem(b, n) == b - limit {
        RemOf(n, m - 1, b - limit);
      }
      AtLeastZero(n, m - 1);
      NextHit(n, limit, c);
    }
  }

  lemma NoHits(n: int, c: int)
    requires n > 0
    ensures Hits(n, 0 * n, c) == {}
  {
  }

  lemma AtLeastZero(n: int, k: nat)
    requires n > 0
    ensures k * n >= 0
  {
  }

  /** The next `n` values hold one more. */
  lemma NextHit(n: int, limit: int, c: int)
    requires 0 <= c < n && limit >= 0
    requires forall b :: limit <= b < limit + n ==> Rem(b, n) == b - limit
    ensures |Hits(n, limit + n, c)| == |Hits(n, limit, c)| + 1
  {
    hide Rem;
    assert Hits(n, limit + n, c) == Hits(n, limit, c) + {limit + c};
  }

  lemma RemOf(n: int, m: nat, r: int)
    requires 0 <= r < n
    ensures Rem(m * n + r, n) == r
  {
    var x := m * n + r;
    var q := x / n;
    assert x == q * n + x % n;
    SameQuotient(n, m, r, q, x % n);
  }

  lemma SameQuotient(n: int, q1: int, r1: int, q2: int, r2: int)
    requires 0 <= r1 < n && 0 <= r2 < n && q1 * n + r1 == q2 * n + r2
    ensures r1 == r2
  {
    if q1 < q2 {
      AtLeast(n, q2 - q1);
    } else if q2 < q1 {
      AtLeast(n, q1 - q2);
    }
  }

  lemma AtLeast(n: int, k: int)
    requires n > 0 && k >= 1
    ensures k * n >= n
  {
  }

  /** No bias: every character is the image of exactly `256 / n` accepted byte values. */
  lemma EveryCharacterEquallyLikely(n: int, c: int)
    requires 0 < n <= 256 && 0 <= c < n
    ensures |set b: Byte | IsAccepted(n, b) && b % n == c| == 256 / n
  {
    HitsCount(n, 256 / n, c);
    assert 256 / n * n <= 256;
    assert (set b: Byte | IsAccepted(n, b) && b % n == c) == Hits(n, 256 / n * n, c) by {
      assert forall b :: Rem(b, n) == b % n;
    }
  }

  /** The alphabets' sizes and what is accepted of a byte: a character of the PIN stands for 8 byte
      values, one of the passphrase for 3. */
  lemma AlphabetSizes()
    ensures |PIN_CHARS| == 31 && MaxUnbiased(|PIN_CHARS|) == 248
    ensures |PASSPHRASE_CHARS| == 65 && MaxUnbiased(|PASSPHRASE_CHARS|) == 195
  {
  }

  /** The token by position: its characters come, in order, from the bytes at `at`, each below the largest
      multiple of the alphabet's size and taken modulo that size; every other byte drawn is at or above it;
      and the last byte drawn is the last one used. */
  lemma TokenByPosition(chars: string, bytes: seq<Byte>, length: nat) returns (at: seq<nat>)
    requires chars != "" && CountAccepted(|chars|, bytes) >= length
    ensures |at| == |FirstAccepted(chars, bytes, length)| == length
    ensures UpTo(|chars|, bytes, length) == (if length == 0 then 0 else at[length - 1] + 1) <= |bytes|
    ensures forall i, j :: 0 <= i < j < length ==> at[i] < at[j]
    ensures forall i :: 0 <= i < length ==>
              && at[i] < |bytes| && bytes[at[i]] < 256 / |chars| * |chars|
              && FirstAccepted(chars, bytes, length)[i] == chars[bytes[at[i]] % |chars|]
    ensures forall j :: 0 <= j < UpTo(|chars|, bytes, length) && j !in at ==> bytes[j] >= 256 / |chars| * |chars|
  {
    hide FirstAccepted, UpTo, CountAccepted;
    at := Positions(chars, bytes, length);
  }

  predicate InOrder(at: seq<nat>, upTo: nat) {
    && upTo == (if at == [] then 0 else at[|at| - 1] + 1)
    && forall i, j :: 0 <= i < j < |at| ==> at[i] < at[j]
  }

  predicate Used(chars: string, bytes: seq<Byte>, token: string, at: seq<nat>)
    requires chars != ""
  {
    && |at| == |token|
    && forall i :: 0 <= i < |at| ==> at[i] < |bytes| && IsAccepted(|chars|, bytes[at[i]]) && token[i] == CharOf(chars, bytes[at[i]])
  }

  predicate OthersSkipped(n: int, bytes: seq<Byte>, upTo: nat, at: seq<nat>)
    requires n > 0
  {
    upTo <= |bytes| && forall j :: 0 <= j < upTo && j !in at ==> !IsAccepted(n, bytes[j])
  }

  /** The same, with the two conditions on a byte named. */
  predicate ArePositions(chars: string, bytes: seq<Byte>, token: string, upTo: nat, at: seq<nat>)
    requires chars != ""
  {
    InOrder(at, upTo) && Used(chars, bytes, token, at) && OthersSkipped(|chars|, bytes, upTo, at)
  }

  lemma {:induction false} Positions(chars: string, bytes: seq<Byte>, length: nat) returns (at: seq<nat>)
    requires chars != "" && CountAccepted(|chars|, bytes) >= length
    ensures |at| == length
    ensures ArePositions(chars, bytes, FirstAccepted(chars, bytes, length), UpTo(|chars|, bytes, length), at)
    decreases |bytes|
  {
    hide ArePositions, IsAccepted, CharOf, FirstAccepted, UpTo, CountAccepted, Shifted;
    FromFirst(chars, bytes, length);
    if length == 0 {
      at := [];
      NoPositions(chars, bytes);
    } else {
      var first := IsAccepted(|chars|, bytes[0]);
      var left := if first then length - 1 else length;
      var rest := Positions(chars, bytes[1..], left);
      at := Shifted(first, rest);
      ShiftedPositions(chars, bytes, FirstAccepted(chars, bytes[1..], left), UpTo(|chars|, bytes[1..], left), rest);
    }
  }

  lemma NoPositions(chars: string, bytes: seq<Byte>)
    requires chars != ""
    ensures ArePositions(chars, bytes, "", 0, [])
  {
  }

  lemma ShiftedPositions(chars: string, bytes: seq<Byte>, token: string, upTo: nat, rest: seq<nat>)
    requires chars != "" && bytes != [] && ArePositions(chars, bytes[1..], token, upTo, rest)
    requires rest != [] || IsAccepted(|chars|, bytes[0])
    ensures var first := IsAccepted(|chars|, bytes[0]);
            ArePositions(chars, bytes, (if first then [CharOf(chars, bytes[0])] else "") + token, 1 + upTo, Shifted(first, rest))
  {
    hide InOrder, Used, OthersSkipped, IsAccepted, CharOf, Shifted;
    var first := IsAccepted(|chars|, bytes[0]);
    ShiftedInOrder(first, rest, upTo);
    ShiftedUsed(chars, bytes, token, rest);
    ShiftedOthers(|chars|, bytes, first, upTo, rest);
  }

  lemma ShiftedInOrder(first: bool, rest: seq<nat>, upTo: nat)
    requires InOrder(rest, upTo) && (first || rest != [])
    ensures InOrder(Shifted(first, rest), 1 + upTo)
  {
    if first {
      var at := Shifted(true, rest);
      assert forall j :: 1 <= j < |at| ==> at[j] == rest[j - 1] + 1;
    }
  }

  lemma ShiftedUsed(chars: string, bytes: seq<Byte>, token: string, rest: seq<nat>)
    requires chars != "" && bytes != [] && Used(chars, bytes[1..], token, rest)
    ensures var first := IsAccepted(|chars|, bytes[0]);
            Used(chars, bytes, (if first then [CharOf(chars, bytes[0])] else "") + token, Shifted(first, rest))
  {
    hide IsAccepted, CharOf, Shifted;
    var first := IsAccepted(|chars|, bytes[0]);
    var at, token' := Shifted(first, rest), (if first then [CharOf(chars, bytes[0])] else "") + token;
    forall i | 0 <= i < |at|
      ensures at[i] < |bytes| && IsAccepted(|chars|, bytes[at[i]]) && token'[i] == CharOf(chars, bytes[at[i]])
    {
      var k := if first then i - 1 else i;
      if k >= 0 {
        assert at[i] == rest[k] + 1 && token'[i] == token[k];
        assert bytes[rest[k] + 1] == bytes[1..][rest[k]];
      }
    }
  }

  lemma ShiftedOthers(n: int, bytes: seq<Byte>, first: bool, upTo: nat, rest: seq<nat>)
    requires n > 0 && bytes != [] && OthersSkipped(n, bytes[1..], upTo, rest)
    requires first <==> IsAccepted(n, bytes[0])
    ensures OthersSkipped(n, bytes, 1 + upTo, Shifted(first, rest))
  {
    hide IsAccepted, Shifted;
    ShiftedFromZero(first, rest);
    forall j: nat | j < 1 + upTo && j !in Shifted(first, rest) ensures !IsAccepted(n, bytes[j]) {
      if j > 0 {
        assert j - 1 !in rest;
        assert bytes[j] == bytes[1..][j - 1];
      }
    }
  }

  /** What the first byte contributes. */
  lemma FromFirst(chars: string, bytes: seq<Byte>, length: nat)
    requires chars != "" && CountAccepted(|chars|, bytes) >= length
    ensures length == 0 ==> FirstAccepted(chars, bytes, 0) == "" && UpTo(|chars|, bytes, 0) == 0
    ensures length > 0 ==>
              var first := IsAccepted(|chars|, bytes[0]);
              var left := if first then length - 1 else length;
              && bytes != [] && CountAccepted(|chars|, bytes[1..]) >= left
              && UpTo(|chars|, bytes, length) == 1 + UpTo(|chars|, bytes[1..], left)
              && FirstAccepted(chars, bytes, length) ==
                 (if first then [CharOf(chars, bytes[0])] else "") + FirstAccepted(chars, bytes[1..], left)
  {
    hide IsAccepted, CharOf;
  }

  /** The positions in the rest of the stream, seen from its first byte, which is used or not. */
  function Shifted(first: bool, rest: seq<nat>): (at: seq<nat>)
    ensures |at| == |rest| + if first then 1 else 0
    ensures first ==> at[0] == 0 && forall i :: 1 <= i < |at| ==> at[i] == rest[i - 1] + 1
    ensures !first ==> forall i :: 0 <= i < |at| ==> at[i] == rest[i] + 1
  {
    (if first then [0] else []) + seq(|rest|, i requires 0 <= i < |rest| => rest[i] + 1)
  }

  lemma ShiftedFromZero(first: bool, rest: seq<nat>)
    ensures forall j: nat :: j in rest ==> j + 1 in Shifted(first, rest)
    ensures first ==> 0 in Shifted(first, rest)
  {
    var at := Shifted(first, rest);
    forall j: nat | j in rest ensures j + 1 in at {
      var i :| 0 <= i < |rest| && rest[i] == j;
      assert at[if first then i + 1 else i] == j + 1;
    }
    if first {
      assert at[0] == 0;
    }
  }

  predicate NoRepeats(chars: string) {
    forall i, j :: 0 <= i < j < |chars| ==> chars[i] != chars[j]
  }

  /** In an alphabet without repeats, every character is what exactly `256 / |chars|` accepted byte values
      are turned into. */
  lemma CharactersEquallyLikely(chars: string, c: char)
    requires 0 < |chars| <= 256 && NoRepeats(chars) && c in chars
    ensures |set b: Byte | b < 256 / |chars| * |chars| && chars[b % |chars|] == c| == 256 / |chars|
  {
    var i :| 0 <= i < |chars| && chars[i] == c;
    EveryCharacterEquallyLikely(|chars|, i);
    assert (set b: Byte | b < 256 / |chars| * |chars| && chars[b % |chars|] == c)
           == set b: Byte | IsAccepted(|chars|, b) && b % |chars| == i;
  }

  /** Strings within ranges that do not overlap. */
  lemma NoRepeatsOfConcat(a: string, b: string)
    requires NoRepeats(a) && NoRepeats(b)
    requires forall i, j :: 0 <= i < |a| && 0 <= j < |b| ==> a[i] != b[j]
    ensures NoRepeats(a + b)
  {
  }

  predicate Increases(s: string) {
    forall i :: 0 <= i < |s| - 1 ==> s[i] < s[i + 1]
  }

  lemma {:induction false} IncreasesThroughout(s: string, i: nat, j: nat)
    requires Increases(s) && i < j < |s|
    ensures s[i] < s[j]
    decreases j
  {
    if i < j - 1 {
      IncreasesThroughout(s, i, j - 1);
    }
  }

  lemma IncreasingHasNoRepeats(s: string)
    requires Increases(s)
    ensures NoRepeats(s)
  {
    forall i, j | 0 <= i < j < |s| ensures s[i] != s[j] {
      IncreasesThroughout(s, i, j);
    }
  }

  lemma CapitalsIncrease()
    ensures Increases(PIN_CAPITALS) && forall i :: 0 <= i < |PIN_CAPITALS| ==> 'A' <= PIN_CAPITALS[i] <= 'Z'
    ensures Increases(CAPITALS) && forall i :: 0 <= i < |CAPITALS| ==> 'A' <= CAPITALS[i] <= 'Z'
  {
  }

  lemma SmallLettersIncrease()
    ensures Increases(SMALL_LETTERS) && forall i :: 0 <= i < |SMALL_LETTERS| ==> 'a' <= SMALL_LETTERS[i] <= 'z'
  {
  }

  lemma DigitsIncrease()
    ensures Increases(DIGITS) && forall i :: 0 <= i < |DIGITS| ==> '0' <= DIGITS[i] <= '9'
  {
  }

  lemma SymbolsDiffer()
    ensures NoRepeats(SYMBOLS)
    ensures forall i :: 0 <= i < |SYMBOLS| ==>
              !('A' <= SYMBOLS[i] <= 'Z') && !('a' <= SYMBOLS[i] <= 'z') && !('0' <= SYMBOLS[i] <= '9')
  {
  }

  /** Both alphabets are without repeats. */
  lemma AlphabetsHaveNoRepeats()
    ensures NoRepeats(PIN_CHARS) && NoRepeats(PASSPHRASE_CHARS)
  {
    CapitalsIncrease();
    SmallLettersIncrease();
    DigitsIncrease();
    SymbolsDiffer();
    hide NoRepeats, Increases, PIN_CAPITALS, CAPITALS, SMALL_LETTERS, DIGITS, SYMBOLS;
    IncreasingHasNoRepeats(PIN_CAPITALS);
    IncreasingHasNoRepeats(CAPITALS);
    IncreasingHasNoRepeats(SMALL_LETTERS);
    IncreasingHasNoRepeats(DIGITS);
    NoRepeatsOfConcat(PIN_CAPITALS, DIGITS);
    NoRepeatsOfConcat(CAPITALS, SMALL_LETTERS);
    NoRepeatsOfConcat(CAPITALS + SMALL_LETTERS, DIGITS);
    NoRepeatsOfConcat(CAPITALS + SMALL_LETTERS + DIGITS, SYMBOLS);
  }
}
