/** The string operations the source borrows from JavaScript: trimming, ASCII case, prefixes,
    splitting and joining. */
module Text {

  /** `String.prototype.toLowerCase` on ASCII letters; every other character is left alone. */
  function LowerChar(c: char): char {
    if 'A' <= c <= 'Z' then (c as int + 32) as char else c
  }

  function Lower(s: string): (r: string)
    ensures |r| == |s|
    ensures forall i :: 0 <= i < |s| ==> r[i] == LowerChar(s[i])
  {
    seq(|s|, i requires 0 <= i < |s| => LowerChar(s[i]))
  }

  /** The characters `String.prototype.trim` removes. */
  predicate IsSpace(c: char) {
    var n := c as int;
    || 9 <= n <= 13 || n == 0x20 || n == 0xA0 || n == 0x1680 || 0x2000 <= n <= 0x200A
    || n == 0x2028 || n == 0x2029 || n == 0x202F || n == 0x205F || n == 0x3000 || n == 0xFEFF
  }

  predicate AllSpace(s: string) {
    forall i :: 0 <= i < |s| ==> IsSpace(s[i])
  }

  function TrimStart(s: string): string {
    if s != "" && IsSpace(s[0]) then TrimStart(s[1..]) else s
  }

  function TrimEnd(s: string): string {
    if s != "" && IsSpace(s[|s| - 1]) then TrimEnd(s[..|s| - 1]) else s
  }

  function Trim(s: string): string {
    TrimEnd(TrimStart(s))
  }

  /** A string that trimming leaves alone. */
  predicate Trimmed(s: string) {
    s != "" ==> !IsSpace(s[0]) && !IsSpace(s[|s| - 1])
  }

  predicate StartsWith(s: string, prefix: string) {
    |prefix| <= |s| && s[..|prefix|] == prefix
  }

  predicate Contains(s: string, c: char) {
    exists i :: 0 <= i < |s| && s[i] == c
  }

  /** The index of the last `c` in `s`, or -1. */
  function LastIndexOf(s: string, c: char): (r: int)
    ensures -1 <= r < |s|
    ensures r >= 0 ==> s[r] == c
    ensures forall i :: r < i < |s| ==> s[i] != c
  {
    if s == "" then -1
    else if s[|s| - 1] == c then |s| - 1
    else LastIndexOf(s[..|s| - 1], c)
  }

  /** The index of the first `c` in `s`, or `|s|`. */
  function IndexOf(s: string, c: char): (r: nat)
    ensures r <= |s|
    ensures r < |s| ==> s[r] == c
    ensures forall i :: 0 <= i < r ==> s[i] != c
  {
    if s == "" || s[0] == c then 0 else 1 + IndexOf(s[1..], c)
  }

  function Split(s: string, sep: char): (r: seq<string>)
    ensures r != []
    decreases |s|
  {
    var i := IndexOf(s, sep);
    if i == |s| then [s] else [s[..i]] + Split(s[i + 1..], sep)
  }

  function Join(parts: seq<string>, sep: char): string {
    if parts == [] then ""
    else if |parts| == 1 then parts[0]
    else parts[0] + [sep] + Join(parts[1..], sep)
  }

  lemma {:induction false} TrimStartSpaces(a: string, s: string)
    requires AllSpace(a)
    requires s == "" || !IsSpace(s[0])
    ensures TrimStart(a + s) == s
  {
    if a == "" {
      assert a + s == s;
    } else {
      assert (a + s)[1..] == a[1..] + s;
      TrimStartSpaces(a[1..], s);
    }
  }

  lemma {:induction false} TrimEndSpaces(s: string, b: string)
    requires AllSpace(b)
    requires s == "" || !IsSpace(s[|s| - 1])
    ensures TrimEnd(s + b) == s
  {
    if b == "" {
      assert s + b == s;
    } else {
      assert (s + b)[..|s + b| - 1] == s + b[..|b| - 1];
      TrimEndSpaces(s, b[..|b| - 1]);
    }
  }

  /** Trimming removes exactly the surrounding white space of a trimmed, non-empty core. */
  lemma TrimPadded(a: string, s: string, b: string)
    requires AllSpace(a) && AllSpace(b)
    requires s != "" && Trimmed(s)
    ensures Trim(a + s + b) == s
  {
    assert a + s + b == a + (s + b);
    TrimStartSpaces(a, s + b);
    TrimEndSpaces(s, b);
  }

  /** White space by its code points: the tabs and line ends, the spaces, and the byte order mark. */
  predicate IsBlank(s: string) {
    forall i :: 0 <= i < |s| ==>
      s[i] as int in {9, 10, 11, 12, 13, 32, 160, 5760, 8192, 8193, 8194, 8195, 8196, 8197, 8198, 8199, 8200, 8201, 8202,
                      8232, 8233, 8239, 8287, 12288, 65279}
  }

  lemma BlankIsSpace(s: string)
    ensures IsBlank(s) <==> AllSpace(s)
  {
    if IsBlank(s) {
      forall i | 0 <= i < |s| ensures IsSpace(s[i]) {
      }
    }
    if AllSpace(s) {
      assert forall i :: 0 <= i < |s| ==> IsSpace(s[i]);
    }
  }

  lemma {:induction false} TrimAllSpace(s: string)
    requires AllSpace(s)
    ensures Trim(s) == ""
  {
    if s != "" {
      TrimAllSpace(s[1..]);
    }
  }

  /** Trimming takes away white space and nothing else, and leaves none at either end. */
  lemma TrimExactly(s: string) returns (before: string, after: string)
    ensures s == before + Trim(s) + after && IsBlank(before) && IsBlank(after)
    ensures Trim(s) != "" ==> !IsBlank([Trim(s)[0]]) && !IsBlank([Trim(s)[|Trim(s)| - 1]])
  {
    before := StartOf(s);
    after := EndOf(TrimStart(s));
    BlankIsSpace(before);
    BlankIsSpace(after);
    if Trim(s) != "" {
      assert TrimStart(s)[0] == Trim(s)[0];
      NotBlank(Trim(s)[0]);
      NotBlank(Trim(s)[|Trim(s)| - 1]);
    }
  }

  lemma NotBlank(c: char)
    requires !IsSpace(c)
    ensures !IsBlank([c])
  {
    BlankIsSpace([c]);
    assert !IsSpace([c][0]);
  }

  lemma {:induction false} StartOf(s: string) returns (before: string)
    ensures s == before + TrimStart(s) && AllSpace(before)
    ensures TrimStart(s) != "" ==> !IsSpace(TrimStart(s)[0])
  {
    if s != "" && IsSpace(s[0]) {
      before := StartOf(s[1..]);
      before := [s[0]] + before;
    } else {
      before := "";
    }
  }

  lemma {:induction false} EndOf(s: string) returns (after: string)
    ensures s == TrimEnd(s) + after && AllSpace(after)
    ensures TrimEnd(s) != "" ==> !IsSpace(TrimEnd(s)[|TrimEnd(s)| - 1])
    ensures TrimEnd(s) != "" ==> TrimEnd(s)[0] == s[0]
  {
    if s != "" && IsSpace(s[|s| - 1]) {
      after := EndOf(s[..|s| - 1]);
      after := after + [s[|s| - 1]];
    } else {
      after := "";
    }
  }

  /** Splitting undoes joining when no part holds the separator. */
  lemma {:induction false} SplitJoin(parts: seq<string>, sep: char)
    requires parts != []
    requires forall i :: 0 <= i < |parts| ==> !Contains(parts[i], sep)
    ensures Split(Join(parts, sep), sep) == parts
  {
    var first := parts[0];
    if |parts| == 1 {
      assert IndexOf(first, sep) == |first|;
    } else {
      var rest := Join(parts[1..], sep);
      var s := first + [sep] + rest;
      var i := IndexOf(s, sep);
      assert s[|first|] == sep;
      assert forall k :: 0 <= k < |first| ==> s[k] == first[k] && first[k] != sep;
      assert s[..i] == first && s[i + 1..] == rest;
      SplitJoin(parts[1..], sep);
    }
  }

  lemma {:induction false} JoinChars(parts: seq<string>, sep: char, c: char)
    requires c != sep
    requires forall i :: 0 <= i < |parts| ==> !Contains(parts[i], c)
    ensures !Contains(Join(parts, sep), c)
  {
    if |parts| > 1 {
      JoinChars(parts[1..], sep, c);
      var rest := Join(parts[1..], sep);
      var s := parts[0] + [sep] + rest;
      forall k | 0 <= k < |s| ensures s[k] != c {
        if k < |parts[0]| { assert s[k] == parts[0][k]; }
        else if k > |parts[0]| { assert s[k] == rest[k - |parts[0]| - 1]; }
      }
    }
  }
}
