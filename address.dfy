/**
 * `extractAddress` (services/api.ts): the first Solana-style address in free
 * text, found with the unanchored regular expression
 * `[1-9A-HJ-NP-Za-km-z]{32,44}`. JavaScript's `String.prototype.match`
 * without the global flag returns the leftmost match, and the greedy
 * quantifier makes that match as long as possible, up to 44 characters.
 */
module Address {
  import opened Wrappers

  const MinLength: nat := 32
  const MaxLength: nat := 44

  /** The Bitcoin base58 alphabet: digits 1-9 and letters except 0, O, I and l. */
  predicate IsBase58(c: char) {
    ('1' <= c <= '9') || ('A' <= c <= 'H') || ('J' <= c <= 'N') || ('P' <= c <= 'Z') ||
    ('a' <= c <= 'k') || ('m' <= c <= 'z')
  }

  predicate AllBase58(s: string) {
    forall k :: 0 <= k < |s| ==> IsBase58(s[k])
  }

  /** The regular expression can match at `i`: 32 base58 characters start there. */
  predicate MatchesAt(s: string, i: int) {
    0 <= i && i + MinLength <= |s| && AllBase58(s[i..i + MinLength])
  }

  /** The length of the run of base58 characters starting at `i`. */
  function RunLength(s: string, i: nat): (n: nat)
    requires i <= |s|
    ensures i + n <= |s|
    ensures AllBase58(s[i..i + n])
    ensures i + n == |s| || !IsBase58(s[i + n])
    decreases |s| - i
  {
    if i == |s| || !IsBase58(s[i]) then 0
    else
      var n := 1 + RunLength(s, i + 1);
      assert s[i..i + n] == [s[i]] + s[i + 1..i + n];
      n
  }

  lemma RunLengthMatches(s: string, i: nat)
    requires i <= |s|
    ensures MatchesAt(s, i) <==> RunLength(s, i) >= MinLength
  {
    var n := RunLength(s, i);
    if n >= MinLength {
      assert s[i..i + MinLength] == s[i..i + n][..MinLength];
    }
  }

  /** The leftmost position at or after `from` where the expression matches. */
  function FirstMatch(s: string, from: nat): (r: Option<nat>)
    requires from <= |s|
    ensures r.None? ==> forall j :: from <= j ==> !MatchesAt(s, j)
    ensures r.Some? ==> from <= r.value && MatchesAt(s, r.value)
    ensures r.Some? ==> forall j :: from <= j < r.value ==> !MatchesAt(s, j)
    decreases |s| - from
  {
    RunLengthMatches(s, from);
    if from + MinLength > |s| then None
    else if RunLength(s, from) >= MinLength then Some(from)
    else FirstMatch(s, from + 1)
  }

  /** The matched text, or None when the input holds no address. */
  function ExtractAddress(input: string): (r: Option<string>)
    ensures r.None? <==> forall i :: !MatchesAt(input, i)
    ensures r.Some? ==> MinLength <= |r.value| <= MaxLength && AllBase58(r.value)
  {
    match FirstMatch(input, 0)
    case None => None
    case Some(i) =>
      RunLengthMatches(input, i);
      var n := RunLength(input, i);
      var len := if n < MaxLength then n else MaxLength;
      assert input[i..i + len] == input[i..i + n][..len];
      Some(input[i..i + len])
  }

  /**
   * The address is the text of the input from the leftmost match position,
   * unchanged, extended greedily: it stops at 44 characters, at the end of
   * the input, or before the first character outside the alphabet.
   */
  predicate IsLeftmostLongest(input: string, a: string, i: int) {
    && MatchesAt(input, i)
    && (forall j :: 0 <= j < i ==> !MatchesAt(input, j))
    && i + |a| <= |input|
    && a == input[i..i + |a|]
    && (|a| == MaxLength || i + |a| == |input| || !IsBase58(input[i + |a|]))
  }

  lemma {:induction false} ExtractAddressIsLeftmostLongest(input: string)
    requires ExtractAddress(input).Some?
    ensures exists i :: IsLeftmostLongest(input, ExtractAddress(input).value, i)
  {
    var i := FirstMatch(input, 0).value;
    assert IsLeftmostLongest(input, ExtractAddress(input).value, i);
  }

  /**
   * The leftmost match never starts in the middle of a base58 run: the
   * character before it, if any, is outside the alphabet.
   */
  lemma {:induction false} MatchStartsAtRunBoundary(input: string, a: string, i: int)
    requires IsLeftmostLongest(input, a, i)
    ensures i == 0 || !IsBase58(input[i - 1])
  {
    if i > 0 && IsBase58(input[i - 1]) {
      assert input[i - 1..i - 1 + MinLength] == [input[i - 1]] + input[i..i + MinLength][..MinLength - 1];
      assert MatchesAt(input, i - 1);
      assert false;
    }
  }

  /** No match starts inside a prefix of `s` that holds none and ends outside the alphabet. */
  lemma {:induction false} NoMatchInPrefix(prefix: string, s: string)
    requires |prefix| <= |s| && s[..|prefix|] == prefix
    requires forall j :: !MatchesAt(prefix, j)
    requires prefix == [] || !IsBase58(prefix[|prefix| - 1])
    ensures forall j :: 0 <= j < |prefix| ==> !MatchesAt(s, j)
  {
    var p := |prefix|;
    forall j | 0 <= j < p ensures !MatchesAt(s, j) {
      if j + MinLength < p {
        assert s[j..j + MinLength] == prefix[j..j + MinLength];
        assert !MatchesAt(prefix, j);
      } else if j + MinLength <= |s| {
        assert s[j..j + MinLength][p - 1 - j] == prefix[p - 1];
      }
    }
  }

  /** A run of exactly `m` base58 characters at `i`, ended by the input or a non-base58 character. */
  lemma {:induction false} RunLengthExact(s: string, i: nat, m: nat)
    requires i + m <= |s| && AllBase58(s[i..i + m])
    requires i + m == |s| || !IsBase58(s[i + m])
    ensures RunLength(s, i) == m
  {
    var n := RunLength(s, i);
    forall k | i <= k < i + m ensures IsBase58(s[k]) {
      assert s[i..i + m][k - i] == s[k];
    }
    forall k | i <= k < i + n ensures IsBase58(s[k]) {
      assert s[i..i + n][k - i] == s[k];
    }
  }

  /** The extracted text is the run at the leftmost match, capped at 44 characters. */
  lemma {:induction false} ExtractAddressAt(s: string, p: nat)
    requires MatchesAt(s, p)
    requires forall j :: 0 <= j < p ==> !MatchesAt(s, j)
    requires RunLength(s, p) <= MaxLength
    ensures ExtractAddress(s) == Some(s[p..p + RunLength(s, p)])
  {
    assert FirstMatch(s, 0) == Some(p);
    RunLengthMatches(s, p);
  }

  /**
   * An address embedded in a link or in prose is found: if the text before it
   * holds no match and ends outside the alphabet, and the text after it starts
   * outside the alphabet, the address itself is extracted. This covers a raw
   * address (empty prefix and suffix), a DexScreener link and a pump.fun link.
   */
  lemma {:induction false} ExtractsEmbeddedAddress(prefix: string, a: string, suffix: string)
    requires MinLength <= |a| <= MaxLength && AllBase58(a)
    requires forall j :: !MatchesAt(prefix, j)
    requires prefix == [] || !IsBase58(prefix[|prefix| - 1])
    requires suffix == [] || !IsBase58(suffix[0])
    ensures ExtractAddress(prefix + a + suffix) == Some(a)
  {
    var s := prefix + a + suffix;
    var p := |prefix|;
    assert s[..p] == prefix;
    NoMatchInPrefix(prefix, s);
    assert s[p..p + |a|] == a;
    assert p + |a| == |s| || s[p + |a|] == suffix[0];
    RunLengthExact(s, p, |a|);
    assert s[p..p + MinLength] == a[..MinLength];
    ExtractAddressAt(s, p);
  }
}
