/** The one regular expression of the daemon, `^CUDA Version ([0-9]+).[0-9]+.[0-9]+`,
    applied with `re.search` (no flags): `^` anchors at the very start of the
    text, each unescaped `.` matches any character except a newline, and the
    greedy group `([0-9]+)` backtracks from its longest digit run down until the
    rest of the pattern matches. Only the prefix of the text has to match. */
module CudaPattern {
  import opened Outcomes

  /** The literal text the pattern starts with. */
  const Prefix: string := "CUDA Version "

  predicate IsDigit(c: char) { '0' <= c <= '9' }

  /** `.` without the DOTALL flag. */
  predicate AnyChar(c: char) { c != '\n' }

  /** Every character of `s` at a position in `[lo, hi)` is an ASCII digit. */
  ghost predicate DigitsIn(s: string, lo: nat, hi: nat)
  {
    lo <= hi <= |s| && forall p :: lo <= p < hi ==> IsDigit(s[p])
  }

  /** `.[0-9]+.[0-9]+` matches `s` at position `p`, its first digit run being
      `j` characters long (the last `[0-9]+` needs one digit: nothing follows it). */
  ghost predicate TailAt(s: string, p: nat, j: nat)
  {
    1 <= j && p + j + 3 <= |s| &&
    AnyChar(s[p]) && DigitsIn(s, p + 1, p + 1 + j) && AnyChar(s[p + 1 + j]) && IsDigit(s[p + 2 + j])
  }

  ghost predicate TailMatches(s: string, p: nat)
  {
    exists j: nat :: TailAt(s, p, j)
  }

  /** The whole pattern matches at the start of `s` with group 1 spanning `k` digits. */
  ghost predicate MatchWithGroup(s: string, k: nat)
  {
    1 <= k && |Prefix| + k <= |s| && s[..|Prefix|] == Prefix &&
    DigitsIn(s, |Prefix|, |Prefix| + k) && TailMatches(s, |Prefix| + k)
  }

  /** Length of the run of digits that starts at `i`. */
  function DigitRun(s: string, i: nat): (n: nat)
    requires i <= |s|
    ensures i + n <= |s| && DigitsIn(s, i, i + n)
    ensures i + n < |s| ==> !IsDigit(s[i + n])
    decreases |s| - i
  {
    if i < |s| && IsDigit(s[i]) then 1 + DigitRun(s, i + 1) else 0
  }

  /** Backtracking over the length of the tail's first digit run, `j` first and
      then shorter ones. */
  function TryTail(s: string, p: nat, j: nat): (b: bool)
    requires p + 1 + j <= |s| && DigitsIn(s, p + 1, p + 1 + j)
    ensures b <==> exists j': nat :: j' <= j && TailAt(s, p, j')
    decreases j
  {
    if j == 0 then false
    else if p + j + 3 <= |s| && AnyChar(s[p]) && AnyChar(s[p + 1 + j]) && IsDigit(s[p + 2 + j]) then
      assert TailAt(s, p, j);
      true
    else
      TryTail(s, p, j - 1)
  }

  /** Does `.[0-9]+.[0-9]+` match at position `p`? */
  function TailMatch(s: string, p: nat): (b: bool)
    requires p <= |s|
    ensures b <==> TailMatches(s, p)
  {
    if p == |s| then false
    else
      var m := DigitRun(s, p + 1);
      assert forall j: nat :: TailAt(s, p, j) ==> j <= m by {
        forall j: nat | TailAt(s, p, j) ensures j <= m {
          assert p + 1 + m < |s| ==> !IsDigit(s[p + 1 + m]);
        }
      }
      TryTail(s, p, m)
  }

  /** Backtracking over the length of group 1, `k` digits first and then fewer:
      the greedy `([0-9]+)`. */
  function TryGroup(s: string, k: nat): (r: Option<nat>)
    requires |Prefix| + k <= |s| && s[..|Prefix|] == Prefix && DigitsIn(s, |Prefix|, |Prefix| + k)
    ensures r.Some? ==> 1 <= r.value <= k && MatchWithGroup(s, r.value)
    ensures forall k': nat :: (if r.Some? then r.value else 0) < k' <= k ==> !MatchWithGroup(s, k')
    decreases k
  {
    if k == 0 then None
    else if TailMatch(s, |Prefix| + k) then Some(k)
    else TryGroup(s, k - 1)
  }

  /** Group 1 of the match that `re.search` finds in `s`, or `None` when it finds none.
      The group is the longest digit run after the prefix for which the rest of
      the pattern still matches. */
  function SearchVersion(s: string): (r: Option<string>)
    ensures r.None? <==> forall k: nat :: !MatchWithGroup(s, k)
    ensures r.Some? ==> MatchWithGroup(s, |r.value|) && r.value == s[|Prefix|..|Prefix| + |r.value|]
    ensures r.Some? ==> forall k: nat :: |r.value| < k ==> !MatchWithGroup(s, k)
    ensures r.Some? ==> |r.value| >= 1 && forall i :: 0 <= i < |r.value| ==> IsDigit(r.value[i])
  {
    if |s| < |Prefix| || s[..|Prefix|] != Prefix then None
    else
      var n := DigitRun(s, |Prefix|);
      assert forall k: nat :: MatchWithGroup(s, k) ==> k <= n by {
        forall k: nat | MatchWithGroup(s, k) ensures k <= n {
          assert |Prefix| + n < |s| ==> !IsDigit(s[|Prefix| + n]);
        }
      }
      match TryGroup(s, n)
      case None => None
      case Some(k) => Some(s[|Prefix|..|Prefix| + k])
  }

  /** The documented format: a three-part version on the first line gives its major number. */
  lemma VersionOfThreePartRelease()
    ensures SearchVersion("CUDA Version 11.4.0\n") == Some("11")
  {
    var s := "CUDA Version 11.4.0\n";
    assert s[..|Prefix|] == Prefix;
    assert TailAt(s, |Prefix| + 2, 1);
    assert MatchWithGroup(s, 2);
    var r := SearchVersion(s);
    assert !IsDigit(s[|Prefix| + 2]);
    assert |r.value| == 2;
    assert s[|Prefix|..|Prefix| + 2] == "11";
  }

  /** The dots are not escaped: with no separators at all, group 1 backtracks to a
      single digit and the next two digits stand in for the two dots. */
  lemma UnescapedDotsMatchDigits()
    ensures SearchVersion("CUDA Version 12345") == Some("1")
  {
    var s := "CUDA Version 12345";
    assert |s| == 18 && s[..|Prefix|] == Prefix;
    assert TailAt(s, |Prefix| + 1, 1);
    assert MatchWithGroup(s, 1);
    forall p: nat, j: nat | |Prefix| + 2 <= p ensures !TailAt(s, p, j) {
    }
    assert s[|Prefix|..|Prefix| + 1] == "1";
  }

  /** Four digits leave nothing for the final `[0-9]+`: no match. */
  lemma TooFewCharactersDoNotMatch()
    ensures SearchVersion("CUDA Version 1234") == None
  {
    var s := "CUDA Version 1234";
    assert |s| == 17;
    forall p: nat, j: nat | |Prefix| + 1 <= p ensures !TailAt(s, p, j) {
    }
  }

  /** `^` anchors at the start of the text: a version on a later line is not found. */
  lemma VersionOnSecondLineNotFound()
    ensures SearchVersion("\nCUDA Version 11.4.0") == None
  {
    var s := "\nCUDA Version 11.4.0";
    assert s[0] != Prefix[0];
  }
}
