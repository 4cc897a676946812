/**
 * String helpers used by the user store and the manager search: ASCII
 * lowercasing (what `str.lower` does on ASCII text), case-insensitive
 * substring search (what the `icontains` lookup asks the database for) and
 * the decimal rendering of ids inside response messages.
 */
module Text {

  predicate IsUpper(c: char) {
    'A' <= c <= 'Z'
  }

  /** Lowercases one ASCII letter; every other character is kept. */
  function LowerChar(c: char): (r: char)
    ensures !IsUpper(r)
    ensures IsUpper(c) ==> 'a' <= r <= 'z' && r as int - c as int == 32
    ensures !IsUpper(c) ==> r == c
  {
    if IsUpper(c) then (c as int + 32) as char else c
  }

  predicate IsLowerString(s: string) {
    forall i :: 0 <= i < |s| ==> !IsUpper(s[i])
  }

  /** `s.lower()` restricted to ASCII letters. */
  function Lower(s: string): (r: string)
    ensures |r| == |s|
    ensures forall i :: 0 <= i < |s| ==> r[i] == LowerChar(s[i])
    ensures IsLowerString(r)
  {
    if s == [] then [] else [LowerChar(s[0])] + Lower(s[1..])
  }

  /** Lowercasing twice is lowercasing once. */
  lemma LowerIdempotent(s: string)
    ensures Lower(Lower(s)) == Lower(s)
  {
    var once := Lower(s);
    var twice := Lower(once);
    assert |twice| == |once|;
    forall i | 0 <= i < |once| ensures twice[i] == once[i] {
      assert once[i] == LowerChar(s[i]);
    }
  }

  /** A string with no upper-case letter is its own lowercase form. */
  lemma {:induction false} LowerOfLowerString(s: string)
    requires IsLowerString(s)
    ensures Lower(s) == s
  {
    if s != [] {
      assert IsLowerString(s[1..]) by {
        forall i | 0 <= i < |s[1..]| ensures !IsUpper(s[1..][i]) {
          assert s[1..][i] == s[i + 1];
        }
      }
      LowerOfLowerString(s[1..]);
      assert s == [s[0]] + s[1..];
    }
  }

  predicate IsPrefix(p: string, s: string) {
    |p| <= |s| && p == s[..|p|]
  }

  /** `p` occurs somewhere in `s` as a contiguous substring. */
  predicate ContainsSub(s: string, p: string)
    decreases |s|
  {
    IsPrefix(p, s) || (s != [] && ContainsSub(s[1..], p))
  }

  ghost predicate OccursAt(s: string, p: string, i: int) {
    0 <= i && i + |p| <= |s| && s[i..i + |p|] == p
  }

  /** The recursive substring test agrees with "some position of `s` starts a copy of `p`". */
  lemma {:induction false} ContainsSubIff(s: string, p: string)
    ensures ContainsSub(s, p) <==> exists i :: OccursAt(s, p, i)
    decreases |s|
  {
    if IsPrefix(p, s) {
      assert OccursAt(s, p, 0);
    } else if s == [] {
    } else {
      ContainsSubIff(s[1..], p);
      if exists i :: OccursAt(s[1..], p, i) {
        var i :| OccursAt(s[1..], p, i);
        assert s[i + 1..i + 1 + |p|] == s[1..][i..i + |p|];
        assert OccursAt(s, p, i + 1);
      }
      if exists i :: OccursAt(s, p, i) {
        var i :| OccursAt(s, p, i);
        assert i != 0;
        assert s[1..][i - 1..i - 1 + |p|] == s[i..i + |p|];
        assert OccursAt(s[1..], p, i - 1);
      }
    }
  }

  /**
   * Case-insensitive containment, as the `icontains` lookup compares:
   * the lowercased query is a substring of the lowercased text.
   */
  predicate IContains(s: string, q: string) {
    ContainsSub(Lower(s), Lower(q))
  }

  /** At position `i` of `s` the characters of `q` follow, ignoring case. */
  ghost predicate MatchesIgnoringCaseAt(s: string, q: string, i: int) {
    0 <= i && i + |q| <= |s| &&
    forall k :: 0 <= k < |q| ==> LowerChar(s[i + k]) == LowerChar(q[k])
  }

  /** `IContains` holds exactly when some position of `s` matches `q` character by character, ignoring case. */
  lemma IContainsIff(s: string, q: string)
    ensures IContains(s, q) <==> exists i :: MatchesIgnoringCaseAt(s, q, i)
  {
    var ls, lq := Lower(s), Lower(q);
    ContainsSubIff(ls, lq);
    forall i | 0 <= i && i + |q| <= |s|
      ensures OccursAt(ls, lq, i) <==> MatchesIgnoringCaseAt(s, q, i)
    {
      if OccursAt(ls, lq, i) {
        forall k | 0 <= k < |q| ensures LowerChar(s[i + k]) == LowerChar(q[k]) {
          assert ls[i..i + |q|][k] == ls[i + k];
        }
      }
      if MatchesIgnoringCaseAt(s, q, i) {
        assert ls[i..i + |q|] == lq by {
          forall k | 0 <= k < |q| ensures ls[i..i + |q|][k] == lq[k] {
            assert ls[i..i + |q|][k] == ls[i + k];
          }
        }
      }
    }
    if exists i :: OccursAt(ls, lq, i) {
      var i :| OccursAt(ls, lq, i);
      assert MatchesIgnoringCaseAt(s, q, i);
    }
    if exists i :: MatchesIgnoringCaseAt(s, q, i) {
      var i :| MatchesIgnoringCaseAt(s, q, i);
      assert OccursAt(ls, lq, i);
    }
  }

  /** The empty query is contained in every text. */
  lemma IContainsEmpty(s: string)
    ensures IContains(s, "")
  {
    assert Lower("") == "";
    assert IsPrefix("", Lower(s));
  }

  /** Changing the case of the query does not change the outcome. */
  lemma IContainsIgnoresQueryCase(s: string, q: string)
    ensures IContains(s, Lower(q)) == IContains(s, q)
  {
    LowerIdempotent(q);
  }

  function DigitChar(d: nat): (c: char)
    requires d < 10
    ensures '0' <= c <= '9'
    ensures c as int - '0' as int == d
  {
    ('0' as int + d) as char
  }

  /** The number a string of decimal digits denotes, most significant digit first. */
  ghost function DecimalValue(s: string): int
    decreases |s|
  {
    if s == [] then 0 else 10 * DecimalValue(s[..|s| - 1]) + (s[|s| - 1] as int - '0' as int)
  }

  /** Decimal rendering of a non-negative integer, as an f-string prints it. */
  function NatToString(n: nat): (s: string)
    ensures |s| > 0
    ensures forall i :: 0 <= i < |s| ==> '0' <= s[i] <= '9'
    ensures n >= 10 ==> s[0] != '0'
    ensures DecimalValue(s) == n
    decreases n
  {
    if n < 10 then [DigitChar(n)]
    else
      var prefix := NatToString(n / 10);
      assert (prefix + [DigitChar(n % 10)])[..|prefix|] == prefix;
      prefix + [DigitChar(n % 10)]
  }

  /** Two different ids never print the same. */
  lemma NatToStringInjective(a: nat, b: nat)
    requires NatToString(a) == NatToString(b)
    ensures a == b
  {
  }

  /** The characters `str.strip()` removes, restricted to ASCII: space, tab to carriage return, and the four separators 0x1C to 0x1F. */
  predicate IsSpace(c: char) {
    c == ' ' || '\t' <= c <= '\r' || '\U{1C}' <= c <= '\U{1F}'
  }

  /** `s.lstrip()`: the suffix left after the leading whitespace. */
  function StripStart(s: string): (r: string)
    ensures |r| <= |s| && r == s[|s| - |r|..]
    ensures forall k :: 0 <= k < |s| - |r| ==> IsSpace(s[k])
    ensures r != [] ==> !IsSpace(r[0])
  {
    if s != [] && IsSpace(s[0]) then StripStart(s[1..]) else s
  }

  /** `s.rstrip()`: the prefix left before the trailing whitespace. */
  function StripEnd(s: string): (r: string)
    ensures |r| <= |s| && r == s[..|r|]
    ensures forall k :: |r| <= k < |s| ==> IsSpace(s[k])
    ensures r != [] ==> !IsSpace(r[|r| - 1])
  {
    if s != [] && IsSpace(s[|s| - 1]) then StripEnd(s[..|s| - 1]) else s
  }

  /** `s.strip()` on ASCII whitespace: `s` without its leading and trailing whitespace. */
  function Strip(s: string): (r: string)
    ensures |r| <= |s|
    ensures r != [] ==> !IsSpace(r[0]) && !IsSpace(r[|r| - 1])
  {
    StripEnd(StripStart(s))
  }

  /** What `Strip` removes is whitespace, and only from the two ends: the result is a window of `s`. */
  lemma StripKeepsWindow(s: string)
    ensures |s| - |StripStart(s)| + |Strip(s)| <= |s|
    ensures Strip(s) == s[|s| - |StripStart(s)|..|s| - |StripStart(s)| + |Strip(s)|]
    ensures forall k :: 0 <= k < |s| - |StripStart(s)| ==> IsSpace(s[k])
    ensures forall k :: |s| - |StripStart(s)| + |Strip(s)| <= k < |s| ==> IsSpace(s[k])
  {
    var t := StripStart(s);
    var i := |s| - |t|;
    var r := StripEnd(t);
    assert t == s[i..] && r == t[..|r|];
    forall k | i + |r| <= k < |s|
      ensures IsSpace(s[k])
    {
      assert s[k] == t[k - i];
    }
  }

  /** A string strips to nothing exactly when it is all whitespace (the framework's "blank"). */
  lemma StripEmptyIff(s: string)
    ensures Strip(s) == [] <==> forall k :: 0 <= k < |s| ==> IsSpace(s[k])
  {
    var t := StripStart(s);
    if !forall k :: 0 <= k < |s| ==> IsSpace(s[k]) {
      var k :| 0 <= k < |s| && !IsSpace(s[k]);
      assert k >= |s| - |t|;
    }
  }

  /** Stripping twice is stripping once. */
  lemma StripIdempotent(s: string)
    ensures Strip(Strip(s)) == Strip(s)
  {
    var r := Strip(s);
    assert StripStart(r) == r;
    assert StripEnd(r) == r;
  }
}
