/**
 * The pure format predicates the rules call on evaluated values.
 */
module Validators {
  import opened Hcl

  // ---------------------------------------------------------------------------
  // Placeholders: each accepts any non-empty string.

  /** `isValidCIDR` (rules/rule_ibm_is_cluster_network.go). */
  predicate IsValidCIDR(s: GoString) {
    |s| > 0
  }

  /** `isValidZone` (rules/rule_ibm_is_dedicated_host_group.go). */
  predicate IsValidZone(s: GoString) {
    |s| > 0
  }

  /** `isValidCronSpec` (rules/rule_ibm_is_instance_group_manager_action.go). */
  predicate IsValidCronSpec(s: GoString) {
    |s| > 0
  }

  /** `isValidTimeout` (rules/rule_ibm_is_snapshot.go). */
  predicate IsValidTimeout(s: GoString) {
    |s| > 0
  }

  /** `isValidCOSURL` (rules/rule_ibm_is_image.go). */
  predicate IsValidCOSURL(s: GoString) {
    |s| > 0
  }

  /** The placeholders reject the empty string and nothing else. */
  lemma PlaceholdersRejectOnlyEmpty(s: GoString)
    ensures IsValidCIDR(s) <==> s != []
    ensures IsValidZone(s) <==> s != []
    ensures IsValidCronSpec(s) <==> s != []
    ensures IsValidTimeout(s) <==> s != []
    ensures IsValidCOSURL(s) <==> s != []
  {
  }

  // ---------------------------------------------------------------------------
  // isValidIPv4: the empty string is rejected before `net.ParseIP` is asked.

  predicate IsValidIPv4(env: Env, s: GoString) {
    s != [] && env.parseIP(s)
  }

  /** The empty address is rejected whatever the parser says; any other follows the parser. */
  lemma IPv4FollowsParser(env: Env, s: GoString)
    ensures !IsValidIPv4(env, [])
    ensures s != [] ==> (IsValidIPv4(env, s) <==> env.parseIP(s))
  {
  }

  // ---------------------------------------------------------------------------
  // isPowerOfTwo: `n > 0 && n & (n - 1) == 0`.

  /** Bitwise AND of two non-negative integers, bit by bit from the lowest. */
  function BitAnd(a: nat, b: nat): nat
    decreases a
  {
    if a == 0 || b == 0 then 0
    else 2 * BitAnd(a / 2, b / 2) + (if a % 2 == 1 && b % 2 == 1 then 1 else 0)
  }

  function Pow2(k: nat): (r: nat)
    ensures r > 0
  {
    if k == 0 then 1 else 2 * Pow2(k - 1)
  }

  predicate IsPowerOfTwo(n: int) {
    n > 0 && BitAnd(n, n - 1) == 0
  }

  lemma {:induction false} BitAndSelf(m: nat)
    ensures BitAnd(m, m) == m
    decreases m
  {
    if m > 0 {
      BitAndSelf(m / 2);
    }
  }

  lemma {:induction false} Pow2Clear(k: nat)
    ensures BitAnd(Pow2(k), Pow2(k) - 1) == 0
  {
    if k > 0 {
      Pow2Clear(k - 1);
      assert Pow2(k) / 2 == Pow2(k - 1);
      assert (Pow2(k) - 1) / 2 == Pow2(k - 1) - 1;
    }
  }

  lemma {:induction false} ClearIsPow2(n: nat)
    requires n > 0 && BitAnd(n, n - 1) == 0
    ensures exists k: nat :: n == Pow2(k)
    decreases n
  {
    if n == 1 {
      assert n == Pow2(0);
    } else if n % 2 == 1 {
      assert (n - 1) / 2 == n / 2;
      BitAndSelf(n / 2);
      assert false;
    } else {
      assert (n - 1) / 2 == n / 2 - 1;
      ClearIsPow2(n / 2);
      var k: nat :| n / 2 == Pow2(k);
      assert n == Pow2(k + 1);
    }
  }

  /** `isPowerOfTwo` holds exactly for the powers of two 1, 2, 4, 8, and so on. */
  lemma PowerOfTwoIff(n: int)
    ensures IsPowerOfTwo(n) <==> n > 0 && exists k: nat :: n == Pow2(k)
  {
    if n > 0 && exists k: nat :: n == Pow2(k) {
      var k: nat :| n == Pow2(k);
      Pow2Clear(k);
    }
    if IsPowerOfTwo(n) {
      ClearIsPow2(n);
    }
  }

  /**
   * The accepted subnet address counts: `count < 8 || count > 8192 ||
   * !isPowerOfTwo(count)` is reported.
   */
  predicate SubnetSize(n: int) {
    8 <= n <= 8192 && IsPowerOfTwo(n)
  }

  lemma {:induction false} Pow2Grows(j: nat, k: nat)
    requires j < k
    ensures Pow2(j) < Pow2(k)
    decreases k
  {
    if j < k - 1 {
      Pow2Grows(j, k - 1);
    }
  }

  /** The accepted counts are exactly 8, 16, 32, and so on up to 8192. */
  lemma SubnetSizeIff(n: int)
    ensures SubnetSize(n) <==> exists k: nat :: 3 <= k <= 13 && n == Pow2(k)
  {
    PowerOfTwoIff(n);
    assert Pow2(3) == 8;
    assert Pow2(13) == 8192 by {
      assert Pow2(10) == 1024;
    }
    if SubnetSize(n) {
      var k: nat :| n == Pow2(k);
      if k < 3 {
        Pow2Grows(k, 3);
      }
      if k > 13 {
        Pow2Grows(13, k);
      }
    }
    if exists k: nat :: 3 <= k <= 13 && n == Pow2(k) {
      var k: nat :| 3 <= k <= 13 && n == Pow2(k);
      if k > 3 {
        Pow2Grows(3, k);
      }
      if k < 13 {
        Pow2Grows(k, 13);
      }
    }
  }

  // ---------------------------------------------------------------------------
  // isValidPublicKey: trim, split into whitespace-separated fields, then ask
  // for at least two fields, the first beginning with `ssh-rsa` or
  // `ssh-ed25519`.

  /** The ASCII white space of `unicode.IsSpace`. */
  predicate IsSpace(c: Octet) {
    c == ' ' || c == '\t' || c == '\n' || c as int == 0x0B || c as int == 0x0C || c == '\r'
  }

  predicate AllSpace(s: GoString) {
    forall i :: 0 <= i < |s| ==> IsSpace(s[i])
  }

  predicate NoSpace(s: GoString) {
    forall i :: 0 <= i < |s| ==> !IsSpace(s[i])
  }

  /**
   * `strings.TrimSpace`: nothing is left of an all-space string, and
   * otherwise the result neither starts nor ends with white space.
   */
  function TrimSpace(s: GoString): (r: GoString)
    ensures |r| <= |s|
    ensures r == [] <==> AllSpace(s)
    ensures r == [] || (!IsSpace(r[0]) && !IsSpace(r[|r| - 1]))
    decreases |s|
  {
    if s == [] then []
    else if IsSpace(s[0]) then TrimSpace(s[1..])
    else if IsSpace(s[|s| - 1]) then TrimSpace(s[..|s| - 1])
    else s
  }

  /** The length of the leading run of non-space bytes. */
  function WordLength(s: GoString): (n: nat)
    ensures n <= |s|
    ensures NoSpace(s[..n])
    ensures n < |s| ==> IsSpace(s[n])
  {
    if s == [] || IsSpace(s[0]) then 0
    else 1 + WordLength(s[1..])
  }

  /** `strings.Fields`: the maximal runs of non-space bytes, in order. */
  function Fields(s: GoString): (r: seq<GoString>)
    ensures forall i :: 0 <= i < |r| ==> |r[i]| > 0 && NoSpace(r[i])
    decreases |s|
  {
    if s == [] then []
    else if IsSpace(s[0]) then Fields(s[1..])
    else
      var n := WordLength(s);
      [s[..n]] + Fields(s[n..])
  }

  predicate HasPrefix(s: GoString, prefix: GoString) {
    |prefix| <= |s| && s[..|prefix|] == prefix
  }

  predicate IsValidPublicKey(key: GoString) {
    var parts := Fields(TrimSpace(key));
    |parts| >= 2 && (HasPrefix(parts[0], "ssh-rsa") || HasPrefix(parts[0], "ssh-ed25519"))
  }

  /** Fields separated by single spaces, the inverse of `Fields` on well-formed lists. */
  function Join(parts: seq<GoString>): GoString {
    if parts == [] then []
    else if |parts| == 1 then parts[0]
    else parts[0] + [' '] + Join(parts[1..])
  }

  lemma {:induction false} FieldsOfSpace(s: GoString)
    requires AllSpace(s)
    ensures Fields(s) == []
    decreases |s|
  {
    if s != [] {
      FieldsOfSpace(s[1..]);
    }
  }

  lemma {:induction false} WordLengthOfWord(w: GoString, rest: GoString)
    requires NoSpace(w)
    requires rest == [] || IsSpace(rest[0])
    ensures WordLength(w + rest) == |w|
    decreases |w|
  {
    if w != [] {
      assert (w + rest)[1..] == w[1..] + rest;
      WordLengthOfWord(w[1..], rest);
    }
  }

  /** White space before the text does not change the fields. */
  lemma {:induction false} FieldsSkipLeading(ws: GoString, s: GoString)
    requires AllSpace(ws)
    ensures Fields(ws + s) == Fields(s)
    decreases |ws|
  {
    if ws != [] {
      assert (ws + s)[0] == ws[0];
      assert (ws + s)[1..] == ws[1..] + s;
      FieldsSkipLeading(ws[1..], s);
    } else {
      assert ws + s == s;
    }
  }

  /** White space after the text does not change the fields. */
  lemma {:induction false} FieldsSkipTrailing(s: GoString, ws: GoString)
    requires AllSpace(ws)
    ensures Fields(s + ws) == Fields(s)
    decreases |s|
  {
    if s == [] {
      assert s + ws == ws;
      FieldsOfSpace(ws);
    } else if IsSpace(s[0]) {
      assert (s + ws)[1..] == s[1..] + ws;
      FieldsSkipTrailing(s[1..], ws);
    } else {
      var n := WordLength(s);
      var rest := s[n..];
      assert s == s[..n] + rest;
      assert s + ws == s[..n] + (rest + ws);
      WordLengthOfWord(s[..n], rest + ws);
      assert (s + ws)[..n] == s[..n];
      assert (s + ws)[n..] == rest + ws;
      FieldsSkipTrailing(rest, ws);
    }
  }

  /** `strings.TrimSpace` before `strings.Fields` changes nothing. */
  lemma {:induction false} FieldsOfTrimSpace(s: GoString)
    ensures Fields(TrimSpace(s)) == Fields(s)
    decreases |s|
  {
    if s == [] {
    } else if IsSpace(s[0]) {
      FieldsOfTrimSpace(s[1..]);
    } else if IsSpace(s[|s| - 1]) {
      var init := s[..|s| - 1];
      FieldsOfTrimSpace(init);
      FieldsSkipTrailing(init, [s[|s| - 1]]);
      assert s == init + [s[|s| - 1]];
    }
  }

  /** `strings.TrimSpace` only removes white space from the two ends: the result is a slice of `s`. */
  lemma {:induction false} TrimSpaceIsSlice(s: GoString)
    ensures exists i, j :: 0 <= i <= j <= |s| && TrimSpace(s) == s[i..j] && AllSpace(s[..i]) && AllSpace(s[j..])
    decreases |s|
  {
    if s == [] {
      assert TrimSpace(s) == s[0..0] && AllSpace(s[..0]) && AllSpace(s[0..]);
    } else if IsSpace(s[0]) {
      TrimSpaceIsSlice(s[1..]);
      var i, j :| 0 <= i <= j <= |s[1..]| && TrimSpace(s[1..]) == s[1..][i..j]
                  && AllSpace(s[1..][..i]) && AllSpace(s[1..][j..]);
      SliceAfterSpace(s, i, j);
      assert TrimSpace(s) == s[i + 1..j + 1];
    } else if IsSpace(s[|s| - 1]) {
      var init := s[..|s| - 1];
      TrimSpaceIsSlice(init);
      var i, j :| 0 <= i <= j <= |init| && TrimSpace(init) == init[i..j]
                  && AllSpace(init[..i]) && AllSpace(init[j..]);
      SliceBeforeSpace(s, i, j);
      assert TrimSpace(s) == s[i..j];
    } else {
      assert TrimSpace(s) == s[0..|s|] && AllSpace(s[..0]) && AllSpace(s[|s|..]);
    }
  }

  lemma SliceAfterSpace(s: GoString, i: nat, j: nat)
    requires 0 < |s| && IsSpace(s[0]) && i <= j <= |s| - 1
    requires AllSpace(s[1..][..i]) && AllSpace(s[1..][j..])
    ensures s[1..][i..j] == s[i + 1..j + 1]
    ensures AllSpace(s[..i + 1]) && AllSpace(s[j + 1..])
  {
    assert s[j + 1..] == s[1..][j..];
    var pre := s[..i + 1];
    forall k | 0 <= k < |pre|
      ensures IsSpace(pre[k])
    {
      if k > 0 {
        assert pre[k] == s[1..][..i][k - 1];
      }
    }
  }

  lemma SliceBeforeSpace(s: GoString, i: nat, j: nat)
    requires 0 < |s| && IsSpace(s[|s| - 1]) && i <= j <= |s| - 1
    requires AllSpace(s[..|s| - 1][..i]) && AllSpace(s[..|s| - 1][j..])
    ensures s[..|s| - 1][i..j] == s[i..j]
    ensures AllSpace(s[..i]) && AllSpace(s[j..])
  {
    assert s[..|s| - 1][..i] == s[..i];
    forall k | 0 <= k < |s| - j
      ensures IsSpace(s[j..][k])
    {
      if k < |s| - 1 - j {
        assert s[j..][k] == s[..|s| - 1][j..][k];
      }
    }
  }

  /** Words separated by non-empty runs of white space: `words[0] + seps[0] + words[1] + ...`. */
  function Spaced(words: seq<GoString>, seps: seq<GoString>): GoString
    requires |words| == |seps| + 1
    decreases |seps|
  {
    if seps == [] then words[0] else words[0] + seps[0] + Spaced(words[1..], seps[1..])
  }

  /**
   * `strings.Fields` returns exactly the words of any text made of words
   * separated by white-space runs of any length, with white space of any
   * length before and after.
   */
  lemma {:induction false} FieldsOfSpaced(lead: GoString, words: seq<GoString>, seps: seq<GoString>, trail: GoString)
    requires AllSpace(lead) && AllSpace(trail)
    requires |words| == |seps| + 1
    requires forall i :: 0 <= i < |words| ==> |words[i]| > 0 && NoSpace(words[i])
    requires forall i :: 0 <= i < |seps| ==> |seps[i]| > 0 && AllSpace(seps[i])
    ensures Fields(lead + Spaced(words, seps) + trail) == words
    decreases |seps|
  {
    var w := words[0];
    var body := Spaced(words, seps) + trail;
    assert lead + Spaced(words, seps) + trail == lead + body;
    FieldsSkipLeading(lead, body);
    if seps == [] {
      WordLengthOfWord(w, trail);
      assert body[..|w|] == w;
      assert body[|w|..] == trail;
      FieldsOfSpace(trail);
      assert words == [w];
    } else {
      var rest := Spaced(words[1..], seps[1..]) + trail;
      var tail := seps[0] + rest;
      assert body == w + tail;
      assert tail[0] == seps[0][0];
      WordLengthOfWord(w, tail);
      assert body[..|w|] == w;
      assert body[|w|..] == tail;
      FieldsOfSpaced(seps[0], words[1..], seps[1..], trail);
      assert seps[0] + Spaced(words[1..], seps[1..]) + trail == tail;
      assert words == [w] + words[1..];
    }
  }

  /** Splitting undoes joining fields that are non-empty and free of white space. */
  lemma {:induction false} FieldsOfJoin(parts: seq<GoString>)
    requires forall i :: 0 <= i < |parts| ==> |parts[i]| > 0 && NoSpace(parts[i])
    ensures Fields(Join(parts)) == parts
    decreases |parts|
  {
    if |parts| == 1 {
      WordLengthOfWord(parts[0], []);
      assert parts[0] + [] == parts[0];
      assert Join(parts)[|parts[0]|..] == [];
    } else if |parts| > 1 {
      var w := parts[0];
      var tail := [' '] + Join(parts[1..]);
      assert Join(parts) == w + tail;
      WordLengthOfWord(w, tail);
      assert (w + tail)[..|w|] == w;
      assert (w + tail)[|w|..] == tail;
      FieldsOfJoin(parts[1..]);
      FieldsSkipLeading([' '], Join(parts[1..]));
      assert parts == [w] + parts[1..];
    }
  }

  /**
   * A key is accepted exactly when it has at least two fields and its first
   * begins with `ssh-rsa` or `ssh-ed25519`; surrounding white space is
   * irrelevant, and blank input is rejected.
   */
  lemma PublicKeyIff(key: GoString)
    ensures IsValidPublicKey(key) <==>
      |Fields(key)| >= 2 && (HasPrefix(Fields(key)[0], "ssh-rsa") || HasPrefix(Fields(key)[0], "ssh-ed25519"))
    ensures AllSpace(key) ==> !IsValidPublicKey(key)
  {
    FieldsOfTrimSpace(key);
    if AllSpace(key) {
      FieldsOfSpace(key);
    }
  }

  /** White space around a key does not change whether it is accepted. */
  lemma PublicKeyIgnoresPadding(pre: GoString, key: GoString, post: GoString)
    requires AllSpace(pre) && AllSpace(post)
    ensures IsValidPublicKey(pre + key + post) == IsValidPublicKey(key)
  {
    assert pre + key + post == pre + (key + post);
    FieldsOfTrimSpace(pre + key + post);
    FieldsOfTrimSpace(key);
    FieldsSkipLeading(pre, key + post);
    FieldsSkipTrailing(key, post);
  }

  /** A key typed as `type body [comment]` with single spaces is accepted exactly when its type qualifies. */
  lemma PublicKeyOfJoin(parts: seq<GoString>)
    requires |parts| >= 2
    requires forall i :: 0 <= i < |parts| ==> |parts[i]| > 0 && NoSpace(parts[i])
    ensures IsValidPublicKey(Join(parts)) <==> HasPrefix(parts[0], "ssh-rsa") || HasPrefix(parts[0], "ssh-ed25519")
  {
    FieldsOfJoin(parts);
    FieldsOfTrimSpace(Join(parts));
  }
}
