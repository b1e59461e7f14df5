/**
 * The strength estimate and the three validators: common patterns,
 * runs of identical characters and ambiguous characters.
 */
module Utils {
  import opened Config
  import opened Text

  /** The five classes the strength estimate sorts characters into. */
  datatype CharClass = Lower | Upper | Digit | Symbol | Other

  /**
   * The class of one character: ASCII ranges first, then Python's
   * string.punctuation, and anything else is Other. Each class coincides
   * with the generator's alphabet for it.
   */
  function Classify(c: char): (k: CharClass)
    ensures k == Lower <==> c in Lowercase
    ensures k == Upper <==> c in Uppercase
    ensures k == Digit <==> c in Digits
    ensures k == Symbol <==> c in Punctuation
    ensures k == Other <==> c !in Lowercase + Uppercase + Digits + Punctuation
  {
    LowercaseIsRange(c);
    UppercaseIsRange(c);
    DigitsIsRange(c);
    PunctuationOutsideRanges(c);
    if 'a' <= c <= 'z' then Lower
    else if 'A' <= c <= 'Z' then Upper
    else if '0' <= c <= '9' then Digit
    else if c in Punctuation then Symbol
    else Other
  }

  /** The classes of the characters present in s. */
  function ClassesOf(s: string): set<CharClass> {
    set i | 0 <= i < |s| :: Classify(s[i])
  }

  /** The alphabet size the estimate assumes for each class. */
  function ClassSize(k: CharClass): nat {
    match k
    case Lower => 26
    case Upper => 26
    case Digit => 10
    case Symbol => 32
    case Other => 50
  }

  /** The estimated charset size: the sum of the sizes of the classes present. */
  function CharsetSize(ks: set<CharClass>): (n: nat)
    ensures ks == {} <==> n == 0
    ensures ks != {} ==> 10 <= n <= 144
    ensures forall k :: k in ks ==> ClassSize(k) <= n
  {
    SomeClassPresent(ks);
    (if Lower in ks then 26 else 0)
    + (if Upper in ks then 26 else 0)
    + (if Digit in ks then 10 else 0)
    + (if Symbol in ks then 32 else 0)
    + (if Other in ks then 50 else 0)
  }

  /** More classes present never make the estimated charset smaller. */
  lemma CharsetSizeMonotone(ks: set<CharClass>, ls: set<CharClass>)
    requires ks <= ls
    ensures CharsetSize(ks) <= CharsetSize(ls)
  {
  }

  lemma SomeClassPresent(ks: set<CharClass>)
    ensures ks != {} ==> Lower in ks || Upper in ks || Digit in ks || Symbol in ks || Other in ks
  {
    if ks != {} {
      var k :| k in ks;
      match k
      case Lower =>
      case Upper =>
      case Digit =>
      case Symbol =>
      case Other =>
    }
  }

  lemma ClassesOfSnoc(s: string, c: char)
    ensures ClassesOf(s + [c]) == ClassesOf(s) + {Classify(c)}
  {
    ClassesOfAppend(s, [c]);
    assert ClassesOf([c]) == {Classify(c)} by {
      assert [c][0] == c;
    }
  }

  /**
   * The integer part of calculate_entropy: classify every character, collect
   * the classes seen, and add up their sizes. The entropy itself is
   * |password| * log2(size), and 0 for the empty password.
   */
  method EstimatedCharsetSize(password: string) returns (size: nat)
    ensures size == CharsetSize(ClassesOf(password))
    ensures password == [] <==> size == 0
    ensures password != [] ==> 10 <= size <= 144
  {
    if password == [] {
      return 0;
    }
    var charset: set<CharClass> := {};
    for i := 0 to |password|
      invariant charset == ClassesOf(password[..i])
    {
      assert password[..i + 1] == password[..i] + [password[i]];
      ClassesOfSnoc(password[..i], password[i]);
      charset := charset + {Classify(password[i])};
    }
    assert password[..|password|] == password;
    size := 0;
    if Lower in charset {
      size := size + 26;
    }
    if Upper in charset {
      size := size + 26;
    }
    if Digit in charset {
      size := size + 10;
    }
    if Symbol in charset {
      size := size + 32;
    }
    if Other in charset {
      size := size + 50;
    }
    assert Classify(password[0]) in charset;
  }

  /** The number of strings of the same length over the estimated charset: 2 to the entropy. */
  function GuessSpace(password: string): (n: nat)
    ensures password != [] ==> n >= 10
  {
    assert password != [] ==> Classify(password[0]) in ClassesOf(password);
    Power(CharsetSize(ClassesOf(password)), |password|)
  }

  function Power(b: nat, e: nat): (r: nat)
    ensures b >= 1 ==> r >= 1
    ensures b >= 2 && e >= 1 ==> r >= b
  {
    if e == 0 then 1 else b * Power(b, e - 1)
  }

  lemma {:induction false} PowerMonotone(b: nat, e: nat, f: nat)
    requires b >= 1 && e <= f
    ensures Power(b, e) <= Power(b, f)
    decreases f
  {
    if e < f {
      PowerMonotone(b, e, f - 1);
      var p := Power(b, f - 1);
      assert Power(b, f) == b * p;
      MulMonotone(1, b, p);
    }
  }

  lemma {:induction false} PowerBaseMonotone(b: nat, c: nat, e: nat)
    requires b <= c
    ensures Power(b, e) <= Power(c, e)
  {
    if e > 0 {
      PowerBaseMonotone(b, c, e - 1);
      var x, y := Power(b, e - 1), Power(c, e - 1);
      assert b * x <= c * x by { MulMonotone(b, c, x); }
      assert c * x <= c * y by { MulMonotone(x, y, c); }
    }
  }

  lemma MulMonotone(a: nat, b: nat, m: nat)
    requires a <= b
    ensures a * m <= b * m && m * a <= m * b
  {
  }

  lemma ClassesOfAppend(s: string, t: string)
    ensures ClassesOf(s + t) == ClassesOf(s) + ClassesOf(t)
  {
    forall k | k in ClassesOf(s + t) ensures k in ClassesOf(s) + ClassesOf(t) {
      var i :| 0 <= i < |s + t| && Classify((s + t)[i]) == k;
      if i < |s| { assert (s + t)[i] == s[i]; } else { assert (s + t)[i] == t[i - |s|]; }
    }
    forall k | k in ClassesOf(s) ensures k in ClassesOf(s + t) {
      var i :| 0 <= i < |s| && Classify(s[i]) == k;
      assert (s + t)[i] == s[i];
    }
    forall k | k in ClassesOf(t) ensures k in ClassesOf(s + t) {
      var i :| 0 <= i < |t| && Classify(t[i]) == k;
      assert (s + t)[|s| + i] == t[i];
    }
  }

  /** The estimate depends only on which characters occur, so shuffling a password keeps it. */
  lemma ClassesOfPermutation(s: string, t: string)
    requires multiset(s) == multiset(t)
    ensures ClassesOf(s) == ClassesOf(t)
    ensures GuessSpace(s) == GuessSpace(t)
  {
    forall k | k in ClassesOf(s) ensures k in ClassesOf(t) {
      var i :| 0 <= i < |s| && Classify(s[i]) == k;
      assert s[i] in multiset(t);
      var j :| 0 <= j < |t| && t[j] == s[i];
    }
    forall k | k in ClassesOf(t) ensures k in ClassesOf(s) {
      var j :| 0 <= j < |t| && Classify(t[j]) == k;
      assert t[j] in multiset(s);
      var i :| 0 <= i < |s| && s[i] == t[j];
    }
    assert |s| == |multiset(s)| == |multiset(t)| == |t|;
  }

  /**
   * Appending characters never lowers the estimate: the classes only grow and
   * so does the length.
   */
  lemma GuessSpaceGrows(s: string, t: string)
    ensures GuessSpace(s) <= GuessSpace(s + t)
  {
    ClassesOfAppend(s, t);
    assert s != [] ==> Classify(s[0]) in ClassesOf(s);
    var b := CharsetSize(ClassesOf(s));
    var c := CharsetSize(ClassesOf(s + t));
    if s != [] {
      PowerBaseMonotone(b, c, |s|);
      PowerMonotone(c, |s|, |s + t|);
    }
  }

  /** For a fixed mix of classes the estimate grows with the length. */
  lemma GuessSpaceMonotoneInLength(s: string, t: string)
    requires ClassesOf(s) == ClassesOf(t) && |s| <= |t|
    ensures GuessSpace(s) <= GuessSpace(t)
  {
    if s != [] {
      assert Classify(s[0]) in ClassesOf(s);
      PowerMonotone(CharsetSize(ClassesOf(s)), |s|, |t|);
    }
  }

  /** The loop of check_for_common_patterns: some pattern of the list occurs in s. */
  function AnyInfix(patterns: seq<string>, s: string): (found: bool)
    ensures found <==> exists k :: 0 <= k < |patterns| && IsInfix(patterns[k], s)
  {
    if patterns == [] then false
    else if IsInfix(patterns[0], s) then true
    else
      var rest := AnyInfix(patterns[1..], s);
      assert forall k :: 1 <= k < |patterns| ==> patterns[k] == patterns[1..][k - 1];
      rest
  }

  /**
   * check_for_common_patterns: some entry of the pattern list occurs in the
   * lower-cased password.
   */
  function HasCommonPattern(password: string): (found: bool)
    ensures found <==> exists k :: 0 <= k < |CommonPatterns| && IsInfix(CommonPatterns[k], ToLower(password))
  {
    AnyInfix(CommonPatterns, ToLower(password))
  }

  /** i starts a run of k + 1 identical characters in p. */
  predicate RunAt(p: string, i: nat, k: nat) {
    i + k < |p| && forall j :: i <= j <= i + k ==> p[j] == p[i]
  }

  /** Python's all(p[j] == p[i] for j in range(lo, hi)). */
  function AllEqualTo(p: string, i: nat, lo: nat, hi: nat): (same: bool)
    requires i < |p| && lo <= hi <= |p|
    ensures same <==> (forall j :: lo <= j < hi ==> p[j] == p[i])
    decreases hi - lo
  {
    lo == hi || (p[lo] == p[i] && AllEqualTo(p, i, lo + 1, hi))
  }

  /** The scan of check_for_consecutive_repetitions from start position i on. */
  function RunFrom(p: string, k: nat, i: nat): (found: bool)
    ensures found <==> exists j :: i <= j < |p| && RunAt(p, j, k)
    decreases |p| - i
  {
    if i + k < |p| then
      assert AllEqualTo(p, i, i, i + k + 1) <==> RunAt(p, i, k);
      AllEqualTo(p, i, i, i + k + 1) || RunFrom(p, k, i + 1)
    else
      false
  }

  /**
   * check_for_consecutive_repetitions: some character repeats
   * maxConsecutive + 1 times in a row; a threshold below 1 disables the check.
   */
  function HasConsecutiveRepetition(password: string, maxConsecutive: int): (found: bool)
    ensures maxConsecutive < 1 ==> !found
    ensures maxConsecutive >= 1 ==>
      (found <==> exists i :: 0 <= i < |password| && RunAt(password, i, maxConsecutive))
    ensures |password| <= maxConsecutive ==> !found
  {
    if maxConsecutive < 1 then false else RunFrom(password, maxConsecutive, 0)
  }

  /** The threshold the program passes by default: three identical characters in a row. */
  const DefaultMaxConsecutive: int := 2

  /** A run flagged at threshold k is also flagged at every lower threshold. */
  lemma RepetitionAntitone(password: string, k: int)
    requires k >= 2 && HasConsecutiveRepetition(password, k)
    ensures HasConsecutiveRepetition(password, k - 1)
  {
    var i :| 0 <= i < |password| && RunAt(password, i, k);
    assert RunAt(password, i, k - 1);
  }

  /** The examples of the doc comment: "aaa" and "111" are flagged, "aab" is not. */
  lemma RepetitionExamples()
    ensures HasConsecutiveRepetition("aaa", DefaultMaxConsecutive)
    ensures HasConsecutiveRepetition("111", DefaultMaxConsecutive)
    ensures !HasConsecutiveRepetition("aab", DefaultMaxConsecutive)
  {
    assert RunAt("aaa", 0, 2);
    assert RunAt("111", 0, 2);
  }

  /** check_for_ambiguous_chars: some character of the password is one of "lIO01". */
  function HasAmbiguousChars(password: string): (found: bool)
    ensures found <==> exists i :: 0 <= i < |password| && password[i] in Ambiguous
    ensures found <==> CountIn(password, Ambiguous) > 0
  {
    if password == [] then false
    else
      var rest := HasAmbiguousChars(password[1..]);
      assert forall i :: 1 <= i < |password| ==> password[i] == password[1..][i - 1];
      password[0] in Ambiguous || rest
  }

  /** The pattern check ignores case: a password and its lower-cased form get the same verdict. */
  lemma PatternCheckIgnoresCase(password: string)
    ensures HasCommonPattern(ToLower(password)) == HasCommonPattern(password)
  {
    assert ToLower(ToLower(password)) == ToLower(password);
  }
}
