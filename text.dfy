/**
 * The Python string primitives the generator and the validators rely on:
 * str.strip, str.split with a one-character separator, str.join, str.lower,
 * str.capitalize and the `in` substring test, restricted to what they do on
 * the characters this program handles.
 */
module Text {

  /**
   * Python's str.isspace for one character: the ASCII controls tab through
   * carriage return and the four separators 0x1c-0x1f, space, and the Unicode
   * spaces and line/paragraph separators.
   */
  predicate IsSpace(c: char) {
    || '\t' <= c <= '\r'
    || '\U{1c}' <= c <= '\U{1f}'
    || c == ' '
    || c == '\U{85}' || c == '\U{a0}' || c == '\U{1680}'
    || '\U{2000}' <= c <= '\U{200a}'
    || c == '\U{2028}' || c == '\U{2029}' || c == '\U{202f}' || c == '\U{205f}' || c == '\U{3000}'
  }

  /** True when every character of s is whitespace (the empty string included). */
  predicate IsBlank(s: string) {
    forall k :: 0 <= k < |s| ==> IsSpace(s[k])
  }

  /** How many whitespace characters s starts with. */
  function LeadingSpaces(s: string): (n: nat)
    ensures n <= |s|
    ensures forall k :: 0 <= k < n ==> IsSpace(s[k])
    ensures n < |s| ==> !IsSpace(s[n])
  {
    if s == [] || !IsSpace(s[0]) then 0
    else
      var m := LeadingSpaces(s[1..]);
      assert forall k :: 1 <= k < |s| ==> s[k] == s[1..][k - 1];
      1 + m
  }

  /** How many whitespace characters s ends with. */
  function TrailingSpaces(s: string): (n: nat)
    ensures n <= |s|
    ensures forall k :: |s| - n <= k < |s| ==> IsSpace(s[k])
    ensures n < |s| ==> !IsSpace(s[|s| - n - 1])
  {
    if s == [] || !IsSpace(s[|s| - 1]) then 0
    else
      var m := TrailingSpaces(s[..|s| - 1]);
      assert forall k :: 0 <= k < |s| - 1 ==> s[k] == s[..|s| - 1][k];
      1 + m
  }

  /** Python's str.strip() with no argument: s between its leading and its trailing whitespace. */
  function Strip(s: string): (r: string)
    ensures |r| <= |s|
  {
    var i := LeadingSpaces(s);
    if i == |s| then [] else s[i..|s| - TrailingSpaces(s)]
  }

  /** The stripped string is the slice of s left after removing a blank run at each end. */
  lemma StripSlice(s: string)
    ensures StrippedAt(Strip(s), s, LeadingSpaces(s))
  {
    var i, r := LeadingSpaces(s), Strip(s);
    var head := s[..i];
    forall k | 0 <= k < |head| ensures IsSpace(head[k]) {
      assert head[k] == s[k];
    }
    if i < |s| {
      var j := |s| - TrailingSpaces(s);
      assert r == s[i..j] && i + |r| == j;
      var tail := s[j..];
      forall k | 0 <= k < |tail| ensures IsSpace(tail[k]) {
        assert tail[k] == s[j + k];
      }
    } else {
      assert r == [] && s[i + |r|..] == [];
    }
  }

  /** A non-empty stripped string begins and ends with non-whitespace. */
  lemma StripEnds(s: string)
    ensures Strip(s) != [] ==> !IsSpace(Strip(s)[0]) && !IsSpace(Strip(s)[|Strip(s)| - 1])
  {
    var i := LeadingSpaces(s);
    if i < |s| {
      var j := |s| - TrailingSpaces(s);
      assert Strip(s)[0] == s[i];
      assert Strip(s)[|Strip(s)| - 1] == s[j - 1];
    }
  }

  /** Stripping leaves nothing exactly when s is all whitespace. */
  lemma StripEmpty(s: string)
    ensures Strip(s) == [] <==> IsBlank(s)
  {
    var i := LeadingSpaces(s);
    if i < |s| {
      assert !IsSpace(s[i]);
      assert |Strip(s)| == |s| - TrailingSpaces(s) - i;
    }
  }

  /** r is s with blank runs of s removed before position i and after r. */
  predicate StrippedAt(r: string, s: string, i: nat) {
    i + |r| <= |s| && r == s[i..i + |r|] && IsBlank(s[..i]) && IsBlank(s[i + |r|..])
  }

  /** The index of the first occurrence of c in s. */
  function IndexOf(s: string, c: char): (i: nat)
    requires c in s
    ensures i < |s| && s[i] == c && c !in s[..i]
  {
    if s[0] == c then 0 else 1 + IndexOf(s[1..], c)
  }

  lemma {:induction false} IndexOfFirst(s: string, c: char, i: nat)
    requires i < |s| && s[i] == c && c !in s[..i]
    ensures IndexOf(s, c) == i
  {
    if i > 0 {
      assert s[..i][0] == s[0];
      assert s[1..][..i - 1] == s[..i][1..];
      IndexOfFirst(s[1..], c, i - 1);
    }
  }

  /** Python's delim.join(parts). */
  function Join(parts: seq<string>, delim: string): string
  {
    if |parts| == 0 then ""
    else if |parts| == 1 then parts[0]
    else parts[0] + delim + Join(parts[1..], delim)
  }

  /** The summed length of the parts. */
  function TotalLength(parts: seq<string>): nat {
    if parts == [] then 0 else |parts[0]| + TotalLength(parts[1..])
  }

  /** Joining n parts adds n - 1 delimiters to their summed length. */
  lemma {:induction false} JoinLength(parts: seq<string>, delim: string)
    requires parts != []
    ensures |Join(parts, delim)| == TotalLength(parts) + (|parts| - 1) * |delim|
  {
    if |parts| > 1 {
      JoinLength(parts[1..], delim);
      assert (|parts| - 1) * |delim| == (|parts| - 2) * |delim| + |delim|;
    } else {
      assert parts[1..] == [];
    }
  }

  /** Every part occurs in the joined string. */
  lemma {:induction false} JoinContainsParts(parts: seq<string>, delim: string)
    ensures forall k :: 0 <= k < |parts| ==> IsInfix(parts[k], Join(parts, delim))
  {
    if |parts| == 1 {
      assert OccursAt(parts[0], Join(parts, delim), 0);
    } else if |parts| > 1 {
      var head := parts[0] + delim;
      var rest := Join(parts[1..], delim);
      assert Join(parts, delim) == head + rest;
      JoinContainsParts(parts[1..], delim);
      forall k | 0 <= k < |parts| ensures IsInfix(parts[k], Join(parts, delim)) {
        if k == 0 {
          assert (head + rest)[0..|parts[0]|] == parts[0];
          assert OccursAt(parts[0], head + rest, 0);
        } else {
          assert parts[k] == parts[1..][k - 1];
          var i :| 0 <= i <= |rest| && OccursAt(parts[k], rest, i);
          OccursShift(parts[k], head, rest, i);
        }
      }
    }
  }

  /** An occurrence in v is an occurrence in u + v, shifted by |u|. */
  lemma OccursShift(p: string, u: string, v: string, i: nat)
    requires OccursAt(p, v, i)
    ensures OccursAt(p, u + v, |u| + i)
  {
    assert (u + v)[|u| + i..|u| + i + |p|] == v[i..i + |p|];
  }

  /**
   * Python's s.split(sep) for a one-character separator: the pieces between
   * separators, including empty ones; joining them back gives s.
   */
  function Split(s: string, sep: char): (parts: seq<string>)
    ensures |parts| >= 1
    ensures |parts| == 1 <==> sep !in s
    ensures forall k :: 0 <= k < |parts| ==> sep !in parts[k]
    ensures Join(parts, [sep]) == s
    decreases |s|
  {
    if sep !in s then [s]
    else
      var i := IndexOf(s, sep);
      var rest := Split(s[i + 1..], sep);
      assert s == s[..i] + [sep] + s[i + 1..];
      [s[..i]] + rest
  }

  /** Splitting undoes joining when no piece contains the separator. */
  lemma {:induction false} SplitJoin(parts: seq<string>, sep: char)
    requires |parts| >= 1
    requires forall k :: 0 <= k < |parts| ==> sep !in parts[k]
    ensures Split(Join(parts, [sep]), sep) == parts
  {
    if |parts| > 1 {
      var s := Join(parts, [sep]);
      var tail := Join(parts[1..], [sep]);
      assert s == parts[0] + [sep] + tail;
      assert s[|parts[0]|] == sep;
      assert s[..|parts[0]|] == parts[0];
      IndexOfFirst(s, sep, |parts[0]|);
      assert s[|parts[0]| + 1..] == tail;
      assert Split(s, sep) == [parts[0]] + Split(tail, sep);
      SplitJoin(parts[1..], sep);
      assert parts == [parts[0]] + parts[1..];
    }
  }

  /** A lower-case letter for an ASCII upper-case one; any other character unchanged. */
  function ToLowerChar(c: char): char {
    if 'A' <= c <= 'Z' then (c as int - 'A' as int + 'a' as int) as char else c
  }

  /** An upper-case letter for an ASCII lower-case one; any other character unchanged. */
  function ToUpperChar(c: char): char {
    if 'a' <= c <= 'z' then (c as int - 'a' as int + 'A' as int) as char else c
  }

  /** Python's str.lower() on ASCII letters. */
  function ToLower(s: string): (r: string)
    ensures |r| == |s|
    ensures forall k :: 0 <= k < |s| ==> r[k] == ToLowerChar(s[k])
    ensures forall k :: 0 <= k < |r| ==> !('A' <= r[k] <= 'Z')
  {
    if s == [] then [] else [ToLowerChar(s[0])] + ToLower(s[1..])
  }

  /** Python's str.capitalize(): the first character upper-cased, the rest lower-cased. */
  function Capitalize(w: string): (r: string)
    ensures |r| == |w|
    ensures ToLower(r) == ToLower(w)
    ensures r != [] ==> !('a' <= r[0] <= 'z')
    ensures forall k :: 1 <= k < |r| ==> !('A' <= r[k] <= 'Z')
  {
    if w == [] then [] else [ToUpperChar(w[0])] + ToLower(w[1..])
  }

  /** Python's `p in s` on strings: p occurs contiguously somewhere in s. */
  predicate IsInfix(p: string, s: string) {
    exists i :: 0 <= i <= |s| && OccursAt(p, s, i)
  }

  predicate OccursAt(p: string, s: string, i: nat) {
    i + |p| <= |s| && s[i..i + |p|] == p
  }

  /** How many characters of s belong to the alphabet a. */
  function CountIn(s: string, a: string): (n: nat)
    ensures n <= |s|
  {
    if s == [] then 0 else (if s[0] in a then 1 else 0) + CountIn(s[1..], a)
  }

  lemma {:induction false} CountInAppend(s: string, t: string, a: string)
    ensures CountIn(s + t, a) == CountIn(s, a) + CountIn(t, a)
  {
    if s != [] {
      assert (s + t)[1..] == s[1..] + t;
      CountInAppend(s[1..], t, a);
    } else {
      assert s + t == t;
    }
  }

  lemma CountInRemove(t: string, j: nat, a: string)
    requires j < |t|
    ensures CountIn(t, a) == (if t[j] in a then 1 else 0) + CountIn(t[..j] + t[j + 1..], a)
  {
    assert t == t[..j] + ([t[j]] + t[j + 1..]);
    CountInAppend(t[..j], [t[j]] + t[j + 1..], a);
    CountInAppend([t[j]], t[j + 1..], a);
    CountInAppend(t[..j], t[j + 1..], a);
  }

  /** Taking the first character of s and an equal character of t off two permutations leaves permutations. */
  lemma RemoveMatching(s: string, t: string, j: nat)
    requires multiset(s) == multiset(t)
    requires s != [] && j < |t| && t[j] == s[0]
    ensures multiset(s[1..]) == multiset(t[..j] + t[j + 1..])
  {
    assert s == [s[0]] + s[1..];
    assert t == t[..j] + [t[j]] + t[j + 1..];
    assert multiset(s[1..]) == multiset(s) - multiset{s[0]};
    assert multiset(t[..j] + t[j + 1..]) == multiset(t) - multiset{t[j]};
  }

  /** Counting is blind to order: rearranging a string keeps every count. */
  lemma {:induction false} CountInPermutation(s: string, t: string, a: string)
    requires multiset(s) == multiset(t)
    ensures CountIn(s, a) == CountIn(t, a)
    decreases |s|
  {
    if s != [] {
      assert s[0] in multiset(t);
      var j :| 0 <= j < |t| && t[j] == s[0];
      var rest := t[..j] + t[j + 1..];
      RemoveMatching(s, t, j);
      CountInPermutation(s[1..], rest, a);
      CountInRemove(t, j, a);
    } else {
      assert |t| == |multiset(t)| == 0;
    }
  }

  /** Every character of s lies in the alphabet exactly when the count is the whole length. */
  lemma {:induction false} CountInAll(s: string, a: string)
    ensures CountIn(s, a) == |s| <==> forall k :: 0 <= k < |s| ==> s[k] in a
  {
    if s != [] {
      CountInAll(s[1..], a);
      assert forall k :: 1 <= k < |s| ==> s[k] == s[1..][k - 1];
    }
  }

  /** No character of s in the alphabet means a count of zero. */
  lemma {:induction false} CountInNone(s: string, a: string)
    requires forall k :: 0 <= k < |s| ==> s[k] !in a
    ensures CountIn(s, a) == 0
  {
    if s != [] {
      assert forall k :: 0 <= k < |s| - 1 ==> s[1..][k] == s[k + 1];
      CountInNone(s[1..], a);
    }
  }

  /** A positive count has a witness. */
  lemma {:induction false} CountInWitness(s: string, a: string) returns (i: nat)
    requires CountIn(s, a) > 0
    ensures i < |s| && s[i] in a
  {
    if s[0] in a {
      i := 0;
    } else {
      var j := CountInWitness(s[1..], a);
      i := j + 1;
    }
  }

  lemma {:induction false} ToLowerAppend(s: string, t: string)
    ensures ToLower(s + t) == ToLower(s) + ToLower(t)
  {
    var whole, parts := ToLower(s + t), ToLower(s) + ToLower(t);
    forall k | 0 <= k < |whole| ensures whole[k] == parts[k] {
      if k < |s| {
        assert (s + t)[k] == s[k];
      } else {
        assert (s + t)[k] == t[k - |s|];
      }
    }
    assert whole == parts;
  }

  /** Joining parts that agree up to case gives strings that agree up to case. */
  lemma {:induction false} JoinSameLower(ps: seq<string>, qs: seq<string>, delim: string)
    requires |ps| == |qs|
    requires forall i :: 0 <= i < |ps| ==> ToLower(ps[i]) == ToLower(qs[i])
    ensures ToLower(Join(ps, delim)) == ToLower(Join(qs, delim))
  {
    if |ps| > 1 {
      JoinSameLower(ps[1..], qs[1..], delim);
      ToLowerAppend(ps[0] + delim, Join(ps[1..], delim));
      ToLowerAppend(ps[0], delim);
      ToLowerAppend(qs[0] + delim, Join(qs[1..], delim));
      ToLowerAppend(qs[0], delim);
    }
  }
}
