/**
 * The PasswordGenerator engine: random passwords with per-class minimums,
 * Diceware-style passphrases, the bounded retry loop around both, and the
 * per-line parse of the word-list loader.
 */
module Generator {
  import opened Config
  import opened Text
  import opened Utils
  import opened Randomness

  datatype Option<+T> = None | Some(value: T)

  /** A reject predicate handed to the generator, or None when that check is switched off. */
  type Checker = Option<string -> bool>

  predicate Rejects(check: Checker, candidate: string) {
    check.Some? && check.value(candidate)
  }

  /** The verdict of the retry loop: neither supplied check rejects the candidate. */
  predicate Accepted(avoidPatterns: Checker, avoidRepetitions: Checker, candidate: string) {
    !Rejects(avoidPatterns, candidate) && !Rejects(avoidRepetitions, candidate)
  }

  // ---------------------------------------------------------------------
  // Random passwords: options, pool and the shape of a candidate
  // ---------------------------------------------------------------------

  /** The arguments of generate_random_password other than the two checks. */
  datatype PasswordOptions = PasswordOptions(
    length: int,
    useLower: bool, useUpper: bool, useDigits: bool, useSymbols: bool,
    excludeAmbiguous: bool,
    minLower: int, minUpper: int, minDigits: int, minSymbols: int)

  predicate AnyClass(o: PasswordOptions) {
    o.useLower || o.useUpper || o.useDigits || o.useSymbols
  }

  /** The sum of all four minimums, those of disabled classes included. */
  function TotalMinimum(o: PasswordOptions): int {
    o.minLower + o.minUpper + o.minDigits + o.minSymbols
  }

  /** The alphabets of the enabled classes, one after the other. */
  function EnabledAlphabet(o: PasswordOptions): string {
    (if o.useLower then Lowercase else "")
    + (if o.useUpper then Uppercase else "")
    + (if o.useDigits then Digits else "")
    + (if o.useSymbols then Punctuation else "")
  }

  /** The characters of s outside "lIO01", in their order. */
  function WithoutAmbiguous(s: string): (r: string)
    ensures forall c :: c in r <==> c in s && c !in Ambiguous
  {
    if s == [] then []
    else (if s[0] in Ambiguous then [] else [s[0]]) + WithoutAmbiguous(s[1..])
  }

  /** The pool the filler characters are drawn from. */
  function CharPool(o: PasswordOptions): (pool: string)
    ensures forall c :: c in pool <==> c in EnabledAlphabet(o) && !(o.excludeAmbiguous && c in Ambiguous)
  {
    if o.excludeAmbiguous then WithoutAmbiguous(EnabledAlphabet(o)) else EnabledAlphabet(o)
  }

  /** With a class enabled the pool is never empty, so the empty-pool exit is never taken. */
  lemma PoolNonEmpty(o: PasswordOptions)
    requires AnyClass(o)
    ensures |CharPool(o)| > 0
  {
    var c := if o.useLower then 'a' else if o.useUpper then 'A' else if o.useDigits then '2' else '!';
    assert c in EnabledAlphabet(o);
    assert c in CharPool(o);
  }

  /** The characters guaranteed for one class: its minimum, if the class is enabled and the minimum positive. */
  function Guaranteed(enabled: bool, minimum: int): nat {
    if enabled && minimum > 0 then minimum else 0
  }

  function GuaranteedCount(o: PasswordOptions): nat {
    Guaranteed(o.useLower, o.minLower) + Guaranteed(o.useUpper, o.minUpper)
    + Guaranteed(o.useDigits, o.minDigits) + Guaranteed(o.useSymbols, o.minSymbols)
  }

  /** The filler count: what the guaranteed characters leave of the length, never below zero. */
  function FillerCount(o: PasswordOptions): nat {
    if o.length > GuaranteedCount(o) then o.length - GuaranteedCount(o) else 0
  }

  /**
   * What every candidate satisfies: the guaranteed and filler characters
   * make up its length; each enabled class has its minimum; every character
   * comes from an enabled alphabet; and with ambiguous characters excluded,
   * only guaranteed characters can be ambiguous.
   */
  predicate WellFormedPassword(o: PasswordOptions, pw: string) {
    && |pw| == GuaranteedCount(o) + FillerCount(o)
    && (o.useLower ==> CountIn(pw, Lowercase) >= o.minLower)
    && (o.useUpper ==> CountIn(pw, Uppercase) >= o.minUpper)
    && (o.useDigits ==> CountIn(pw, Digits) >= o.minDigits)
    && (o.useSymbols ==> CountIn(pw, Punctuation) >= o.minSymbols)
    && (forall i :: 0 <= i < |pw| ==> pw[i] in EnabledAlphabet(o))
    && (o.excludeAmbiguous ==>
          && CountIn(pw, AmbiguousLower) <= Guaranteed(o.useLower, o.minLower)
          && CountIn(pw, AmbiguousUpper) <= Guaranteed(o.useUpper, o.minUpper)
          && CountIn(pw, AmbiguousDigits) <= Guaranteed(o.useDigits, o.minDigits))
  }

  /** The buffer of one candidate before the shuffle, split by where its characters came from. */
  datatype Buffer = Buffer(lower: string, upper: string, digits: string, symbols: string, filler: string)

  function Chars(b: Buffer): string {
    b.lower + b.upper + b.digits + b.symbols + b.filler
  }

  predicate AllIn(s: string, a: string) {
    forall i :: 0 <= i < |s| ==> s[i] in a
  }

  /** Each part of the buffer has the size the options ask for and comes from its own alphabet. */
  predicate BufferFits(o: PasswordOptions, b: Buffer) {
    && |b.lower| == Guaranteed(o.useLower, o.minLower) && AllIn(b.lower, Lowercase)
    && |b.upper| == Guaranteed(o.useUpper, o.minUpper) && AllIn(b.upper, Uppercase)
    && |b.digits| == Guaranteed(o.useDigits, o.minDigits) && AllIn(b.digits, Digits)
    && |b.symbols| == Guaranteed(o.useSymbols, o.minSymbols) && AllIn(b.symbols, Punctuation)
    && |b.filler| == FillerCount(o) && AllIn(b.filler, CharPool(o))
  }

  /** A class whose guaranteed part is a full run of its alphabet meets its minimum. */
  lemma PartMeetsMinimum(pw: string, b: Buffer, part: string, a: string, minimum: int)
    requires multiset(pw) == multiset(Chars(b))
    requires AllIn(part, a) && |part| >= minimum
    requires CountIn(Chars(b), a) >= CountIn(part, a)
    ensures CountIn(pw, a) >= minimum
  {
    CountInPermutation(pw, Chars(b), a);
    CountInAll(part, a);
  }

  lemma CountInChars(b: Buffer, a: string)
    ensures CountIn(Chars(b), a)
      == CountIn(b.lower, a) + CountIn(b.upper, a) + CountIn(b.digits, a) + CountIn(b.symbols, a) + CountIn(b.filler, a)
  {
    CountInAppend(b.lower, b.upper, a);
    CountInAppend(b.lower + b.upper, b.digits, a);
    CountInAppend(b.lower + b.upper + b.digits, b.symbols, a);
    CountInAppend(b.lower + b.upper + b.digits + b.symbols, b.filler, a);
  }

  /** Shuffling a fitting buffer gives a well-formed candidate: the shuffle keeps every count. */
  lemma ShuffledBufferWellFormed(o: PasswordOptions, b: Buffer, pw: string)
    requires BufferFits(o, b)
    requires multiset(pw) == multiset(Chars(b))
    ensures WellFormedPassword(o, pw)
  {
    var all := Chars(b);
    assert |pw| == |multiset(pw)| == |multiset(all)| == |all|;
    ShuffledMinimums(o, b, pw);
    forall i | 0 <= i < |pw| ensures pw[i] in EnabledAlphabet(o) {
      assert pw[i] in multiset(all);
      var j :| 0 <= j < |all| && all[j] == pw[i];
      CharsAt(b, j);
    }
    if o.excludeAmbiguous {
      AmbiguousPerClass(o, b, pw);
    }
  }

  /**
   * With exclusion on, the filler holds no ambiguous character, so those of
   * a shuffled buffer all come from the guaranteed parts.
   */
  lemma AmbiguousFromGuaranteed(o: PasswordOptions, b: Buffer, pw: string, a: string)
    requires BufferFits(o, b) && o.excludeAmbiguous
    requires multiset(pw) == multiset(Chars(b))
    requires forall c :: c in a ==> c in Ambiguous
    ensures CountIn(pw, a) == CountIn(b.lower, a) + CountIn(b.upper, a) + CountIn(b.digits, a) + CountIn(b.symbols, a)
  {
    CountInChars(b, a);
    CountInPermutation(pw, Chars(b), a);
    CountInNone(b.filler, a);
  }

  /** A part drawn from an alphabet disjoint from a holds no character of a. */
  lemma PartAvoids(part: string, from: string, a: string)
    requires AllIn(part, from)
    requires forall c :: c in from ==> c !in a
    ensures CountIn(part, a) == 0
  {
    CountInNone(part, a);
  }

  /** Each class's ambiguous characters in a shuffled buffer number at most that class's guaranteed count. */
  lemma AmbiguousPerClass(o: PasswordOptions, b: Buffer, pw: string)
    requires BufferFits(o, b) && o.excludeAmbiguous
    requires multiset(pw) == multiset(Chars(b))
    ensures CountIn(pw, AmbiguousLower) <= Guaranteed(o.useLower, o.minLower)
    ensures CountIn(pw, AmbiguousUpper) <= Guaranteed(o.useUpper, o.minUpper)
    ensures CountIn(pw, AmbiguousDigits) <= Guaranteed(o.useDigits, o.minDigits)
  {
    AmbiguousApart();
    AmbiguousFromGuaranteed(o, b, pw, AmbiguousLower);
    PartAvoids(b.upper, Uppercase, AmbiguousLower);
    PartAvoids(b.digits, Digits, AmbiguousLower);
    PartAvoids(b.symbols, Punctuation, AmbiguousLower);
    AmbiguousFromGuaranteed(o, b, pw, AmbiguousUpper);
    PartAvoids(b.lower, Lowercase, AmbiguousUpper);
    PartAvoids(b.digits, Digits, AmbiguousUpper);
    PartAvoids(b.symbols, Punctuation, AmbiguousUpper);
    AmbiguousFromGuaranteed(o, b, pw, AmbiguousDigits);
    PartAvoids(b.lower, Lowercase, AmbiguousDigits);
    PartAvoids(b.upper, Uppercase, AmbiguousDigits);
    PartAvoids(b.symbols, Punctuation, AmbiguousDigits);
  }

  /** The ambiguous characters of each class lie in no other class's alphabet. */
  lemma AmbiguousApart()
    ensures forall c :: c in Lowercase ==> c !in AmbiguousUpper && c !in AmbiguousDigits
    ensures forall c :: c in Uppercase ==> c !in AmbiguousLower && c !in AmbiguousDigits
    ensures forall c :: c in Digits ==> c !in AmbiguousLower && c !in AmbiguousUpper
    ensures forall c :: c in Punctuation ==> c !in AmbiguousLower && c !in AmbiguousUpper && c !in AmbiguousDigits
  {
    forall c | c in Lowercase ensures c !in AmbiguousUpper && c !in AmbiguousDigits {
      LowercaseIsRange(c);
    }
    forall c | c in Uppercase ensures c !in AmbiguousLower && c !in AmbiguousDigits {
      UppercaseIsRange(c);
    }
    forall c | c in Digits ensures c !in AmbiguousLower && c !in AmbiguousUpper {
      DigitsIsRange(c);
    }
    forall c | c in Punctuation ensures c !in AmbiguousLower && c !in AmbiguousUpper && c !in AmbiguousDigits {
      PunctuationOutsideRanges(c);
    }
  }

  /**
   * A candidate one attempt can produce: a rearrangement of some buffer of
   * guaranteed and filler characters that fits the options.
   */
  ghost predicate Drawable(o: PasswordOptions, pw: string) {
    exists b :: BufferFits(o, b) && multiset(pw) == multiset(Chars(b))
  }

  /** What is known of every candidate: one attempt can produce it, and it is well formed. */
  ghost predicate Candidate(o: PasswordOptions, pw: string) {
    Drawable(o, pw) && WellFormedPassword(o, pw)
  }

  /** Every candidate one attempt can produce is well formed. */
  lemma DrawableWellFormed(o: PasswordOptions, pw: string)
    requires Drawable(o, pw)
    ensures WellFormedPassword(o, pw)
  {
    var b :| BufferFits(o, b) && multiset(pw) == multiset(Chars(b));
    ShuffledBufferWellFormed(o, b, pw);
  }

  /** A rearrangement of a fitting buffer is a candidate, with that buffer as the witness. */
  lemma ShuffledCandidate(o: PasswordOptions, b: Buffer, pw: string)
    requires BufferFits(o, b)
    requires multiset(pw) == multiset(Chars(b))
    ensures Candidate(o, pw)
  {
    ShuffledBufferWellFormed(o, b, pw);
  }

  /** The shuffle of a fitting buffer meets every enabled class's minimum. */
  lemma ShuffledMinimums(o: PasswordOptions, b: Buffer, pw: string)
    requires BufferFits(o, b)
    requires multiset(pw) == multiset(Chars(b))
    ensures o.useLower ==> CountIn(pw, Lowercase) >= o.minLower
    ensures o.useUpper ==> CountIn(pw, Uppercase) >= o.minUpper
    ensures o.useDigits ==> CountIn(pw, Digits) >= o.minDigits
    ensures o.useSymbols ==> CountIn(pw, Punctuation) >= o.minSymbols
  {
    if o.useLower {
      CountInChars(b, Lowercase);
      PartMeetsMinimum(pw, b, b.lower, Lowercase, o.minLower);
    }
    if o.useUpper {
      CountInChars(b, Uppercase);
      PartMeetsMinimum(pw, b, b.upper, Uppercase, o.minUpper);
    }
    if o.useDigits {
      CountInChars(b, Digits);
      PartMeetsMinimum(pw, b, b.digits, Digits, o.minDigits);
    }
    if o.useSymbols {
      CountInChars(b, Punctuation);
      PartMeetsMinimum(pw, b, b.symbols, Punctuation, o.minSymbols);
    }
  }

  /** Every character of a fitting buffer lies in an enabled alphabet. */
  lemma CharsAt(b: Buffer, j: nat)
    requires j < |Chars(b)|
    ensures forall o: PasswordOptions :: BufferFits(o, b) ==> Chars(b)[j] in EnabledAlphabet(o)
  {
    var s := Chars(b);
    var n1 := |b.lower|;
    var n2 := n1 + |b.upper|;
    var n3 := n2 + |b.digits|;
    var n4 := n3 + |b.symbols|;
    if j < n1 { assert s[j] == b.lower[j]; }
    else if j < n2 { assert s[j] == b.upper[j - n1]; }
    else if j < n3 { assert s[j] == b.digits[j - n2]; }
    else if j < n4 { assert s[j] == b.symbols[j - n3]; }
    else { assert s[j] == b.filler[j - n4]; }
  }

  /** A Python list shuffled in place by SystemRandom().shuffle, as the sequence it ends up holding. */
  method ShuffleList<T>(rng: RandomSource, items: seq<T>) returns (shuffled: seq<T>)
    modifies rng
    ensures multiset(shuffled) == multiset(items)
    ensures rng.draws == old(rng.draws) + ShuffleDraws(|items|)
  {
    var buffer := new T[|items|](i requires 0 <= i < |items| => items[i]);
    assert buffer[..] == items;
    rng.Shuffle(buffer);
    shuffled := buffer[..];
  }

  /**
   * One `for _ in range(count)` loop of secrets.choice appends: count
   * characters of the alphabet added at the end, none when count is not
   * positive.
   */
  method AppendChoices(rng: RandomSource, chars: string, alphabet: string, count: int)
    returns (result: string, ghost added: string)
    requires |alphabet| > 0
    modifies rng
    ensures result == chars + added
    ensures |added| == (if count > 0 then count else 0)
    ensures AllIn(added, alphabet)
    ensures rng.draws == old(rng.draws) + |added|
  {
    result, added := chars, [];
    var k := 0;
    while k < count
      invariant 0 <= k <= (if count > 0 then count else 0)
      invariant result == chars + added && |added| == k && AllIn(added, alphabet)
      invariant rng.draws == old(rng.draws) + k
    {
      var c := rng.Choice(alphabet);
      result, added := result + [c], added + [c];
      k := k + 1;
    }
  }

  /** `if use_X: for _ in range(min_X): append(secrets.choice(CHARS_X))` for one class X. */
  method AppendGuaranteed(rng: RandomSource, chars: string, enabled: bool, alphabet: string, minimum: int)
    returns (result: string, ghost added: string)
    requires |alphabet| > 0
    modifies rng
    ensures result == chars + added
    ensures |added| == Guaranteed(enabled, minimum) && AllIn(added, alphabet)
    ensures rng.draws == old(rng.draws) + |added|
  {
    result, added := chars, [];
    if enabled {
      result, added := AppendChoices(rng, chars, alphabet, minimum);
    }
  }

  /**
   * Step 1 of one attempt: each enabled class's minimum drawn from its full
   * alphabet, lower case first, then upper case, digits and punctuation.
   */
  method DrawGuaranteed(rng: RandomSource, o: PasswordOptions)
    returns (passwordChars: string, ghost lower: string, ghost upper: string, ghost digits: string, ghost symbols: string)
    modifies rng
    ensures passwordChars == lower + upper + digits + symbols
    ensures |lower| == Guaranteed(o.useLower, o.minLower) && AllIn(lower, Lowercase)
    ensures |upper| == Guaranteed(o.useUpper, o.minUpper) && AllIn(upper, Uppercase)
    ensures |digits| == Guaranteed(o.useDigits, o.minDigits) && AllIn(digits, Digits)
    ensures |symbols| == Guaranteed(o.useSymbols, o.minSymbols) && AllIn(symbols, Punctuation)
    ensures rng.draws == old(rng.draws) + GuaranteedCount(o)
  {
    passwordChars := [];
    passwordChars, lower := AppendGuaranteed(rng, passwordChars, o.useLower, Lowercase, o.minLower);
    assert passwordChars == lower;
    passwordChars, upper := AppendGuaranteed(rng, passwordChars, o.useUpper, Uppercase, o.minUpper);
    passwordChars, digits := AppendGuaranteed(rng, passwordChars, o.useDigits, Digits, o.minDigits);
    passwordChars, symbols := AppendGuaranteed(rng, passwordChars, o.useSymbols, Punctuation, o.minSymbols);
  }

  /**
   * The draws one candidate takes: one per guaranteed character, one per
   * filler character, and the shuffle of the whole buffer.
   */
  function CandidateDraws(o: PasswordOptions): nat {
    GuaranteedCount(o) + FillerCount(o) + ShuffleDraws(GuaranteedCount(o) + FillerCount(o))
  }

  /**
   * Steps 1 to 3 of one attempt: the guaranteed characters of each enabled
   * class from its full alphabet, the rest of the length from the pool, and
   * a shuffle of the whole buffer.
   */
  method DrawCandidate(rng: RandomSource, o: PasswordOptions, charPool: string) returns (pw: string)
    requires charPool == CharPool(o) && |charPool| > 0
    modifies rng
    ensures Candidate(o, pw)
    ensures rng.draws == old(rng.draws) + CandidateDraws(o)
  {
    var passwordChars: string;
    ghost var lower, upper, digits, symbols;
    passwordChars, lower, upper, digits, symbols := DrawGuaranteed(rng, o);
    var remainingLength := o.length - |passwordChars|;
    ghost var filler;
    passwordChars, filler := AppendChoices(rng, passwordChars, charPool, remainingLength);
    ghost var b := Buffer(lower, upper, digits, symbols, filler);
    assert passwordChars == Chars(b) && |passwordChars| == GuaranteedCount(o) + FillerCount(o);
    assert BufferFits(o, b);
    pw := ShuffleList(rng, passwordChars);
    ShuffledCandidate(o, b, pw);
  }

  // ---------------------------------------------------------------------
  // Passphrases: the shape of one attempt
  // ---------------------------------------------------------------------

  /** A word as it enters the phrase: capitalized when requested. */
  function Styled(word: string, capitalize: bool): string {
    if capitalize then Capitalize(word) else word
  }

  /** The words an attempt drew, in draw order: the entries at the drawn indices, styled. */
  function PhraseWords(wordlist: seq<string>, picks: seq<nat>, capitalize: bool): (words: seq<string>)
    requires forall i :: 0 <= i < |picks| ==> picks[i] < |wordlist|
    ensures |words| == |picks|
  {
    seq(|picks|, i requires 0 <= i < |picks| => Styled(wordlist[picks[i]], capitalize))
  }

  /**
   * Each word of an attempt is its drawn entry up to case: same length, same
   * lower-case form, the entry itself without capitalisation, and with it
   * never starting with a lower-case letter.
   */
  lemma PhraseWordsStyle(wordlist: seq<string>, picks: seq<nat>, capitalize: bool)
    requires forall i :: 0 <= i < |picks| ==> picks[i] < |wordlist|
    ensures var words := PhraseWords(wordlist, picks, capitalize);
      forall i :: 0 <= i < |picks| ==>
        && |words[i]| == |wordlist[picks[i]]|
        && ToLower(words[i]) == ToLower(wordlist[picks[i]])
        && (!capitalize ==> words[i] == wordlist[picks[i]])
        && (capitalize && words[i] != [] ==> !('a' <= words[i][0] <= 'z'))
  {
    var words := PhraseWords(wordlist, picks, capitalize);
    forall i | 0 <= i < |picks|
      ensures && |words[i]| == |wordlist[picks[i]]|
              && ToLower(words[i]) == ToLower(wordlist[picks[i]])
    {
      assert words[i] == Styled(wordlist[picks[i]], capitalize);
    }
  }

  /**
   * One attempt's tokens: the drawn indices, the digit and symbol drawn for
   * the extra tokens (meaningful only when requested), and the tokens in
   * the order they are joined.
   */
  datatype Phrase = Phrase(picks: seq<nat>, digit: char, symbol: char, tokens: seq<string>)

  /** The extra tokens of an attempt: a one-digit token, then a one-symbol token, each when requested. */
  function Extras(ph: Phrase, addNumber: bool, addSymbol: bool): seq<string> {
    (if addNumber then [[ph.digit]] else []) + (if addSymbol then [[ph.symbol]] else [])
  }

  /**
   * The draws one passphrase attempt takes: one per word, one per extra
   * token, and the shuffle of all tokens when an extra was added.
   */
  function PhraseDraws(wordCount: nat, addNumber: bool, addSymbol: bool): nat {
    var extras := (if addNumber then 1 else 0) + (if addSymbol then 1 else 0);
    wordCount + extras + (if extras > 0 then ShuffleDraws(wordCount + extras) else 0)
  }

  /**
   * The tokens are the drawn words and the extras, rearranged; with no extra
   * they are the words in draw order.
   */
  predicate PhraseFits(wordlist: seq<string>, wordCount: int, capitalize: bool, addNumber: bool, addSymbol: bool, ph: Phrase) {
    && |ph.picks| == wordCount
    && (forall i :: 0 <= i < |ph.picks| ==> ph.picks[i] < |wordlist|)
    && (addNumber ==> ph.digit in Digits)
    && (addSymbol ==> ph.symbol in Punctuation)
    && multiset(ph.tokens) == multiset(PhraseWords(wordlist, ph.picks, capitalize) + Extras(ph, addNumber, addSymbol))
    && (!addNumber && !addSymbol ==> ph.tokens == PhraseWords(wordlist, ph.picks, capitalize))
  }

  // ---------------------------------------------------------------------
  // The word-list loader's per-line parse
  // ---------------------------------------------------------------------

  /** `line.strip().split('\t')[1]`: the second tab-separated field, None where Python raises IndexError. */
  function ParseLine(line: string): (word: Option<string>)
    ensures word.None? <==> '\t' !in Strip(line)
    ensures word.Some? ==> '\t' !in word.value
  {
    var fields := Split(Strip(line), '\t');
    if |fields| >= 2 then Some(fields[1]) else None
  }

  /**
   * The list comprehension over the file's lines: lines that strip to
   * nothing (all whitespace) are skipped, and one line without a tab makes
   * the whole load fail.
   */
  function ParseWordlist(lines: seq<string>): (words: Option<seq<string>>)
    ensures words.Some? ==> |words.value| <= |lines|
    ensures words.Some? ==> forall w :: w in words.value ==> '\t' !in w
  {
    if lines == [] then Some([])
    else if IsBlank(lines[0]) then ParseWordlist(lines[1..])
    else match ParseLine(lines[0])
      case None => None
      case Some(w) =>
        match ParseWordlist(lines[1..])
        case None => None
        case Some(ws) => Some([w] + ws)
  }

  /** A line that makes the loader raise: not blank, yet without a second tab-separated field. */
  predicate BadLine(line: string) {
    !IsBlank(line) && ParseLine(line).None?
  }

  /** Loading fails exactly when some line is bad. */
  lemma {:induction false} ParseWordlistFails(lines: seq<string>)
    ensures ParseWordlist(lines).None? <==> exists i :: 0 <= i < |lines| && BadLine(lines[i])
  {
    if lines != [] {
      var rest := lines[1..];
      ParseWordlistFails(rest);
      if exists i :: 0 <= i < |rest| && BadLine(rest[i]) {
        var i :| 0 <= i < |rest| && BadLine(rest[i]);
        assert lines[i + 1] == rest[i];
      }
      if exists i :: 0 <= i < |lines| && BadLine(lines[i]) {
        var i :| 0 <= i < |lines| && BadLine(lines[i]);
        if i > 0 {
          assert rest[i - 1] == lines[i];
        }
      }
    }
  }

  /** The word list after loading: the parsed words, or empty when parsing failed. */
  function LoadedWordlist(lines: seq<string>): seq<string> {
    match ParseWordlist(lines)
    case Some(ws) => ws
    case None => []
  }

  /** One line of the word-list file: the dice key, a tab, the word, a newline. */
  function EntryLine(key: string, word: string): string {
    key + "\t" + word + "\n"
  }

  /**
   * A field of the word-list file: non-empty, without a tab, and without
   * whitespace at either end (inner spaces are allowed, as in "ice cream").
   */
  predicate SolidField(s: string) {
    s != [] && '\t' !in s && !IsSpace(s[0]) && !IsSpace(s[|s| - 1])
  }

  /** A line key, tab, word, newline with solid key and word parses back to the word. */
  lemma ParseEntryLine(key: string, word: string)
    requires SolidField(key) && SolidField(word)
    ensures ParseLine(EntryLine(key, word)) == Some(word)
    ensures !IsBlank(EntryLine(key, word))
  {
    var body := key + "\t" + word;
    assert EntryLine(key, word) == body + "\n";
    assert body[0] == key[0] && body[|body| - 1] == word[|word| - 1];
    StripEntry(body);
    SplitTwo(key, word);
  }

  lemma SplitTwo(key: string, word: string)
    requires '\t' !in key && '\t' !in word
    ensures Split(key + "\t" + word, '\t') == [key, word]
  {
    assert Join([key, word], ['\t']) == key + ['\t'] + Join([word], ['\t']);
    SplitJoin([key, word], '\t');
  }

  lemma StripEntry(body: string)
    requires body != [] && !IsSpace(body[0]) && !IsSpace(body[|body| - 1])
    ensures Strip(body + "\n") == body
  {
    var line := body + "\n";
    assert line[0] == body[0];
    assert LeadingSpaces(line) == 0;
    assert line[..|line| - 1] == body;
    assert TrailingSpaces(line) == 1 + TrailingSpaces(body) == 1;
  }

  lemma ParseWordlistCons(lines: seq<string>, key: string, w: string, ws: seq<string>)
    requires lines != [] && lines[0] == EntryLine(key, w) && SolidField(key) && SolidField(w)
    requires ParseWordlist(lines[1..]) == Some(ws)
    ensures ParseWordlist(lines) == Some([w] + ws)
  {
    ParseEntryLine(key, w);
  }

  /** A file of well-formed entry lines loads exactly its words, in order. */
  lemma {:induction false} ParseEntries(keys: seq<string>, words: seq<string>, lines: seq<string>)
    requires |keys| == |words| == |lines|
    requires forall i :: 0 <= i < |lines| ==> lines[i] == EntryLine(keys[i], words[i])
    requires forall i :: 0 <= i < |keys| ==> SolidField(keys[i]) && SolidField(words[i])
    ensures ParseWordlist(lines) == Some(words)
  {
    if lines != [] {
      var ks, ws, ls := keys[1..], words[1..], lines[1..];
      EntriesTail(keys, words, lines);
      ParseEntries(ks, ws, ls);
      ParseWordlistCons(lines, keys[0], words[0], ws);
      assert words == [words[0]] + ws;
    }
  }

  /** Dropping the first line keeps a file of well-formed entry lines well formed. */
  lemma EntriesTail(keys: seq<string>, words: seq<string>, lines: seq<string>)
    requires |keys| == |words| == |lines| > 0
    requires forall i :: 0 <= i < |lines| ==> lines[i] == EntryLine(keys[i], words[i])
    requires forall i :: 0 <= i < |keys| ==> SolidField(keys[i]) && SolidField(words[i])
    ensures forall i :: 0 <= i < |lines| - 1 ==> lines[1..][i] == EntryLine(keys[1..][i], words[1..][i])
    ensures forall i :: 0 <= i < |keys| - 1 ==> SolidField(keys[1..][i]) && SolidField(words[1..][i])
    ensures lines[0] == EntryLine(keys[0], words[0]) && SolidField(keys[0]) && SolidField(words[0])
  {
    forall i | 0 <= i < |lines| - 1 ensures lines[1..][i] == EntryLine(keys[1..][i], words[1..][i]) {
      assert lines[1..][i] == lines[i + 1] && keys[1..][i] == keys[i + 1] && words[1..][i] == words[i + 1];
    }
    forall i | 0 <= i < |keys| - 1 ensures SolidField(keys[1..][i]) && SolidField(words[1..][i]) {
      assert keys[1..][i] == keys[i + 1] && words[1..][i] == words[i + 1];
    }
  }

  /** The pool built step by step as generate_random_password does: the enabled alphabets in order, then the ambiguous characters removed. */
  method BuildCharPool(o: PasswordOptions) returns (charPool: string)
    ensures charPool == CharPool(o)
  {
    charPool := "";
    if o.useLower {
      charPool := charPool + Lowercase;
    }
    assert charPool == (if o.useLower then Lowercase else "");
    if o.useUpper {
      charPool := charPool + Uppercase;
    }
    assert charPool == (if o.useLower then Lowercase else "") + (if o.useUpper then Uppercase else "");
    if o.useDigits {
      charPool := charPool + Digits;
    }
    assert charPool == (if o.useLower then Lowercase else "") + (if o.useUpper then Uppercase else "")
      + (if o.useDigits then Digits else "");
    if o.useSymbols {
      charPool := charPool + Punctuation;
    }
    assert charPool == EnabledAlphabet(o);
    if o.excludeAmbiguous {
      charPool := WithoutAmbiguous(charPool);
    }
  }

  /** The validity test of both retry loops: a candidate passes when no enabled check rejects it. */
  method Check(avoidPatterns: Checker, avoidRepetitions: Checker, candidate: string) returns (isValid: bool)
    ensures isValid <==> !Rejects(avoidPatterns, candidate) && !Rejects(avoidRepetitions, candidate)
  {
    isValid := true;
    if avoidPatterns.Some? && avoidPatterns.value(candidate) {
      isValid := false;
    }
    if isValid && avoidRepetitions.Some? && avoidRepetitions.value(candidate) {
      isValid := false;
    }
  }

  // ---------------------------------------------------------------------
  // What the candidates and phrases promise
  // ---------------------------------------------------------------------

  /** With non-negative minimums that pass the up-front check, a candidate has exactly the requested length. */
  lemma CandidateLength(o: PasswordOptions, pw: string)
    requires o.minLower >= 0 && o.minUpper >= 0 && o.minDigits >= 0 && o.minSymbols >= 0
    requires TotalMinimum(o) <= o.length
    requires WellFormedPassword(o, pw)
    ensures |pw| == o.length
  {
  }

  /** With lower case the only enabled class, every character of a candidate is an ASCII lower-case letter. */
  lemma OnlyLowercase(o: PasswordOptions, pw: string)
    requires WellFormedPassword(o, pw)
    requires o.useLower && !o.useUpper && !o.useDigits && !o.useSymbols
    ensures forall i :: 0 <= i < |pw| ==> 'a' <= pw[i] <= 'z'
  {
    assert EnabledAlphabet(o) == Lowercase;
    forall i | 0 <= i < |pw| ensures 'a' <= pw[i] <= 'z' {
      LowercaseIsRange(pw[i]);
    }
  }

  /** Lower case only, length 8, no minimums: every candidate is eight ASCII lower-case letters. */
  lemma LowercaseOnlyScenario(pw: string)
    requires WellFormedPassword(PasswordOptions(8, true, false, false, false, false, 0, 0, 0, 0), pw)
    ensures |pw| == 8
    ensures forall i :: 0 <= i < |pw| ==> 'a' <= pw[i] <= 'z'
  {
    OnlyLowercase(PasswordOptions(8, true, false, false, false, false, 0, 0, 0, 0), pw);
  }

  /** A negative minimum passes the up-front check yet lets the guaranteed characters overrun the length. */
  lemma NegativeMinimumOverrun()
    ensures var o := PasswordOptions(8, true, true, false, false, false, -5, 10, 0, 0);
      && AnyClass(o) && TotalMinimum(o) <= o.length
      && GuaranteedCount(o) + FillerCount(o) == 10
  {
  }

  /**
   * Excluding ambiguous characters filters only the pool: a guaranteed
   * lower-case character drawn from the full alphabet can still be 'l'.
   */
  lemma AmbiguousThroughMinimums(o: PasswordOptions)
    requires o.length == 1 && o.excludeAmbiguous && o.minLower == 1
    requires o.useLower && !o.useUpper && !o.useDigits && !o.useSymbols
    ensures var b := Buffer("l", "", "", "", "");
      && BufferFits(o, b) && 'l' !in CharPool(o)
      && WellFormedPassword(o, Chars(b)) && HasAmbiguousChars(Chars(b))
  {
    var b := Buffer("l", "", "", "", "");
    LowercaseIsRange('l');
    assert AllIn(b.lower, Lowercase);
    ShuffledBufferWellFormed(o, b, Chars(b));
    assert Chars(b)[0] in Ambiguous;
  }

  /** With ambiguous characters excluded and no guaranteed characters, a candidate holds none of "lIO01". */
  lemma NoAmbiguousWithoutMinimums(o: PasswordOptions, pw: string)
    requires WellFormedPassword(o, pw)
    requires o.excludeAmbiguous
    requires Guaranteed(o.useLower, o.minLower) == 0 && Guaranteed(o.useUpper, o.minUpper) == 0
    requires Guaranteed(o.useDigits, o.minDigits) == 0
    ensures !HasAmbiguousChars(pw)
  {
    forall i | 0 <= i < |pw| ensures pw[i] !in Ambiguous {
      CountInRemove(pw, i, AmbiguousLower);
      CountInRemove(pw, i, AmbiguousUpper);
      CountInRemove(pw, i, AmbiguousDigits);
    }
  }

  /** The character classes of the enabled alphabets. */
  function EnabledClasses(o: PasswordOptions): set<CharClass> {
    (if o.useLower then {Lower} else {}) + (if o.useUpper then {Upper} else {})
    + (if o.useDigits then {Digit} else {}) + (if o.useSymbols then {Symbol} else {})
  }

  /** A character of an enabled alphabet has an enabled class. */
  lemma EnabledClassOf(o: PasswordOptions, c: char)
    requires c in EnabledAlphabet(o)
    ensures Classify(c) in EnabledClasses(o)
  {
    var l := if o.useLower then Lowercase else "";
    var u := if o.useUpper then Uppercase else "";
    var g := if o.useDigits then Digits else "";
    var y := if o.useSymbols then Punctuation else "";
    assert c in l + u + g + y;
    assert c in l || c in u || c in g || c in y;
  }

  /** A string with a character of alphabet a has that alphabet's class. */
  lemma ClassPresent(pw: string, a: string, k: CharClass)
    requires CountIn(pw, a) > 0
    requires forall c :: c in a ==> Classify(c) == k
    ensures k in ClassesOf(pw)
  {
    var i := CountInWitness(pw, a);
    assert Classify(pw[i]) == k;
  }

  /**
   * A candidate's character classes, as the entropy estimate sees them:
   * only enabled classes occur, every enabled class with a positive minimum
   * does, so the estimated charset is at most that of the enabled classes.
   */
  lemma CandidateClasses(o: PasswordOptions, pw: string)
    requires WellFormedPassword(o, pw)
    ensures ClassesOf(pw) <= EnabledClasses(o)
    ensures o.useLower && o.minLower > 0 ==> Lower in ClassesOf(pw)
    ensures o.useUpper && o.minUpper > 0 ==> Upper in ClassesOf(pw)
    ensures o.useDigits && o.minDigits > 0 ==> Digit in ClassesOf(pw)
    ensures o.useSymbols && o.minSymbols > 0 ==> Symbol in ClassesOf(pw)
    ensures CharsetSize(ClassesOf(pw)) <= CharsetSize(EnabledClasses(o))
  {
    forall k | k in ClassesOf(pw) ensures k in EnabledClasses(o) {
      var i :| 0 <= i < |pw| && Classify(pw[i]) == k;
      EnabledClassOf(o, pw[i]);
    }
    if o.useLower && o.minLower > 0 {
      ClassPresent(pw, Lowercase, Lower);
    }
    if o.useUpper && o.minUpper > 0 {
      ClassPresent(pw, Uppercase, Upper);
    }
    if o.useDigits && o.minDigits > 0 {
      ClassPresent(pw, Digits, Digit);
    }
    if o.useSymbols && o.minSymbols > 0 {
      ClassPresent(pw, Punctuation, Symbol);
    }
    CharsetSizeMonotone(ClassesOf(pw), EnabledClasses(o));
  }

  /** All four classes enabled, each with a positive minimum: the estimate sees the full 94-character set. */
  lemma FullCharset(o: PasswordOptions, pw: string)
    requires WellFormedPassword(o, pw)
    requires o.useLower && o.useUpper && o.useDigits && o.useSymbols
    requires o.minLower > 0 && o.minUpper > 0 && o.minDigits > 0 && o.minSymbols > 0
    ensures CharsetSize(ClassesOf(pw)) == 94
  {
    CandidateClasses(o, pw);
    assert ClassesOf(pw) == {Lower, Upper, Digit, Symbol};
  }

  /** A phrase has one token per word plus one per requested extra. */
  lemma PhraseTokenCount(wordlist: seq<string>, wordCount: int, capitalize: bool, addNumber: bool, addSymbol: bool, ph: Phrase)
    requires PhraseFits(wordlist, wordCount, capitalize, addNumber, addSymbol, ph)
    ensures |ph.tokens| == wordCount + (if addNumber then 1 else 0) + (if addSymbol then 1 else 0)
  {
    var all := PhraseWords(wordlist, ph.picks, capitalize) + Extras(ph, addNumber, addSymbol);
    assert |ph.tokens| == |multiset(ph.tokens)| == |multiset(all)| == |all|;
  }

  /** Every token is a drawn word-list entry (styled), the requested digit or the requested symbol. */
  lemma PhraseTokensDrawn(wordlist: seq<string>, wordCount: int, capitalize: bool, addNumber: bool, addSymbol: bool, ph: Phrase)
    requires PhraseFits(wordlist, wordCount, capitalize, addNumber, addSymbol, ph)
    ensures forall t :: t in ph.tokens ==>
      || (exists i :: 0 <= i < |ph.picks| && t == Styled(wordlist[ph.picks[i]], capitalize))
      || (addNumber && t == [ph.digit] && ph.digit in Digits)
      || (addSymbol && t == [ph.symbol] && ph.symbol in Punctuation)
  {
    var words := PhraseWords(wordlist, ph.picks, capitalize);
    forall t | t in ph.tokens
      ensures || (exists i :: 0 <= i < |ph.picks| && t == Styled(wordlist[ph.picks[i]], capitalize))
              || (addNumber && t == [ph.digit] && ph.digit in Digits)
              || (addSymbol && t == [ph.symbol] && ph.symbol in Punctuation)
    {
      assert t in multiset(ph.tokens);
      assert t in words + Extras(ph, addNumber, addSymbol);
      if t in words {
        var i :| 0 <= i < |words| && words[i] == t;
        assert t == Styled(wordlist[ph.picks[i]], capitalize);
      }
    }
  }

  /**
   * The passphrase `delimiter.join(phrase_words)`: every drawn word, styled,
   * and every requested extra token occurs in it, and it is as long as its
   * tokens plus one delimiter between each two of them.
   */
  lemma PassphraseContents(
    wordlist: seq<string>, wordCount: int, capitalize: bool, addNumber: bool, addSymbol: bool, ph: Phrase, delimiter: string)
    requires PhraseFits(wordlist, wordCount, capitalize, addNumber, addSymbol, ph) && wordCount > 0
    ensures var passphrase := Join(ph.tokens, delimiter);
      && (forall i :: 0 <= i < |ph.picks| ==> IsInfix(Styled(wordlist[ph.picks[i]], capitalize), passphrase))
      && (addNumber ==> IsInfix([ph.digit], passphrase))
      && (addSymbol ==> IsInfix([ph.symbol], passphrase))
      && |passphrase| == TotalLength(ph.tokens)
           + (wordCount + (if addNumber then 1 else 0) + (if addSymbol then 1 else 0) - 1) * |delimiter|
  {
    var passphrase := Join(ph.tokens, delimiter);
    var all := PhraseWords(wordlist, ph.picks, capitalize) + Extras(ph, addNumber, addSymbol);
    PhraseTokenCount(wordlist, wordCount, capitalize, addNumber, addSymbol, ph);
    JoinContainsParts(ph.tokens, delimiter);
    JoinLength(ph.tokens, delimiter);
    forall t | t in all ensures IsInfix(t, passphrase) {
      assert t in multiset(all);
      assert t in multiset(ph.tokens);
      var k :| 0 <= k < |ph.tokens| && ph.tokens[k] == t;
    }
    forall i | 0 <= i < |ph.picks| ensures IsInfix(Styled(wordlist[ph.picks[i]], capitalize), passphrase) {
      assert all[i] == Styled(wordlist[ph.picks[i]], capitalize);
    }
    if addNumber {
      assert all[|ph.picks|] == [ph.digit];
    }
    if addSymbol {
      assert all[|all| - 1] == [ph.symbol];
    }
  }

  /** Capitalising leaves a character outside the ASCII letters absent if it was. */
  lemma CapitalizeKeepsOut(w: string, d: char)
    requires !('a' <= d <= 'z') && !('A' <= d <= 'Z')
    requires d !in w
    ensures d !in Capitalize(w)
  {
    var r := Capitalize(w);
    forall k | 0 <= k < |r| ensures r[k] != d {
      assert ToLowerChar(r[k]) == ToLower(r)[k] == ToLower(w)[k] == ToLowerChar(w[k]);
      SameLowerKeepsOut(r[k], w[k], d);
    }
  }

  /** Two characters equal up to case are equal when either is outside the ASCII letters. */
  lemma SameLowerKeepsOut(x: char, y: char, d: char)
    requires !('a' <= d <= 'z') && !('A' <= d <= 'Z')
    requires ToLowerChar(x) == ToLowerChar(y) && y != d
    ensures x != d
  {
  }

  /** A token of a phrase holds none of a delimiter that no entry, no requested extra and no case change can produce. */
  lemma TokenLacksDelimiter(wordlist: seq<string>, wordCount: int, capitalize: bool, addNumber: bool, addSymbol: bool, ph: Phrase, d: char, t: string)
    requires PhraseFits(wordlist, wordCount, capitalize, addNumber, addSymbol, ph)
    requires forall w :: w in wordlist ==> d !in w
    requires !('a' <= d <= 'z') && !('A' <= d <= 'Z')
    requires addNumber ==> d !in Digits
    requires addSymbol ==> d !in Punctuation
    requires t in ph.tokens
    ensures d !in t
  {
    var words := PhraseWords(wordlist, ph.picks, capitalize);
    assert t in multiset(ph.tokens);
    assert t in words + Extras(ph, addNumber, addSymbol);
    if t in words {
      var i :| 0 <= i < |words| && words[i] == t;
      var w := wordlist[ph.picks[i]];
      assert w in wordlist;
      if capitalize {
        CapitalizeKeepsOut(w, d);
      }
    }
  }

  /**
   * With a one-character delimiter that is no letter, occurs in no word-list
   * entry and is not the kind of extra added, splitting the passphrase at the
   * delimiter gives back exactly its tokens.
   */
  lemma PassphraseSplits(wordlist: seq<string>, wordCount: int, capitalize: bool, addNumber: bool, addSymbol: bool, ph: Phrase, d: char)
    requires PhraseFits(wordlist, wordCount, capitalize, addNumber, addSymbol, ph) && wordCount > 0
    requires forall w :: w in wordlist ==> d !in w
    requires !('a' <= d <= 'z') && !('A' <= d <= 'Z')
    requires addNumber ==> d !in Digits
    requires addSymbol ==> d !in Punctuation
    ensures Split(Join(ph.tokens, [d]), d) == ph.tokens
  {
    PhraseTokenCount(wordlist, wordCount, capitalize, addNumber, addSymbol, ph);
    forall j | 0 <= j < |ph.tokens| ensures d !in ph.tokens[j] {
      TokenLacksDelimiter(wordlist, wordCount, capitalize, addNumber, addSymbol, ph, d, ph.tokens[j]);
    }
    SplitJoin(ph.tokens, d);
  }

  /** The default delimiter '-' is itself a symbol, so an added symbol can be a '-' and add segments. */
  lemma DefaultDelimiterIsSymbol()
    ensures '-' in Punctuation
    ensures |Split(Join(["ace", "-", "bag"], "-"), '-')| == 4
  {
    assert Punctuation[12] == '-';
    var parts: seq<string> := ["ace", "", "", "bag"];
    calc {
      Join(["ace", "-", "bag"], "-");
      "ace" + "-" + Join(["-", "bag"], "-");
      "ace" + "-" + ("-" + "-" + Join(["bag"], "-"));
      "ace" + "-" + ("" + "-" + ("" + "-" + Join(["bag"], "-")));
      "ace" + "-" + ("" + "-" + Join(["", "bag"], "-"));
      "ace" + "-" + Join(["", "", "bag"], "-");
      Join(parts, "-");
    }
    SplitJoin(parts, '-');
  }

  /** Capitalising the words does not change the verdict of the common-pattern check. */
  lemma CapitalizationKeepsPatternVerdict(wordlist: seq<string>, picks: seq<nat>, delim: string)
    requires forall i :: 0 <= i < |picks| ==> picks[i] < |wordlist|
    ensures HasCommonPattern(Join(PhraseWords(wordlist, picks, true), delim))
      == HasCommonPattern(Join(PhraseWords(wordlist, picks, false), delim))
  {
    JoinSameLower(PhraseWords(wordlist, picks, true), PhraseWords(wordlist, picks, false), delim);
  }

  /** A phrase that fits the options and whose join a check turned down. */
  predicate RejectedPhrase(
    wordlist: seq<string>, wordCount: int, capitalize: bool, addNumber: bool, addSymbol: bool,
    avoidPatterns: Checker, avoidRepetitions: Checker, delimiter: string, ph: Phrase)
  {
    PhraseFits(wordlist, wordCount, capitalize, addNumber, addSymbol, ph)
    && !Accepted(avoidPatterns, avoidRepetitions, Join(ph.tokens, delimiter))
  }

  /**
   * What the retry loop of generate_random_password delivers: a well-formed
   * candidate, accepted by both checks unless MaxAttempts candidates were
   * turned down first; without checks none was; `rejected` lists every
   * turned-down candidate, each well formed.
   */
  ghost predicate PasswordRetryOutcome(
    o: PasswordOptions, avoidPatterns: Checker, avoidRepetitions: Checker,
    password: string, regenerations: nat, rejected: seq<string>)
  {
    && Candidate(o, password)
    && regenerations <= MaxAttempts
    && (regenerations < MaxAttempts ==> Accepted(avoidPatterns, avoidRepetitions, password))
    && (avoidPatterns.None? && avoidRepetitions.None? ==> regenerations == 0)
    && |rejected| == regenerations
    && (forall k :: 0 <= k < |rejected| ==>
          Candidate(o, rejected[k]) && !Accepted(avoidPatterns, avoidRepetitions, rejected[k]))
  }

  /** A rejected candidate appended to a list of rejected candidates keeps every element a rejected candidate. */
  lemma RejectedCandidateAppend(o: PasswordOptions, avoidPatterns: Checker, avoidRepetitions: Checker, rejected: seq<string>, pw: string)
    requires forall k :: 0 <= k < |rejected| ==> Candidate(o, rejected[k]) && !Accepted(avoidPatterns, avoidRepetitions, rejected[k])
    requires Candidate(o, pw) && !Accepted(avoidPatterns, avoidRepetitions, pw)
    ensures var all := rejected + [pw];
      forall k :: 0 <= k < |all| ==> Candidate(o, all[k]) && !Accepted(avoidPatterns, avoidRepetitions, all[k])
  {
    var all := rejected + [pw];
    forall k | 0 <= k < |all|
      ensures Candidate(o, all[k]) && !Accepted(avoidPatterns, avoidRepetitions, all[k])
    {
      if k < |rejected| {
        assert all[k] == rejected[k];
      }
    }
  }

  /**
   * With the checks the command line passes (the common-pattern check and
   * the repetition check at its default threshold), a password returned
   * before the attempts ran out has neither a common pattern nor a run of
   * three equal characters, and every rejected candidate has one of them.
   */
  lemma PasswordUnderDefaultChecks(o: PasswordOptions, password: string, regenerations: nat, rejected: seq<string>)
    requires PasswordRetryOutcome(o, Some(HasCommonPattern), Some(p => HasConsecutiveRepetition(p, DefaultMaxConsecutive)),
      password, regenerations, rejected)
    ensures regenerations < MaxAttempts ==>
      !HasCommonPattern(password) && !HasConsecutiveRepetition(password, DefaultMaxConsecutive)
    ensures forall k :: 0 <= k < |rejected| ==>
      HasCommonPattern(rejected[k]) || HasConsecutiveRepetition(rejected[k], DefaultMaxConsecutive)
  {
  }

  /** The draws of `attempts` attempts that take `perAttempt` draws each. */
  function RepeatedDraws(attempts: nat, perAttempt: nat): nat {
    if attempts == 0 then 0 else RepeatedDraws(attempts - 1, perAttempt) + perAttempt
  }

  /**
   * What the retry loop of generate_passphrase delivers: the returned phrase
   * fits the options and is joined with the delimiter; it passed both checks
   * exactly when fewer than MaxAttempts phrases were turned down; without
   * checks none was; `rejected` lists every turned-down phrase, and after
   * MaxAttempts of them the returned phrase is the last.
   */
  predicate PassphraseRetryOutcome(
    wordlist: seq<string>, wordCount: int, capitalize: bool, addNumber: bool, addSymbol: bool,
    avoidPatterns: Checker, avoidRepetitions: Checker, delimiter: string,
    generated: string, phrase: Phrase, rejections: nat, rejected: seq<Phrase>)
  {
    && PhraseFits(wordlist, wordCount, capitalize, addNumber, addSymbol, phrase)
    && generated == Join(phrase.tokens, delimiter)
    && rejections <= MaxAttempts
    && (Accepted(avoidPatterns, avoidRepetitions, generated) <==> rejections < MaxAttempts)
    && (avoidPatterns.None? && avoidRepetitions.None? ==> rejections == 0)
    && |rejected| == rejections
    && (forall k :: 0 <= k < |rejected| ==>
          RejectedPhrase(wordlist, wordCount, capitalize, addNumber, addSymbol, avoidPatterns, avoidRepetitions, delimiter, rejected[k]))
    && (rejections == MaxAttempts ==> phrase == rejected[|rejected| - 1])
  }

  /**
   * With the checks the command line passes, the returned passphrase was
   * accepted exactly when it has neither a common pattern nor a run of three
   * equal characters, and every rejected phrase's join has one of them.
   */
  lemma PassphraseUnderDefaultChecks(
    wordlist: seq<string>, wordCount: int, capitalize: bool, addNumber: bool, addSymbol: bool, delimiter: string,
    generated: string, phrase: Phrase, rejections: nat, rejected: seq<Phrase>)
    requires PassphraseRetryOutcome(wordlist, wordCount, capitalize, addNumber, addSymbol,
      Some(HasCommonPattern), Some(p => HasConsecutiveRepetition(p, DefaultMaxConsecutive)), delimiter,
      generated, phrase, rejections, rejected)
    ensures rejections < MaxAttempts <==>
      !HasCommonPattern(generated) && !HasConsecutiveRepetition(generated, DefaultMaxConsecutive)
    ensures forall k :: 0 <= k < |rejected| ==>
      HasCommonPattern(Join(rejected[k].tokens, delimiter))
      || HasConsecutiveRepetition(Join(rejected[k].tokens, delimiter), DefaultMaxConsecutive)
  {
  }

  /** A rejected phrase appended to a list of rejected phrases keeps every element rejected. */
  lemma RejectedAppend(
    wordlist: seq<string>, wordCount: int, capitalize: bool, addNumber: bool, addSymbol: bool,
    avoidPatterns: Checker, avoidRepetitions: Checker, delimiter: string, rejected: seq<Phrase>, ph: Phrase)
    requires forall k :: 0 <= k < |rejected| ==>
      RejectedPhrase(wordlist, wordCount, capitalize, addNumber, addSymbol, avoidPatterns, avoidRepetitions, delimiter, rejected[k])
    requires RejectedPhrase(wordlist, wordCount, capitalize, addNumber, addSymbol, avoidPatterns, avoidRepetitions, delimiter, ph)
    ensures var all := rejected + [ph];
      forall k :: 0 <= k < |all| ==>
        RejectedPhrase(wordlist, wordCount, capitalize, addNumber, addSymbol, avoidPatterns, avoidRepetitions, delimiter, all[k])
  {
    var all := rejected + [ph];
    forall k | 0 <= k < |all|
      ensures RejectedPhrase(wordlist, wordCount, capitalize, addNumber, addSymbol, avoidPatterns, avoidRepetitions, delimiter, all[k])
    {
      if k < |rejected| {
        assert all[k] == rejected[k];
      }
    }
  }

  // ---------------------------------------------------------------------
  // The generator object
  // ---------------------------------------------------------------------

  class PasswordGenerator {
    /** The Diceware word list; empty when loading failed. */
    var wordlist: seq<string>

    /** Construction loads the word list from the lines of the word-list file. */
    constructor (lines: seq<string>)
      ensures wordlist == LoadedWordlist(lines)
    {
      wordlist := [];
      new;
      LoadWordlist(lines);
    }

    /** _load_diceware_wordlist on the file's lines: the parsed words, or nothing on a malformed line. */
    method LoadWordlist(lines: seq<string>)
      modifies this
      ensures wordlist == LoadedWordlist(lines)
    {
      match ParseWordlist(lines)
      case Some(words) =>
        wordlist := words;
      case None =>
        wordlist := [];
    }

    /**
     * generate_random_password: None on the up-front exits, otherwise the
     * first candidate both checks accept, or after MaxAttempts rejected
     * candidates the next one, unchecked. `rejected` lists, in order, the
     * candidates a check turned down; `regenerations` is how many.
     */
    method GenerateRandomPassword(rng: RandomSource, o: PasswordOptions, avoidPatterns: Checker, avoidRepetitions: Checker)
      returns (password: Option<string>, ghost regenerations: nat, ghost rejected: seq<string>)
      modifies rng
      ensures password.None? <==> !AnyClass(o) || |CharPool(o)| == 0 || TotalMinimum(o) > o.length
      ensures password.None? ==> regenerations == 0 && rejected == [] && rng.tape == old(rng.tape) && rng.draws == old(rng.draws)
      ensures password.Some? ==> PasswordRetryOutcome(o, avoidPatterns, avoidRepetitions, password.value, regenerations, rejected)
      ensures password.Some? ==> rng.draws == old(rng.draws) + RepeatedDraws(regenerations, CandidateDraws(o)) + CandidateDraws(o)
    {
      if !(o.useLower || o.useUpper || o.useDigits || o.useSymbols) {
        return None, 0, [];
      }
      var charPool := BuildCharPool(o);
      if |charPool| == 0 {
        return None, 0, [];
      }
      var totalMinRequired := o.minLower + o.minUpper + o.minDigits + o.minSymbols;
      if totalMinRequired > o.length {
        return None, 0, [];
      }

      var generated;
      generated, regenerations, rejected := RetryPassword(rng, o, charPool, avoidPatterns, avoidRepetitions);
      password := Some(generated);
    }

    /**
     * The retry loop of generate_random_password: the first candidate both
     * checks accept, or after MaxAttempts rejected ones the next, unchecked.
     */
    method RetryPassword(rng: RandomSource, o: PasswordOptions, charPool: string, avoidPatterns: Checker, avoidRepetitions: Checker)
      returns (generatedPassword: string, ghost regenerations: nat, ghost rejected: seq<string>)
      requires charPool == CharPool(o) && |charPool| > 0
      modifies rng
      ensures PasswordRetryOutcome(o, avoidPatterns, avoidRepetitions, generatedPassword, regenerations, rejected)
      ensures rng.draws == old(rng.draws) + RepeatedDraws(regenerations, CandidateDraws(o)) + CandidateDraws(o)
    {
      rejected := [];
      ghost var perAttempt := CandidateDraws(o);
      generatedPassword := DrawCandidate(rng, o, charPool);
      ghost var spent := perAttempt;
      var attempts := 0;
      var isValid := false;
      while attempts < MaxAttempts
        invariant 0 <= attempts <= MaxAttempts
        invariant Candidate(o, generatedPassword)
        invariant avoidPatterns.None? && avoidRepetitions.None? ==> attempts == 0
        invariant |rejected| == attempts
        invariant forall k :: 0 <= k < |rejected| ==>
          Candidate(o, rejected[k]) && !Accepted(avoidPatterns, avoidRepetitions, rejected[k])
        invariant rng.draws == old(rng.draws) + spent
        invariant spent == RepeatedDraws(attempts, perAttempt) + perAttempt
      {
        isValid := Check(avoidPatterns, avoidRepetitions, generatedPassword);
        if isValid {
          break;
        }
        rejected, generatedPassword := Regenerate(rng, o, charPool, avoidPatterns, avoidRepetitions, rejected, generatedPassword);
        spent := spent + perAttempt;
        attempts := attempts + 1;
      }
      regenerations := attempts;
    }

    /**
     * One regeneration in generate_random_password's loop: the candidate a
     * check turned down joins the rejected ones, and a fresh candidate is
     * drawn.
     */
    method Regenerate(
      rng: RandomSource, o: PasswordOptions, charPool: string, avoidPatterns: Checker, avoidRepetitions: Checker,
      ghost rejected: seq<string>, turnedDown: string)
      returns (ghost rejectedNow: seq<string>, next: string)
      requires charPool == CharPool(o) && |charPool| > 0
      requires forall k :: 0 <= k < |rejected| ==> Candidate(o, rejected[k]) && !Accepted(avoidPatterns, avoidRepetitions, rejected[k])
      requires Candidate(o, turnedDown) && !Accepted(avoidPatterns, avoidRepetitions, turnedDown)
      modifies rng
      ensures rejectedNow == rejected + [turnedDown]
      ensures forall k :: 0 <= k < |rejectedNow| ==>
        Candidate(o, rejectedNow[k]) && !Accepted(avoidPatterns, avoidRepetitions, rejectedNow[k])
      ensures Candidate(o, next)
      ensures rng.draws == old(rng.draws) + CandidateDraws(o)
    {
      RejectedCandidateAppend(o, avoidPatterns, avoidRepetitions, rejected, turnedDown);
      rejectedNow := rejected + [turnedDown];
      next := DrawCandidate(rng, o, charPool);
    }

    /**
     * generate_passphrase: None without a word list or with a non-positive
     * count, otherwise the first phrase both checks accept, or the last of
     * MaxAttempts rejected ones. `phrase` is how the returned phrase was
     * built; `rejected` lists, in order, the phrases a check turned down, and
     * `rejections` is how many.
     */
    method GeneratePassphrase(
      rng: RandomSource, wordCount: int, delimiter: string,
      capitalizeWords: bool, addNumber: bool, addSymbol: bool,
      avoidPatterns: Checker, avoidRepetitions: Checker)
      returns (passphrase: Option<string>, ghost phrase: Phrase, ghost rejections: nat, ghost rejected: seq<Phrase>)
      modifies rng
      ensures passphrase.None? <==> wordlist == [] || wordCount <= 0
      ensures passphrase.None? ==> rejections == 0 && rejected == [] && rng.tape == old(rng.tape) && rng.draws == old(rng.draws)
      ensures passphrase.Some? ==>
        PassphraseRetryOutcome(wordlist, wordCount, capitalizeWords, addNumber, addSymbol, avoidPatterns, avoidRepetitions, delimiter,
          passphrase.value, phrase, rejections, rejected)
      ensures passphrase.Some? ==>
        rng.draws == old(rng.draws) + RepeatedDraws(rejections, PhraseDraws(wordCount, addNumber, addSymbol))
          + (if rejections < MaxAttempts then PhraseDraws(wordCount, addNumber, addSymbol) else 0)
    {
      if wordlist == [] || wordCount <= 0 {
        return None, Phrase([], ' ', ' ', []), 0, [];
      }
      var generated;
      generated, phrase, rejections, rejected := RetryPhrase(rng, wordCount, delimiter, capitalizeWords, addNumber, addSymbol, avoidPatterns, avoidRepetitions);
      passphrase := Some(generated);
    }

    /**
     * The retry loop of generate_passphrase: the first phrase both checks
     * accept, or the last of MaxAttempts rejected ones.
     */
    method RetryPhrase(
      rng: RandomSource, wordCount: nat, delimiter: string,
      capitalizeWords: bool, addNumber: bool, addSymbol: bool,
      avoidPatterns: Checker, avoidRepetitions: Checker)
      returns (generated: string, ghost phrase: Phrase, ghost rejections: nat, ghost rejected: seq<Phrase>)
      requires wordlist != []
      modifies rng
      ensures PassphraseRetryOutcome(wordlist, wordCount, capitalizeWords, addNumber, addSymbol, avoidPatterns, avoidRepetitions, delimiter,
        generated, phrase, rejections, rejected)
      ensures rng.draws == old(rng.draws) + RepeatedDraws(rejections, PhraseDraws(wordCount, addNumber, addSymbol))
        + (if rejections < MaxAttempts then PhraseDraws(wordCount, addNumber, addSymbol) else 0)
    {
      generated, phrase, rejected := "", Phrase([], ' ', ' ', []), [];
      ghost var perAttempt := PhraseDraws(wordCount, addNumber, addSymbol);
      ghost var spent := 0;
      var attempts := 0;
      var isValid := false;
      while attempts < MaxAttempts
        invariant 0 <= attempts <= MaxAttempts
        invariant avoidPatterns.None? && avoidRepetitions.None? ==> attempts == 0
        invariant |rejected| == attempts
        invariant attempts > 0 ==> phrase == rejected[|rejected| - 1] && generated == Join(phrase.tokens, delimiter)
        invariant attempts > 0 ==> PhraseFits(wordlist, wordCount, capitalizeWords, addNumber, addSymbol, phrase)
        invariant forall k :: 0 <= k < |rejected| ==>
          RejectedPhrase(wordlist, wordCount, capitalizeWords, addNumber, addSymbol, avoidPatterns, avoidRepetitions, delimiter, rejected[k])
        invariant rng.draws == old(rng.draws) + spent
        invariant spent == RepeatedDraws(attempts, perAttempt)
      {
        generated, isValid, phrase := TryPhrase(rng, wordCount, delimiter, capitalizeWords, addNumber, addSymbol, avoidPatterns, avoidRepetitions);
        spent := spent + perAttempt;
        if isValid {
          break;
        }
        RejectedAppend(wordlist, wordCount, capitalizeWords, addNumber, addSymbol, avoidPatterns, avoidRepetitions, delimiter, rejected, phrase);
        rejected := rejected + [phrase];
        attempts := attempts + 1;
      }
      rejections := attempts;
    }

    /** One turn of generate_passphrase's loop: a phrase is drawn, joined and checked. */
    method TryPhrase(
      rng: RandomSource, wordCount: nat, delimiter: string,
      capitalizeWords: bool, addNumber: bool, addSymbol: bool,
      avoidPatterns: Checker, avoidRepetitions: Checker)
      returns (generated: string, isValid: bool, ghost phrase: Phrase)
      requires wordlist != []
      modifies rng
      ensures PhraseFits(wordlist, wordCount, capitalizeWords, addNumber, addSymbol, phrase)
      ensures generated == Join(phrase.tokens, delimiter)
      ensures isValid <==> Accepted(avoidPatterns, avoidRepetitions, generated)
      ensures !isValid ==>
        RejectedPhrase(wordlist, wordCount, capitalizeWords, addNumber, addSymbol, avoidPatterns, avoidRepetitions, delimiter, phrase)
      ensures rng.draws == old(rng.draws) + PhraseDraws(wordCount, addNumber, addSymbol)
    {
      var phraseWords;
      phraseWords, phrase := DrawPhrase(rng, wordCount, capitalizeWords, addNumber, addSymbol);
      generated := Join(phraseWords, delimiter);
      isValid := Check(avoidPatterns, avoidRepetitions, generated);
    }

    /** One passphrase attempt: the drawn words, styled, with the requested digit and symbol shuffled in. */
    method DrawPhrase(rng: RandomSource, wordCount: nat, capitalizeWords: bool, addNumber: bool, addSymbol: bool)
      returns (tokens: seq<string>, ghost phrase: Phrase)
      requires wordlist != []
      modifies rng
      ensures PhraseFits(wordlist, wordCount, capitalizeWords, addNumber, addSymbol, phrase)
      ensures tokens == phrase.tokens
      ensures rng.draws == old(rng.draws) + PhraseDraws(wordCount, addNumber, addSymbol)
    {
      ghost var picks;
      var words;
      words, picks := DrawWords(rng, wordCount, capitalizeWords);
      var digit, symbol;
      tokens, digit, symbol := AddExtras(rng, words, addNumber, addSymbol);
      phrase := Phrase(picks, digit, symbol, tokens);
    }

    /** The word draws of generate_passphrase, then the capitalisation pass when asked for. */
    method DrawWords(rng: RandomSource, wordCount: nat, capitalizeWords: bool) returns (words: seq<string>, ghost picks: seq<nat>)
      requires wordlist != []
      modifies rng
      ensures |picks| == wordCount && forall i :: 0 <= i < wordCount ==> picks[i] < |wordlist|
      ensures words == PhraseWords(wordlist, picks, capitalizeWords)
      ensures rng.draws == old(rng.draws) + wordCount
    {
      words, picks := [], [];
      while |words| < wordCount
        invariant |picks| == |words| <= wordCount
        invariant forall i :: 0 <= i < |picks| ==> picks[i] < |wordlist|
        invariant words == PhraseWords(wordlist, picks, false)
        invariant rng.draws == old(rng.draws) + |words|
      {
        var j := rng.Below(|wordlist|);
        words, picks := words + [wordlist[j]], picks + [j];
      }
      if capitalizeWords {
        words := seq(|words|, i requires 0 <= i < |words| => Capitalize(words[i]));
      }
    }
  }

  /** The optional digit and symbol appended to the words, then the whole list shuffled when either was added. */
  method AddExtras(rng: RandomSource, words: seq<string>, addNumber: bool, addSymbol: bool)
    returns (tokens: seq<string>, digit: char, symbol: char)
    modifies rng
    ensures addNumber ==> digit in Digits
    ensures addSymbol ==> symbol in Punctuation
    ensures multiset(tokens) == multiset(words + Extras(Phrase([], digit, symbol, []), addNumber, addSymbol))
    ensures !addNumber && !addSymbol ==> tokens == words
    ensures rng.draws == old(rng.draws) + PhraseDraws(|words|, addNumber, addSymbol) - |words|
  {
    tokens := words;
    digit, symbol := ' ', ' ';
    if addNumber {
      digit := rng.Choice(Digits);
      tokens := tokens + [[digit]];
    }
    if addSymbol {
      symbol := rng.Choice(Punctuation);
      tokens := tokens + [[symbol]];
    }
    assert tokens == words + Extras(Phrase([], digit, symbol, []), addNumber, addSymbol);
    if addNumber || addSymbol {
      tokens := ShuffleList(rng, tokens);
    }
  }
}
