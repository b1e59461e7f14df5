# Password and passphrase generator: a Dafny model

This project models the generation engine of a small password tool:

- `PasswordGenerator` builds random passwords from character classes (lower case, upper case, digits, punctuation). It guarantees per-class minimum counts, can drop the ambiguous characters `lIO01` from the filler pool, and shuffles the result.
- It also builds Diceware passphrases from a word list loaded from a tab-separated file.
- Both generators retry up to 100 times while an optional pattern checker or repetition checker rejects the candidate. After 100 rejections they return the last candidate anyway.
- The strength helpers it works with are modelled too: the common-pattern check, the consecutive-repetition check, the ambiguous-character check, and the character classification plus charset-size estimate behind the entropy figure.

Files, one module each:

- `config.dfy` (`Config`): the character sets, the ambiguous characters and the common-pattern list, with lemmas that identify the alphabets as character ranges.
- `text.dfy` (`Text`): the Python string operations the code relies on, each with its properties:
  - `str.strip`, `str.split` on one character, `str.join`, `str.lower`, `str.capitalize`;
  - substring test and character counting.
- `utils.dfy` (`Utils`): classification and charset size, the estimate's guess space, and the three checks.
- `randomness.dfy` (`Randomness`): the system's random source, a `RandomSource` object that replays a tape of outcomes.
  - `Below(n)` is one draw below `n`, `Choice` is `secrets.choice`, and `Shuffle` is the Fisher–Yates loop of `random.shuffle` on an array.
  - A ghost counter `draws` counts the draws taken, so each operation states how much randomness it consumes.
  - Every sequence of draws is reachable (`DrawsReachable`), so what the model proves for all tapes is what holds for every run.
- `generator.dfy` (`Generator`): the options, the pool, one candidate's draw, the passphrase attempt, the word-list loader, and the `PasswordGenerator` class with its two retry loops.

Candidates are specified by `WellFormedPassword`:

- the length is the guaranteed characters plus the filler;
- every enabled class meets its minimum;
- every character is from an enabled alphabet;
- with ambiguous characters excluded, each class holds at most as many of its ambiguous characters (`l`; `I`, `O`; `0`, `1`) as that class has guaranteed characters.

`Drawable` is stronger still: the candidate is a rearrangement of some buffer that fits the options, made of one guaranteed part per class (from the full class alphabet) and the filler (from the pool). Every drawn candidate, returned or rejected, is `Drawable` and well formed (`Candidate`).

Phrases are specified by `PhraseFits`:

- the right number of draws, each in range;
- the digit and symbol come from their alphabets;
- the tokens are a permutation of the styled words plus the extras;
- with no extras, the tokens are the words in draw order.

Behaviour of the code that a reader may not expect, modelled as written:

- Excluding ambiguous characters filters only the filler pool. Guaranteed characters are drawn from the full class alphabets (generator.py:81-92), so a password generated with exclusion on can still contain `l`, `I`, `O`, `0` or `1` (`AmbiguousThroughMinimums`). It is free of them when no lower-case, upper-case or digit character is guaranteed, whatever the symbol minimum (`NoAmbiguousWithoutMinimums`).
- The filler count is `length` minus the characters actually guaranteed (generator.py:95), not `length` minus the sum of all minimums. A minimum given for a disabled class is therefore replaced by filler.
- A negative minimum passes the up-front check and can make the password longer than `length` (`NegativeMinimumOverrun`). The exact length holds for non-negative minimums (`CandidateLength`).
- `str.capitalize` lowercases the rest of each word, not only its first letter.
- The default delimiter `-` is itself a punctuation character, and a word may contain it. A passphrase therefore splits back into its tokens only under the conditions of `PassphraseSplits`; `DefaultDelimiterIsSymbol` gives a case with an extra segment.
- The empty-pool exit (generator.py:67-69) is kept as written, but it can never be taken (`PoolNonEmpty`).

## Model

| member | source | states |
|---|---|---|
| `Config.LowercaseIsRange` | config.py:4 | a character is in the lower-case alphabet exactly when it lies between `a` and `z` |
| `Config.UppercaseIsRange` | config.py:5 | a character is in the upper-case alphabet exactly when it lies between `A` and `Z` |
| `Config.DigitsIsRange` | config.py:6 | a character is a digit of the alphabet exactly when it lies between `0` and `9` |
| `Config.PunctuationOutsideRanges` | config.py:7 | no punctuation character is a letter or a digit, so the four classes are disjoint |
| `Text.StripSlice` | generator.py:19 | `Strip`, the model of `str.strip()`, gives the slice of the line left after removing a whitespace run at each end |
| `Text.StripEnds` | generator.py:19 | a non-empty stripped line starts and ends with non-whitespace |
| `Text.StripEmpty` | generator.py:19 | a line strips to nothing exactly when it is all whitespace, so the loader's blank-line test agrees with `if line.strip()` |
| `Text.Split` | generator.py:19 | at least one piece; a single piece exactly when the separator is absent; no piece holds the separator; joining the pieces with `Join` (the model of `str.join`) gives back the string |
| `Text.SplitJoin` | generator.py:19 | splitting the join of separator-free pieces gives back exactly those pieces |
| `Text.ToLower` | utils.py:82 | same length, each character lowered, no upper-case letter left |
| `Text.Capitalize` | generator.py:172 | same length and same lower-case form as the word, the first character not lower case, the rest not upper case |
| `Text.JoinLength` | generator.py:183 | `Join` of n parts is as long as the parts together plus n - 1 delimiters |
| `Text.JoinContainsParts` | generator.py:183 | every part occurs as a substring of the `Join` of the parts |
| `Text.JoinSameLower` | generator.py:183 | joining parts that agree up to case gives strings that agree up to case |
| `Utils.Classify` | utils.py:21-31 | the class is Lower, Upper, Digit or Symbol exactly when the character is in that alphabet, and Other exactly when it is in none |
| `Utils.CharsetSize` | utils.py:33-45 | zero exactly for no classes, otherwise between 10 and 144 and at least the size of every class present |
| `Utils.CharsetSizeMonotone` | utils.py:33-43 | more classes present never give a smaller charset size |
| `Utils.EstimatedCharsetSize` | utils.py:17-46 | the loop computes the charset size of the classes present; zero exactly for the empty password, otherwise 10 to 144 |
| `Utils.ClassesOfPermutation` | utils.py:20-48 | a rearranged password has the same classes and the same guess space |
| `Utils.GuessSpace` | utils.py:48 | the guess space, charset size to the power of the length, is at least 10 for a non-empty password |
| `Utils.GuessSpaceGrows` | utils.py:48 | appending characters never makes the guess space smaller |
| `Utils.GuessSpaceMonotoneInLength` | utils.py:48 | with the same class mix, a longer password has at least as large a guess space (entropy is non-decreasing in length) |
| `Utils.AnyInfix` | utils.py:83-85 | the loop over the patterns finds one exactly when some pattern is a substring (`IsInfix`, Python's `in` on strings) of the text |
| `Utils.HasCommonPattern` | utils.py:78-86 | true exactly when some listed pattern is a substring of the lower-cased password |
| `Utils.PatternCheckIgnoresCase` | utils.py:82-85 | the pattern check gives the same answer for a password and its lower-case form |
| `Utils.AllEqualTo` | utils.py:97 | the `all(...)` window test: true exactly when every character in the window equals the one at position i |
| `Utils.RunFrom` | utils.py:96-98 | the loop over start positions finds a run exactly when some position from i on starts one |
| `Utils.HasConsecutiveRepetition` | utils.py:88-99 | false for a threshold below 1; otherwise true exactly when some position starts a run of threshold+1 equal characters; never true for a password no longer than the threshold |
| `Utils.RepetitionAntitone` | utils.py:93-99 | a password flagged at threshold k ≥ 2 is also flagged at k-1 |
| `Utils.RepetitionExamples` | utils.py:89-91 | at the default threshold 2, `aaa` and `111` are flagged and `aab` is not |
| `Utils.HasAmbiguousChars` | utils.py:101-105 | true exactly when some character is in `lIO01`, i.e. when the count of such characters is positive |
| `Randomness.RandomSource.Below` | generator.py:83 | a draw is below its bound, consumes one outcome of the tape, counts as one draw, and equals the tape's next outcome reduced below the bound |
| `Randomness.RandomSource.Choice` | generator.py:83 | the chosen element belongs to the sequence chosen from, and the choice counts as one draw |
| `Randomness.RandomSource.Shuffle` | generator.py:100 | the shuffled array holds the same multiset of elements, and shuffling n items takes n - 1 draws (none for an empty array) |
| `Randomness.DrawsReachable` | generator.py:82-83 | any sequence of outcomes, each below its bound, is what some tape yields |
| `Generator.WithoutAmbiguous` | generator.py:64-65 | the kept characters are exactly those of the pool outside `lIO01` |
| `Generator.CharPool` | generator.py:54-65 | a character is in the pool exactly when it is in an enabled alphabet and not excluded as ambiguous |
| `Generator.BuildCharPool` | generator.py:54-65 | the pool built step by step is the pool of the options |
| `Generator.PoolNonEmpty` | generator.py:67-69 | with a class enabled the pool is never empty, so the empty-pool exit is never taken |
| `Generator.Check` | generator.py:108-112 | a candidate is valid exactly when no supplied checker rejects it |
| `Generator.AppendChoices` | generator.py:96-97 | appends as many characters as the count asks (none for a non-positive count), all from the alphabet, keeping what was there |
| `Generator.AppendGuaranteed` | generator.py:81-92 | a class appends its minimum of characters from its own alphabet when enabled, nothing otherwise |
| `Generator.ShuffleList` | generator.py:100 | the shuffled list is a permutation of the original |
| `Generator.DrawGuaranteed` | generator.py:81-92 | the guaranteed characters are the lower-case, upper-case, digit and punctuation parts in that order, each of its class's guaranteed count and from its class's full alphabet, one draw per character |
| `Generator.DrawCandidate` | generator.py:77-101 | every candidate drawn is a rearrangement of a buffer that fits the options (`Drawable`) and is well formed; one candidate takes `CandidateDraws(o)` draws: one per guaranteed and filler character plus the shuffle's |
| `Generator.ShuffledCandidate` | generator.py:81-101 | a rearrangement of a fitting buffer is a candidate: drawable and well formed |
| `Generator.DrawableWellFormed` | generator.py:81-101 | every rearrangement of a fitting buffer is well formed |
| `Generator.ShuffledBufferWellFormed` | generator.py:81-101 | any rearrangement of a buffer of guaranteed and filler characters is well formed: length, minimums, alphabets, and with exclusion on at most the guaranteed count of each class's ambiguous characters |
| `Generator.AmbiguousFromGuaranteed` | generator.py:64-97 | with exclusion on, the filler adds no ambiguous character: a rearranged buffer holds exactly those of its guaranteed parts |
| `Generator.AmbiguousPerClass` | generator.py:64-92 | with exclusion on, a rearranged buffer holds at most `Guaranteed(useLower, minLower)` of `l`, `Guaranteed(useUpper, minUpper)` of `I` and `O`, and `Guaranteed(useDigits, minDigits)` of `0` and `1` |
| `Generator.CandidateLength` | generator.py:72-97 | with non-negative minimums that pass the up-front check, a candidate has exactly the requested length |
| `Generator.OnlyLowercase` | generator.py:55-56 | with lower case the only enabled class, every character is a lower-case letter |
| `Generator.LowercaseOnlyScenario` | generator.py:30-101 | lower case only, length 8, no minimums: a candidate is eight lower-case letters |
| `Generator.NegativeMinimumOverrun` | generator.py:72-97 | a negative minimum passes the check yet yields 10 characters for a length of 8 |
| `Generator.ShuffledMinimums` | generator.py:81-101 | any rearrangement of a fitting buffer meets the minimum of every enabled class |
| `Generator.AmbiguousThroughMinimums` | generator.py:64-92 | for options of length 1 with only lower case enabled, a minimum of 1 and exclusion on: a guaranteed lower-case `l` fits the buffer, is well formed, and is ambiguous, although `l` is not in the pool |
| `Generator.NoAmbiguousWithoutMinimums` | generator.py:64-97 | with exclusion on and no lower-case, upper-case or digit character guaranteed (symbol minimums and minimums of disabled classes allowed), a candidate has no ambiguous character |
| `Generator.CandidateClasses` | generator.py:81-97 | a candidate shows only enabled classes, shows every enabled class with a positive minimum, and its estimated charset is at most that of the enabled classes |
| `Generator.FullCharset` | generator.py:81-97 | all classes enabled with positive minimums: the estimate sees the full 94-character set |
| `Generator.PhraseWordsStyle` | generator.py:169-172 | each word of an attempt has its drawn entry's length and lower-case form; it is exactly the entry without capitalisation, and with it starts with no lower-case letter |
| `Generator.AddExtras` | generator.py:174-181 | the tokens are the words plus a digit and/or a punctuation character as requested, permuted; untouched without extras |
| `Generator.PhraseTokenCount` | generator.py:169-181 | a phrase has word count + one per requested extra tokens |
| `Generator.PhraseTokensDrawn` | generator.py:169-181 | every token is a styled word-list entry, the requested digit or the requested symbol |
| `Generator.PassphraseContents` | generator.py:169-183 | the passphrase contains every drawn word in its requested style and the requested digit and symbol, and is as long as its tokens plus one delimiter between each pair |
| `Generator.PassphraseSplits` | generator.py:183 | with a delimiter no token can contain, splitting the passphrase at it gives back exactly its tokens |
| `Generator.DefaultDelimiterIsSymbol` | generator.py:149 | the default delimiter `-` is punctuation, and a `-` token adds a segment when split |
| `Generator.CapitalizationKeepsPatternVerdict` | generator.py:171-186 | capitalising the words never changes the common-pattern verdict on the joined phrase |
| `Generator.ParseLine` | generator.py:19 | a line yields no word exactly when its stripped form has no tab; a word holds no tab |
| `Generator.ParseWordlist` | generator.py:19 | the words are no more than the lines and hold no tab |
| `Generator.ParseWordlistFails` | generator.py:19-28 | loading fails exactly when some non-blank line has no tab-separated second field |
| `Generator.ParseEntryLine` | generator.py:18-19 | a `key<TAB>word` line parses to exactly its word, when key and word are non-empty, tab-free and without whitespace at their ends (inner spaces allowed) |
| `Generator.ParseEntries` | generator.py:16-19 | a file of such `key<TAB>word` lines loads exactly its words in order |
| `Generator.PasswordGenerator.constructor` | generator.py:10-12 | a new generator holds the word list loaded from the file's lines |
| `Generator.PasswordGenerator.LoadWordlist` | generator.py:14-28 | the word list becomes the parsed words, or empty when a line is malformed |
| `Generator.PasswordGenerator.GenerateRandomPassword` | generator.py:30-143 | none exactly when no class is enabled, the pool is empty or the minimums exceed the length, and then nothing was rejected and no random outcome was consumed; otherwise the outcome of the retry loop (`PasswordRetryOutcome`): a drawable, well-formed password, accepted by both checks unless 100 regenerations were spent; the ghost list of rejected candidates has one entry per regeneration, each a drawable, well-formed candidate that a check rejected; no regeneration without checkers; exactly `regenerations + 1` candidates' worth of draws (`CandidateDraws(o)` each) were consumed |
| `Generator.PasswordGenerator.RetryPassword` | generator.py:105-143 | the retry loop alone delivers that outcome from a drawable, well-formed first candidate onwards, consuming `regenerations + 1` candidates' worth of draws |
| `Generator.PasswordGenerator.Regenerate` | generator.py:114-140 | one regeneration: the turned-down candidate joins the rejected list, every entry stays a rejected candidate, and the next candidate is drawable and well formed, drawn with `CandidateDraws(o)` draws |
| `Generator.RejectedCandidateAppend` | generator.py:114-141 | appending a rejected candidate to a list of rejected candidates keeps every element a rejected candidate |
| `Generator.PasswordUnderDefaultChecks` | main.py:162-163 | with the common-pattern check and the repetition check at threshold 2, a password returned before the attempts ran out has no common pattern and no run of three equal characters, and every rejected candidate has one of them |
| `Generator.PasswordGenerator.DrawWords` | generator.py:169-172 | draws the requested number of word-list entries, capitalised when asked |
| `Generator.PasswordGenerator.DrawPhrase` | generator.py:169-181 | one attempt's tokens fit the phrase shape for the options |
| `Generator.PasswordGenerator.GeneratePassphrase` | generator.py:146-197 | none exactly when the word list is empty or the count is not positive, and then nothing was rejected and no random outcome was consumed; otherwise the outcome of the retry loop (`PassphraseRetryOutcome`): the join of a fitting phrase, accepted by both checks exactly when fewer than 100 attempts were rejected; the ghost list of rejected attempts has one entry per rejection, each a fitting phrase whose join a check turned down; no rejection without checkers; after 100 rejections the returned phrase is the last of them; one attempt's draws (`PhraseDraws`) were consumed per rejection, plus one more when an attempt was accepted |
| `Generator.PasswordGenerator.RetryPhrase` | generator.py:166-197 | the retry loop alone delivers that outcome, with the same count of draws |
| `Generator.PasswordGenerator.TryPhrase` | generator.py:169-189 | one attempt: a fitting phrase, its join, and a verdict that is true exactly when both checks accept the join; a false verdict makes the phrase a rejected one |
| `Generator.RejectedAppend` | generator.py:191-194 | appending a rejected phrase to a list of rejected phrases keeps every element rejected |
| `Generator.PassphraseUnderDefaultChecks` | main.py:118-119 | with the common-pattern check and the repetition check at threshold 2, the passphrase was accepted exactly when it has no common pattern and no run of three equal characters, and every rejected phrase's join has one of them |

## Left out

- Printing the error and warning messages, opening the word-list file and its encoding are left out. The loader takes the file's lines as a parameter, and a missing file is the same as one that fails to parse: the word list is empty.
- The floating-point entropy `len * log2(size)` is left out. The model proves its facts about the exact guess space `size ^ len` instead, which has the same order.
- `estimate_crack_time`, `check_pwned_password` (network), clipboard copying, the GUI and the command-line front end are left out. They are not part of the generation engine.
- The model does not capture the probability distribution of `secrets` draws. The random source is a tape of outcomes, and an exhausted tape yields 0.
- `Randomness.RandomSource.Shuffle`: proves only that the result is a permutation, not that every permutation is equally likely.
- `Text.ToLower`: lowers ASCII letters only. Python's `str.lower` also changes non-ASCII letters.
- `Text.Capitalize`: upper-cases an ASCII first letter and lowers the rest as ASCII only. Python's `str.capitalize` title-cases the first character and also changes non-ASCII letters.
- `Generator.PasswordGenerator.GenerateRandomPassword`: the rejected candidates are a ghost output. The contract fixes how many draws were consumed, but it does not tie the returned or rejected candidates to those draws. So it does not force a fresh candidate after a rejection: a loop that reused one rejected candidate while consuming the same draws would meet it.
- `Generator.PasswordGenerator.RetryPassword`: the same gap. The contract does not force a fresh draw after a rejection. Only the number of draws consumed is fixed, not which candidate they produced.
- `Generator.PasswordGenerator.GeneratePassphrase`: the rejected phrases are a ghost output. The contract fixes the number of draws but does not tie the returned or rejected phrases to them, so it does not force a fresh phrase after a rejection.
- `Generator.PasswordGenerator.RetryPhrase`: the same gap. The contract does not force a fresh draw after a rejection. Only the number of draws consumed is fixed.
- The checkers are modelled as pure functions, so the short-circuit between the pattern check and the repetition check (generator.py:111) cannot be observed. Exceptions raised by a checker are not modelled.
