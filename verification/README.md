# Truku language-creator game, modelled in Dafny

The game walks a player through three stages of building a toy language
in the style of Truku:

1. **Phonology.** The player edits a consonant set and a vowel set. Five
   random words are then generated from syllable patterns such as `CV` and
   `CVC`.
2. **Morphology.** The player adds prefix and suffix rules, or gets three
   default rules. The generated words are split at random into verbs and
   nouns, and one verb and one noun are shown with a rule applied.
3. **Syntax.** The player picks a word order and a question marker. Three
   sample sentences and their question forms are assembled.

The model covers the generation logic and the state changes each stage
makes:

- `PhonologySystem.generate_syllable` and `generate_word`
- `MorphologySystem.add_rule` and `apply_morphology`
- `SyntaxSystem.generate_sentence`
- the menu loops and guarded prompts of `level_1_phonology`,
  `level_2_morphology` and `level_3_syntax`

Modules:

- `Text`: Python's `str.isspace`, `strip()`, `split()` and `''.join`, by
  code point.
- `Phonology`: the inventory, syllables and words.
- `Morphology`: the rule table.
- `Syntax`: word order, sentence and question form.
- `Game`: the session state and the three stages.
- `Options`: the `Option` type.

Every random choice is a parameter:

- `SyllableDraw` holds a pattern index and one grapheme per slot.
- `WordDraw` holds the `randint(1, 3)` roll and one draw per syllable.
- `WordSource` is either a bucket index or a fresh word draw.
- The reclassification takes a list of coins.
- The demonstration takes two pick indices.

A draw's predicate (`SyllableDrawFits`, `WordDrawFits`, `SourceFits`) says
what `random.choice` and `randint` guarantee. `random.choice` on an empty
list raises `IndexError`. Here that is `None`, so an emptied consonant or
vowel set is a reachable failure, not a precondition. Console input is a
script of lines, and a script that runs out reads as Enter.

Behaviours of the code that the model keeps:

- A rule's type is whatever string was typed. A same-named rule whose type
  is neither `prefix` nor `suffix` is passed over and the scan continues
  (`Morphology.OtherTypeSkipped`). A lookup does not stop at the first rule
  with a matching name.
- Rule names are not unique. A later rule is shadowed by an earlier
  same-named `prefix` or `suffix` rule. After an earlier same-named rule of
  another type it still fires (`Morphology.AddRuleLookup`).
- In a pattern, every character other than `C` is a vowel slot.
- Nothing stops the player from emptying the consonant or vowel set.
  Generation from an emptied set fails (`Phonology.GenerateSyllable`).

## Model

| member | source | states |
|---|---|---|
| Options.AllSome | truku_creator_game.py:19 | a run of steps succeeds exactly when every step does, and then holds each step's value in order; this is the generator inside `''.join` that stops at the first exception |
| Phonology.Spell | truku_creator_game.py:14 | joining one pick per pattern slot succeeds exactly when no slot's set is empty; the result is the picks concatenated, each from its slot's set |
| Phonology.GenerateSyllable | truku_creator_game.py:12-14 | a syllable fails exactly when there is no pattern or the chosen pattern needs an empty set; otherwise it is the concatenated picks, each taken from the set its slot names |
| Phonology.SyllableLength | truku_creator_game.py:12-14 | with single-character graphemes a syllable is exactly as long as its pattern |
| Phonology.SyllableCount | truku_creator_game.py:16-18 | the syllable count is the one requested, or between 1 and 3 when none is given |
| Phonology.GenerateSyllables | truku_creator_game.py:19 | the syllable list succeeds exactly when every syllable does, and holds one syllable per draw, in order |
| Phonology.GenerateWord | truku_creator_game.py:16-19 | a count of zero or less gives the empty word; a word succeeds exactly when all its syllables do, and is their concatenation |
| Phonology.WordSucceeds | truku_creator_game.py:12-19 | from an inventory with a pattern, whose every pattern can be filled, a word never fails, whatever the graphemes' lengths |
| Phonology.WordLength | truku_creator_game.py:16-19 | from an inventory with single-letter graphemes and fillable patterns of 1 to 3 slots, a word never fails and has between 1 and 3 letters per syllable |
| Phonology.DefaultWellStocked | truku_creator_game.py:8-10 | the default inventory has single-letter graphemes, non-empty sets and patterns of 1 to 3 slots |
| Phonology.DefaultWord | truku_creator_game.py:8-19 | from the default inventory, `generate_word()` never raises, uses 1 to 3 syllables, and has 1 to 3 letters per syllable |
| Morphology.AddRule | truku_creator_game.py:31-32 | adding a rule makes the table one longer, keeps the old rules in front, and puts the new rule last |
| Morphology.Affix | truku_creator_game.py:36-37 | a prefix rule's result is marker then base; a suffix rule's result is base then marker |
| Morphology.ApplyMorphology | truku_creator_game.py:33-38 | the result is the base word when no rule of that name is a prefix or suffix; otherwise the first such rule in insertion order is applied |
| Morphology.SkipFirst | truku_creator_game.py:34-37 | past a rule that does not fire, the first applicable rule is found in the rest at one index lower, and a miss stays a miss |
| Morphology.LookupCases | truku_creator_game.py:33-38 | every lookup either finds no applicable rule or has a first applicable one |
| Morphology.LaterRulesIgnored | truku_creator_game.py:34-37 | once some rule applies, rules appended after it do not change the result |
| Morphology.OtherTypeSkipped | truku_creator_game.py:35-37 | a same-named rule whose type is neither prefix nor suffix does not stop the scan |
| Morphology.AddRuleLookup | truku_creator_game.py:31-38 | after adding a rule, a name that already resolved keeps its result; a name that did not now gets the new rule if it applies, and the base word otherwise |
| Morphology.SeedDefaults | truku_creator_game.py:120-123 | an empty table gets the three default rules in order; a non-empty one is kept unchanged |
| Morphology.DefaultRulesApply | truku_creator_game.py:120-123 | with the default rules, negative puts "ma-" in front, past and nominal put "-in" and "-an" behind, and any other name leaves the word unchanged |
| Syntax.Arrange | truku_creator_game.py:44-49 | the slot table of lines 45-49, with SVO for any other order; there are always three slots |
| Syntax.NonEmpty | truku_creator_game.py:44-49 | the filtered list is no longer than the input and holds only non-empty words |
| Syntax.Spaced | truku_creator_game.py:45 | three words joined by single spaces are two characters longer than the words together |
| Syntax.GenerateSentence | truku_creator_game.py:44-49 | the sentence has no leading or trailing whitespace and is at most the three words plus two spaces long |
| Syntax.UnknownOrderIsSvo | truku_creator_game.py:49 | any word order outside the four known ones builds the same sentence as SVO |
| Syntax.SentenceTokens | truku_creator_game.py:44-49 | for words without whitespace, splitting the sentence gives exactly its non-empty words, in the order the word order prescribes |
| Syntax.SingleSpaced | truku_creator_game.py:44-49 | non-empty, unpadded words come out joined by single spaces, with nothing stripped |
| Syntax.EmptyObject | truku_creator_game.py:44-49 | with an empty object, SVO and VSO give two words with one space, and VOS and SOV keep a double space inside |
| Syntax.QuestionForm | truku_creator_game.py:157 | the question is the sentence, then a space, then the marker; a marker without whitespace is exactly one more token after the sentence's tokens |
| Text.StripDrops | truku_creator_game.py:75 | `strip()` leaves a string that neither starts nor ends with whitespace, obtained by removing a whitespace prefix and a whitespace suffix |
| Text.StripOf | truku_creator_game.py:45-49 | `strip()` of an unpadded middle wrapped in whitespace is that middle |
| Text.SplitStrip | truku_creator_game.py:45-49 | stripping never changes the whitespace-separated tokens |
| Text.SplitAtSpace | truku_creator_game.py:157 | splitting at a whitespace character splits the two sides independently |
| Game.ParsePhonologyChoice | truku_creator_game.py:75-89 | a stripped choice of "1" to "4" picks add or remove consonant or vowel, each exactly for its code; anything else ends the menu |
| Game.AddGrapheme | truku_creator_game.py:77-78 | the stripped input is added only when it is non-empty, so every added grapheme is non-empty and unpadded |
| Game.RemoveGrapheme | truku_creator_game.py:80-81 | the stripped input is removed; removing an absent grapheme changes nothing |
| Game.EditInventory | truku_creator_game.py:76-87 | each edit changes only its own set as add or remove prescribes; a non-empty added grapheme is present afterwards, a removed one absent; the patterns are never changed |
| Game.PhonologyMenu | truku_creator_game.py:72-89 | the menu loop keeps the patterns; a grapheme is in a set afterwards only if it was there before or an add line before the first non-code line named it, and one that was there stays unless such a remove line named it; a non-empty grapheme only added is present afterwards, and one only removed is absent; the edits apply in the order typed, so the last add or remove line naming a grapheme decides whether it is in the set (`LastEdit`), and a grapheme no line names keeps its old membership; graphemes stay non-empty and unpadded; with no menu code nothing changes |
| Game.DefaultClean | truku_creator_game.py:8-9 | the default graphemes are non-empty and unpadded |
| Game.GenerateWords | truku_creator_game.py:92-95 | the five words succeed exactly when each does; they are the generated words, in order |
| Game.PhonologyStage | truku_creator_game.py:66-96 | the inventory becomes the menu's result, and the five words are the ones generated from it; they are appended to the unclassified bucket and nothing else in the session changes |
| Game.MorphologyMenu | truku_creator_game.py:103-124 | the table becomes the old rules followed by one rule per "1" line, made from its stripped lines, in the order typed; with no old rules and none typed it becomes the three defaults; it is never empty afterwards |
| Game.Select | truku_creator_game.py:126-127 | the words whose coin shows the given side, in their original order; no more words than the bucket holds, each taken from it |
| Game.Reclassified | truku_creator_game.py:126-128 | the unclassified bucket is emptied; the old verbs and nouns stay in front; verbs and nouns together gain exactly the unclassified words |
| Game.Reclassify | truku_creator_game.py:126-128 | the loop empties the unclassified bucket, appends to the verbs the words whose coin is true and to the nouns the rest, in order; this is the same result as `Game.Reclassified` |
| Game.SelectPartition | truku_creator_game.py:126-127 | verbs and nouns together receive every unclassified word, each as often as before |
| Game.SelectLengths | truku_creator_game.py:126-127 | the words moved to verbs and nouns add up to the unclassified count |
| Game.SelectCount | truku_creator_game.py:126-127 | a side receives exactly as many words as there are coins showing that side |
| Game.SelectMember | truku_creator_game.py:127 | each word ends up on the side its coin names |
| Game.MorphologyDemo | truku_creator_game.py:130-136 | a verb is shown in its past form exactly when there are verbs, and a noun nominalised exactly when there are nouns, each picked from its bucket |
| Game.MorphologyStage | truku_creator_game.py:98-137 | the rules become the menu's result; the unclassified bucket is emptied into verbs and nouns as the coins say, with no word lost or added; old verbs and nouns stay in front; the demonstration uses the new rules and buckets; inventory and syntax settings are unchanged |
| Game.SetWordOrder | truku_creator_game.py:145-146 | the stripped answer becomes the word order only if it is one of the four known orders; otherwise nothing changes |
| Game.SetQuestionMarker | truku_creator_game.py:147-148 | a non-empty stripped answer becomes the marker; an empty one keeps it, so the marker is never emptied |
| Game.PickWord | truku_creator_game.py:152-154 | a word comes from its bucket when the bucket has words, and is freshly generated otherwise |
| Game.SampleSentence | truku_creator_game.py:151-157 | with both buckets filled a sample never fails; the sentence arranges nouns and a verb from the buckets, and the question is its question form |
| Game.SampleSentences | truku_creator_game.py:151-157 | the samples succeed exactly when each does; they are the samples, in order |
| Game.SyntaxStage | truku_creator_game.py:139-158 | the stage fails exactly when drawing the samples under the new settings fails; otherwise the settings become the guarded answers and nothing else changes, and the three samples are those drawn, each question being the sentence, a space and the marker |
| Game.NoEditPhonologyStage | truku_creator_game.py:72-95 | leaving the menu at once with an inventory whose patterns can always be filled, the stage cannot fail, appends five words to the unclassified bucket and keeps the inventory |
| Game.DefaultPhonologyStage | truku_creator_game.py:66-96 | from a new game with no edits the stage cannot fail and leaves five words in the unclassified bucket with the inventory unchanged |
| Game.NewSessionStaysClean | truku_creator_game.py:77-87 | whatever is typed at the phonology menu of a new game, the inventory left after the stage holds only non-empty graphemes without surrounding white space, because every entry is stripped and an empty one is never added |
| Game.DefaultMorphologyStage | truku_creator_game.py:119-136 | leaving the menu at once with an empty table seeds the defaults, and the demonstration shows "-in" and "-an" appended |
| Game.PickWordSucceeds | truku_creator_game.py:152-154 | with an inventory whose patterns can always be filled, picking a word never fails, even from an empty bucket |
| Game.SyntaxStageSucceeds | truku_creator_game.py:150-157 | with an inventory whose patterns can always be filled, the syntax stage never fails, whether the buckets are empty or not |
| Game.EmptyAnswersKeepSyntax | truku_creator_game.py:145-157 | with an inventory whose patterns can always be filled, empty answers at both prompts keep the settings, and every question is the sentence, a space and the current marker |

## Left out

- Console output: the prompts, the listing of option "2", sorted set
  displays and `display_welcome` carry no state, so they are not modelled.
  Each input line is a parameter.
- `final_showcase`: it prints a fixed list and changes nothing.
- `run_game`: the stages are modelled one by one. No single lemma chains
  all three.
- The distribution of Python's random generator: only the range of each
  draw is modelled. A draw's index or grapheme is a parameter constrained
  to that range.
- The iteration order of `list(set)`: a pick is constrained to be a member
  of the set, whatever position it had in the list.
- `defaultdict(list)`: the three buckets `unknown`, `verb` and `noun` are
  fields of `Vocab`. No other key is ever used.
- End of input: `input()` raising `EOFError` is not modelled. A script
  that runs out reads as an empty line.
- Game.SampleSentence: when a bucket is empty, it states only that the
  word is some string, without tying it to the fresh word's draw. That
  relation is in `Game.PickWord`.
