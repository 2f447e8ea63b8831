/** The sound inventory and random syllable and word generation
    (`PhonologySystem`). Every random choice is an explicit draw supplied by
    the caller; `random.choice` on an empty list raises, which is `None` here. */
module Phonology {
  import opened Options
  import opened Text

  /** Consonant and vowel graphemes plus the syllable patterns, each a string
      over 'C' (consonant slot) and any other character (vowel slot). */
  datatype Inventory = Inventory(consonants: set<string>, vowels: set<string>, patterns: seq<string>)

  const DefaultInventory: Inventory :=
    Inventory({"p", "t", "k", "b", "g", "m", "n", "s", "h", "l", "r"},
              {"i", "u", "e", "o", "a"},
              ["CV", "CVC", "V", "CVV"])

  /** The set a pattern character draws from: 'C' takes a consonant, every
      other character a vowel. */
  function Pool(inv: Inventory, slot: char): set<string> {
    if slot == 'C' then inv.consonants else inv.vowels
  }

  /** No slot of the pattern draws from an empty set. */
  predicate Drawable(inv: Inventory, pattern: string) {
    forall i :: 0 <= i < |pattern| ==> Pool(inv, pattern[i]) != {}
  }

  /** What `random.choice` promises: one grapheme per slot, taken from the
      slot's set whenever that set has anything to take. */
  predicate PicksFit(inv: Inventory, pattern: string, picks: seq<string>) {
    && |picks| == |pattern|
    && forall i :: 0 <= i < |pattern| ==> Pool(inv, pattern[i]) != {} ==> picks[i] in Pool(inv, pattern[i])
  }

  /** The join over a pattern's characters, left to right; the first slot
      whose set is empty raises. */
  function Spell(inv: Inventory, pattern: string, picks: seq<string>): (r: Option<string>)
    requires PicksFit(inv, pattern, picks)
    ensures r.Some? <==> Drawable(inv, pattern)
    ensures r.Some? ==> r.value == Concat(picks)
    ensures r.Some? ==> forall i :: 0 <= i < |picks| ==> picks[i] in Pool(inv, pattern[i])
  {
    if pattern == [] then Some([])
    else if Pool(inv, pattern[0]) == {} then None
    else
      match Spell(inv, pattern[1..], picks[1..])
      case None => None
      case Some(rest) => Some(picks[0] + rest)
  }

  /** The random input of one `generate_syllable` call: the index of the chosen
      pattern and one grapheme per slot of it. */
  datatype SyllableDraw = SyllableDraw(pattern: nat, picks: seq<string>)

  predicate SyllableDrawFits(inv: Inventory, d: SyllableDraw) {
    inv.patterns != [] ==> d.pattern < |inv.patterns| && PicksFit(inv, inv.patterns[d.pattern], d.picks)
  }

  /** `generate_syllable`: fails when there is no pattern or the chosen pattern
      needs a grapheme from an empty set; otherwise it is the picks joined,
      each from the set its slot names. */
  function GenerateSyllable(inv: Inventory, d: SyllableDraw): (r: Option<string>)
    requires SyllableDrawFits(inv, d)
    ensures r.Some? <==> inv.patterns != [] && Drawable(inv, inv.patterns[d.pattern])
    ensures r.Some? ==> |d.picks| == |inv.patterns[d.pattern]| && r.value == Concat(d.picks)
    ensures r.Some? ==> forall i :: 0 <= i < |d.picks| ==> d.picks[i] in Pool(inv, inv.patterns[d.pattern][i])
  {
    if inv.patterns == [] then None else Spell(inv, inv.patterns[d.pattern], d.picks)
  }

  /** Every grapheme of the inventory is a single character, as in the default. */
  predicate SingleCharGraphemes(inv: Inventory) {
    && (forall g :: g in inv.consonants ==> |g| == 1)
    && (forall g :: g in inv.vowels ==> |g| == 1)
  }

  lemma {:induction false} SumLengthsOfSingles(parts: seq<string>)
    requires forall i :: 0 <= i < |parts| ==> |parts[i]| == 1
    ensures SumLengths(parts) == |parts|
    decreases |parts|
  {
    if parts != [] {
      SumLengthsOfSingles(parts[1..]);
    }
  }

  /** With single-character graphemes a syllable is as long as its pattern. */
  lemma SyllableLength(inv: Inventory, d: SyllableDraw)
    requires SyllableDrawFits(inv, d) && SingleCharGraphemes(inv)
    requires GenerateSyllable(inv, d).Some?
    ensures |GenerateSyllable(inv, d).value| == |inv.patterns[d.pattern]|
  {
    var pattern := inv.patterns[d.pattern];
    forall i | 0 <= i < |d.picks|
      ensures |d.picks[i]| == 1
    {
      assert d.picks[i] in Pool(inv, pattern[i]);
    }
    SumLengthsOfSingles(d.picks);
  }

  /** `generate_word`'s syllable count: the requested one, or `randint(1, 3)`. */
  function SyllableCount(requested: Option<int>, roll: int): (n: int)
    requires requested.None? ==> 1 <= roll <= 3
    ensures requested.Some? ==> n == requested.value
    ensures requested.None? ==> 1 <= n <= 3
  {
    if requested.Some? then requested.value else roll
  }

  /** How many times `range(n)` iterates. */
  function Iterations(n: int): nat {
    if n <= 0 then 0 else n
  }

  /** The random input of one `generate_word` call: the count roll (read only
      when no count is given) and one draw per syllable. */
  datatype WordDraw = WordDraw(roll: int, syllables: seq<SyllableDraw>)

  predicate WordDrawFits(inv: Inventory, requested: Option<int>, d: WordDraw) {
    && (requested.None? ==> 1 <= d.roll <= 3)
    && |d.syllables| == Iterations(SyllableCount(requested, d.roll))
    && forall i :: 0 <= i < |d.syllables| ==> SyllableDrawFits(inv, d.syllables[i])
  }

  /** The syllables of a word, in order; the first failing one raises. */
  function GenerateSyllables(inv: Inventory, draws: seq<SyllableDraw>): (r: Option<seq<string>>)
    requires forall i :: 0 <= i < |draws| ==> SyllableDrawFits(inv, draws[i])
    ensures r.Some? <==> forall i :: 0 <= i < |draws| ==> GenerateSyllable(inv, draws[i]).Some?
    ensures r.Some? ==> |r.value| == |draws|
    ensures r.Some? ==> forall i :: 0 <= i < |draws| ==> GenerateSyllable(inv, draws[i]) == Some(r.value[i])
  {
    var steps := seq(|draws|, i requires 0 <= i < |draws| => GenerateSyllable(inv, draws[i]));
    assert forall i :: 0 <= i < |draws| ==> steps[i] == GenerateSyllable(inv, draws[i]);
    AllSome(steps)
  }

  /** `generate_word(syllable_count)`: the syllables joined. */
  function GenerateWord(inv: Inventory, requested: Option<int>, d: WordDraw): (r: Option<string>)
    requires WordDrawFits(inv, requested, d)
    ensures requested.Some? && requested.value <= 0 ==> r == Some([])
    ensures r.Some? <==> forall i :: 0 <= i < |d.syllables| ==> GenerateSyllable(inv, d.syllables[i]).Some?
    ensures r.Some? ==> r.value == Concat(GenerateSyllables(inv, d.syllables).value)
  {
    match GenerateSyllables(inv, d.syllables)
    case None => None
    case Some(parts) => Some(Concat(parts))
  }

  lemma {:induction false} SumLengthsBounds(parts: seq<string>, lo: nat, hi: nat)
    requires forall i :: 0 <= i < |parts| ==> lo <= |parts[i]| <= hi
    ensures lo * |parts| <= SumLengths(parts) <= hi * |parts|
    decreases |parts|
  {
    if parts != [] {
      SumLengthsBounds(parts[1..], lo, hi);
    }
  }

  /** There is a pattern, and every pattern can always be filled. */
  predicate Fillable(inv: Inventory) {
    && inv.patterns != []
    && forall j :: 0 <= j < |inv.patterns| ==> Drawable(inv, inv.patterns[j])
  }

  /** From a fillable inventory a word never fails, whatever its graphemes. */
  lemma WordSucceeds(inv: Inventory, requested: Option<int>, d: WordDraw)
    requires WordDrawFits(inv, requested, d) && Fillable(inv)
    ensures GenerateWord(inv, requested, d).Some?
  {
    forall i | 0 <= i < |d.syllables|
      ensures GenerateSyllable(inv, d.syllables[i]).Some?
    {
      assert d.syllables[i].pattern < |inv.patterns|;
    }
  }

  /** A fillable inventory with single-character graphemes and patterns of one
      to three slots, as the default is. */
  predicate WellStocked(inv: Inventory) {
    && SingleCharGraphemes(inv)
    && Fillable(inv)
    && forall j :: 0 <= j < |inv.patterns| ==> 1 <= |inv.patterns[j]| <= 3
  }

  /** From a well-stocked inventory a word never fails and has between one and
      three letters per syllable. */
  lemma {:induction false} WordLength(inv: Inventory, requested: Option<int>, d: WordDraw)
    requires WordDrawFits(inv, requested, d) && WellStocked(inv)
    ensures GenerateWord(inv, requested, d).Some?
    ensures var w := GenerateWord(inv, requested, d).value;
      |d.syllables| <= |w| <= 3 * |d.syllables|
  {
    WordSucceeds(inv, requested, d);
    forall i | 0 <= i < |d.syllables|
      ensures 1 <= |GenerateSyllable(inv, d.syllables[i]).value| <= 3
    {
      SyllableLength(inv, d.syllables[i]);
    }
    var parts := GenerateSyllables(inv, d.syllables).value;
    SumLengthsBounds(parts, 1, 3);
  }

  lemma DefaultWellStocked()
    ensures WellStocked(DefaultInventory)
  {
    var inv := DefaultInventory;
    assert "p" in inv.consonants && "a" in inv.vowels;
  }

  /** From the default inventory `generate_word()` never raises, uses one to
      three syllables, and each syllable contributes one to three letters. */
  lemma {:induction false} DefaultWord(d: WordDraw)
    requires WordDrawFits(DefaultInventory, None, d)
    ensures 1 <= |d.syllables| <= 3
    ensures GenerateWord(DefaultInventory, None, d).Some?
    ensures var w := GenerateWord(DefaultInventory, None, d).value;
      |d.syllables| <= |w| <= 3 * |d.syllables|
  {
    DefaultWellStocked();
    WordLength(DefaultInventory, None, d);
  }

}
