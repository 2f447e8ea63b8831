/** The session (`LanguageCreatorGame`): the state the three stages share
    and the updates each stage makes to it. Console lines are parameters
    (menu scripts), and each random choice is a parameter too. */
module Game {
  import opened Options
  import opened Text
  import opened Phonology
  import opened Morphology
  import opened Syntax

  /** The `vocab` buckets: unclassified words, verbs, nouns. */
  datatype Vocab = Vocab(unknown: seq<string>, verb: seq<string>, noun: seq<string>)

  /** The state the stages share. */
  datatype Session = Session(phonology: Inventory, rules: seq<Rule>, syntax: Settings, vocab: Vocab)

  const NewSession: Session := Session(DefaultInventory, [], DefaultSettings, Vocab([], [], []))

  // ---------------------------------------------------------------------
  // Stage 1: phonology

  datatype InventoryEdit = AddConsonant | RemoveConsonant | AddVowel | RemoveVowel

  /** The phonology menu: codes "1" to "4" (after stripping) pick an edit;
      anything else ends the stage. */
  function ParsePhonologyChoice(line: string): (r: Option<InventoryEdit>)
    ensures r.Some? <==> Strip(line) in {"1", "2", "3", "4"}
    ensures r == Some(AddConsonant) <==> Strip(line) == "1"
    ensures r == Some(RemoveConsonant) <==> Strip(line) == "2"
    ensures r == Some(AddVowel) <==> Strip(line) == "3"
    ensures r == Some(RemoveVowel) <==> Strip(line) == "4"
  {
    var c := Strip(line);
    if c == "1" then Some(AddConsonant)
    else if c == "2" then Some(RemoveConsonant)
    else if c == "3" then Some(AddVowel)
    else if c == "4" then Some(RemoveVowel)
    else None
  }

  /** Adding a grapheme: the stripped input goes in only if it is non-empty,
      so everything ever added is non-empty and unpadded. */
  function AddGrapheme(pool: set<string>, line: string): (r: set<string>)
    ensures Strip(line) == [] ==> r == pool
    ensures Strip(line) != [] ==> r == pool + {Strip(line)}
    ensures forall g :: g in r ==> g in pool || (g != [] && Unpadded(g))
  {
    var c := Strip(line);
    StripDrops(line);
    if c != [] then pool + {c} else pool
  }

  /** Removing a grapheme: the stripped input comes out if present; removing
      an absent one changes nothing. */
  function RemoveGrapheme(pool: set<string>, line: string): (r: set<string>)
    ensures r == pool - {Strip(line)}
    ensures Strip(line) !in pool ==> r == pool
  {
    var c := Strip(line);
    if c in pool then pool - {c} else pool
  }

  /** One menu action. Each edit touches only its own set; the patterns are
      never edited. */
  function EditInventory(inv: Inventory, edit: InventoryEdit, line: string): (r: Inventory)
    ensures r.patterns == inv.patterns
    ensures (edit.AddConsonant? || edit.RemoveConsonant?) ==> r.vowels == inv.vowels
    ensures (edit.AddVowel? || edit.RemoveVowel?) ==> r.consonants == inv.consonants
    ensures edit.AddConsonant? ==> r.consonants == AddGrapheme(inv.consonants, line)
    ensures edit.RemoveConsonant? ==> r.consonants == RemoveGrapheme(inv.consonants, line)
    ensures edit.AddVowel? ==> r.vowels == AddGrapheme(inv.vowels, line)
    ensures edit.RemoveVowel? ==> r.vowels == RemoveGrapheme(inv.vowels, line)
    ensures forall c :: c in r.consonants ==> c in inv.consonants || (edit == AddConsonant && c == Strip(line))
    ensures forall c :: c in inv.consonants ==> c in r.consonants || (edit == RemoveConsonant && c == Strip(line))
    ensures forall c :: c in r.vowels ==> c in inv.vowels || (edit == AddVowel && c == Strip(line))
    ensures forall c :: c in inv.vowels ==> c in r.vowels || (edit == RemoveVowel && c == Strip(line))
    ensures edit == AddConsonant && Strip(line) != [] ==> Strip(line) in r.consonants
    ensures edit == RemoveConsonant ==> Strip(line) !in r.consonants
    ensures edit == AddVowel && Strip(line) != [] ==> Strip(line) in r.vowels
    ensures edit == RemoveVowel ==> Strip(line) !in r.vowels
    ensures CleanGraphemes(inv) ==> CleanGraphemes(r)
  {
    match edit
    case AddConsonant => inv.(consonants := AddGrapheme(inv.consonants, line))
    case RemoveConsonant => inv.(consonants := RemoveGrapheme(inv.consonants, line))
    case AddVowel => inv.(vowels := AddGrapheme(inv.vowels, line))
    case RemoveVowel => inv.(vowels := RemoveGrapheme(inv.vowels, line))
  }

  /** Every grapheme is non-empty and carries no surrounding whitespace. */
  predicate CleanGraphemes(inv: Inventory) {
    && (forall g :: g in inv.consonants ==> g != [] && Unpadded(g))
    && (forall g :: g in inv.vowels ==> g != [] && Unpadded(g))
  }

  /** One console exchange of a menu: the choice line and, for an edit, the
      grapheme line. */
  datatype MenuLine = MenuLine(choice: string, argument: string)

  /** The stripped arguments of the lines that select `edit`, among the lines
      before the first one that is not a menu code. */
  function MenuNamed(script: seq<MenuLine>, edit: InventoryEdit): set<string>
    decreases |script|
  {
    if script == [] then {}
    else
      match ParsePhonologyChoice(script[0].choice)
      case None => {}
      case Some(e) => (if e == edit then {Strip(script[0].argument)} else {}) + MenuNamed(script[1..], edit)
  }

  /** The last of the lines before the first non-code line that adds
      (`Some(true)`) or removes (`Some(false)`) the grapheme `c`, where
      `add` and `remove` are the two edits of one set; `None` when no such
      line names `c`. */
  function LastEdit(script: seq<MenuLine>, add: InventoryEdit, remove: InventoryEdit, c: string): Option<bool>
    decreases |script|
  {
    if script == [] then None
    else
      match ParsePhonologyChoice(script[0].choice)
      case None => None
      case Some(e) =>
        var later := LastEdit(script[1..], add, remove, c);
        if later.Some? then later
        else if e == add && Strip(script[0].argument) == c then Some(true)
        else if e == remove && Strip(script[0].argument) == c then Some(false)
        else None
  }

  /** The phonology menu loop: edits until the first line that is not a menu
      code; a script that runs out reads as Enter. A grapheme is in a set
      afterwards only if it was there before or an add line named it, and a
      grapheme that was there stays unless a remove line named it. The edits
      apply in the order typed: the last line naming a grapheme decides
      whether it is in the set. */
  function PhonologyMenu(inv: Inventory, script: seq<MenuLine>): (r: Inventory)
    ensures r.patterns == inv.patterns
    ensures forall c :: c in r.consonants ==> c in inv.consonants || c in MenuNamed(script, AddConsonant)
    ensures forall c :: c in inv.consonants ==> c in r.consonants || c in MenuNamed(script, RemoveConsonant)
    ensures forall c :: c in r.vowels ==> c in inv.vowels || c in MenuNamed(script, AddVowel)
    ensures forall c :: c in inv.vowels ==> c in r.vowels || c in MenuNamed(script, RemoveVowel)
    ensures forall c :: c != [] && c in MenuNamed(script, AddConsonant) && c !in MenuNamed(script, RemoveConsonant) ==> c in r.consonants
    ensures forall c :: c in MenuNamed(script, RemoveConsonant) && c !in MenuNamed(script, AddConsonant) ==> c !in r.consonants
    ensures forall c :: c != [] && c in MenuNamed(script, AddVowel) && c !in MenuNamed(script, RemoveVowel) ==> c in r.vowels
    ensures forall c :: c in MenuNamed(script, RemoveVowel) && c !in MenuNamed(script, AddVowel) ==> c !in r.vowels
    ensures forall c :: c != [] ==>
      (c in r.consonants <==>
        (LastEdit(script, AddConsonant, RemoveConsonant, c) == Some(true)
         || (LastEdit(script, AddConsonant, RemoveConsonant, c) == None && c in inv.consonants)))
    ensures forall c :: c != [] ==>
      (c in r.vowels <==>
        (LastEdit(script, AddVowel, RemoveVowel, c) == Some(true)
         || (LastEdit(script, AddVowel, RemoveVowel, c) == None && c in inv.vowels)))
    ensures CleanGraphemes(inv) ==> CleanGraphemes(r)
    ensures (forall i :: 0 <= i < |script| ==> ParsePhonologyChoice(script[i].choice).None?) ==> r == inv
    decreases |script|
  {
    if script == [] then inv
    else
      match ParsePhonologyChoice(script[0].choice)
      case None => inv
      case Some(edit) => PhonologyMenu(EditInventory(inv, edit, script[0].argument), script[1..])
  }

  lemma DefaultClean()
    ensures CleanGraphemes(DefaultInventory)
  {
  }

  /** Words generated one after the other; the first that raises ends it. */
  function GenerateWords(inv: Inventory, draws: seq<WordDraw>): (r: Option<seq<string>>)
    requires forall i :: 0 <= i < |draws| ==> WordDrawFits(inv, None, draws[i])
    ensures r.Some? <==> forall i :: 0 <= i < |draws| ==> GenerateWord(inv, None, draws[i]).Some?
    ensures r.Some? ==> |r.value| == |draws|
    ensures r.Some? ==> forall i :: 0 <= i < |draws| ==> GenerateWord(inv, None, draws[i]) == Some(r.value[i])
  {
    var steps := seq(|draws|, i requires 0 <= i < |draws| => GenerateWord(inv, None, draws[i]));
    assert forall i :: 0 <= i < |draws| ==> steps[i] == GenerateWord(inv, None, draws[i]);
    AllSome(steps)
  }

  /** Number of sample words the phonology stage generates. */
  const SampleWordCount: nat := 5

  /** `level_1_phonology`: the menu edits, then five words appended to the
      unclassified bucket. Nothing else in the session changes. */
  function PhonologyStage(g: Session, script: seq<MenuLine>, draws: seq<WordDraw>): (r: Option<(Session, seq<string>)>)
    requires |draws| == SampleWordCount
    requires forall i :: 0 <= i < |draws| ==> WordDrawFits(PhonologyMenu(g.phonology, script), None, draws[i])
    ensures r.Some? <==> GenerateWords(PhonologyMenu(g.phonology, script), draws).Some?
    ensures r.Some? ==> |r.value.1| == SampleWordCount
    ensures r.Some? ==> r.value.0.vocab == g.vocab.(unknown := g.vocab.unknown + r.value.1)
    ensures r.Some? ==> r.value.0 == g.(phonology := r.value.0.phonology, vocab := r.value.0.vocab)
    ensures r.Some? ==> r.value.0.phonology == PhonologyMenu(g.phonology, script)
    ensures r.Some? ==> Some(r.value.1) == GenerateWords(PhonologyMenu(g.phonology, script), draws)
  {
    var inv := PhonologyMenu(g.phonology, script);
    match GenerateWords(inv, draws)
    case None => None
    case Some(words) =>
      Some((g.(phonology := inv, vocab := g.vocab.(unknown := g.vocab.unknown + words)), words))
  }

  // ---------------------------------------------------------------------
  // Stage 2: morphology

  /** One console exchange of the morphology menu: the choice line and, for
      "1", the four lines of the new rule. */
  datatype RuleLine = RuleLine(choice: string, name: string, ruleType: string, marker: string, meaning: string)

  /** The rules the user enters before leaving the menu, in order: one per
      "1" line, built from the stripped name, type, marker and meaning; "2"
      lines add nothing. */
  function EnteredRules(script: seq<RuleLine>): seq<Rule>
    decreases |script|
  {
    if script == [] then []
    else
      var line := script[0];
      var c := Strip(line.choice);
      if c == "1" then
        [Rule(Strip(line.name), Strip(line.ruleType), Strip(line.marker), Strip(line.meaning))] + EnteredRules(script[1..])
      else if c == "2" then EnteredRules(script[1..])
      else []
  }

  /** The morphology menu loop: "1" adds a rule from the stripped lines, "2"
      only lists, anything else (or the end of the script) seeds the defaults
      if the table is still empty and leaves. The entered rules follow the old
      ones in the order they were typed; with neither, the table becomes the
      three defaults. */
  function MorphologyMenu(rules: seq<Rule>, script: seq<RuleLine>): (r: seq<Rule>)
    ensures |r| >= |rules| && r[..|rules|] == rules
    ensures r != []
    ensures rules != [] || EnteredRules(script) != [] ==> r == rules + EnteredRules(script)
    ensures rules == [] && EnteredRules(script) == [] ==> r == DefaultRules
    decreases |script|
  {
    if script == [] then SeedDefaults(rules)
    else
      var line := script[0];
      var c := Strip(line.choice);
      if c == "1" then
        var rule := Rule(Strip(line.name), Strip(line.ruleType), Strip(line.marker), Strip(line.meaning));
        var added := AddRule(rules, rule.name, rule.ruleType, rule.marker, rule.meaning);
        assert added == rules + [rule];
        assert EnteredRules(script) == [rule] + EnteredRules(script[1..]);
        assert added + EnteredRules(script[1..]) == rules + EnteredRules(script);
        MorphologyMenu(added, script[1..])
      else if c == "2" then
        assert EnteredRules(script) == EnteredRules(script[1..]);
        MorphologyMenu(rules, script[1..])
      else
        assert EnteredRules(script) == [];
        SeedDefaults(rules)
  }

  /** The words of `ws` whose coin says `side`, in their original order. */
  function Select(ws: seq<string>, coins: seq<bool>, side: bool): (r: seq<string>)
    requires |coins| == |ws|
    ensures |r| <= |ws|
    ensures forall k :: 0 <= k < |r| ==> r[k] in ws
  {
    if ws == [] then []
    else
      var n := |ws| - 1;
      Select(ws[..n], coins[..n], side) + (if coins[n] == side then [ws[n]] else [])
  }

  /** The reclassification as a whole: each unclassified word, in order,
      appended to the verbs when its coin is true and to the nouns otherwise;
      the unclassified bucket emptied. */
  function Reclassified(v: Vocab, coins: seq<bool>): (r: Vocab)
    requires |coins| == |v.unknown|
    ensures r.unknown == []
    ensures |r.verb| >= |v.verb| && r.verb[..|v.verb|] == v.verb
    ensures |r.noun| >= |v.noun| && r.noun[..|v.noun|] == v.noun
    ensures |r.verb| + |r.noun| == |v.verb| + |v.noun| + |v.unknown|
    ensures multiset(r.verb) + multiset(r.noun) == multiset(v.verb) + multiset(v.noun) + multiset(v.unknown)
  {
    SelectLengths(v.unknown, coins);
    SelectPartition(v.unknown, coins);
    Vocab([], v.verb + Select(v.unknown, coins, true), v.noun + Select(v.unknown, coins, false))
  }

  /** The loop of `level_2_morphology` that empties the unclassified bucket,
      one coin flip (`random.random() > 0.5`, true for verb) per word. */
  method Reclassify(v: Vocab, coins: seq<bool>) returns (r: Vocab)
    requires |coins| == |v.unknown|
    ensures r.unknown == []
    ensures r.verb == v.verb + Select(v.unknown, coins, true)
    ensures r.noun == v.noun + Select(v.unknown, coins, false)
    ensures r == Reclassified(v, coins)
  {
    var verb := v.verb;
    var noun := v.noun;
    var i := 0;
    while i < |v.unknown|
      invariant 0 <= i <= |v.unknown|
      invariant verb == v.verb + Select(v.unknown[..i], coins[..i], true)
      invariant noun == v.noun + Select(v.unknown[..i], coins[..i], false)
    {
      assert v.unknown[..i + 1][..i] == v.unknown[..i];
      assert coins[..i + 1][..i] == coins[..i];
      if coins[i] {
        verb := verb + [v.unknown[i]];
      } else {
        noun := noun + [v.unknown[i]];
      }
      i := i + 1;
    }
    assert v.unknown[..i] == v.unknown;
    assert coins[..i] == coins;
    r := Vocab([], verb, noun);
  }

  /** The two sides split the words exactly: together they hold every
      unclassified word, each as often as before. */
  lemma {:induction false} SelectPartition(ws: seq<string>, coins: seq<bool>)
    requires |coins| == |ws|
    ensures multiset(Select(ws, coins, true)) + multiset(Select(ws, coins, false)) == multiset(ws)
    decreases |ws|
  {
    if ws != [] {
      var n := |ws| - 1;
      var init, last := ws[..n], ws[n];
      SelectPartition(init, coins[..n]);
      assert ws == init + [last];
      assert multiset(Select(ws, coins, true)) + multiset(Select(ws, coins, false))
          == multiset(Select(init, coins[..n], true)) + multiset(Select(init, coins[..n], false)) + multiset{last};
    }
  }

  lemma {:induction false} SelectLengths(ws: seq<string>, coins: seq<bool>)
    requires |coins| == |ws|
    ensures |Select(ws, coins, true)| + |Select(ws, coins, false)| == |ws|
    decreases |ws|
  {
    if ws != [] {
      var n := |ws| - 1;
      SelectLengths(ws[..n], coins[..n]);
    }
  }

  /** The words with coin `side` are exactly the positions whose coin is
      `side`, in increasing order. */
  lemma {:induction false} SelectCount(ws: seq<string>, coins: seq<bool>, side: bool)
    requires |coins| == |ws|
    ensures |Select(ws, coins, side)| == |set i | 0 <= i < |ws| && coins[i] == side|
    decreases |ws|
  {
    if ws != [] {
      var n := |ws| - 1;
      SelectCount(ws[..n], coins[..n], side);
      var before := set i | 0 <= i < n && coins[..n][i] == side;
      var all := set i | 0 <= i < |ws| && coins[i] == side;
      if coins[n] == side {
        assert all == before + {n};
      } else {
        assert all == before;
      }
    }
  }

  /** Word i goes to the side its coin names. */
  lemma {:induction false} SelectMember(ws: seq<string>, coins: seq<bool>, i: int)
    requires |coins| == |ws| && 0 <= i < |ws|
    ensures ws[i] in Select(ws, coins, coins[i])
    decreases |ws|
  {
    var n := |ws| - 1;
    if i < n {
      SelectMember(ws[..n], coins[..n], i);
    }
  }

  /** What the morphology stage demonstrates on one word. */
  datatype Demo = Demo(word: string, derived: string)

  /** The demonstration after reclassification: a verb in the past form and a
      noun nominalised, each only if its bucket has a word to pick. */
  function MorphologyDemo(rules: seq<Rule>, v: Vocab, verbPick: nat, nounPick: nat): (r: (Option<Demo>, Option<Demo>))
    requires v.verb != [] ==> verbPick < |v.verb|
    requires v.noun != [] ==> nounPick < |v.noun|
    ensures r.0.Some? <==> v.verb != []
    ensures r.1.Some? <==> v.noun != []
    ensures r.0.Some? ==> r.0.value.word in v.verb && r.0.value.derived == ApplyMorphology(rules, r.0.value.word, "past")
    ensures r.1.Some? ==> r.1.value.word in v.noun && r.1.value.derived == ApplyMorphology(rules, r.1.value.word, "nominal")
  {
    var verbDemo :=
      if v.verb != [] then Some(Demo(v.verb[verbPick], ApplyMorphology(rules, v.verb[verbPick], "past"))) else None;
    var nounDemo :=
      if v.noun != [] then Some(Demo(v.noun[nounPick], ApplyMorphology(rules, v.noun[nounPick], "nominal"))) else None;
    (verbDemo, nounDemo)
  }

  /** `level_2_morphology`: the menu, then the reclassification, then the
      demonstration. The inventory and the syntax settings are untouched. */
  function MorphologyStage(g: Session, script: seq<RuleLine>, coins: seq<bool>, verbPick: nat, nounPick: nat)
    : (r: (Session, (Option<Demo>, Option<Demo>)))
    requires |coins| == |g.vocab.unknown|
    requires var v := Reclassified(g.vocab, coins);
      && (v.verb != [] ==> verbPick < |v.verb|)
      && (v.noun != [] ==> nounPick < |v.noun|)
    ensures r.0.phonology == g.phonology && r.0.syntax == g.syntax
    ensures r.0.rules == MorphologyMenu(g.rules, script)
    ensures r.0.vocab.unknown == []
    ensures |r.0.vocab.verb| >= |g.vocab.verb| && r.0.vocab.verb[..|g.vocab.verb|] == g.vocab.verb
    ensures |r.0.vocab.noun| >= |g.vocab.noun| && r.0.vocab.noun[..|g.vocab.noun|] == g.vocab.noun
    ensures |r.0.vocab.verb| + |r.0.vocab.noun| == |g.vocab.verb| + |g.vocab.noun| + |g.vocab.unknown|
    ensures multiset(r.0.vocab.verb) + multiset(r.0.vocab.noun)
         == multiset(g.vocab.verb) + multiset(g.vocab.noun) + multiset(g.vocab.unknown)
    ensures r.0.vocab == Reclassified(g.vocab, coins)
    ensures r.1 == MorphologyDemo(r.0.rules, r.0.vocab, verbPick, nounPick)
  {
    var rules := MorphologyMenu(g.rules, script);
    var v := Reclassified(g.vocab, coins);
    (g.(rules := rules, vocab := v), MorphologyDemo(rules, v, verbPick, nounPick))
  }

  // ---------------------------------------------------------------------
  // Stage 3: syntax

  /** The word-order prompt: the stripped answer is taken only if it is one of
      the four known orders; anything else keeps the current one. */
  function SetWordOrder(s: Settings, line: string): (r: Settings)
    ensures r.questionMarker == s.questionMarker
    ensures Strip(line) in WordOrders ==> r.wordOrder == Strip(line)
    ensures Strip(line) !in WordOrders ==> r == s
    ensures s.wordOrder in WordOrders ==> r.wordOrder in WordOrders
  {
    var o := Strip(line);
    if o in WordOrders then s.(wordOrder := o) else s
  }

  /** The question-marker prompt: any non-empty stripped answer replaces the
      marker; an empty one keeps it. */
  function SetQuestionMarker(s: Settings, line: string): (r: Settings)
    ensures r.wordOrder == s.wordOrder
    ensures Strip(line) != [] ==> r.questionMarker == Strip(line)
    ensures Strip(line) == [] ==> r == s
    ensures s.questionMarker != [] ==> r.questionMarker != []
  {
    var q := Strip(line);
    if q != [] then s.(questionMarker := q) else s
  }

  /** Where one word of a sample sentence comes from: a pick from its bucket
      when the bucket has words, a freshly generated word otherwise. */
  datatype WordSource = FromBucket(index: nat) | Fresh(draw: WordDraw)

  predicate SourceFits(inv: Inventory, bucket: seq<string>, src: WordSource) {
    if bucket != [] then src.FromBucket? && src.index < |bucket|
    else src.Fresh? && WordDrawFits(inv, None, src.draw)
  }

  /** `random.choice(bucket) if bucket else generate_word()` */
  function PickWord(inv: Inventory, bucket: seq<string>, src: WordSource): (r: Option<string>)
    requires SourceFits(inv, bucket, src)
    ensures bucket != [] ==> r.Some? && r.value in bucket
    ensures bucket == [] ==> r == GenerateWord(inv, None, src.draw)
  {
    match src
    case FromBucket(i) => Some(bucket[i])
    case Fresh(d) => GenerateWord(inv, None, d)
  }

  datatype SentenceDraw = SentenceDraw(subject: WordSource, verb: WordSource, obj: WordSource)

  predicate SentenceDrawFits(g: Session, d: SentenceDraw) {
    && SourceFits(g.phonology, g.vocab.noun, d.subject)
    && SourceFits(g.phonology, g.vocab.verb, d.verb)
    && SourceFits(g.phonology, g.vocab.noun, d.obj)
  }

  /** One printed sample: the sentence and its question form. */
  datatype Sample = Sample(sentence: string, question: string)

  /** One round of the sample loop: subject and object from the nouns, the
      verb from the verbs, arranged by the word order; the question form is
      the sentence, a space and the marker. */
  function SampleSentence(g: Session, d: SentenceDraw): (r: Option<Sample>)
    requires SentenceDrawFits(g, d)
    ensures g.vocab.noun != [] && g.vocab.verb != [] ==> r.Some?
    ensures r.Some? ==> r.value.question == QuestionForm(g.syntax, r.value.sentence)
    ensures r.Some? ==> exists s, v, o ::
      && r.value.sentence == GenerateSentence(g.syntax, s, v, o)
      && (g.vocab.noun != [] ==> s in g.vocab.noun && o in g.vocab.noun)
      && (g.vocab.verb != [] ==> v in g.vocab.verb)
  {
    var s := PickWord(g.phonology, g.vocab.noun, d.subject);
    var v := PickWord(g.phonology, g.vocab.verb, d.verb);
    var o := PickWord(g.phonology, g.vocab.noun, d.obj);
    if s.Some? && v.Some? && o.Some? then
      var sentence := GenerateSentence(g.syntax, s.value, v.value, o.value);
      Some(Sample(sentence, QuestionForm(g.syntax, sentence)))
    else None
  }

  /** Number of sample sentences the syntax stage prints. */
  const SampleSentenceCount: nat := 3

  /** The sample loop; the first sample that raises ends it. */
  function SampleSentences(g: Session, draws: seq<SentenceDraw>): (r: Option<seq<Sample>>)
    requires forall i :: 0 <= i < |draws| ==> SentenceDrawFits(g, draws[i])
    ensures r.Some? <==> forall i :: 0 <= i < |draws| ==> SampleSentence(g, draws[i]).Some?
    ensures r.Some? ==> |r.value| == |draws|
    ensures r.Some? ==> forall i :: 0 <= i < |draws| ==> SampleSentence(g, draws[i]) == Some(r.value[i])
  {
    var steps := seq(|draws|, i requires 0 <= i < |draws| => SampleSentence(g, draws[i]));
    assert forall i :: 0 <= i < |draws| ==> steps[i] == SampleSentence(g, draws[i]);
    AllSome(steps)
  }

  /** `level_3_syntax`: the two guarded prompts, then three samples. Only the
      syntax settings change. */
  function SyntaxStage(g: Session, orderLine: string, markerLine: string, draws: seq<SentenceDraw>)
    : (r: Option<(Session, seq<Sample>)>)
    requires |draws| == SampleSentenceCount
    requires var g' := g.(syntax := SetQuestionMarker(SetWordOrder(g.syntax, orderLine), markerLine));
      forall i :: 0 <= i < |draws| ==> SentenceDrawFits(g', draws[i])
    ensures r.Some? ==> r.value.0 == g.(syntax := r.value.0.syntax)
    ensures r.Some? ==> |r.value.1| == SampleSentenceCount
    ensures r.Some? ==> forall i :: 0 <= i < |r.value.1| ==>
      r.value.1[i].question == r.value.1[i].sentence + " " + r.value.0.syntax.questionMarker
    ensures g.vocab.noun != [] && g.vocab.verb != [] ==> r.Some?
    ensures r.Some? <==> SampleSentences(g.(syntax := SetQuestionMarker(SetWordOrder(g.syntax, orderLine), markerLine)), draws).Some?
    ensures r.Some? ==> r.value.0.syntax == SetQuestionMarker(SetWordOrder(g.syntax, orderLine), markerLine)
    ensures r.Some? ==> Some(r.value.1) == SampleSentences(r.value.0, draws)
  {
    var syntax := SetQuestionMarker(SetWordOrder(g.syntax, orderLine), markerLine);
    var g' := g.(syntax := syntax);
    match SampleSentences(g', draws)
    case None => None
    case Some(samples) => Some((g', samples))
  }

  // ---------------------------------------------------------------------
  // A session from the defaults

  /** Leaving the phonology menu at once from an inventory whose patterns can
      always be filled, the stage cannot fail: five words go to the unclassified bucket and the
      inventory stays as it was. */
  lemma NoEditPhonologyStage(g: Session, draws: seq<WordDraw>)
    requires Fillable(g.phonology)
    requires |draws| == SampleWordCount
    requires forall i :: 0 <= i < |draws| ==> WordDrawFits(g.phonology, None, draws[i])
    ensures var r := PhonologyStage(g, [], draws);
      && r.Some?
      && |r.value.1| == SampleWordCount
      && r.value.0 == g.(vocab := g.vocab.(unknown := g.vocab.unknown + r.value.1))
  {
    forall i | 0 <= i < |draws|
      ensures GenerateWord(g.phonology, None, draws[i]).Some?
    {
      WordSucceeds(g.phonology, None, draws[i]);
    }
  }

  /** From a new game with no edits the phonology stage cannot fail: five
      words, all put in the unclassified bucket, the inventory unchanged. */
  lemma DefaultPhonologyStage(draws: seq<WordDraw>)
    requires |draws| == SampleWordCount
    requires forall i :: 0 <= i < |draws| ==> WordDrawFits(DefaultInventory, None, draws[i])
    ensures var r := PhonologyStage(NewSession, [], draws);
      && r.Some?
      && |r.value.1| == SampleWordCount
      && r.value.0 == NewSession.(vocab := Vocab(r.value.1, [], []))
  {
    assert Fillable(NewSession.phonology) by {
      DefaultWellStocked();
    }
    NoEditPhonologyStage(NewSession, draws);
  }

  /** Whatever the player types, the inventory of a new session keeps only
      non-empty graphemes without surrounding whitespace after the phonology
      stage. */
  lemma NewSessionStaysClean(script: seq<MenuLine>, draws: seq<WordDraw>)
    requires |draws| == SampleWordCount
    requires forall i :: 0 <= i < |draws| ==> WordDrawFits(PhonologyMenu(DefaultInventory, script), None, draws[i])
    ensures var r := PhonologyStage(NewSession, script, draws);
      r.Some? ==> CleanGraphemes(r.value.0.phonology)
  {
    DefaultClean();
  }

  /** Leaving the morphology menu at once with an empty table seeds the
      three defaults, and the demonstration then shows "-in" and "-an". */
  lemma DefaultMorphologyStage(g: Session, coins: seq<bool>, verbPick: nat, nounPick: nat)
    requires g.rules == []
    requires |coins| == |g.vocab.unknown|
    requires var v := Reclassified(g.vocab, coins);
      && (v.verb != [] ==> verbPick < |v.verb|)
      && (v.noun != [] ==> nounPick < |v.noun|)
    ensures var (g', demo) := MorphologyStage(g, [], coins, verbPick, nounPick);
      && g'.rules == DefaultRules
      && (demo.0.Some? ==> demo.0.value.derived == demo.0.value.word + "-in")
      && (demo.1.Some? ==> demo.1.value.derived == demo.1.value.word + "-an")
  {
    var (g', demo) := MorphologyStage(g, [], coins, verbPick, nounPick);
    if demo.0.Some? {
      DefaultRulesApply(demo.0.value.word, "past");
    }
    if demo.1.Some? {
      DefaultRulesApply(demo.1.value.word, "nominal");
    }
  }

  lemma PickWordSucceeds(inv: Inventory, bucket: seq<string>, src: WordSource)
    requires SourceFits(inv, bucket, src) && Fillable(inv)
    ensures PickWord(inv, bucket, src).Some?
  {
    if bucket == [] {
      WordSucceeds(inv, None, src.draw);
    }
  }

  /** With an inventory that can always fill its patterns the syntax stage
      never fails, whether the buckets are empty or not. */
  lemma SyntaxStageSucceeds(g: Session, orderLine: string, markerLine: string, draws: seq<SentenceDraw>)
    requires |draws| == SampleSentenceCount
    requires var g' := g.(syntax := SetQuestionMarker(SetWordOrder(g.syntax, orderLine), markerLine));
      forall i :: 0 <= i < |draws| ==> SentenceDrawFits(g', draws[i])
    requires Fillable(g.phonology)
    ensures SyntaxStage(g, orderLine, markerLine, draws).Some?
  {
    var g' := g.(syntax := SetQuestionMarker(SetWordOrder(g.syntax, orderLine), markerLine));
    forall i | 0 <= i < |draws|
      ensures SampleSentence(g', draws[i]).Some?
    {
      PickWordSucceeds(g.phonology, g.vocab.noun, draws[i].subject);
      PickWordSucceeds(g.phonology, g.vocab.verb, draws[i].verb);
      PickWordSucceeds(g.phonology, g.vocab.noun, draws[i].obj);
    }
  }

  /** Empty answers at both syntax prompts keep the settings (VOS and "ka"
      in a new game), and every question printed is its sentence followed by
      a space and the marker. */
  lemma EmptyAnswersKeepSyntax(g: Session, draws: seq<SentenceDraw>)
    requires Fillable(g.phonology)
    requires |draws| == SampleSentenceCount
    requires forall i :: 0 <= i < |draws| ==> SentenceDrawFits(g, draws[i])
    ensures var r := SyntaxStage(g, "", "", draws);
      && r.Some?
      && r.value.0 == g
      && |r.value.1| == SampleSentenceCount
      && forall i :: 0 <= i < |r.value.1| ==>
           r.value.1[i].question == r.value.1[i].sentence + " " + g.syntax.questionMarker
  {
    assert Strip("") == [];
    assert SetQuestionMarker(SetWordOrder(g.syntax, ""), "") == g.syntax;
    SyntaxStageSucceeds(g, "", "", draws);
  }

}
