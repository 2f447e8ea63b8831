/** Sentence assembly (`SyntaxSystem`): three words placed by the word order,
    joined by single spaces and stripped; the question form appends the
    question marker as one more token. */
module Syntax {
  import opened Text

  datatype Settings = Settings(wordOrder: string, questionMarker: string)

  const DefaultSettings: Settings := Settings("VOS", "ka")

  /** The word orders the game knows; the syntax stage accepts only these. */
  const WordOrders: set<string> := {"VOS", "SVO", "SOV", "VSO"}

  /** The slots in sentence order for a word order; any other order reads as SVO. */
  function Arrange(order: string, subject: string, verb: string, obj: string): (r: seq<string>)
    ensures |r| == 3
  {
    if order == "VOS" then [verb, obj, subject]
    else if order == "SOV" then [subject, obj, verb]
    else if order == "VSO" then [verb, subject, obj]
    else [subject, verb, obj]
  }

  /** The non-empty strings of `ws`, in order. */
  function NonEmpty(ws: seq<string>): (r: seq<string>)
    ensures |r| <= |ws|
    ensures forall i :: 0 <= i < |r| ==> r[i] != []
  {
    if ws == [] then []
    else if ws[0] == [] then NonEmpty(ws[1..])
    else [ws[0]] + NonEmpty(ws[1..])
  }

  /** Three words joined by single spaces, as the f-strings build them. */
  function Spaced(a: string, b: string, c: string): (r: string)
    ensures |r| == |a| + |b| + |c| + 2
  {
    a + " " + b + " " + c
  }

  /** `generate_sentence(subject, verb, obj)`: the f-string for the word
      order, stripped. */
  function GenerateSentence(settings: Settings, subject: string, verb: string, obj: string): (r: string)
    ensures Unpadded(r)
    ensures |r| <= |subject| + |verb| + |obj| + 2
  {
    var a := Arrange(settings.wordOrder, subject, verb, obj);
    var joined := Spaced(a[0], a[1], a[2]);
    StripDrops(joined);
    Strip(joined)
  }

  /** An order outside the four known ones builds the SVO sentence. */
  lemma {:induction false} UnknownOrderIsSvo(settings: Settings, subject: string, verb: string, obj: string)
    requires settings.wordOrder !in WordOrders
    ensures GenerateSentence(settings, subject, verb, obj)
         == GenerateSentence(settings.(wordOrder := "SVO"), subject, verb, obj)
  {
  }

  lemma {:induction false} NonEmptyThree(a: string, b: string, c: string)
    ensures NonEmpty([a, b, c])
         == (if a == [] then [] else [a]) + (if b == [] then [] else [b]) + (if c == [] then [] else [c])
  {
    assert [a, b, c][1..] == [b, c];
    assert [b, c][1..] == [c];
    assert [c][1..] == [];
    assert NonEmpty([c]) == (if c == [] then [] else [c]);
    assert NonEmpty([b, c]) == (if b == [] then [] else [b]) + NonEmpty([c]);
    assert NonEmpty([a, b, c]) == (if a == [] then [] else [a]) + NonEmpty([b, c]);
  }

  lemma {:induction false} SplitSpaced(a: string, b: string, c: string)
    requires NoSpace(a) && NoSpace(b) && NoSpace(c)
    ensures Split(Spaced(a, b, c)) == NonEmpty([a, b, c])
  {
    var bc := b + [' '] + c;
    assert Spaced(a, b, c) == a + [' '] + bc;
    SplitAtSpace(a, ' ', bc);
    SplitAtSpace(b, ' ', c);
    SplitToken(a);
    SplitToken(b);
    SplitToken(c);
    NonEmptyThree(a, b, c);
  }

  /** Splitting a sentence on whitespace gives back exactly its non-empty
      words, in the order the word order prescribes. */
  lemma {:induction false} SentenceTokens(settings: Settings, subject: string, verb: string, obj: string)
    requires NoSpace(subject) && NoSpace(verb) && NoSpace(obj)
    ensures Split(GenerateSentence(settings, subject, verb, obj))
         == NonEmpty(Arrange(settings.wordOrder, subject, verb, obj))
  {
    var a := Arrange(settings.wordOrder, subject, verb, obj);
    SplitStrip(Spaced(a[0], a[1], a[2]));
    SplitSpaced(a[0], a[1], a[2]);
    assert a == [a[0], a[1], a[2]];
  }

  /** Non-empty words without surrounding whitespace are joined by single
      spaces, with nothing stripped. */
  lemma {:induction false} SingleSpaced(settings: Settings, subject: string, verb: string, obj: string)
    requires subject != [] && verb != [] && obj != []
    requires Unpadded(subject) && Unpadded(verb) && Unpadded(obj)
    ensures var a := Arrange(settings.wordOrder, subject, verb, obj);
      GenerateSentence(settings, subject, verb, obj) == Spaced(a[0], a[1], a[2])
  {
    var a := Arrange(settings.wordOrder, subject, verb, obj);
    var mid := Spaced(a[0], a[1], a[2]);
    assert mid[0] == a[0][0];
    assert mid[|mid| - 1] == a[2][|a[2]| - 1];
    assert [] + mid + [] == mid;
    StripOf([], mid, []);
  }

  /** Stripping two words joined around an empty middle word. */
  lemma {:induction false} StripEmptyMiddle(x: string, y: string)
    requires x != [] && y != [] && Unpadded(x) && Unpadded(y)
    ensures Strip(Spaced(x, y, "")) == x + " " + y
    ensures Strip(Spaced(x, "", y)) == x + "  " + y
  {
    var one := x + " " + y;
    assert one[0] == x[0] && one[|one| - 1] == y[|y| - 1];
    assert Spaced(x, y, "") == [] + one + " ";
    StripOf([], one, " ");
    var two := x + "  " + y;
    assert two[0] == x[0] && two[|two| - 1] == y[|y| - 1];
    assert Spaced(x, "", y) == [] + two + [];
    StripOf([], two, []);
  }

  /** With an empty object only the edges are stripped: SVO and VSO (and any
      unknown order) come out as two words with one space, VOS and SOV keep a
      double space inside. */
  lemma {:induction false} EmptyObject(settings: Settings, subject: string, verb: string)
    requires subject != [] && verb != []
    requires Unpadded(subject) && Unpadded(verb)
    ensures GenerateSentence(settings, subject, verb, "") ==
      match settings.wordOrder
      case "VOS" => verb + "  " + subject
      case "SOV" => subject + "  " + verb
      case "VSO" => verb + " " + subject
      case _ => subject + " " + verb
  {
    var order := settings.wordOrder;
    if order == "VOS" {
      StripEmptyMiddle(verb, subject);
    } else if order == "SOV" {
      StripEmptyMiddle(subject, verb);
    } else if order == "VSO" {
      StripEmptyMiddle(verb, subject);
    } else {
      StripEmptyMiddle(subject, verb);
    }
  }

  /** The question form: the sentence, a space, the question marker. The
      marker is one more token after the sentence's own. */
  function QuestionForm(settings: Settings, sentence: string): (r: string)
    ensures |r| == |sentence| + 1 + |settings.questionMarker|
    ensures r[..|sentence|] == sentence && r[|sentence|..] == " " + settings.questionMarker
    ensures settings.questionMarker != [] && NoSpace(settings.questionMarker) ==>
      Split(r) == Split(sentence) + [settings.questionMarker]
  {
    var q := settings.questionMarker;
    SplitAtSpace(sentence, ' ', q);
    SplitTokenIf(q);
    assert sentence + " " + q == sentence + [' '] + q;
    sentence + " " + q
  }

  lemma {:induction false} SplitTokenIf(w: string)
    ensures w != [] && NoSpace(w) ==> Split(w) == [w]
  {
    if NoSpace(w) {
      SplitToken(w);
    }
  }

}
