/** The translator agent's `handle_task`: it parses requests of the form
    "translate <text> to <language>" and looks the text up in a fixed
    phrase table, trying an exact match first and then a partial one. */
module Translator {
  import opened Wrappers
  import opened Strings

  /** The three target languages, in the order the replies list them. */
  const Languages: seq<string> := ["spanish", "french", "german"]

  /** One entry of `TRANSLATIONS`: a phrase and its translation into each language. */
  datatype Row = Row(phrase: string, spanish: string, french: string, german: string)

  /** `TRANSLATIONS`, in declaration order. Every phrase carries all three
      translations, so a lookup with a supported language cannot fail. */
  function Rows(): (rows: seq<Row>)
    ensures |rows| == 8
  {
    [ Row("hello", "hola", "bonjour", "hallo"),
      Row("goodbye", "adiós", "au revoir", "auf wiedersehen"),
      Row("thank you", "gracias", "merci", "danke"),
      Row("yes", "sí", "oui", "ja"),
      Row("no", "no", "non", "nein"),
      Row("please", "por favor", "s'il vous plaît", "bitte"),
      Row("good morning", "buenos días", "bonjour", "guten morgen"),
      Row("good night", "buenas noches", "bonne nuit", "gute nacht") ]
  }

  /** `TRANSLATIONS.keys()`, in order. */
  function Phrases(): (ps: seq<string>)
    ensures |ps| == |Rows()|
    ensures forall i :: 0 <= i < |ps| ==> ps[i] == Rows()[i].phrase
  {
    seq(|Rows()|, i requires 0 <= i < |Rows()| => Rows()[i].phrase)
  }

  /** `TRANSLATIONS[phrase][lang]` for a row and a supported language. */
  function TranslationOf(row: Row, lang: string): string
    requires lang in Languages
  {
    if lang == "spanish" then row.spanish else if lang == "french" then row.french else row.german
  }

  /** `key in TRANSLATIONS`, with the position of the matching row. */
  function FindRow(key: string): (r: Option<nat>)
    ensures r.None? <==> forall i :: 0 <= i < |Rows()| ==> Rows()[i].phrase != key
    ensures r.Some? ==> r.value < |Rows()| && Rows()[r.value].phrase == key
  {
    FindPhrase(Phrases(), key)
  }

  /** The first position of `key` in `ps`. */
  function FindPhrase(ps: seq<string>, key: string): (r: Option<nat>)
    ensures r.None? <==> forall i :: 0 <= i < |ps| ==> ps[i] != key
    ensures r.Some? ==> r.value < |ps| && ps[r.value] == key
  {
    if |ps| == 0 then None
    else if ps[0] == key then Some(0)
    else match FindPhrase(ps[1..], key)
      case None => None
      case Some(i) => Some(i + 1)
  }

  const FormatHint: string :=
    "Please use format: 'translate <text> to <language>' where language is spanish, french, or german"

  /** The reply for a target language outside the table. */
  function Unsupported(lang: string): string {
    "Unsupported language: " + lang + ". I support spanish, french, and german."
  }

  /** The reply for a phrase of the table given exactly. */
  function ExactReply(text: string, lang: string, translation: string): string {
    "\"" + text + "\" in " + lang + " is \"" + translation + "\""
  }

  /** The reply for a phrase of the table found inside the text. */
  function PartialReply(phrase: string, lang: string, translation: string): string {
    "I found \"" + phrase + "\" which translates to \"" + translation + "\" in " + lang
      + ". (Note: This is a demo with limited vocabulary)"
  }

  /** The reply when no phrase of the table occurs in the text. */
  function NoMatchReply(text: string): string {
    "I don't have a translation for \"" + text
      + "\" in my vocabulary. (Note: This is a demo with limited phrases: " + Join(Phrases(), ", ") + ")"
  }

  /** The first phrase of `phrases`, in order, that occurs in `text`. */
  function FirstContained(phrases: seq<string>, text: string): (r: Option<nat>)
    ensures r.None? <==> forall k :: 0 <= k < |phrases| ==> !Contains(text, phrases[k])
    ensures r.Some? ==> r.value < |phrases| && Contains(text, phrases[r.value])
    ensures r.Some? ==> forall k :: 0 <= k < r.value ==> !Contains(text, phrases[k])
  {
    FirstContainedFrom(phrases, text, 0)
  }

  /** The first phrase at or after position `from` that occurs in `text`. */
  function FirstContainedFrom(phrases: seq<string>, text: string, from: nat): (r: Option<nat>)
    requires from <= |phrases|
    ensures r.None? <==> forall k :: from <= k < |phrases| ==> !Contains(text, phrases[k])
    ensures r.Some? ==> from <= r.value < |phrases| && Contains(text, phrases[r.value])
    ensures r.Some? ==> forall k :: from <= k < r.value ==> !Contains(text, phrases[k])
    decreases |phrases| - from
  {
    if from == |phrases| then None
    else if Contains(text, phrases[from]) then Some(from)
    else FirstContainedFrom(phrases, text, from + 1)
  }

  /** `_translate`: the language is checked first; then the lower-cased,
      trimmed text is looked up exactly, then by the first table phrase it
      contains. */
  function Translate(text: string, lang: string): (r: string)
    ensures lang !in Languages ==> r == Unsupported(lang)
    ensures lang in Languages && FindRow(Strip(Lower(text))).Some? ==>
      r == ExactReply(text, lang, TranslationOf(Rows()[FindRow(Strip(Lower(text))).value], lang))
    ensures lang in Languages && FindRow(Strip(Lower(text))).None? && FirstContained(Phrases(), Strip(Lower(text))).Some? ==>
      var i := FirstContained(Phrases(), Strip(Lower(text))).value;
      r == PartialReply(Rows()[i].phrase, lang, TranslationOf(Rows()[i], lang))
    ensures lang in Languages && FindRow(Strip(Lower(text))).None? && FirstContained(Phrases(), Strip(Lower(text))).None? ==>
      r == NoMatchReply(text)
  {
    if lang !in Languages then Unsupported(lang)
    else
      var key := Strip(Lower(text));
      match FindRow(key)
      case Some(i) => ExactReply(text, lang, TranslationOf(Rows()[i], lang))
      case None =>
        match FirstContained(Phrases(), key)
        case Some(i) => PartialReply(Rows()[i].phrase, lang, TranslationOf(Rows()[i], lang))
        case None => NoMatchReply(text)
  }

  /** The pieces a request is parsed into, when it has the expected shape:
      the lower-cased, trimmed request contains "translate" and " to ", and
      splits on " to " into exactly two parts. */
  function Parse(content: string): (r: Option<(string, string)>)
    ensures var c := Strip(Lower(content));
      r.Some? <==> Contains(c, "translate") && Contains(c, " to ") && |Split(c, " to ")| == 2
    ensures r.Some? ==>
      var parts := Split(Strip(Lower(content)), " to ");
      r.value == (Strip(Replace(parts[0], "translate", "")), Strip(parts[1]))
  {
    var c := Strip(Lower(content));
    if Contains(c, "translate") && Contains(c, " to ") then
      var parts := Split(c, " to ");
      if |parts| == 2 then Some((Strip(Replace(parts[0], "translate", "")), Strip(parts[1]))) else None
    else None
  }

  /** `handle_task`: a request of the expected shape is translated, anything else gets the format hint. */
  function HandleTask(content: string): (r: string)
    ensures Parse(content).None? ==> r == FormatHint
    ensures Parse(content).Some? ==> r == Translate(Parse(content).value.0, Parse(content).value.1)
  {
    match Parse(content)
    case None => FormatHint
    case Some((text, lang)) => Translate(text, lang)
  }

  /** The table is a well-formed dictionary of normalised keys: no phrase
      appears twice (their lengths already differ), and every phrase is
      lower-case and trimmed, so it is its own lookup key. */
  lemma PhrasesDistinct()
    ensures forall i, j :: 0 <= i < j < |Rows()| ==> Rows()[i].phrase != Rows()[j].phrase
  {
    var lens := seq(|Rows()|, i requires 0 <= i < |Rows()| => |Rows()[i].phrase|);
    assert lens == [5, 7, 9, 3, 2, 6, 12, 10];
  }

  /** Each phrase is its own lookup key. */
  lemma {:induction false} PhraseIsKey(i: nat)
    requires i < |Rows()|
    ensures Strip(Lower(Rows()[i].phrase)) == Rows()[i].phrase
  {
    var p := Rows()[i].phrase;
    PhrasePlain(i);
    LowerPlain(p);
    StripTrimmed(p);
  }

  /** A phrase made of lower-case letters and inner spaces only. */
  predicate Plain(p: string) {
    Trimmed(p) && forall k :: 0 <= k < |p| ==> 'a' <= p[k] <= 'z' || p[k] == ' '
  }

  /** Every phrase of the table is plain. */
  lemma PhrasePlain(i: nat)
    requires i < |Rows()|
    ensures Plain(Rows()[i].phrase)
  {
    PhraseSpelling(i);
    SpellingPlain(i);
  }

  /** The phrases of the table, spelled out in order. */
  const Spellings: seq<string> :=
    ["hello", "goodbye", "thank you", "yes", "no", "please", "good morning", "good night"]

  lemma PhraseSpelling(i: nat)
    requires i < |Rows()|
    ensures Rows()[i].phrase == Spellings[i]
  {
  }

  lemma SpellingPlain(i: nat)
    requires i < |Spellings|
    ensures Plain(Spellings[i])
  {
  }

  /** Lower-casing leaves a plain phrase alone. */
  lemma LowerPlain(p: string)
    requires Plain(p)
    ensures Lower(p) == p
  {
  }

  /** Asking for a phrase of the table in a supported language always yields
      that phrase's own translation, quoted back exactly. */
  lemma {:induction false} TableHit(i: nat, lang: string)
    requires i < |Rows()| && lang in Languages
    ensures Translate(Rows()[i].phrase, lang) == ExactReply(Rows()[i].phrase, lang, TranslationOf(Rows()[i], lang))
  {
    PhrasesDistinct();
    PhraseIsKey(i);
    assert FindRow(Rows()[i].phrase) == Some(i);
  }

  /** The request `handle_task` expects for text `t` and language `l`. */
  function Request(t: string, l: string): string {
    "translate " + t + " to " + l
  }

  /** A request built from a trimmed, lower-case text and language is
      unchanged by the lower-casing and trimming `handle_task` applies. */
  lemma {:induction false} RequestIsNormal(t: string, l: string)
    requires Lower(t) == t && Lower(l) == l && Trimmed(l) && |l| > 0
    ensures Strip(Lower(Request(t, l))) == Request(t, l)
  {
    var c := Request(t, l);
    LowerConcat("translate ", t);
    LowerConcat("translate " + t, " to ");
    LowerConcat("translate " + t + " to ", l);
    assert Lower("translate ") == "translate ";
    assert Lower(" to ") == " to ";
    assert Lower(c) == c;
    assert c[0] == 't' && c[|c| - 1] == l[|l| - 1];
    StripTrimmed(c);
  }

  /** The request splits on " to " exactly between the text and the language
      when neither the text (with the spaces around it) nor the language
      contains " to ". */
  lemma {:induction false} RequestSplits(t: string, l: string)
    requires !Contains(" " + t + " ", " to ") && !Contains(l, " to ")
    ensures Split(Request(t, l), " to ") == ["translate " + t, l]
  {
    var c := Request(t, l);
    var p := |"translate " + t|;
    RequestShape(t, l);
    forall j | 0 <= j < p ensures !OccursAt(c, " to ", j) {
      if j < 9 {
        NoSeparatorInKeyword(t, l, j);
      } else if j + 4 <= p + 1 {
        NoSeparatorInText(t, l, j);
      } else {
        NoSeparatorAcrossIt(t, l, j);
      }
    }
    FindFirst(c, " to ", p);
    SplitStep(c, " to ", p);
    SplitAbsent(l, " to ");
  }

  /** The request seen as the keyword, the padded text and the rest, and as
      the head, the separator and the language. */
  lemma RequestShape(t: string, l: string)
    ensures var c := Request(t, l); var p := |"translate " + t|;
      c == "translate" + (" " + t + " ") + ("to " + l) &&
      c[..p] == "translate " + t && OccursAt(c, " to ", p) && c[p + 4..] == l &&
      c[9..p + 1] == " " + t + " " && c[p + 1] == 't' && c[p + 2] == 'o'
  {
    var c := Request(t, l);
    var p := |"translate " + t|;
    assert c == ("translate " + t) + " to " + l;
    assert c[p..p + 4] == " to ";
  }

  /** " to " cannot start inside the keyword, which has no space. */
  lemma NoSeparatorInKeyword(t: string, l: string, j: nat)
    requires j < 9
    ensures !OccursAt(Request(t, l), " to ", j)
  {
    var c := Request(t, l);
    assert c[j] == "translate"[j] != ' ';
    if j + 4 <= |c| {
      assert c[j..j + 4][0] == c[j];
    }
  }

  /** " to " cannot start where it would lie inside the padded text. */
  lemma NoSeparatorInText(t: string, l: string, j: nat)
    requires 9 <= j && j + 4 <= |"translate " + t| + 1 && !Contains(" " + t + " ", " to ")
    ensures !OccursAt(Request(t, l), " to ", j)
  {
    var c := Request(t, l);
    var p := |"translate " + t|;
    RequestShape(t, l);
    assert c[j..j + 4] == c[9..p + 1][j - 9..j - 5];
    assert !OccursAt(" " + t + " ", " to ", j - 9);
  }

  /** " to " cannot start at the last two characters of the text, since the
      separator's own "to" follows them. */
  lemma NoSeparatorAcrossIt(t: string, l: string, j: nat)
    requires j < |"translate " + t| < j + 3
    ensures !OccursAt(Request(t, l), " to ", j)
  {
    var c := Request(t, l);
    RequestShape(t, l);
    assert c[j + 3] != ' ';
    assert c[j..j + 4][3] == c[j + 3];
  }

  /** Removing the keyword "translate" from the first piece leaves the space
      and the text, when the text itself never says "translate". */
  lemma {:induction false} RemoveKeyword(t: string)
    requires !Contains(t, "translate")
    ensures Replace("translate " + t, "translate", "") == [' '] + t
  {
    var rest := [' '] + t;
    assert "translate " + t == "translate" + rest;
    ReplaceAtStart(rest, "translate", "");
    NotContainsCons(' ', t, "translate");
    ReplaceAbsent(rest, "translate", "");
  }

  /** Every request starts with the keyword "translate". */
  lemma RequestMentionsKeyword(t: string, l: string)
    ensures Contains(Request(t, l), "translate")
  {
    assert OccursAt(Request(t, l), "translate", 0);
  }

  /** What `Parse` makes of a request whose normalised form is known. */
  lemma {:induction false} ParseOf(c: string, head: string, t: string, l: string)
    requires Strip(Lower(c)) == c && Contains(c, "translate")
    requires Split(c, " to ") == [head, l]
    requires Strip(Replace(head, "translate", "")) == t && Strip(l) == l
    ensures Parse(c) == Some((t, l))
  {
    SplitFound(c, " to ");
  }

  /** A well-formed request is parsed back into its text and its language,
      whenever `t` and `l` are already lower-case and trimmed, `l` is not
      empty, and neither piece can be mistaken for the request's own
      keywords. */
  lemma {:induction false} RequestParses(t: string, l: string)
    requires Lower(t) == t && Lower(l) == l && Trimmed(t) && Trimmed(l) && |l| > 0
    requires !Contains(t, "translate")
    requires !Contains(" " + t + " ", " to ") && !Contains(l, " to ")
    ensures Parse(Request(t, l)) == Some((t, l))
  {
    var head := "translate " + t;
    RequestIsNormal(t, l);
    RequestSplits(t, l);
    RemoveKeyword(t);
    StripAfterSpace(t);
    StripTrimmed(l);
    RequestMentionsKeyword(t, l);
    assert Strip(Replace(head, "translate", "")) == t;
    ParseOf(Request(t, l), head, t, l);
  }

  /** Under the same conditions, `handle_task` answers the request for text
      `t` and language `l` exactly as `Translate(t, l)`. */
  lemma {:induction false} RequestRoundTrip(t: string, l: string)
    requires Lower(t) == t && Lower(l) == l && Trimmed(t) && Trimmed(l) && |l| > 0
    requires !Contains(t, "translate")
    requires !Contains(" " + t + " ", " to ") && !Contains(l, " to ")
    ensures HandleTask(Request(t, l)) == Translate(t, l)
  {
    RequestParses(t, l);
  }
}
