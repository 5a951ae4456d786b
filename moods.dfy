/** The mood translator: a fixed catalog of six moods, each with a name, an
    emoji marker and a text transform, and the translation that wraps the
    transformed text in the selected mood's marker. */
module Moods {
  import opened Wrappers
  import opened Text

  datatype Mood = Ecstatic | Devastated | Mysterious | Chaotic | Robotic | Fancy

  /** The catalog in display order; its first entry is the default selection. */
  const Catalog: seq<Mood> := [Ecstatic, Devastated, Mysterious, Chaotic, Robotic, Fancy]

  /** The name shown on each mood's button. */
  function Name(m: Mood): string
  {
    match m
    case Ecstatic => "Ecstatic"
    case Devastated => "Devastated"
    case Mysterious => "Mysterious"
    case Chaotic => "Chaotic"
    case Robotic => "Robotic"
    case Fancy => "Fancy"
  }

  /** The catalog lists every mood once, and the names are pairwise distinct,
      so comparing names (as the mood buttons do) identifies the mood. */
  lemma CatalogNames()
    ensures |Catalog| == 6 && forall m: Mood :: m in Catalog
    ensures forall i, j :: 0 <= i < |Catalog| && 0 <= j < |Catalog| ==>
              (Name(Catalog[i]) == Name(Catalog[j]) <==> i == j)
  {
    forall m: Mood ensures m in Catalog {
      match m
      case Ecstatic => assert Catalog[0] == m;
      case Devastated => assert Catalog[1] == m;
      case Mysterious => assert Catalog[2] == m;
      case Chaotic => assert Catalog[3] == m;
      case Robotic => assert Catalog[4] == m;
      case Fancy => assert Catalog[5] == m;
    }
    forall i, j | 0 <= i < |Catalog| && 0 <= j < |Catalog| && i != j
      ensures Name(Catalog[i]) != Name(Catalog[j])
    {
      assert |Name(Catalog[i])| != |Name(Catalog[j])| || Name(Catalog[i])[0] != Name(Catalog[j])[0];
    }
  }

  /** The marker of each mood, as Unicode scalar values (several end in the
      variation selector U+FE0F, as in the source text). */
  function Emoji(m: Mood): string
  {
    match m
    case Ecstatic => "\U{2728}\U{1F389}\U{1F31F}"
    case Devastated => "\U{1F62D}\U{1F494}\U{1F327}\U{FE0F}"
    case Mysterious => "\U{1F52E}\U{1F441}\U{FE0F}\U{1F319}"
    case Chaotic => "\U{1F525}\U{26A1}\U{1F32A}\U{FE0F}"
    case Robotic => "\U{1F916}\U{1F4BE}\U{2699}\U{FE0F}"
    case Fancy => "\U{1F3A9}\U{2728}\U{1F377}"
  }

  const Exclamations: string := "!!!!!!!!"
  const Periods: string := "..........."
  const Beep: string := "[BEEP] "
  const Boop: string := " [BOOP]"
  const Indeed: string := "Indeed, "
  const Quite: string := ", quite."

  function EcstaticText(t: string): string { Upper(t) + Exclamations }

  function DevastatedText(t: string): string { Lower(t) + Periods }

  function MysteriousText(t: string): string { "~" + Join(Chars(t), "~") + "~" }

  /** Each character is upper-cased when its coin is true and lower-cased
      otherwise; one coin per character. */
  function ChaoticText(t: string, coins: seq<bool>): string
    requires |coins| == |t|
  {
    Join(seq(|t|, i requires 0 <= i < |t| => if coins[i] then Upper(Chars(t)[i]) else Lower(Chars(t)[i])), "")
  }

  function RoboticText(t: string): string { Beep + ReplaceAll(Upper(t), ' ', '_') + Boop }

  function FancyText(t: string): string { Indeed + t + Quite }

  /** The transform of mood m; the coins are read by Chaotic only. */
  function Transform(m: Mood, t: string, coins: seq<bool>): string
    requires m == Chaotic ==> |coins| == |t|
  {
    match m
    case Ecstatic => EcstaticText(t)
    case Devastated => DevastatedText(t)
    case Mysterious => MysteriousText(t)
    case Chaotic => ChaoticText(t, coins)
    case Robotic => RoboticText(t)
    case Fancy => FancyText(t)
  }

  /** translateMood: nothing for empty text, otherwise the transformed text
      between two copies of the marker, each separated by one space. */
  function Translate(m: Mood, t: string, coins: seq<bool>): (r: Option<string>)
    requires m == Chaotic ==> |coins| == |t|
    ensures r.None? <==> t == []
  {
    if t == [] then None else Some(Emoji(m) + " " + Transform(m, t, coins) + " " + Emoji(m))
  }

  /** Ecstatic: every character upper-cased, then exactly eight '!'. */
  lemma EcstaticShape(t: string)
    ensures |EcstaticText(t)| == |t| + 8
    ensures forall i :: 0 <= i < |t| ==> EcstaticText(t)[i] == UpperChar(t[i])
    ensures forall i :: |t| <= i < |t| + 8 ==> EcstaticText(t)[i] == '!'
  {
  }

  /** Devastated: every character lower-cased, then exactly eleven '.'. */
  lemma DevastatedShape(t: string)
    ensures |DevastatedText(t)| == |t| + 11
    ensures forall i :: 0 <= i < |t| ==> DevastatedText(t)[i] == LowerChar(t[i])
    ensures forall i :: |t| <= i < |t| + 11 ==> DevastatedText(t)[i] == '.'
  {
  }

  /** Mysterious on n > 0 characters: 2n+1 characters, '~' at every even
      position and t[i] at position 2i+1. */
  lemma MysteriousShape(t: string)
    requires |t| > 0
    ensures |MysteriousText(t)| == 2 * |t| + 1
    ensures forall k :: 0 <= k < 2 * |t| + 1 ==>
              MysteriousText(t)[k] == if k % 2 == 0 then '~' else t[k / 2]
  {
    JoinChars(t, '~');
    var j := Join(Chars(t), "~");
    var r := MysteriousText(t);
    assert r == ['~'] + j + ['~'];
    forall k | 0 <= k < 2 * |t| + 1
      ensures r[k] == if k % 2 == 0 then '~' else t[k / 2]
    {
      if 0 < k < 2 * |t| {
        assert r[k] == j[k - 1];
        assert (k - 1) % 2 == 1 - k % 2;
        assert k % 2 == 1 ==> (k - 1) / 2 == k / 2;
      }
    }
  }

  /** On empty text the Mysterious transform still yields two tildes (the
      translator never applies it there). */
  lemma MysteriousOfEmpty()
    ensures MysteriousText("") == "~~"
  {
  }

  /** Joining single characters with the empty separator gives them back. */
  lemma {:induction false} JoinSingletons(cs: seq<string>)
    requires forall i :: 0 <= i < |cs| ==> |cs[i]| == 1
    ensures |Join(cs, "")| == |cs|
    ensures forall i :: 0 <= i < |cs| ==> Join(cs, "")[i] == cs[i][0]
  {
    if |cs| > 1 {
      JoinSingletons(cs[1..]);
      assert Join(cs, "") == cs[0] + Join(cs[1..], "");
    }
  }

  /** Chaotic changes case only: the length is kept, each character is the
      upper- or lower-case form of the input character as its coin says,
      and case-folding the output gives case-folding of the input. */
  lemma ChaoticShape(t: string, coins: seq<bool>)
    requires |coins| == |t|
    ensures |ChaoticText(t, coins)| == |t|
    ensures forall i :: 0 <= i < |t| ==>
              ChaoticText(t, coins)[i] == if coins[i] then UpperChar(t[i]) else LowerChar(t[i])
    ensures Upper(ChaoticText(t, coins)) == Upper(t) && Lower(ChaoticText(t, coins)) == Lower(t)
  {
    var cs := seq(|t|, i requires 0 <= i < |t| => if coins[i] then Upper(Chars(t)[i]) else Lower(Chars(t)[i]));
    JoinSingletons(cs);
  }

  /** All-heads coins give the upper-cased text, all-tails the lower-cased. */
  lemma ChaoticExtremes(t: string, coins: seq<bool>)
    requires |coins| == |t|
    ensures (forall i :: 0 <= i < |t| ==> coins[i]) ==> ChaoticText(t, coins) == Upper(t)
    ensures (forall i :: 0 <= i < |t| ==> !coins[i]) ==> ChaoticText(t, coins) == Lower(t)
  {
    ChaoticShape(t, coins);
  }

  /** Robotic: "[BEEP] ", then the upper-cased text with every space turned
      into '_', then " [BOOP]"; the middle holds no space and no lower-case
      letter. */
  lemma RoboticShape(t: string)
    ensures |RoboticText(t)| == |t| + 14
    ensures RoboticText(t)[..7] == "[BEEP] " && RoboticText(t)[|t| + 7..] == " [BOOP]"
    ensures forall i :: 0 <= i < |t| ==>
              RoboticText(t)[7 + i] == if t[i] == ' ' then '_' else UpperChar(t[i])
    ensures forall k :: 7 <= k < 7 + |t| ==>
              RoboticText(t)[k] != ' ' && !IsAsciiLower(RoboticText(t)[k])
  {
  }

  /** Fancy: the text itself, unchanged in case, between "Indeed, " and
      ", quite.". */
  lemma FancyShape(t: string)
    ensures |FancyText(t)| == |t| + 16
    ensures FancyText(t)[..8] == "Indeed, " && FancyText(t)[8..8 + |t|] == t
    ensures FancyText(t)[8 + |t|..] == ", quite."
  {
  }

  /** A translation starts with the marker and a space, ends with a space and
      the marker, and what lies between is the mood's transform. */
  lemma TranslateShape(m: Mood, t: string, coins: seq<bool>)
    requires m == Chaotic ==> |coins| == |t|
    requires t != []
    ensures Translate(m, t, coins).Some?
    ensures var r := Translate(m, t, coins).value; var e := |Emoji(m)|;
      |r| == 2 * e + 2 + |Transform(m, t, coins)| &&
      r[..e + 1] == Emoji(m) + " " &&
      r[|r| - e - 1..] == " " + Emoji(m) &&
      r[e + 1..|r| - e - 1] == Transform(m, t, coins)
  {
    var r := Translate(m, t, coins).value;
    var e := |Emoji(m)|;
    var x := Transform(m, t, coins);
    assert r == (Emoji(m) + " ") + x + (" " + Emoji(m));
    assert r[..e + 1] == Emoji(m) + " ";
    assert r[|r| - e - 1..] == " " + Emoji(m);
    assert r[e + 1..|r| - e - 1] == x;
  }

  /** "hello world" in the Ecstatic mood. */
  lemma TranslateEcstaticExample()
    ensures Translate(Ecstatic, "hello world", []) ==
            Some(Emoji(Ecstatic) + " HELLO WORLD!!!!!!!! " + Emoji(Ecstatic))
  {
    var x := Upper("hello world");
    assert |x| == 11;
    assert x[0] == 'H' && x[1] == 'E' && x[2] == 'L' && x[3] == 'L' && x[4] == 'O' && x[5] == ' ';
    assert x[6] == 'W' && x[7] == 'O' && x[8] == 'R' && x[9] == 'L' && x[10] == 'D';
    assert x == "HELLO WORLD";
    assert EcstaticText("hello world") == "HELLO WORLD!!!!!!!!";
    assert " " + EcstaticText("hello world") + " " == " HELLO WORLD!!!!!!!! ";
    var e := Emoji(Ecstatic);
    assert e + " " + EcstaticText("hello world") + " " + e == e + (" " + EcstaticText("hello world") + " ") + e;
  }

  /** "hi" in the Fancy mood. */
  lemma TranslateFancyExample()
    ensures Translate(Fancy, "hi", []) == Some(Emoji(Fancy) + " Indeed, hi, quite. " + Emoji(Fancy))
  {
    assert " " + FancyText("hi") + " " == " Indeed, hi, quite. ";
    var e := Emoji(Fancy);
    assert e + " " + FancyText("hi") + " " + e == e + (" " + FancyText("hi") + " ") + e;
  }
}
