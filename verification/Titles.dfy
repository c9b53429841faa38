/** `normalize_title` of app/jobs/ingestion/normalization.py.  Case folding and the word characters of
  * Unicode are parameters. */
module Titles {
  import opened Text

  type Fold = string -> string

  type WordSet = char -> bool

  /** No word character is a blank. */
  ghost predicate Sensible(isWord: WordSet) {
    forall c :: isWord(c) ==> !IsSpace(c)
  }

  predicate Stays(isWord: WordSet, c: char) {
    isWord(c) || c in "+/#&.-"
  }

  function Blanked(isWord: WordSet, text: string): (r: string)
    ensures |r| == |text|
  {
    seq(|text|, i requires 0 <= i < |text| => if Stays(isWord, text[i]) then text[i] else ' ')
  }

  /** Runs of blanks become one space. */
  function Collapsed(text: string): string {
    if text == [] then []
    else
      var last := |text| - 1;
      var before := Collapsed(text[..last]);
      if !IsSpace(text[last]) then before + [text[last]]
      else if last > 0 && IsSpace(text[last - 1]) then before
      else before + [' ']
  }

  function NormalizeTitle(fold: Fold, isWord: WordSet, title: string): string {
    Strip(Collapsed(Blanked(isWord, fold(title))))
  }

  predicate AllBlank(text: string) {
    forall i :: 0 <= i < |text| ==> IsSpace(text[i])
  }

  lemma {:induction false} StripLeftEmpties(text: string)
    ensures StripLeft(text) == "" <==> AllBlank(text)
  {
    if text != [] && IsSpace(text[0]) {
      StripLeftEmpties(text[1..]);
      assert AllBlank(text[1..]) ==> AllBlank(text) by {
        assert forall i :: 1 <= i < |text| ==> text[i] == text[1..][i - 1];
      }
    }
  }

  lemma {:induction false} StripRightEmpties(text: string)
    ensures StripRight(text) == "" <==> AllBlank(text)
  {
    if text != [] && IsSpace(text[|text| - 1]) {
      StripRightEmpties(text[..|text| - 1]);
    }
  }

  lemma {:induction false} StripLeftKeepsSomething(text: string)
    ensures AllBlank(StripLeft(text)) <==> AllBlank(text)
  {
    if text != [] && IsSpace(text[0]) {
      StripLeftKeepsSomething(text[1..]);
      assert AllBlank(text[1..]) ==> AllBlank(text) by {
        assert forall i :: 1 <= i < |text| ==> text[i] == text[1..][i - 1];
      }
    }
  }

  lemma StripEmpties(text: string)
    ensures Strip(text) == "" <==> AllBlank(text)
  {
    StripRightEmpties(StripLeft(text));
    StripLeftKeepsSomething(text);
  }

  lemma {:induction false} CollapsedIsBlank(text: string)
    ensures AllBlank(Collapsed(text)) <==> AllBlank(text)
  {
    if text != [] {
      var last := |text| - 1;
      var before := Collapsed(text[..last]);
      CollapsedIsBlank(text[..last]);
      assert AllBlank(text) <==> AllBlank(text[..last]) && IsSpace(text[last]);
      if !IsSpace(text[last]) {
        assert (before + [text[last]])[|before|] == text[last];
      } else {
        assert IsSpace(' ');
        assert AllBlank(before + [' ']) <==> AllBlank(before) by {
          assert forall i :: 0 <= i < |before| ==> (before + [' '])[i] == before[i];
        }
      }
    }
  }

  /** A title has an empty normal form exactly when nothing in its folded text stays: no word
    * character and none of + / # & . - */
  lemma EmptyFormIff(fold: Fold, isWord: WordSet, title: string)
    requires Sensible(isWord)
    ensures NormalizeTitle(fold, isWord, title) == "" <==>
              forall c :: c in fold(title) ==> !isWord(c) && c !in {'+', '/', '#', '&', '.', '-'}
  {
    var folded := fold(title);
    var blanked := Blanked(isWord, folded);
    StripEmpties(Collapsed(blanked));
    CollapsedIsBlank(blanked);
    assert IsSpace(' ');
    forall i | 0 <= i < |folded|
      ensures IsSpace(blanked[i]) <==> !Stays(isWord, folded[i])
    {
    }
    if AllBlank(blanked) {
      forall c | c in folded
        ensures !Stays(isWord, c)
      {
        var i :| 0 <= i < |folded| && folded[i] == c;
        assert IsSpace(blanked[i]);
      }
    }
  }
}
