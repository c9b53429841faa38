/** Python's notions of blank and missing text. */
module Text {
  import opened Wrappers

  /** The characters `str.strip` removes. */
  predicate IsSpace(c: char) {
    var code := c as int;
    || 9 <= code <= 13 || 28 <= code <= 32 || code == 0x85 || code == 0xA0 || code == 0x1680
    || 0x2000 <= code <= 0x200A || code == 0x2028 || code == 0x2029 || code == 0x202F || code == 0x205F
    || code == 0x3000
  }

  function StripLeft(text: string): string {
    if text != [] && IsSpace(text[0]) then StripLeft(text[1..]) else text
  }

  function StripRight(text: string): string {
    if text != [] && IsSpace(text[|text| - 1]) then StripRight(text[..|text| - 1]) else text
  }

  function Strip(text: string): string {
    StripRight(StripLeft(text))
  }

  /** Tabs and line breaks, the separators of ASCII, and the spaces of Unicode. */
  lemma SpacesAre(c: char)
    ensures IsSpace(c) <==>
              || c in " \t\n\r\U{b}\U{c}\U{1c}\U{1d}\U{1e}\U{1f}\U{85}\U{a0}\U{1680}\U{2028}\U{2029}\U{202f}\U{205f}\U{3000}"
              || '\U{2000}' <= c <= '\U{200a}'
  {
  }

  /** What is left of a text has no space at either end, and only spaces were taken. */
  lemma {:induction false} StripIs(text: string) returns (from: nat, to: nat)
    ensures from <= to <= |text| && Strip(text) == text[from..to]
    ensures forall i :: 0 <= i < from || to <= i < |text| ==> IsSpace(text[i])
    ensures from < to ==> !IsSpace(text[from]) && !IsSpace(text[to - 1])
  {
    from := LeftIs(text);
    var kept := RightIs(text[from..]);
    to := from + kept;
    assert text[from..][..kept] == text[from..to];
    assert forall i :: to <= i < |text| ==> text[from..][i - from] == text[i];
  }

  lemma {:induction false} LeftIs(text: string) returns (from: nat)
    ensures from <= |text| && StripLeft(text) == text[from..]
    ensures (forall i :: 0 <= i < from ==> IsSpace(text[i])) && (from < |text| ==> !IsSpace(text[from]))
  {
    if text != [] && IsSpace(text[0]) {
      from := LeftIs(text[1..]);
      assert forall i :: 0 <= i < from ==> text[1..][i] == text[i + 1];
      from := from + 1;
    } else {
      from := 0;
    }
  }

  lemma {:induction false} RightIs(text: string) returns (to: nat)
    ensures to <= |text| && StripRight(text) == text[..to]
    ensures (forall i :: to <= i < |text| ==> IsSpace(text[i])) && (to > 0 ==> !IsSpace(text[to - 1]))
  {
    var n := |text| - 1;
    if text != [] && IsSpace(text[n]) {
      to := RightIs(text[..n]);
      assert text[..n][..to] == text[..to];
      assert forall i :: 0 <= i < n ==> text[..n][i] == text[i];
    } else {
      to := |text|;
    }
  }

  /** `bool(value and value.strip())`. */
  predicate HasText(value: Option<string>) {
    value.Some? && Strip(value.value) != ""
  }

  /** `bool(value)`. */
  predicate Truthy(value: Option<string>) {
    value.Some? && value.value != ""
  }

  function PreferText(incoming: Option<string>, existing: Option<string>): Option<string> {
    if HasText(incoming) then incoming else existing
  }

  predicate Infix(part: string, whole: string) {
    exists i :: 0 <= i <= |whole| && part <= whole[i..]
  }
}
