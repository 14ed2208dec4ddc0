/** The grammar of identifiers: words joined by single separators. */
module Tokens {
  import opened Values
  import opened ValueCodec
  import opened StorePayload

  /** A word, or a word, one separator and the same again. */
  ghost predicate JoinsWords(text: Text, letter: byte -> bool, separator: byte -> bool)
    decreases |text|
  {
    exists i :: 1 <= i <= |text| && IsWord(text[..i], letter)
                && (i == |text| || (separator(text[i]) && JoinsWords(text[i + 1..], letter, separator)))
  }

  predicate IsWord(text: Text, letter: byte -> bool) {
    text != [] && forall i :: 0 <= i < |text| ==> letter(text[i])
  }

  /** Letters and separators, none of these at either end or next to another. */
  predicate Spaced(text: Text, letter: byte -> bool, separator: byte -> bool) {
    && text != [] && letter(text[0]) && letter(text[|text| - 1])
    && (forall i :: 0 <= i < |text| ==> letter(text[i]) || separator(text[i]))
    && forall i :: 0 < i < |text| ==> !(separator(text[i - 1]) && separator(text[i]))
  }

  /** How many letters the text starts with. */
  function FirstWord(text: Text, letter: byte -> bool): (n: nat)
    ensures n <= |text| && forall i :: 0 <= i < n ==> letter(text[i])
    ensures n < |text| ==> !letter(text[n])
  {
    if text == [] || !letter(text[0]) then 0 else 1 + FirstWord(text[1..], letter)
  }

  lemma {:induction false} WordsAreSpaced(text: Text, letter: byte -> bool, separator: byte -> bool)
    requires forall b :: !(letter(b) && separator(b))
    ensures JoinsWords(text, letter, separator) <==> Spaced(text, letter, separator)
    decreases |text|
  {
    if JoinsWords(text, letter, separator) {
      var i :| 1 <= i <= |text| && IsWord(text[..i], letter)
        && (i == |text| || (separator(text[i]) && JoinsWords(text[i + 1..], letter, separator)));
      WordInFront(text, i, letter);
      if i < |text| {
        WordsAreSpaced(text[i + 1..], letter, separator);
        SpacedInFront(text, i, letter, separator);
      }
    }
    if Spaced(text, letter, separator) {
      var n := FirstWord(text, letter);
      assert n >= 1 && IsWord(text[..n], letter);
      if n < |text| {
        SpacedBehind(text, n, letter, separator);
        WordsAreSpaced(text[n + 1..], letter, separator);
      }
    }
  }

  lemma WordInFront(text: Text, i: nat, letter: byte -> bool)
    requires 1 <= i <= |text| && IsWord(text[..i], letter)
    ensures forall j :: 0 <= j < i ==> letter(text[j])
  {
    forall j | 0 <= j < i ensures letter(text[j]) {
      assert text[..i][j] == text[j];
    }
  }

  lemma SpacedInFront(text: Text, i: nat, letter: byte -> bool, separator: byte -> bool)
    requires forall b :: !(letter(b) && separator(b))
    requires 1 <= i < |text| && (forall j :: 0 <= j < i ==> letter(text[j])) && separator(text[i])
    requires Spaced(text[i + 1..], letter, separator)
    ensures Spaced(text, letter, separator)
  {
    var tail := text[i + 1..];
    assert forall j :: i < j < |text| ==> text[j] == tail[j - i - 1];
  }

  lemma SpacedBehind(text: Text, n: nat, letter: byte -> bool, separator: byte -> bool)
    requires forall b :: !(letter(b) && separator(b))
    requires Spaced(text, letter, separator) && 1 <= n < |text| && !letter(text[n])
    ensures separator(text[n]) && Spaced(text[n + 1..], letter, separator)
  {
    assert n + 1 < |text| && !separator(text[n + 1]);
    var tail := text[n + 1..];
    assert forall j :: 0 <= j < |tail| ==> tail[j] == text[n + 1 + j];
  }

  // ----- the identifiers -----

  predicate Hexadecimal(b: byte) { 48 <= b <= 57 || 97 <= b <= 102 }

  predicate LowerOrDigit(b: byte) { 48 <= b <= 57 || 97 <= b <= 122 }

  predicate Dash(b: byte) { b == 45 }

  predicate DotSlashDashOrLow(b: byte) { b == 45 || b == 46 || b == 47 || b == 95 }

  /** Worker boots are 8 to 64 bytes of hexadecimal words, evidence identifiers one of 32 bytes. */
  lemma BootsExactly(text: Text)
    ensures BootRule(text) <==> 8 <= |text| <= 64 && JoinsWords(text, Hexadecimal, Dash)
    ensures EvidenceIdRule(text) <==> |text| == 32 && JoinsWords(text, Hexadecimal, Dash)
  {
    WordsAreSpaced(text, Hexadecimal, Dash);
  }

  /** Names, domains and field names are words of lower case letters and digits. */
  lemma NamesExactly(text: Text)
    ensures NameRule(text) <==> |text| <= 96 && JoinsWords(text, LowerOrDigit, DotSlashDashOrLow)
    ensures DomainOk(text) <==> |text| <= 96 && JoinsWords(text, LowerOrDigit, DotSlashDashOrLow)
    ensures FieldNameOk(text) <==> |text| <= 48 && JoinsWords(text, LowerOrDigit, DotSlashDashOrLow)
  {
    WordsAreSpaced(text, LowerOrDigit, DotSlashDashOrLow);
  }
}
