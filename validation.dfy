/**
 * The client-side screen of a report's free-text description
 * (lib/validation.ts): the text is trimmed, then four rules are tried in
 * a fixed order and the first that fires decides the message: too short,
 * a phone-like run, a street name followed by a house number, a
 * standalone five-digit number.
 *
 * Each regular expression is modelled by a predicate saying where it
 * matches (`MatchesAt`) and a left-to-right scan over the start
 * positions (`Search`), which is how `RegExp.prototype.test` looks for a
 * match. The three patterns are taken as written, including the
 * mis-encoded first street token.
 */
module Validation {
  import opened Text

  const MinLength: nat := 10

  const TooShortMessage: string := "Bitte mindestens 10 Zeichen eingeben."
  const PhoneMessage: string := "Bitte keine Telefonnummern angeben."
  const AddressMessage: string := "Bitte keine genauen Adressen angeben."
  const PostalMessage: string := "Bitte keine Postleitzahlen angeben."

  datatype Verdict = Valid | Invalid(message: string)

  datatype Rule = PhoneRule | AddressRule | PostalRule

  // ----- PHONE_REGEX: [\d\s\-+()]{6,} -----

  /** The character class of the phone pattern. */
  predicate IsPhoneChar(c: char) {
    IsDigit(c) || IsSpace(c) || c == '-' || c == '+' || c == '(' || c == ')'
  }

  /** Six phone characters start at `i`; for `test`, `{6,}` needs no more than six. */
  predicate PhoneAt(t: string, i: int) {
    0 <= i && i + 6 <= |t| && forall k | i <= k < i + 6 :: IsPhoneChar(t[k])
  }

  // ----- EXACT_ADDRESS_REGEX, case-insensitive -----

  /**
   * The alternatives of the address pattern, in order. The first is the
   * UTF-8 bytes of "straße" read as Mac Roman: 's','t','r','a','√','ü','e'.
   */
  const AddressTokens: seq<string> :=
    ["stra\U{221A}\U{00FC}e", "str.", "strasse", "weg", "platz", "allee", "gasse"]

  /**
   * Case folding of the `i` flag as far as the token alphabet needs it:
   * ASCII letters and 'ü'/'Ü'. Without the unicode flag no non-ASCII
   * character folds onto an ASCII one, so this is exact for comparisons
   * against the tokens.
   */
  function Canon(c: char): (d: char)
    ensures 'a' <= c <= 'z' ==> d as int == c as int - 32
  {
    if 'a' <= c <= 'z' then (c as int - 32) as char
    else if c == '\U{00FC}' then '\U{00DC}'
    else c
  }

  predicate TokenAt(t: string, i: int, token: string) {
    0 <= i && i + |token| <= |t| && forall k | 0 <= k < |token| :: Canon(t[i + k]) == Canon(token[k])
  }

  /** `\s*\.?\s*\d+` matches at `j`, scanned the way a greedy matcher consumes it. */
  predicate NumberFollows(t: string, j: nat)
    requires j <= |t|
  {
    var a := SkipLeading(t, j);
    var b := if a < |t| && t[a] == '.' then SkipLeading(t, a + 1) else a;
    b < |t| && IsDigit(t[b])
  }

  /** The number part of the address pattern as the pattern reads it: spaces, an optional dot, spaces, a digit. */
  ghost predicate NumberFollowsSpec(t: string, j: nat) {
    exists a, b, c :: j <= a <= b <= c < |t|
      && SpacesBetween(t, j, a)
      && (b == a || (b == a + 1 && t[a] == '.'))
      && SpacesBetween(t, b, c)
      && IsDigit(t[c])
  }

  /** One of `tokens`, ignoring case, at `i`, followed by the number part. */
  predicate TokenThenNumber(t: string, i: int, tokens: seq<string>) {
    exists n | 0 <= n < |tokens| :: TokenAt(t, i, tokens[n]) && NumberFollows(t, i + |tokens[n]|)
  }

  predicate AddressAt(t: string, i: int) {
    TokenThenNumber(t, i, AddressTokens)
  }

  // ----- POSTAL_CODE_REGEX: \b\d{5}\b -----

  /** Five digits at `i`, with no word character right before or right after them. */
  predicate PostalAt(t: string, i: int) {
    && 0 <= i && i + 5 <= |t|
    && (forall k | i <= k < i + 5 :: IsDigit(t[k]))
    && (i == 0 || !IsWordChar(t[i - 1]))
    && (i + 5 == |t| || !IsWordChar(t[i + 5]))
  }

  // ----- search -----

  predicate MatchesAt(rule: Rule, t: string, i: int) {
    match rule
    case PhoneRule => PhoneAt(t, i)
    case AddressRule => AddressAt(t, i)
    case PostalRule => PostalAt(t, i)
  }

  /** Some position of `t` is the start of a match of `rule`. */
  ghost predicate Occurs(rule: Rule, t: string) {
    exists i | 0 <= i <= |t| :: MatchesAt(rule, t, i)
  }

  /** `test` from position `i` on: the scan finds a match exactly when one starts at or after `i`. */
  function Search(rule: Rule, t: string, i: nat): (found: bool)
    requires i <= |t|
    ensures found <==> exists j | i <= j <= |t| :: MatchesAt(rule, t, j)
    decreases |t| - i
  {
    MatchesAt(rule, t, i) || (i < |t| && Search(rule, t, i + 1))
  }

  /** validateDescriptionNoPII. */
  function ValidateDescription(text: string): (v: Verdict)
    ensures var t := Trim(text);
      && (Utf16Length(t) < MinLength ==> v == Invalid(TooShortMessage))
      && (Utf16Length(t) >= MinLength && Occurs(PhoneRule, t) ==> v == Invalid(PhoneMessage))
      && (Utf16Length(t) >= MinLength && !Occurs(PhoneRule, t) && Occurs(AddressRule, t)
          ==> v == Invalid(AddressMessage))
      && ((Utf16Length(t) >= MinLength && !Occurs(PhoneRule, t) && !Occurs(AddressRule, t)
           && Occurs(PostalRule, t)) ==> v == Invalid(PostalMessage))
      && (v == Valid <==> Utf16Length(t) >= MinLength && !Occurs(PhoneRule, t)
                          && !Occurs(AddressRule, t) && !Occurs(PostalRule, t))
  {
    var t := Trim(text);
    if Utf16Length(t) < MinLength then Invalid(TooShortMessage)
    else if Search(PhoneRule, t, 0) then Invalid(PhoneMessage)
    else if Search(AddressRule, t, 0) then Invalid(AddressMessage)
    else if Search(PostalRule, t, 0) then Invalid(PostalMessage)
    else Valid
  }

  // ----- properties -----

  /** The scan for white space stops at the first non-space, whatever lies before it. */
  lemma {:induction false} SkipLeadingStopsAt(t: string, j: nat, x: nat)
    requires j <= x < |t| && SpacesBetween(t, j, x) && !IsSpace(t[x])
    ensures SkipLeading(t, j) == x
    decreases x - j
  {
    if j < x {
      SkipLeadingStopsAt(t, j + 1, x);
    }
  }

  /** What the greedy scan accepts, the pattern matches. */
  lemma NumberFollowsSound(t: string, j: nat)
    requires j <= |t| && NumberFollows(t, j)
    ensures NumberFollowsSpec(t, j)
  {
    var a := SkipLeading(t, j);
    var b := if a < |t| && t[a] == '.' then a + 1 else a;
    var c := SkipLeading(t, b);
  }

  /** What the pattern matches, the greedy scan accepts: the scan stops exactly where the reading continues. */
  lemma NumberFollowsComplete(t: string, j: nat, a: nat, b: nat, c: nat)
    requires j <= a <= b <= c < |t|
    requires SpacesBetween(t, j, a)
    requires b == a || (b == a + 1 && t[a] == '.')
    requires SpacesBetween(t, b, c)
    requires IsDigit(t[c])
    ensures NumberFollows(t, j)
  {
    if b == a || a == c {
      SpacesBetweenJoin(t, j, a, c);
      SkipLeadingStopsAt(t, j, c);
    } else {
      SkipLeadingStopsAt(t, j, a);
      SkipLeadingStopsAt(t, b, c);
    }
  }

  lemma NumberFollowsFromSpec(t: string, j: nat)
    requires j <= |t| && NumberFollowsSpec(t, j)
    ensures NumberFollows(t, j)
  {
    var a, b, c :| j <= a <= b <= c < |t| && SpacesBetween(t, j, a)
      && (b == a || (b == a + 1 && t[a] == '.')) && SpacesBetween(t, b, c) && IsDigit(t[c]);
    NumberFollowsComplete(t, j, a, b, c);
  }

  /** The greedy scan of the number part agrees with the pattern's reading. */
  lemma NumberFollowsCorrect(t: string, j: nat)
    requires j <= |t|
    ensures NumberFollows(t, j) <==> NumberFollowsSpec(t, j)
  {
    if NumberFollows(t, j) {
      NumberFollowsSound(t, j);
    }
    if NumberFollowsSpec(t, j) {
      NumberFollowsFromSpec(t, j);
    }
  }

  /** One of `tokens`, ignoring case, at `i`, followed by the number part as the pattern reads it. */
  ghost predicate TokenThenNumberSpec(t: string, i: int, tokens: seq<string>) {
    exists n | 0 <= n < |tokens| :: TokenAt(t, i, tokens[n]) && NumberFollowsSpec(t, i + |tokens[n]|)
  }

  ghost predicate AddressAtSpec(t: string, i: int) {
    TokenThenNumberSpec(t, i, AddressTokens)
  }

  lemma TokenThenNumberCorrect(t: string, i: int, tokens: seq<string>)
    ensures TokenThenNumber(t, i, tokens) <==> TokenThenNumberSpec(t, i, tokens)
  {
    if TokenThenNumber(t, i, tokens) {
      TokenThenNumberSound(t, i, tokens);
    }
    if TokenThenNumberSpec(t, i, tokens) {
      TokenThenNumberComplete(t, i, tokens);
    }
  }

  lemma TokenThenNumberSound(t: string, i: int, tokens: seq<string>)
    requires TokenThenNumber(t, i, tokens)
    ensures TokenThenNumberSpec(t, i, tokens)
  {
    var n :| 0 <= n < |tokens| && TokenAt(t, i, tokens[n]) && NumberFollows(t, i + |tokens[n]|);
    NumberFollowsSound(t, i + |tokens[n]|);
  }

  lemma TokenThenNumberComplete(t: string, i: int, tokens: seq<string>)
    requires TokenThenNumberSpec(t, i, tokens)
    ensures TokenThenNumber(t, i, tokens)
  {
    var n := SpecAlternative(t, i, tokens);
    NumberFollowsFromSpec(t, i + |tokens[n]|);
    AlternativeMatches(t, i, tokens, n);
  }

  /** The alternative that matches as the pattern reads it. */
  lemma SpecAlternative(t: string, i: int, tokens: seq<string>) returns (n: nat)
    requires TokenThenNumberSpec(t, i, tokens)
    ensures n < |tokens| && TokenAt(t, i, tokens[n]) && NumberFollowsSpec(t, i + |tokens[n]|)
  {
    n :| 0 <= n < |tokens| && TokenAt(t, i, tokens[n]) && NumberFollowsSpec(t, i + |tokens[n]|);
  }

  lemma AlternativeMatches(t: string, i: int, tokens: seq<string>, n: nat)
    requires n < |tokens| && TokenAt(t, i, tokens[n]) && NumberFollows(t, i + |tokens[n]|)
    ensures TokenThenNumber(t, i, tokens)
  {
  }

  lemma AddressAtCorrect(t: string, i: int)
    ensures AddressAt(t, i) <==> AddressAtSpec(t, i)
  {
    TokenThenNumberCorrect(t, i, AddressTokens);
  }

  /**
   * The address rule fires exactly when, ignoring case, one of the tokens
   * occurs anywhere in the text (not only at the start of a word) and is
   * followed by spaces, an optional dot, spaces and a digit.
   */
  lemma AddressRuleMeaning(t: string)
    ensures Occurs(AddressRule, t) <==> exists i | 0 <= i <= |t| :: AddressAtSpec(t, i)
  {
    forall i | 0 <= i <= |t| ensures MatchesAt(AddressRule, t, i) <==> AddressAtSpec(t, i) {
      AddressAtCorrect(t, i);
    }
  }

  /** Any run of six or more phone characters in the trimmed text of a long enough text rejects it as a phone number. */
  lemma PhoneRunRejects(text: string, i: nat, n: nat)
    requires Utf16Length(Trim(text)) >= MinLength
    requires 6 <= n && i + n <= |Trim(text)|
    requires forall k | i <= k < i + n :: IsPhoneChar(Trim(text)[k])
    ensures ValidateDescription(text) == Invalid(PhoneMessage)
  {
    assert MatchesAt(PhoneRule, Trim(text), i);
  }

  /**
   * The postal-code message is only reached for five digits whose
   * neighbours are not phone characters (in particular not white space):
   * next to a space, a dash, a plus sign or a parenthesis, the digits
   * already form a six-character phone run, and the phone rule comes first.
   */
  lemma PostalMessageNeedsNonPhoneNeighbours(text: string, i: nat)
    requires ValidateDescription(text) == Invalid(PostalMessage)
    requires PostalAt(Trim(text), i)
    ensures i == 0 || !IsPhoneChar(Trim(text)[i - 1])
    ensures i + 5 == |Trim(text)| || !IsPhoneChar(Trim(text)[i + 5])
  {
    var t := Trim(text);
    if i > 0 && IsPhoneChar(t[i - 1]) {
      assert MatchesAt(PhoneRule, t, i - 1);
    }
    if i + 5 < |t| && IsPhoneChar(t[i + 5]) {
      assert MatchesAt(PhoneRule, t, i);
    }
  }

  /** A text that passes the screen is never blank after trimming. */
  lemma ValidIsNotBlank(text: string)
    requires ValidateDescription(text) == Valid
    ensures Trim(text) != []
  {
  }

  /**
   * The mis-encoded first token means that "straße" (with a real ß) is not
   * matched by any alternative at the position where it is written, in
   * any letter case: a house number after it is not caught there.
   */
  lemma EszettSpellingIsNoToken(t: string, i: nat)
    requires i + 6 <= |t|
    requires Canon(t[i]) == 'S' && Canon(t[i + 1]) == 'T' && Canon(t[i + 2]) == 'R'
    requires Canon(t[i + 3]) == 'A' && t[i + 4] == '\U{00DF}' && Canon(t[i + 5]) == 'E'
    ensures forall n | 0 <= n < |AddressTokens| :: !TokenAt(t, i, AddressTokens[n])
  {
    forall n | 0 <= n < |AddressTokens| ensures !TokenAt(t, i, AddressTokens[n]) {
      var token := AddressTokens[n];
      var k := if n == 0 || n == 2 then 4 else if n == 1 then 3 else 0;
      assert Canon(t[i + k]) != Canon(token[k]);
    }
  }

  /** The same street spelled with "ss" followed by a number is an exact address. */
  lemma StrasseSpellingIsCaught()
    ensures Occurs(AddressRule, "Hauptstrasse 12")
  {
    var t := "Hauptstrasse 12";
    assert TokenAt(t, 5, AddressTokens[2]);
    assert SkipLeading(t, 13) == 13;
    assert SkipLeading(t, 12) == 13;
    assert MatchesAt(AddressRule, t, 5);
  }

  /** A token inside a longer word counts: "Hinterweg 5" is an exact address. */
  lemma TokenInsideWordIsCaught()
    ensures Occurs(AddressRule, "Am Hinterweg 5 gesehen")
  {
    var t := "Am Hinterweg 5 gesehen";
    assert TokenAt(t, 9, AddressTokens[3]);
    assert SkipLeading(t, 13) == 13;
    assert SkipLeading(t, 12) == 13;
    assert MatchesAt(AddressRule, t, 9);
  }

  /** Six inner blanks alone already read as a phone number. */
  lemma BlankRunRejected()
    ensures ValidateDescription("Hallo      Welt") == Invalid(PhoneMessage)
  {
    var t := "Hallo      Welt";
    TrimFixesTrimmed(t);
    assert MatchesAt(PhoneRule, t, 5);
  }

  /** A postal code between blanks gets the phone message, not the postal one. */
  lemma PostalCodeBetweenBlanksIsPhone()
    ensures ValidateDescription("Postleitzahl 10115 Berlin") == Invalid(PhoneMessage)
  {
    var t := "Postleitzahl 10115 Berlin";
    TrimFixesTrimmed(t);
    assert MatchesAt(PhoneRule, t, 12);
  }

  lemma PhoneNumberRejected()
    ensures ValidateDescription("Ruf mich an unter 0151 2345678") == Invalid(PhoneMessage)
  {
    var t := "Ruf mich an unter 0151 2345678";
    TrimFixesTrimmed(t);
    assert MatchesAt(PhoneRule, t, 18);
  }

  lemma ShortTextRejected()
    ensures ValidateDescription("ab") == Invalid(TooShortMessage)
  {
    TrimFixesTrimmed("ab");
    assert Utf16Length("ab") <= 4;
  }
}
