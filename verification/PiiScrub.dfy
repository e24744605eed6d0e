/** The three-pass scrubber of security/pii_scrub.py.  The IBAN pass is modelled
    in full; the CARD and EMAIL passes are arbitrary replacements of disjoint
    segments by their labels. */
module PiiScrub {

  /** `\d` of a str pattern: the ASCII digits and whatever else Unicode calls a
      decimal digit, but none of the characters below. */
  type DigitClass = char -> bool

  predicate Upper(c: char) {
    'A' <= c <= 'Z'
  }

  predicate UpperOrDigit(c: char) {
    Upper(c) || '0' <= c <= '9'
  }

  predicate Reasonable(digit: DigitClass) {
    !digit('[') && !digit(']')
  }

  const MIN_TAIL := 11
  const MAX_TAIL := 30
  const SHAPE := 4 + MIN_TAIL

  /** The shortest strings that `[A-Z]{2}\d{2}[A-Z0-9]{11,30}` matches. */
  predicate IbanShape(digit: DigitClass, w: string) {
    && |w| == SHAPE
    && Upper(w[0]) && Upper(w[1]) && digit(w[2]) && digit(w[3])
    && forall k :: 4 <= k < SHAPE ==> UpperOrDigit(w[k])
  }

  /** Some match begins at i. */
  predicate IbanAt(digit: DigitClass, text: string, i: nat) {
    i + SHAPE <= |text| && IbanShape(digit, text[i..i + SHAPE])
  }

  /** `[A-Z]{2}\d{2}[A-Z0-9]{11,30}` matches the characters from i up to j. */
  predicate MatchBetween(digit: DigitClass, text: string, i: nat, j: nat) {
    && i + 15 <= j <= i + 34 && j <= |text|
    && 'A' <= text[i] <= 'Z' && 'A' <= text[i + 1] <= 'Z' && digit(text[i + 2]) && digit(text[i + 3])
    && forall k :: i + 4 <= k < j ==> 'A' <= text[k] <= 'Z' || '0' <= text[k] <= '9'
  }

  lemma ShortestMatch(digit: DigitClass, text: string, i: nat)
    ensures IbanAt(digit, text, i) <==> MatchBetween(digit, text, i, i + 15)
  {
    if i + SHAPE <= |text| {
      var w := text[i..i + SHAPE];
      assert forall k :: 0 <= k < SHAPE ==> w[k] == text[i + k];
      assert forall k :: i <= k < i + SHAPE ==> text[k] == w[k - i];
    }
  }

  /** `IbanAt` is the existence of a match of any length. */
  lemma IbanAtIffMatch(digit: DigitClass, text: string, i: nat)
    ensures IbanAt(digit, text, i) <==> exists j: nat :: MatchBetween(digit, text, i, j)
  {
    ShortestMatch(digit, text, i);
    if j: nat :| MatchBetween(digit, text, i, j) {
      assert MatchBetween(digit, text, i, i + 15);
    }
  }

  ghost predicate IbanFree(digit: DigitClass, text: string) {
    forall i: nat :: !IbanAt(digit, text, i)
  }

  /** Length of the run of capitals and ASCII digits from i on, at most `limit`. */
  function RunLength(text: string, i: nat, limit: nat): (n: nat)
    ensures n <= limit
    ensures i <= |text| ==> i + n <= |text|
    ensures forall k :: i <= k < i + n && k < |text| ==> UpperOrDigit(text[k])
    ensures n < limit && i + n < |text| ==> !UpperOrDigit(text[i + n])
    decreases limit
  {
    if limit == 0 || i >= |text| || !UpperOrDigit(text[i]) then 0
    else 1 + RunLength(text, i + 1, limit - 1)
  }

  lemma {:induction false} RunAtLeast(text: string, i: nat, limit: nat, n: nat)
    requires n <= limit && i + n <= |text| && forall k :: i <= k < i + n ==> UpperOrDigit(text[k])
    ensures RunLength(text, i, limit) >= n
    decreases n
  {
  }

  /** The greedy match at the start of `text`. */
  function MatchLength(digit: DigitClass, text: string): (n: nat)
    requires IbanAt(digit, text, 0)
    ensures MatchBetween(digit, text, 0, n)
    ensures forall m: nat :: n < m ==> !MatchBetween(digit, text, 0, m)
  {
    ShapeHasTail(digit, text);
    ShortestMatch(digit, text, 0);
    4 + RunLength(text, 4, MAX_TAIL)
  }

  lemma ShapeHasTail(digit: DigitClass, text: string)
    requires IbanAt(digit, text, 0)
    ensures RunLength(text, 4, MAX_TAIL) >= MIN_TAIL
  {
    var w := text[0..SHAPE];
    forall k | 4 <= k < SHAPE ensures UpperOrDigit(text[k]) {
      assert UpperOrDigit(w[k]) && w[k] == text[k];
    }
    RunAtLeast(text, 4, MAX_TAIL, MIN_TAIL);
  }

  /** Leftmost greedy substitution. */
  function SubIban(digit: DigitClass, text: string): string
    decreases |text|
  {
    if text == "" then ""
    else if IbanAt(digit, text, 0) then LabelText(Iban) + SubIban(digit, text[MatchLength(digit, text)..])
    else [text[0]] + SubIban(digit, text[1..])
  }

  datatype Label = Iban | Card | Email

  function LabelText(mark: Label): (s: string)
    ensures 2 <= |s| <= SHAPE + 1 && s[0] == '[' && s[|s| - 1] == ']'
  {
    match mark
    case Iban => "[IBAN_REDACTED]"
    case Card => "[CARD_REDACTED]"
    case Email => "[EMAIL_REDACTED]"
  }

  // ------------------------------------------------------------- the other passes

  /** A stretch that is kept, then a match. */
  datatype Cut = Cut(gap: string, hit: string)

  /** How a pattern divides a text: cuts, and what follows the last match. */
  datatype Division = Division(cuts: seq<Cut>, tail: string)

  type Pattern = string -> Division

  function Undivided(d: Division): string
    decreases |d.cuts|
  {
    if d.cuts == [] then d.tail
    else d.cuts[0].gap + (d.cuts[0].hit + Undivided(Division(d.cuts[1..], d.tail)))
  }

  function Replaced(d: Division, mark: Label): string
    decreases |d.cuts|
  {
    if d.cuts == [] then d.tail
    else d.cuts[0].gap + (LabelText(mark) + Replaced(Division(d.cuts[1..], d.tail), mark))
  }

  function Relabelled(cuts: seq<Cut>, hit: string): seq<Cut> {
    seq(|cuts|, i requires 0 <= i < |cuts| => Cut(cuts[i].gap, hit))
  }

  /** Every match, and nothing else, is replaced by the label of its pattern. */
  lemma {:induction false} ReplacedIsRelabelled(d: Division, mark: Label)
    ensures var text := match mark
                        case Iban => "[IBAN_REDACTED]"
                        case Card => "[CARD_REDACTED]"
                        case Email => "[EMAIL_REDACTED]";
            Replaced(d, mark) == Undivided(Division(Relabelled(d.cuts, text), d.tail))
    decreases |d.cuts|
  {
    if d.cuts != [] {
      ReplacedIsRelabelled(Division(d.cuts[1..], d.tail), mark);
      assert Relabelled(d.cuts, LabelText(mark))[1..] == Relabelled(d.cuts[1..], LabelText(mark));
    }
  }

  ghost predicate Divides(p: Pattern) {
    forall text :: Undivided(p(text)) == text
  }

  // ------------------------------------------------------------------- the scrubber

  const PASSES := [Iban, Card, Email]

  function Scrubbed(digit: DigitClass, card: Pattern, email: Pattern, text: string): string {
    if text == "" then ""
    else
      var masked := SubIban(digit, text);
      var noCards := Replaced(card(masked), Card);
      Replaced(email(noCards), Email)
  }

  method SubstituteIban(digit: DigitClass, text: string) returns (result: string)
    ensures result == SubIban(digit, text)
    ensures MatchBetween(digit, text, 0, |text|) ==> result == "[IBAN_REDACTED]"
  {
    if MatchBetween(digit, text, 0, |text|) { WholeMatch(digit, text); }
    result := "";
    var rest := text;
    while rest != ""
      invariant result + SubIban(digit, rest) == SubIban(digit, text)
      decreases |rest|
    {
      var step, n := [rest[0]], 1;
      if IbanAt(digit, rest, 0) {
        step, n := LabelText(Iban), MatchLength(digit, rest);
      }
      assert SubIban(digit, rest) == step + SubIban(digit, rest[n..]);
      result, rest := result + step, rest[n..];
    }
  }

  lemma WholeMatch(digit: DigitClass, text: string)
    requires MatchBetween(digit, text, 0, |text|)
    ensures SubIban(digit, text) == "[IBAN_REDACTED]"
  {
    IbanAtIffMatch(digit, text, 0);
    assert MatchLength(digit, text) == |text|;
    assert SubIban(digit, text[|text|..]) == "";
  }

  /** No IBAN-shaped substring survives: neither in what the first pass keeps,
      nor created by the passes after it. */
  method ScrubPii(digit: DigitClass, card: Pattern, email: Pattern, text: string) returns (result: string)
    requires Reasonable(digit) && Divides(card) && Divides(email)
    ensures result == Scrubbed(digit, card, email, text)
    ensures text == "" ==> result == ""
    ensures text != "" ==> result == Replaced(email(Replaced(card(SubIban(digit, text)), Card)), Email)
    ensures IbanFree(digit, result)
  {
    ScrubbedIsIbanFree(digit, card, email, text);
    if text == "" {
      return text;
    }
    result := text;
    var i := 0;
    while i < |PASSES|
      invariant 0 <= i <= |PASSES|
      invariant i == 0 ==> result == text
      invariant i == 1 ==> result == SubIban(digit, text)
      invariant i == 2 ==> result == Replaced(card(SubIban(digit, text)), Card)
      invariant i == 3 ==> result == Scrubbed(digit, card, email, text)
    {
      match PASSES[i] {
        case Iban => result := SubstituteIban(digit, result);
        case Card => result := Replaced(card(result), Card);
        case Email => result := Replaced(email(result), Email);
      }
      i := i + 1;
    }
  }

  // -------------------------------------------------------------------- proofs

  predicate Bracket(c: char) {
    c == '[' || c == ']'
  }

  lemma BracketBlocks(digit: DigitClass, text: string, i: nat, k: nat)
    requires Reasonable(digit) && i <= k < i + SHAPE && k < |text| && Bracket(text[k])
    ensures !IbanAt(digit, text, i)
  {
  }

  /** A label separates: no match can straddle or fill it. */
  lemma LabelSeparates(digit: DigitClass, a: string, mark: Label, b: string)
    requires Reasonable(digit) && IbanFree(digit, a) && IbanFree(digit, b)
    ensures IbanFree(digit, a + (LabelText(mark) + b))
  {
    var l := LabelText(mark);
    var t := a + (l + b);
    forall i: nat ensures !IbanAt(digit, t, i) {
      if i + SHAPE <= |a| {
        assert a[i..i + SHAPE] == t[i..i + SHAPE] && !IbanAt(digit, a, i);
      } else if i >= |a| + |l| {
        var j := i - |a| - |l|;
        assert !IbanAt(digit, b, j);
        if i + SHAPE <= |t| { assert b[j..j + SHAPE] == t[i..i + SHAPE]; }
      } else if i <= |a| {
        assert t[|a|] == l[0];
        BracketBlocks(digit, t, i, |a|);
      } else {
        assert t[|a| + |l| - 1] == l[|l| - 1];
        BracketBlocks(digit, t, i, |a| + |l| - 1);
      }
    }
  }

  lemma LabelComesFirst(digit: DigitClass, text: string)
    ensures text == "" <==> SubIban(digit, text) == ""
    ensures IbanAt(digit, text, 0) ==> SubIban(digit, text)[0] == '['
    ensures text != "" && !IbanAt(digit, text, 0) ==> SubIban(digit, text) == [text[0]] + SubIban(digit, text[1..])
  {
  }

  /** What the first pass copies before its first label is a prefix of its input. */
  lemma {:induction false} CopiedPrefix(digit: DigitClass, text: string, n: nat)
    requires n <= |SubIban(digit, text)| && forall k :: 0 <= k < n ==> SubIban(digit, text)[k] != '['
    ensures n <= |text| && SubIban(digit, text)[..n] == text[..n]
    decreases |text|
  {
    if n > 0 {
      LabelComesFirst(digit, text);
      var rest := SubIban(digit, text[1..]);
      assert forall k :: 0 <= k < n - 1 ==> rest[k] == SubIban(digit, text)[k + 1];
      CopiedPrefix(digit, text[1..], n - 1);
      assert SubIban(digit, text)[..n] == [text[0]] + rest[..n - 1];
      assert text[..n] == [text[0]] + text[1..][..n - 1];
    }
  }

  /** A match at the start of the output would have been one of the input. */
  lemma FirstCannotMatch(digit: DigitClass, text: string)
    requires Reasonable(digit) && IbanAt(digit, SubIban(digit, text), 0)
    ensures IbanAt(digit, text, 0)
  {
    var out := SubIban(digit, text);
    forall k | 0 <= k < SHAPE ensures out[k] != '[' {
      if Bracket(out[k]) { BracketBlocks(digit, out, 0, k); }
    }
    CopiedPrefix(digit, text, SHAPE);
    assert out[0..SHAPE] == out[..SHAPE] && text[0..SHAPE] == text[..SHAPE];
  }

  lemma ConsIsFree(digit: DigitClass, c: char, rest: string)
    requires IbanFree(digit, rest) && !IbanAt(digit, [c] + rest, 0)
    ensures IbanFree(digit, [c] + rest)
  {
    var t := [c] + rest;
    forall i: nat ensures !IbanAt(digit, t, i) {
      if i > 0 {
        assert !IbanAt(digit, rest, i - 1);
        if i + SHAPE <= |t| { assert t[i..i + SHAPE] == rest[i - 1..i - 1 + SHAPE]; }
      }
    }
  }

  /** The first pass leaves no match. */
  lemma {:induction false} SubIbanIsFree(digit: DigitClass, text: string)
    requires Reasonable(digit)
    ensures IbanFree(digit, SubIban(digit, text))
    decreases |text|
  {
    if text != "" {
      if IbanAt(digit, text, 0) {
        var rest := text[MatchLength(digit, text)..];
        SubIbanIsFree(digit, rest);
        LabelSeparates(digit, "", Iban, SubIban(digit, rest));
        assert "" + (LabelText(Iban) + SubIban(digit, rest)) == SubIban(digit, text);
      } else {
        SubIbanIsFree(digit, text[1..]);
        if IbanAt(digit, SubIban(digit, text), 0) { FirstCannotMatch(digit, text); }
        ConsIsFree(digit, text[0], SubIban(digit, text[1..]));
      }
    }
  }

  /** Replacing disjoint segments by labels creates no match. */
  lemma {:induction false} ReplacedIsFree(digit: DigitClass, d: Division, mark: Label)
    requires Reasonable(digit) && IbanFree(digit, Undivided(d))
    ensures IbanFree(digit, Replaced(d, mark))
    decreases |d.cuts|
  {
    if d.cuts != [] {
      var gap, hit, rest := d.cuts[0].gap, d.cuts[0].hit, Division(d.cuts[1..], d.tail);
      FreeParts(digit, gap, hit, Undivided(rest));
      ReplacedIsFree(digit, rest, mark);
      LabelSeparates(digit, gap, mark, Replaced(rest, mark));
    }
  }

  lemma FreeParts(digit: DigitClass, a: string, b: string, c: string)
    requires IbanFree(digit, a + (b + c))
    ensures IbanFree(digit, a) && IbanFree(digit, c)
  {
    var t := a + (b + c);
    forall i: nat ensures !IbanAt(digit, a, i) {
      assert !IbanAt(digit, t, i);
      if i + SHAPE <= |a| { assert a[i..i + SHAPE] == t[i..i + SHAPE]; }
    }
    forall i: nat ensures !IbanAt(digit, c, i) {
      var j := |a| + |b| + i;
      assert !IbanAt(digit, t, j);
      if i + SHAPE <= |c| { assert c[i..i + SHAPE] == t[j..j + SHAPE]; }
    }
  }

  lemma ScrubbedIsIbanFree(digit: DigitClass, card: Pattern, email: Pattern, text: string)
    requires Reasonable(digit) && Divides(card) && Divides(email)
    ensures IbanFree(digit, Scrubbed(digit, card, email, text))
  {
    if text != "" {
      var masked := SubIban(digit, text);
      SubIbanIsFree(digit, text);
      ReplacedIsFree(digit, card(masked), Card);
      var noCards := Replaced(card(masked), Card);
      ReplacedIsFree(digit, email(noCards), Email);
    }
  }

  /** Gaps and matches, where every match begins as early and is as long as it
      can be. */
  ghost predicate LeftmostGreedy(digit: DigitClass, d: Division)
    decreases |d.cuts|
  {
    var text := Undivided(d);
    if d.cuts == [] then IbanFree(digit, text)
    else
      var start := |d.cuts[0].gap|;
      var end := start + |d.cuts[0].hit|;
      && (forall i: nat :: i < start ==> !IbanAt(digit, text, i))
      && MatchBetween(digit, text, start, end)
      && (forall m: nat :: end < m ==> !MatchBetween(digit, text, start, m))
      && LeftmostGreedy(digit, Division(d.cuts[1..], d.tail))
  }

  /** The first pass is the replacement of the leftmost greedy matches. */
  lemma {:induction false} SubIbanReplacesMatches(digit: DigitClass, text: string) returns (d: Division)
    ensures Undivided(d) == text && LeftmostGreedy(digit, d)
    ensures SubIban(digit, text) == Replaced(d, Iban)
    decreases |text|
  {
    if text == "" {
      d := Division([], "");
    } else if IbanAt(digit, text, 0) {
      var n := MatchLength(digit, text);
      var rest := SubIbanReplacesMatches(digit, text[n..]);
      d := Division([Cut("", text[..n])] + rest.cuts, rest.tail);
      CutIsGreedy(digit, text, n, rest, d);
    } else {
      var rest := SubIbanReplacesMatches(digit, text[1..]);
      d := Shifted(text[0], rest);
      ShiftedTexts(text[0], rest);
      ShiftedIsGreedy(digit, text, rest);
    }
  }

  lemma CutIsGreedy(digit: DigitClass, text: string, n: nat, rest: Division, d: Division)
    requires text != "" && IbanAt(digit, text, 0) && n == MatchLength(digit, text)
    requires Undivided(rest) == text[n..] && LeftmostGreedy(digit, rest)
    requires d == Division([Cut("", text[..n])] + rest.cuts, rest.tail)
    ensures Undivided(d) == text && LeftmostGreedy(digit, d)
    ensures Replaced(d, Iban) == LabelText(Iban) + Replaced(rest, Iban)
  {
    assert d.cuts[1..] == rest.cuts && Division(d.cuts[1..], d.tail) == rest;
    assert Undivided(d) == "" + (text[..n] + text[n..]) == text;
  }

  /** One more character in front of the first gap. */
  function Shifted(c: char, d: Division): Division {
    if d.cuts == [] then Division([], [c] + d.tail)
    else Division([Cut([c] + d.cuts[0].gap, d.cuts[0].hit)] + d.cuts[1..], d.tail)
  }

  lemma MatchShifts(digit: DigitClass, c: char, text: string, i: nat, j: nat)
    ensures MatchBetween(digit, [c] + text, i + 1, j + 1) <==> MatchBetween(digit, text, i, j)
    ensures IbanAt(digit, [c] + text, i + 1) <==> IbanAt(digit, text, i)
  {
    var longer := [c] + text;
    assert forall k :: 0 <= k < |text| ==> longer[k + 1] == text[k];
    assert forall k :: 1 <= k < |longer| ==> longer[k] == text[k - 1];
    if i + SHAPE <= |text| { assert longer[i + 1..i + 1 + SHAPE] == text[i..i + SHAPE]; }
  }

  lemma ShiftedTexts(c: char, d: Division)
    ensures Undivided(Shifted(c, d)) == [c] + Undivided(d)
    ensures Replaced(Shifted(c, d), Iban) == [c] + Replaced(d, Iban)
  {
    if d.cuts != [] {
      assert Shifted(c, d).cuts[1..] == d.cuts[1..];
    }
  }

  lemma ShiftedIsGreedy(digit: DigitClass, text: string, rest: Division)
    requires text != "" && !IbanAt(digit, text, 0)
    requires Undivided(rest) == text[1..] && LeftmostGreedy(digit, rest)
    ensures LeftmostGreedy(digit, Shifted(text[0], rest))
  {
    ShiftedTexts(text[0], rest);
    assert text == [text[0]] + text[1..];
    if rest.cuts == [] {
      ConsIsFree(digit, text[0], text[1..]);
    } else {
      ShiftedFirstCut(digit, text, rest, |rest.cuts[0].gap| + 1, |rest.cuts[0].gap| + 1 + |rest.cuts[0].hit|);
      assert Shifted(text[0], rest).cuts[1..] == rest.cuts[1..];
    }
  }

  lemma ShiftedFirstCut(digit: DigitClass, text: string, rest: Division, start: nat, end: nat)
    requires text != "" && !IbanAt(digit, text, 0) && rest.cuts != []
    requires start == |rest.cuts[0].gap| + 1 && end == start + |rest.cuts[0].hit|
    requires Undivided(rest) == text[1..] && LeftmostGreedy(digit, rest)
    ensures forall i: nat :: i < start ==> !IbanAt(digit, text, i)
    ensures MatchBetween(digit, text, start, end)
    ensures forall m: nat :: end < m ==> !MatchBetween(digit, text, start, m)
  {
    assert text == [text[0]] + text[1..];
    forall i: nat | i < start ensures !IbanAt(digit, text, i) {
      if i > 0 { MatchShifts(digit, text[0], text[1..], i - 1, 0); }
    }
    MatchShifts(digit, text[0], text[1..], start - 1, end - 1);
    forall m: nat | end < m ensures !MatchBetween(digit, text, start, m) {
      MatchShifts(digit, text[0], text[1..], start - 1, m - 1);
    }
  }

  /** The first pass touches nothing else: it changes a text exactly if the
      text holds an IBAN-shaped substring, so a second pass changes nothing. */
  lemma {:induction false} SubIbanChangesOnlyIbans(digit: DigitClass, text: string)
    requires Reasonable(digit)
    ensures SubIban(digit, text) == text <==> IbanFree(digit, text)
    ensures SubIban(digit, SubIban(digit, text)) == SubIban(digit, text)
  {
    SubIbanIsFree(digit, text);
    if IbanFree(digit, text) { FreeIsUnchanged(digit, text); }
    FreeIsUnchanged(digit, SubIban(digit, text));
  }

  lemma {:induction false} FreeIsUnchanged(digit: DigitClass, text: string)
    requires IbanFree(digit, text)
    ensures SubIban(digit, text) == text
    decreases |text|
  {
    if text != "" {
      assert !IbanAt(digit, text, 0);
      assert text == "" + ([text[0]] + text[1..]);
      FreeParts(digit, "", [text[0]], text[1..]);
      FreeIsUnchanged(digit, text[1..]);
    }
  }
}
