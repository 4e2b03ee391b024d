/** The string operations of Go's standard library that the runtime's protocols lean on:
    whitespace trimming and collapsing, ASCII-word comparison, and the decimal printer and
    parser.  A string is a sequence of code points. */
module GoStrings {
  import opened Wrappers

  /** Go's `unicode.IsSpace`. */
  predicate IsSpace(c: char) {
    || c == ' ' || '\t' <= c <= '\r' || c == '\U{0085}' || c == '\U{00A0}' || c == '\U{1680}'
    || '\U{2000}' <= c <= '\U{200A}' || c == '\U{2028}' || c == '\U{2029}' || c == '\U{202F}'
    || c == '\U{205F}' || c == '\U{3000}'
  }

  /** The code points with Unicode's White_Space property. */
  lemma SpacesAre(c: char)
    ensures IsSpace(c) <==>
            c as int in {0x9, 0xA, 0xB, 0xC, 0xD, 0x20, 0x85, 0xA0, 0x1680, 0x2028, 0x2029, 0x202F, 0x205F, 0x3000} ||
            0x2000 <= c as int <= 0x200A
  {
  }

  function TrimLeft(s: string): string {
    if s != "" && IsSpace(s[0]) then TrimLeft(s[1..]) else s
  }

  function TrimRight(s: string): string {
    if s != "" && IsSpace(s[|s| - 1]) then TrimRight(s[..|s| - 1]) else s
  }

  /** Go's `strings.TrimSpace`. */
  function TrimSpace(s: string): string {
    TrimRight(TrimLeft(s))
  }

  /** A string that trimming leaves alone. */
  predicate Trimmed(s: string) {
    s == "" || (!IsSpace(s[0]) && !IsSpace(s[|s| - 1]))
  }

  predicate Blank(s: string) {
    TrimSpace(s) == ""
  }

  lemma {:induction false} TrimLeftStops(s: string)
    ensures var t := TrimLeft(s); |t| <= |s| && t == s[|s| - |t|..] && (t == "" || !IsSpace(t[0]))
  {
    if s != "" && IsSpace(s[0]) {
      TrimLeftStops(s[1..]);
    }
  }

  lemma {:induction false} TrimRightStops(s: string)
    ensures var t := TrimRight(s); t <= s && (t == "" || !IsSpace(t[|t| - 1]))
  {
    if s != "" && IsSpace(s[|s| - 1]) {
      TrimRightStops(s[..|s| - 1]);
    }
  }

  lemma TrimSpaceIsTrimmed(s: string)
    ensures Trimmed(TrimSpace(s))
  {
    TrimLeftStops(s);
    TrimRightStops(TrimLeft(s));
  }

  lemma {:induction false} TrimLeftKeepsEnd(s: string)
    requires s != "" && !IsSpace(s[|s| - 1])
    ensures TrimLeft(s) != "" && TrimLeft(s)[|TrimLeft(s)| - 1] == s[|s| - 1]
  {
    if IsSpace(s[0]) {
      TrimLeftKeepsEnd(s[1..]);
    }
  }

  lemma EndsInText(s: string)
    requires s != "" && !IsSpace(s[|s| - 1])
    ensures !Blank(s)
  {
    TrimLeftKeepsEnd(s);
  }

  /** Trimming is a projection onto the trimmed strings. */
  lemma TrimSpaceFixed(s: string)
    ensures TrimSpace(s) == s <==> Trimmed(s)
    ensures TrimSpace(TrimSpace(s)) == TrimSpace(s)
  {
    TrimSpaceIsTrimmed(s);
  }

  /** The length of the leading word of `s`. */
  function WordLength(s: string): (n: nat)
    ensures n <= |s| && (forall i | 0 <= i < n :: !IsSpace(s[i])) && (n == |s| || IsSpace(s[n]))
  {
    if s == "" || IsSpace(s[0]) then 0 else 1 + WordLength(s[1..])
  }

  /** Go's `strings.Fields`. */
  function Fields(s: string): seq<string>
    decreases |s|
  {
    if s == "" then []
    else if IsSpace(s[0]) then Fields(s[1..])
    else [s[..WordLength(s)]] + Fields(s[WordLength(s)..])
  }

  function JoinWords(words: seq<string>): string {
    if words == [] then ""
    else if |words| == 1 then words[0]
    else words[0] + " " + JoinWords(words[1..])
  }

  /** `strings.Join(strings.Fields(strings.TrimSpace(s)), " ")`: the runtime's text normal form. */
  function Collapse(s: string): string {
    JoinWords(Fields(TrimSpace(s)))
  }

  predicate IsWord(w: string) {
    w != "" && forall c | c in w :: !IsSpace(c)
  }

  predicate AllWords(words: seq<string>) {
    forall w | w in words :: IsWord(w)
  }

  lemma {:induction false} FieldsAreWords(s: string)
    ensures AllWords(Fields(s))
    decreases |s|
  {
    if s == "" {
    } else if IsSpace(s[0]) {
      FieldsAreWords(s[1..]);
    } else {
      FieldsAreWords(s[WordLength(s)..]);
    }
  }

  lemma {:induction false} JoinedWordsAreTrimmed(words: seq<string>)
    requires AllWords(words)
    ensures Trimmed(JoinWords(words)) && (words != [] ==> JoinWords(words) != "")
  {
    if |words| > 1 {
      JoinedWordsAreTrimmed(words[1..]);
      var rest := JoinWords(words[1..]);
      var joined := words[0] + " " + rest;
      assert IsWord(words[0]) && words[0][0] in words[0];
      assert joined[|joined| - 1] == rest[|rest| - 1];
    } else if |words| == 1 {
      assert words[0] in words;
      assert words[0][0] in words[0] && words[0][|words[0]| - 1] in words[0];
    }
  }

  lemma WordLengthOf(w: string, rest: string)
    requires IsWord(w) && (rest == "" || IsSpace(rest[0]))
    ensures WordLength(w + rest) == |w|
  {
    var n := WordLength(w + rest);
    assert forall i | 0 <= i < |w| :: (w + rest)[i] == w[i] && w[i] in w;
    assert rest != "" ==> (w + rest)[|w|] == rest[0];
  }

  lemma {:induction false} FieldsOfJoined(words: seq<string>)
    requires AllWords(words)
    ensures Fields(JoinWords(words)) == words
  {
    if |words| == 1 {
      WordLengthOf(words[0], "");
      assert words[0] + "" == words[0];
      assert words == [words[0]];
      assert words[0][0] in words[0];
    } else if |words| > 1 {
      var rest := " " + JoinWords(words[1..]);
      var joined := JoinWords(words);
      assert joined == words[0] + rest;
      WordLengthOf(words[0], rest);
      assert words[0][0] in words[0] && joined[0] == words[0][0];
      assert joined[..|words[0]|] == words[0] && joined[|words[0]|..] == rest;
      assert rest[1..] == JoinWords(words[1..]);
      FieldsOfJoined(words[1..]);
    }
  }

  lemma FieldsSkipSpace(c: char, s: string)
    requires IsSpace(c)
    ensures Fields([c] + s) == Fields(s)
  {
    assert ([c] + s)[1..] == s;
  }

  /** A word in front of a space or of nothing is the first field. */
  lemma FieldsOfWord(w: string, rest: string)
    requires IsWord(w) && (rest == "" || IsSpace(rest[0]))
    ensures Fields(w + rest) == [w] + Fields(rest)
  {
    WordLengthOf(w, rest);
    assert w[0] in w && (w + rest)[0] == w[0];
    assert (w + rest)[..|w|] == w && (w + rest)[|w|..] == rest;
  }

  lemma FieldsOfTrimLeft(s: string)
    ensures Fields(TrimLeft(s)) == Fields(s)
  {
    if s != "" && IsSpace(s[0]) {
      FieldsOfTrimLeft(s[1..]);
    }
  }

  lemma {:induction false} FieldsSkipLastSpace(s: string, c: char)
    requires IsSpace(c)
    ensures Fields(s + [c]) == Fields(s)
    decreases |s|
  {
    if s == "" {
      FieldsSkipSpace(c, "");
      assert "" + [c] == [c] + "";
    } else if IsSpace(s[0]) {
      assert (s + [c])[1..] == s[1..] + [c];
      FieldsSkipLastSpace(s[1..], c);
    } else {
      var n := WordLength(s);
      assert forall i | 0 <= i < n :: s[..n][i] == s[i];
      var w, rest := s[..n], s[n..];
      assert s == w + rest && s + [c] == w + (rest + [c]);
      FieldsOfWord(w, rest);
      FieldsOfWord(w, rest + [c]);
      FieldsSkipLastSpace(rest, c);
    }
  }

  lemma {:induction false} FieldsOfTrimRight(s: string)
    ensures Fields(TrimRight(s)) == Fields(s)
    decreases |s|
  {
    if s != "" && IsSpace(s[|s| - 1]) {
      var n := |s| - 1;
      FieldsOfTrimRight(s[..n]);
      FieldsSkipLastSpace(s[..n], s[n]);
      assert s == s[..n] + [s[n]];
    }
  }

  /** The text normal form has the words of the text, in order, joined by single spaces. */
  lemma CollapseKeepsWords(s: string)
    ensures Fields(Collapse(s)) == Fields(s) && Collapse(s) == JoinWords(Fields(s))
  {
    FieldsOfTrimRight(TrimLeft(s));
    FieldsOfTrimLeft(s);
    FieldsAreWords(s);
    FieldsOfJoined(Fields(s));
  }

  /** Trimming takes nothing but spaces off the ends. */
  lemma TrimSpaceCuts(s: string)
    ensures exists i, j | 0 <= i <= j <= |s| ::
      TrimSpace(s) == s[i..j] && (forall k | 0 <= k < i :: IsSpace(s[k])) && forall k | j <= k < |s| :: IsSpace(s[k])
  {
    var i := TrimLeftCuts(s);
    var j := TrimRightCuts(s[i..]);
    assert s[i..][..j] == s[i..i + j];
    assert forall k | i + j <= k < |s| :: s[k] == s[i..][k - i];
  }

  lemma {:induction false} TrimLeftCuts(s: string) returns (i: nat)
    ensures i <= |s| && TrimLeft(s) == s[i..] && forall k | 0 <= k < i :: IsSpace(s[k])
  {
    if s != "" && IsSpace(s[0]) {
      var n := TrimLeftCuts(s[1..]);
      i := n + 1;
      assert forall k | 1 <= k < i :: s[k] == s[1..][k - 1];
    } else {
      i := 0;
    }
  }

  lemma {:induction false} TrimRightCuts(s: string) returns (j: nat)
    ensures j <= |s| && TrimRight(s) == s[..j] && forall k | j <= k < |s| :: IsSpace(s[k])
  {
    if s != "" && IsSpace(s[|s| - 1]) {
      j := TrimRightCuts(s[..|s| - 1]);
      assert forall k | j <= k < |s| - 1 :: s[k] == s[..|s| - 1][k];
    } else {
      j := |s|;
    }
  }

  /** The text normal form is trimmed and is its own normal form. */
  lemma CollapseIdempotent(s: string)
    ensures Collapse(Collapse(s)) == Collapse(s)
    ensures Trimmed(Collapse(s))
  {
    var words := Fields(TrimSpace(s));
    FieldsAreWords(TrimSpace(s));
    JoinedWordsAreTrimmed(words);
    TrimSpaceFixed(JoinWords(words));
    FieldsOfJoined(words);
  }

  /** `strings.ToLower` as far as a comparison with an ASCII word can tell: besides A to Z, only
      U+0130 and the Kelvin sign have an ASCII lower-case form. */
  function LowerChar(c: char): char {
    if 'A' <= c <= 'Z' then c - 'A' + 'a'
    else if c == '\U{0130}' then 'i'
    else if c == '\U{212A}' then 'k'
    else c
  }

  lemma LowerCharIs(c: char)
    ensures LowerChar(c) as int ==
            if 0x41 <= c as int <= 0x5A then c as int + 32
            else if c as int == 0x130 then 0x69
            else if c as int == 0x212A then 0x6B
            else c as int
  {
  }

  function ToLower(s: string): (t: string)
    ensures |t| == |s| && forall i | 0 <= i < |s| :: t[i] == LowerChar(s[i])
  {
    if s == "" then "" else [LowerChar(s[0])] + ToLower(s[1..])
  }

  predicate IsPlain(c: char) {
    'a' <= c <= 'z' || c == '_' || c == '-'
  }

  lemma PlainCharIsFixed(c: char)
    requires IsPlain(c)
    ensures LowerChar(c) == c && !IsSpace(c)
  {
  }

  /** A plain lower-case word is read as it is written. */
  lemma PlainWordIsFixed(word: string)
    requires word != "" && forall c | c in word :: IsPlain(c)
    ensures ToLower(TrimSpace(word)) == word
  {
    hide IsSpace, LowerChar, IsPlain, TrimSpace;
    forall i | 0 <= i < |word| ensures LowerChar(word[i]) == word[i] && !IsSpace(word[i]) {
      assert word[i] in word;
      PlainCharIsFixed(word[i]);
    }
    TrimSpaceFixed(word);
    assert ToLower(word) == word;
  }

  // ---- decimal numbers ------------------------------------------------------------------

  const MAX_INT := 0x7FFF_FFFF_FFFF_FFFF

  predicate IsDigit(c: char) {
    '0' <= c <= '9'
  }

  function Digit(d: nat): (c: char)
    requires d < 10
    ensures IsDigit(c) && DigitValue(c) == d
  {
    '0' + d as char
  }

  function DigitValue(c: char): nat
    requires IsDigit(c)
  {
    (c - '0') as nat
  }

  function NatToDecimal(n: nat): (s: string)
    ensures s != "" && forall c | c in s :: IsDigit(c)
  {
    if n < 10 then [Digit(n)] else NatToDecimal(n / 10) + [Digit(n % 10)]
  }

  /** Go's `%d`. */
  function IntToDecimal(n: int): string {
    if n < 0 then "-" + NatToDecimal(-n) else NatToDecimal(n)
  }

  function DecimalValue(s: string): nat
    requires forall c | c in s :: IsDigit(c)
  {
    if s == "" then 0 else 10 * DecimalValue(s[..|s| - 1]) + DigitValue(s[|s| - 1])
  }

  /** Go's `strconv.Atoi` on a 64-bit platform: an optional sign, then digits, within range. */
  function Atoi(s: string): Option<int> {
    var signed := s != "" && (s[0] == '-' || s[0] == '+');
    var digits := if signed then s[1..] else s;
    if digits == "" || exists c | c in digits :: !IsDigit(c) then None
    else
      var magnitude: int := DecimalValue(digits);
      if signed && s[0] == '-' then
        (if magnitude <= MAX_INT + 1 then Some(-magnitude) else None)
      else
        (if magnitude <= MAX_INT then Some(magnitude) else None)
  }

  lemma {:induction false} DecimalRoundTrip(n: nat)
    ensures DecimalValue(NatToDecimal(n)) == n
  {
    if n >= 10 {
      DecimalRoundTrip(n / 10);
      var s := NatToDecimal(n);
      assert s[..|s| - 1] == NatToDecimal(n / 10);
    }
  }

  /** Parsing what was printed gives the number back, for every number in Go's `int` range. */
  lemma AtoiOfDecimal(n: nat)
    requires n <= MAX_INT
    ensures Atoi(NatToDecimal(n)) == Some(n)
  {
    DecimalRoundTrip(n);
    assert NatToDecimal(n)[0] in NatToDecimal(n);
  }

  function Zeros(k: nat): string {
    seq(k, _ => '0')
  }

  /** The decimal of `n`, perhaps after leading zeros. */
  ghost predicate SpellsNat(s: string, n: nat) {
    exists k: nat :: s == Zeros(k) + NatToDecimal(n)
  }

  /** The decimal of a 64-bit `n` with leading zeros and a sign as Go accepts them. */
  ghost predicate Spells(s: string, n: int) {
    -MAX_INT - 1 <= n <= MAX_INT &&
    if s != "" && s[0] == '-' then n <= 0 && SpellsNat(s[1..], -n)
    else if s != "" && s[0] == '+' then n >= 0 && SpellsNat(s[1..], n)
    else n >= 0 && SpellsNat(s, n)
  }

  lemma DecimalStep(v: nat, c: char)
    requires IsDigit(c)
    ensures NatToDecimal(10 * v + DigitValue(c)) == if v == 0 then [c] else NatToDecimal(v) + [c]
  {
  }

  lemma ValueStep(s: string)
    requires s != "" && forall c | c in s :: IsDigit(c)
    ensures DecimalValue(s) == 10 * DecimalValue(s[..|s| - 1]) + DigitValue(s[|s| - 1])
  {
  }

  /** One more digit after `Zeros(k)` and the decimal of `v`. */
  lemma ZerosStep(k: nat, v: nat, c: char)
    requires IsDigit(c)
    ensures Zeros(k) + NatToDecimal(v) + [c] ==
            Zeros(if v == 0 then k + 1 else k) + NatToDecimal(10 * v + DigitValue(c))
  {
    DecimalStep(v, c);
    if v == 0 {
      assert Zeros(k) + NatToDecimal(0) == Zeros(k + 1);
    } else {
      assert Zeros(k) + NatToDecimal(v) + [c] == Zeros(k) + (NatToDecimal(v) + [c]);
    }
  }

  lemma OneDigit(c: char)
    requires IsDigit(c)
    ensures [c] == Zeros(0) + NatToDecimal(DecimalValue([c]))
  {
    assert [c][..0] == [];
    DecimalStep(0, c);
  }

  lemma {:induction false} LeadingZeros(s: string) returns (k: nat)
    requires s != "" && forall c | c in s :: IsDigit(c)
    ensures s == Zeros(k) + NatToDecimal(DecimalValue(s))
  {
    hide NatToDecimal, Zeros, IsDigit, DigitValue, DecimalValue;
    var n := |s| - 1;
    assert s == s[..n] + [s[n]] && s[n] in s;
    if n == 0 {
      k := 0;
      OneDigit(s[0]);
    } else {
      k := LeadingZeros(s[..n]);
      ValueStep(s);
      ZerosStep(k, DecimalValue(s[..n]), s[n]);
      k := if DecimalValue(s[..n]) == 0 then k + 1 else k;
    }
  }

  lemma {:induction false} ZerosAddNothing(k: nat, digits: string)
    requires forall c | c in digits :: IsDigit(c)
    ensures forall c | c in Zeros(k) + digits :: IsDigit(c)
    ensures DecimalValue(Zeros(k) + digits) == DecimalValue(digits)
    decreases k + |digits|
  {
    var s := Zeros(k) + digits;
    if digits != "" {
      var n := |digits| - 1;
      assert s[..|s| - 1] == Zeros(k) + digits[..n];
      ZerosAddNothing(k, digits[..n]);
    } else if k > 0 {
      assert s[..|s| - 1] == Zeros(k - 1) + "";
      ZerosAddNothing(k - 1, "");
    }
  }

  lemma DigitsSpell(s: string, n: nat)
    ensures SpellsNat(s, n) <==> s != "" && (forall c | c in s :: IsDigit(c)) && DecimalValue(s) == n
  {
    if s != "" && forall c | c in s :: IsDigit(c) {
      var k := LeadingZeros(s);
    }
    if k: nat :| s == Zeros(k) + NatToDecimal(n) {
      ZerosAddNothing(k, NatToDecimal(n));
      DecimalRoundTrip(n);
    }
  }

  /** The parser reads exactly the texts that spell a number, as that number. */
  lemma AtoiReads(s: string, n: int)
    ensures Atoi(s) == Some(n) <==> Spells(s, n)
  {
    hide SpellsNat, DecimalValue;
    if s != "" && (s[0] == '-' || s[0] == '+') {
      DigitsSpell(s[1..], if n < 0 then -n else n);
    } else if n >= 0 {
      DigitsSpell(s, n);
    }
  }

  lemma DigitsAreTrimmed(s: string)
    requires forall c | c in s :: IsDigit(c)
    ensures TrimSpace(s) == s
  {
    if s != "" {
      assert s[0] in s && s[|s| - 1] in s;
    }
    TrimSpaceFixed(s);
  }

  /** Two decimal texts are equal only for equal numbers. */
  lemma IntToDecimalInjective(m: int, n: int)
    requires IntToDecimal(m) == IntToDecimal(n)
    ensures m == n
  {
    var s := IntToDecimal(m);
    assert m >= 0 ==> s[0] in s && IsDigit(s[0]);
    assert n >= 0 ==> s[0] in s && IsDigit(s[0]);
    if m < 0 {
      assert s[1..] == NatToDecimal(-m) && s[1..] == NatToDecimal(-n);
      DecimalRoundTrip(-m);
      DecimalRoundTrip(-n);
    } else {
      DecimalRoundTrip(m);
      DecimalRoundTrip(n);
    }
  }

  /** Go's `strings.LastIndex` for a one-character pattern; -1 when it does not occur. */
  function LastIndexOf(s: string, c: char): (i: int)
    ensures -1 <= i < |s| && (i >= 0 ==> s[i] == c) && (forall j | i < j < |s| :: s[j] != c)
  {
    if s == "" then -1
    else if s[|s| - 1] == c then |s| - 1
    else LastIndexOf(s[..|s| - 1], c)
  }
}
