/** Go library operations the gateway relies on: map iteration, trimming, ASCII case folding, searching,
    decimal printing (`%d`) and parsing (`strconv.Atoi`). */
module GoText {

  datatype Option<+T> = None | Some(value: T)

  /** The next key of a `range` loop over a map: Go promises no order, so any key may come. */
  method NextKey<K>(keys: set<K>) returns (k: K)
    requires keys != {}
    ensures k in keys
  {
    k :| k in keys;
  }

  /** Bounds of Go's 64-bit `int`. */
  const MAX_INT := 0x7FFF_FFFF_FFFF_FFFF
  const MIN_INT := -0x8000_0000_0000_0000
  type GoInt = n: int | MIN_INT <= n <= MAX_INT

  /** Bound of the unsigned 64-bit integers. */
  const UINT64 := 0x1_0000_0000_0000_0000

  /** An instant, or a duration, in nanoseconds; as an instant 0 is Go's zero time, "not set". */
  type Time = int

  predicate IsSpace(c: char) {
    c in "\t\n\r " || c in {'\U{0B}', '\U{0C}', '\U{85}', '\U{A0}', '\U{1680}', '\U{2028}', '\U{2029}',
                            '\U{202F}', '\U{205F}', '\U{3000}'}
    || '\U{2000}' <= c <= '\U{200A}'
  }

  function TrimLeft(s: string): string {
    if s != "" && IsSpace(s[0]) then TrimLeft(s[1..]) else s
  }

  function TrimRight(s: string): string {
    if s != "" && IsSpace(s[|s| - 1]) then TrimRight(s[..|s| - 1]) else s
  }

  function TrimSpace(s: string): string {
    TrimRight(TrimLeft(s))
  }

  function LowerChar(c: char): char {
    if 'A' <= c <= 'Z' then c - 'A' + 'a' else c
  }

  function ToLower(s: string): (r: string)
    ensures |r| == |s|
  {
    seq(|s|, i requires 0 <= i < |s| => LowerChar(s[i]))
  }

  predicate OccursAt(s: string, part: string, i: nat) {
    i + |part| <= |s| && s[i..i + |part|] == part
  }

  predicate Contains(s: string, part: string) {
    exists i: nat | i <= |s| :: OccursAt(s, part, i)
  }

  predicate HasPrefix(s: string, prefix: string) {
    prefix <= s
  }

  predicate HasSuffix(s: string, suffix: string) {
    |suffix| <= |s| && s[|s| - |suffix|..] == suffix
  }

  function TrimSuffix(s: string, suffix: string): string {
    if HasSuffix(s, suffix) then s[..|s| - |suffix|] else s
  }

  function TrimPrefix(s: string, prefix: string): string {
    if prefix <= s then s[|prefix|..] else s
  }

  /** Position of the last `c` in `s`, or -1. */
  function LastIndex(s: string, c: char): (i: int)
    ensures -1 <= i < |s|
    ensures i >= 0 ==> s[i] == c
    ensures forall k :: i < k < |s| ==> s[k] != c
  {
    if s == "" then -1
    else if s[|s| - 1] == c then |s| - 1
    else LastIndex(s[..|s| - 1], c)
  }

  predicate IsDigit(c: char) {
    '0' <= c <= '9'
  }

  predicate AllDigits(s: string) {
    forall i | 0 <= i < |s| :: IsDigit(s[i])
  }

  /** `fmt.Sprintf("%d", n)`. */
  function Decimal(n: nat): (s: string)
    ensures s != "" && AllDigits(s)
  {
    if n < 10 then ['0' + n as char] else Decimal(n / 10) + ['0' + (n % 10) as char]
  }

  function DigitsValue(s: string): nat
    requires AllDigits(s)
  {
    if s == "" then 0 else 10 * DigitsValue(s[..|s| - 1]) + (s[|s| - 1] - '0') as nat
  }

  /** `strconv.Atoi`: an optional sign, at least one digit, and a value that fits in 64 bits. */
  function Atoi(s: string): Option<int> {
    var signed := s != "" && s[0] in "+-";
    var digits := if signed then s[1..] else s;
    if digits == "" || !AllDigits(digits) then None
    else
      var magnitude: int := DigitsValue(digits);
      var v := if signed && s[0] == '-' then -magnitude else magnitude;
      if MIN_INT <= v <= MAX_INT then Some(v) else None
  }

  lemma {:induction false} DecimalValue(n: nat)
    ensures DigitsValue(Decimal(n)) == n
  {
    if n >= 10 {
      DecimalValue(n / 10);
      var d := '0' + (n % 10) as char;
      assert (Decimal(n / 10) + [d])[..|Decimal(n)| - 1] == Decimal(n / 10);
    }
  }

  /** Printing and parsing a Go `int` is the identity on the non-negative ones. */
  lemma AtoiDecimal(n: nat)
    requires n <= MAX_INT
    ensures Atoi(Decimal(n)) == Some(n)
  {
    DecimalValue(n);
    assert IsDigit(Decimal(n)[0]);
  }

  lemma DecimalInjective(a: nat, b: nat)
    requires Decimal(a) == Decimal(b)
    ensures a == b
  {
    DecimalValue(a);
    DecimalValue(b);
  }

  lemma TrimSpaceKeeps(s: string)
    requires s != "" ==> !IsSpace(s[0]) && !IsSpace(s[|s| - 1])
    ensures TrimSpace(s) == s
  {
  }

  lemma ToLowerConcat(a: string, b: string)
    ensures ToLower(a + b) == ToLower(a) + ToLower(b)
  {
  }

  /** A part occurs exactly if the text can be cut around it. */
  lemma ContainsMeansCut(s: string, part: string)
    ensures Contains(s, part) <==> exists before, after :: s == before + part + after
  {
    if i: nat :| i <= |s| && OccursAt(s, part, i) {
      assert s == s[..i] + part + s[i + |part|..];
    }
    forall before, after | s == before + part + after
      ensures Contains(s, part)
    {
      assert s[|before|..|before| + |part|] == part;
      assert OccursAt(s, part, |before|);
    }
  }

  lemma LettersOfWord(s: string, word: string, i: nat)
    requires OccursAt(s, word, i)
    ensures forall k | i <= k < i + |word| :: s[k] in word
  {
    assert forall k | i <= k < i + |word| :: s[k] == s[i..i + |word|][k - i];
  }

  /** A word without the separator occurs before it or after it. */
  lemma ContainsAcross(a: string, sep: char, b: string, word: string)
    requires sep !in word && word != ""
    ensures Contains(a + [sep] + b, word) <==> Contains(a, word) || Contains(b, word)
  {
    var s := a + [sep] + b;
    assert s[|a|] == sep && s[|a| + 1..] == b;
    forall i: nat | OccursAt(s, word, i)
      ensures Contains(a, word) || Contains(b, word)
    {
      LettersOfWord(s, word, i);
      if i + |word| <= |a| {
        assert a[i..i + |word|] == s[i..i + |word|];
        assert OccursAt(a, word, i);
      } else if i <= |a| {
        assert false;
      } else {
        assert b[i - |a| - 1..i - |a| - 1 + |word|] == s[i..i + |word|];
        assert OccursAt(b, word, i - |a| - 1);
      }
    }
    forall i: nat | OccursAt(a, word, i)
      ensures OccursAt(s, word, i)
    {
      assert s[i..i + |word|] == a[i..i + |word|];
    }
    forall i: nat | OccursAt(b, word, i)
      ensures OccursAt(s, word, i + |a| + 1)
    {
      assert s[i + |a| + 1..i + |a| + 1 + |word|] == s[|a| + 1..][i..i + |word|];
    }
  }

  /** A word whose first two letters never stand next to each other does not occur. */
  lemma NoPairNoWord(s: string, word: string)
    requires |word| >= 2 && forall i | 0 <= i < |s| - 1 :: s[i] != word[0] || s[i + 1] != word[1]
    ensures !Contains(s, word)
  {
    forall i: nat | i <= |s|
      ensures !OccursAt(s, word, i)
    {
      if i + |word| <= |s| {
        var window := s[i..i + |word|];
        assert window[0] == s[i] && window[1] == s[i + 1];
      }
    }
  }

  predicate Blank(s: string) {
    forall k | 0 <= k < |s| :: IsSpace(s[k])
  }

  /** Blanks around a text that neither begins nor ends with one are all that trimming takes away. */
  lemma TrimBlanks(before: string, s: string, after: string)
    requires Blank(before) && Blank(after) && s != "" && !IsSpace(s[0]) && !IsSpace(s[|s| - 1])
    ensures TrimSpace(before + s + after) == s
  {
    hide IsSpace;
    TrimBefore(before, s + after);
    assert before + s + after == before + (s + after);
    TrimAfter(s, after);
  }

  lemma {:induction false} TrimBefore(before: string, s: string)
    requires Blank(before) && s != "" && !IsSpace(s[0])
    ensures TrimLeft(before + s) == s
  {
    hide IsSpace;
    if before == "" {
      assert before + s == s;
    } else {
      assert (before + s)[1..] == before[1..] + s;
      TrimBefore(before[1..], s);
    }
  }

  lemma {:induction false} TrimAfter(s: string, after: string)
    requires Blank(after) && s != "" && !IsSpace(s[|s| - 1])
    ensures TrimRight(s + after) == s
  {
    hide IsSpace;
    if after == "" {
      assert s + after == s;
    } else {
      var n := |after| - 1;
      assert (s + after)[..|s + after| - 1] == s + after[..n];
      TrimAfter(s, after[..n]);
    }
  }
}
