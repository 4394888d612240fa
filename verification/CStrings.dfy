/** C strings as both programs use them: NUL-terminated text in zeroed buffers,
    `%s` and strtok tokenising, and `%d` / atoi decimals.

    A C char is a Dafny char and NUL is '\0'; payload bytes are chars too, and nothing below
    restricts their values. */
module CStrings {

  const NUL: char := '\0'

  // Every message that is not a payload travels in a zero-padded block of this size.
  const FIELD: nat := 100

  // sscanf's %s splits at white space; strtok(buf, " ") splits at blanks only.
  datatype Delimiters = WhiteSpace | Blank

  predicate IsSeparator(d: Delimiters, c: char) {
    c == ' ' || (d == WhiteSpace && '\t' <= c <= '\r')
  }

  /** The length of the word s starts with: it stops at the end or at the first separator. */
  function WordLength(d: Delimiters, s: string): (n: nat)
    ensures n <= |s|
    ensures forall i | 0 <= i < n :: !IsSeparator(d, s[i])
    ensures n < |s| ==> IsSeparator(d, s[n])
  {
    if s == "" || IsSeparator(d, s[0]) then 0 else 1 + WordLength(d, s[1..])
  }

  function Tokens(d: Delimiters, s: string): seq<string>
    decreases |s|
  {
    if s == "" then []
    else if IsSeparator(d, s[0]) then Tokens(d, s[1..])
    else
      var n := WordLength(d, s);
      [s[..n]] + Tokens(d, s[n..])
  }

  /** Token i of a formatted line, or the empty string that bzero left in the variable. */
  function Token(s: string, i: nat): string {
    var words := Tokens(WhiteSpace, s);
    if i < |words| then words[i] else ""
  }

  /** A word survives the tokenisers and the NUL termination. */
  predicate IsWord(w: string) {
    w != "" && NUL !in w && forall c | c in w :: !IsSeparator(WhiteSpace, c)
  }

  predicate AreWords(words: seq<string>) {
    forall w | w in words :: IsWord(w)
  }

  /** " a b c": a blank before every word. */
  function Spaced(words: seq<string>): string {
    if words == [] then "" else " " + (words[0] + Spaced(words[1..]))
  }

  /** "a b c": what the formats "%s", "%s %s" and "%s %s %s" produce. */
  function Line(words: seq<string>): string {
    if words == [] then "" else words[0] + Spaced(words[1..])
  }

  lemma WordLengthOfWord(d: Delimiters, w: string, rest: string)
    requires IsWord(w)
    requires rest == "" || IsSeparator(d, rest[0])
    ensures WordLength(d, w + rest) == |w|
  {
    assert forall i | 0 <= i < |w| :: (w + rest)[i] == w[i] && w[i] in w;
    assert rest != "" ==> (w + rest)[|w|] == rest[0];
  }

  lemma TokensOfWord(d: Delimiters, w: string, rest: string)
    requires IsWord(w)
    requires rest == "" || IsSeparator(d, rest[0])
    ensures Tokens(d, w + rest) == [w] + Tokens(d, rest)
  {
    WordLengthOfWord(d, w, rest);
    assert (w + rest)[..|w|] == w && (w + rest)[|w|..] == rest;
    assert (w + rest)[0] == w[0] && w[0] in w;
  }

  /** Tokenising undoes the spaced rendering, for any number of words and both tokenisers. */
  lemma {:induction false} TokensOfSpaced(d: Delimiters, words: seq<string>)
    requires AreWords(words)
    ensures Tokens(d, Spaced(words)) == words
  {
    if words != [] {
      var tail := Spaced(words[1..]);
      TokensOfSpaced(d, words[1..]);
      TokensOfWord(d, words[0], tail);
      TokensAfterBlank(d, words[0] + tail);
      assert [words[0]] + words[1..] == words;
    }
  }

  lemma TokensAfterBlank(d: Delimiters, s: string)
    ensures Tokens(d, " " + s) == Tokens(d, s)
  {
    assert (" " + s)[1..] == s;
  }

  lemma TokensOfLine(d: Delimiters, words: seq<string>)
    requires AreWords(words)
    ensures Tokens(d, Line(words)) == words
  {
    if words != [] {
      TokensOfSpaced(d, words[1..]);
      TokensOfWord(d, words[0], Spaced(words[1..]));
      assert [words[0]] + words[1..] == words;
    }
  }

  lemma {:induction false} TokensOfSpacedThen(d: Delimiters, words: seq<string>, rest: string)
    requires AreWords(words) && (rest == "" || IsSeparator(d, rest[0]))
    ensures Tokens(d, Spaced(words) + rest) == words + Tokens(d, rest)
  {
    hide Tokens, IsWord;
    if words == [] {
      assert "" + rest == rest;
    } else {
      var w, tail := words[0], Spaced(words[1..]);
      assert w in words;
      TokensOfSpacedThen(d, words[1..], rest);
      TokensOfWord(d, w, tail + rest);
      TokensAfterBlank(d, w + (tail + rest));
      Associates(" ", w + tail, rest);
      Associates(w, tail, rest);
      HeadAndRest(words, Tokens(d, rest));
    }
  }

  lemma HeadAndRest(words: seq<string>, more: seq<string>)
    requires words != []
    ensures [words[0]] + (words[1..] + more) == words + more
  {
  }

  /** What stands behind the words of a line does not change them. */
  lemma TokensOfLineThen(d: Delimiters, words: seq<string>, rest: string)
    requires AreWords(words) && words != [] && (rest == "" || IsSeparator(d, rest[0]))
    ensures Tokens(d, Line(words) + rest) == words + Tokens(d, rest)
  {
    hide Tokens, IsWord;
    TokensOfSpacedThen(d, words, rest);
    TokensAfterBlank(d, Line(words) + rest);
    Associates(" ", Line(words), rest);
  }

  lemma LineHasNoNul(words: seq<string>)
    requires AreWords(words)
    ensures NUL !in Spaced(words) && NUL !in Line(words)
  {
    if words != [] {
      assert words[0] in words;
      LineHasNoNul(words[1..]);
    }
  }

  lemma Associates(a: string, b: string, c: string)
    ensures (a + b) + c == a + (b + c)
  {
  }

  // ----- zero-padded blocks -----

  function Zeros(n: nat): (z: string)
    ensures |z| == n && forall i | 0 <= i < n :: z[i] == NUL
  {
    seq(n, _ => NUL)
  }

  /** A text in a zeroed buffer, of which `size` bytes are written to the socket: zero padding
      behind a short text, and a long text cut off. */
  function Block(s: string, size: nat): (block: string)
    ensures |block| == size
  {
    (s + Zeros(size))[..size]
  }

  /** The C string a buffer holds: everything before the first NUL. */
  function CStr(buf: string): (s: string)
    ensures NUL !in s && s <= buf
    ensures |s| < |buf| ==> buf[|s|] == NUL
  {
    if buf == "" || buf[0] == NUL then "" else [buf[0]] + CStr(buf[1..])
  }

  /** A text without NUL that fits survives the block. */
  lemma CStrOfBlock(s: string, size: nat)
    requires |s| <= size && NUL !in s
    ensures CStr(Block(s, size)) == s
  {
    var block := Block(s, size);
    var t := CStr(block);
    assert forall i | 0 <= i < |s| :: block[i] == s[i] && s[i] in s;
    assert |s| < size ==> block[|s|] == NUL;
    assert forall i | 0 <= i < |t| :: t[i] in t && t[i] == block[i];
  }

  /** Words written with a format into a block come back from sscanf unchanged. */
  lemma BlockRoundTrip(words: seq<string>)
    requires AreWords(words) && |Line(words)| <= FIELD
    ensures Tokens(WhiteSpace, CStr(Block(Line(words), FIELD))) == words
  {
    LineHasNoNul(words);
    CStrOfBlock(Line(words), FIELD);
    TokensOfLine(WhiteSpace, words);
  }

  // ----- texts that are cut off -----

  /** How many characters belong to words. */
  function Letters(d: Delimiters, s: string): nat {
    if s == "" then 0 else (if IsSeparator(d, s[0]) then 0 else 1) + Letters(d, s[1..])
  }

  function TotalLength(words: seq<string>): nat {
    if words == [] then 0 else |words[0]| + TotalLength(words[1..])
  }

  lemma {:induction false} LettersSplit(d: Delimiters, a: string, b: string)
    ensures Letters(d, a + b) == Letters(d, a) + Letters(d, b)
    decreases |a|
  {
    if a == "" {
      assert a + b == b;
    } else {
      assert (a + b)[1..] == a[1..] + b;
      LettersSplit(d, a[1..], b);
    }
  }

  lemma {:induction false} LettersOfWord(d: Delimiters, w: string)
    requires forall i | 0 <= i < |w| :: !IsSeparator(d, w[i])
    ensures Letters(d, w) == |w|
    decreases |w|
  {
    if w != "" {
      LettersOfWord(d, w[1..]);
    }
  }

  /** Tokenising keeps every character that is not a separator. */
  lemma {:induction false} TokensKeepLetters(d: Delimiters, s: string)
    ensures TotalLength(Tokens(d, s)) == Letters(d, s)
    decreases |s|
  {
    if s != "" {
      if IsSeparator(d, s[0]) {
        TokensKeepLetters(d, s[1..]);
      } else {
        var n := WordLength(d, s);
        TokensKeepLetters(d, s[n..]);
        LettersOfWord(d, s[..n]);
        LettersSplit(d, s[..n], s[n..]);
        assert s == s[..n] + s[n..];
      }
    }
  }

  lemma {:induction false} SpacedEndsInLetter(d: Delimiters, words: seq<string>)
    requires AreWords(words) && words != []
    ensures Spaced(words) != "" && !IsSeparator(d, Spaced(words)[|Spaced(words)| - 1])
  {
    var w, tail := words[0], Spaced(words[1..]);
    assert w in words && w[|w| - 1] in w;
    if words[1..] != [] {
      SpacedEndsInLetter(d, words[1..]);
      assert Spaced(words)[|Spaced(words)| - 1] == tail[|tail| - 1];
    } else {
      assert Spaced(words)[|Spaced(words)| - 1] == w[|w| - 1];
    }
  }

  lemma CutLosesLetters(d: Delimiters, s: string, n: nat)
    requires n < |s| && !IsSeparator(d, s[|s| - 1])
    ensures Letters(d, s[..n]) < Letters(d, s)
  {
    var m := |s| - 1;
    LettersSplit(d, s[..n], s[n..m]);
    LettersSplit(d, s[..m], [s[m]]);
    hide IsSeparator;
    assert s[..m] == s[..n] + s[n..m] && s == s[..m] + [s[m]];
    assert Letters(d, [s[m]]) == 1;
  }

  /** A text of words that is cut off reads as other words. */
  lemma CutLosesWords(d: Delimiters, words: seq<string>, n: nat)
    requires AreWords(words) && n < |Spaced(words)|
    ensures Tokens(d, Spaced(words)[..n]) != words
  {
    var s := Spaced(words);
    SpacedEndsInLetter(d, words);
    hide *;
    TokensOfSpaced(d, words);
    TokensKeepLetters(d, s);
    TokensKeepLetters(d, s[..n]);
    CutLosesLetters(d, s, n);
  }

  lemma CutBlock(s: string, n: nat)
    requires n <= |s| && NUL !in s
    ensures CStr(Block(s, n)) == s[..n]
  {
    assert Block(s, n) == s[..n] == Block(s[..n], n);
    CStrOfBlock(s[..n], n);
  }

  /** Exactly which messages survive: a text of words of up to 100 characters. */
  lemma BlockExact(words: seq<string>)
    requires AreWords(words)
    ensures Tokens(WhiteSpace, CStr(Block(Line(words), FIELD))) == words <==> |Line(words)| <= 100
  {
    if |Line(words)| <= 100 {
      BlockRoundTrip(words);
    } else {
      LineHasNoNul(words);
      CutBlock(Line(words), 100);
      CutLosesWords(WhiteSpace, words, 101);
      assert Spaced(words)[..101] == " " + Line(words)[..100];
      TokensAfterBlank(WhiteSpace, Line(words)[..100]);
    }
  }

  // ----- decimals -----

  function DigitChar(k: nat): char
    requires k < 10
  {
    (48 + k) as char
  }

  predicate IsDigit(c: char) { '0' <= c <= '9' }

  /** "%d" for a non-negative number. */
  function Itoa(n: nat): string {
    if n < 10 then [DigitChar(n)] else Itoa(n / 10) + [DigitChar(n % 10)]
  }

  function DigitsValue(s: string, acc: nat): nat {
    if s == "" || !IsDigit(s[0]) then acc
    else DigitsValue(s[1..], 10 * acc + (s[0] as int - 48))
  }

  /** atoi: white space, an optional sign, then digits up to the first other character. */
  function Atoi(s: string): int
    decreases |s|
  {
    if s == "" then 0
    else if IsSeparator(WhiteSpace, s[0]) then Atoi(s[1..])
    else if s[0] == '-' then 0 - DigitsValue(s[1..], 0)
    else if s[0] == '+' then DigitsValue(s[1..], 0)
    else DigitsValue(s, 0)
  }

  /** atoi reads decimal digits, most significant first, up to another character. */
  lemma AtoiReads(s: string, c: char, rest: string)
    requires (forall d | d in s :: IsDigit(d)) && IsDigit(c) && (rest == "" || !IsDigit(rest[0]))
    ensures Atoi(s + [c] + rest) == (if s == "" then 0 else 10 * Atoi(s)) + (c as int - '0' as int)
  {
    var k := c as int - 48;
    assert c == DigitChar(k);
    DigitsValueAppend(s, k, 0);
    DigitsEnd(s + [c], rest, 0);
    assert s != "" ==> s[0] in s && (s + [c] + rest)[0] == s[0];
  }

  lemma {:induction false} DigitsEnd(s: string, rest: string, acc: nat)
    requires (forall d | d in s :: IsDigit(d)) && (rest == "" || !IsDigit(rest[0]))
    ensures DigitsValue(s + rest, acc) == DigitsValue(s, acc)
    decreases |s|
  {
    if s == "" {
      assert s + rest == rest;
    } else {
      assert (s + rest)[1..] == s[1..] + rest && s[0] in s;
      DigitsEnd(s[1..], rest, 10 * acc + (s[0] as int - 48));
    }
  }

  lemma DigitsValueAppend(s: string, d: nat, acc: nat)
    requires d < 10 && forall c | c in s :: IsDigit(c)
    ensures DigitsValue(s + [DigitChar(d)], acc) == 10 * DigitsValue(s, acc) + d
  {
    if s != "" {
      assert s[0] in s;
      assert (s + [DigitChar(d)])[1..] == s[1..] + [DigitChar(d)];
      DigitsValueAppend(s[1..], d, 10 * acc + (s[0] as int - 48));
    }
  }

  lemma ItoaShape(n: nat)
    ensures Itoa(n) != "" && forall c | c in Itoa(n) :: IsDigit(c)
    ensures Itoa(n)[0] == '0' <==> n == 0
    ensures IsWord(Itoa(n))
  {
  }

  /** atoi reads back every number "%d" writes. */
  lemma {:induction false} AtoiOfItoa(n: nat)
    ensures Atoi(Itoa(n)) == n
  {
    ItoaShape(n);
    DigitsValueOfItoa(n);
    assert Itoa(n)[0] in Itoa(n);
  }

  lemma {:induction false} DigitsValueOfItoa(n: nat)
    ensures DigitsValue(Itoa(n), 0) == n
  {
    if n >= 10 {
      DigitsValueOfItoa(n / 10);
      ItoaShape(n / 10);
      DigitsValueAppend(Itoa(n / 10), n % 10, 0);
    }
  }

  // A C int: file lengths and part lengths stay below this.
  const INT_LIMIT: nat := 0x8000_0000

  function PowerOfTen(d: nat): nat {
    if d == 0 then 1 else 10 * PowerOfTen(d - 1)
  }

  lemma ItoaLength(n: nat, d: nat)
    requires 1 <= d && n < PowerOfTen(d)
    ensures |Itoa(n)| <= d
  {
    if d > 1 && n >= 10 {
      ItoaLength(n / 10, d - 1);
    }
  }

  lemma IntLength(n: nat)
    requires n < INT_LIMIT
    ensures |Itoa(n)| <= 10
  {
    assert PowerOfTen(5) == 100000;
    assert PowerOfTen(10) == 10 * (10 * (10 * (10 * (10 * PowerOfTen(5)))));
    ItoaLength(n, 10);
  }
}
