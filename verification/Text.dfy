/** The string operations of the Rust standard library that the diagnostic sanitizer uses,
    on sequences of characters. */
module Text {
  import opened Basics

  /** The Unicode White_Space property, as `char::is_whitespace` uses it. */
  predicate IsWhitespace(c: char) {
    var n := c as int;
    || 0x9 <= n <= 0xd || n == 0x20 || n == 0x85 || n == 0xa0 || n == 0x1680
    || 0x2000 <= n <= 0x200a || n == 0x2028 || n == 0x2029 || n == 0x202f || n == 0x205f || n == 0x3000
  }

  predicate IsDigit(c: char) { '0' <= c <= '9' }

  /** A nonempty string without white space. */
  predicate IsWord(s: string) { s != "" && forall i | 0 <= i < |s| :: !IsWhitespace(s[i]) }

  function TrimStart(s: string): string {
    if s != "" && IsWhitespace(s[0]) then TrimStart(s[1..]) else s
  }

  function TrimEnd(s: string): string {
    if s != "" && IsWhitespace(s[|s| - 1]) then TrimEnd(s[..|s| - 1]) else s
  }

  function Trim(s: string): string { TrimStart(TrimEnd(s)) }

  predicate StartsWith(s: string, p: string) { |p| <= |s| && s[..|p|] == p }

  function StripPrefix(s: string, p: string): Option<string> {
    if StartsWith(s, p) then Some(s[|p|..]) else None
  }

  function StripSuffix(s: string, p: string): Option<string> {
    if |p| <= |s| && s[|s| - |p|..] == p then Some(s[..|s| - |p|]) else None
  }

  /** What follows the first occurrence of a marker. */
  function After(s: string, marker: string): Option<string> {
    if |s| < |marker| then None
    else if s[..|marker|] == marker then Some(s[|marker|..])
    else if s == "" then None
    else After(s[1..], marker)
  }

  predicate Contains(s: string, marker: string) { After(s, marker).Some? }

  predicate ContainsAny(s: string, markers: seq<string>) {
    exists i | 0 <= i < |markers| :: Contains(s, markers[i])
  }

  function ToAsciiLower(s: string): string {
    seq(|s|, i requires 0 <= i < |s| => if 'A' <= s[i] <= 'Z' then (s[i] as int + 32) as char else s[i])
  }

  /** The longest prefix whose characters all satisfy a test. */
  function TakeWhile(s: string, p: char -> bool): string {
    if s != "" && p(s[0]) then [s[0]] + TakeWhile(s[1..], p) else ""
  }

  function WordLength(s: string): (n: nat)
    ensures n <= |s|
  {
    if s == "" || IsWhitespace(s[0]) then 0 else 1 + WordLength(s[1..])
  }

  function SplitWhitespace(s: string): seq<string>
    decreases |s|
  {
    if s == "" then []
    else if IsWhitespace(s[0]) then SplitWhitespace(s[1..])
    else [s[..WordLength(s)]] + SplitWhitespace(s[WordLength(s)..])
  }

  function Join(words: seq<string>): string {
    if words == [] then "" else if |words| == 1 then words[0] else words[0] + " " + Join(words[1..])
  }

  /** The key and value of a field, cut at its first equals sign. */
  function SplitField(s: string): Option<(string, string)> {
    if s == "" then None
    else if s[0] == '=' then Some(("", s[1..]))
    else match SplitField(s[1..])
      case None => None
      case Some((key, value)) => Some(([s[0]] + key, value))
  }

  /** The first line and the rest after its line feed, if there is one. */
  function LineLength(s: string): (n: nat)
    ensures n <= |s|
  {
    if s == "" || s[0] == '\n' then 0 else 1 + LineLength(s[1..])
  }

  function StripReturn(s: string): string {
    if s != "" && s[|s| - 1] == '\r' then s[..|s| - 1] else s
  }

  /** `str::lines`: a line feed ends a line, and takes one carriage return before it along. */
  function Lines(s: string): seq<string>
    decreases |s|
  {
    var n := LineLength(s);
    if s == "" then []
    else if n == |s| then [s]
    else [StripReturn(s[..n])] + Lines(s[n + 1..])
  }

  function Unlines(lines: seq<string>): string {
    if lines == [] then "" else lines[0] + "\n" + Unlines(lines[1..])
  }

  /** The decimal value of a digit string. */
  function Decimal(s: string): Option<nat> {
    if s == "" then Some(0)
    else if !IsDigit(s[|s| - 1]) then None
    else match Decimal(s[..|s| - 1])
      case None => None
      case Some(n) => Some(10 * n + (s[|s| - 1] as int - '0' as int))
  }

  /** `str::parse::<i32>`. */
  function ParseI32(s: string): Option<int> {
    var negative := s != "" && s[0] == '-';
    var digits := if s != "" && (s[0] == '-' || s[0] == '+') then s[1..] else s;
    if digits == "" then None
    else match Decimal(digits)
      case None => None
      case Some(n) =>
        var magnitude: int := n;
        var value := if negative then -magnitude else magnitude;
        if -0x8000_0000 <= value < 0x8000_0000 then Some(value) else None
  }

  /** `str::parse::<u32>`. */
  function ParseU32(s: string): Option<nat> {
    var digits := if s != "" && s[0] == '+' then s[1..] else s;
    if digits == "" then None
    else match Decimal(digits)
      case None => None
      case Some(n) => if n < 0x1_0000_0000 then Some(n) else None
  }

  // Facts.

  lemma TrimOfTrimmed(s: string)
    requires s != "" && !IsWhitespace(s[0]) && !IsWhitespace(s[|s| - 1])
    ensures Trim(s) == s
  {
  }

  lemma {:induction false} AfterShort(s: string, marker: string)
    requires |s| < |marker|
    ensures After(s, marker) == None
  {
  }

  lemma {:induction false} DecimalDigits(s: string)
    ensures Decimal(s).Some? <==> forall i | 0 <= i < |s| :: IsDigit(s[i])
  {
    if s != "" {
      DecimalDigits(s[..|s| - 1]);
      assert forall i | 0 <= i < |s| :: i == |s| - 1 || s[i] == s[..|s| - 1][i];
    }
  }

  lemma NumeralsAreWords(s: string)
    ensures ParseI32(s).Some? || ParseU32(s).Some? ==> IsWord(s)
  {
    DecimalDigits(s);
    if s != "" {
      DecimalDigits(s[1..]);
      assert forall i | 1 <= i < |s| :: s[i] == s[1..][i - 1];
    }
  }

  lemma {:induction false} WordLengthOfWord(word: string, rest: string)
    requires forall i | 0 <= i < |word| :: !IsWhitespace(word[i])
    requires rest == "" || IsWhitespace(rest[0])
    ensures WordLength(word + rest) == |word|
  {
    if word == "" {
      assert word + rest == rest;
    } else {
      assert (word + rest)[1..] == word[1..] + rest;
      assert forall i | 0 <= i < |word[1..]| :: word[1..][i] == word[i + 1];
      WordLengthOfWord(word[1..], rest);
    }
  }

  /** Splitting undoes joining, for words. */
  lemma {:induction false} SplitOfJoin(words: seq<string>)
    requires forall i | 0 <= i < |words| :: IsWord(words[i])
    ensures SplitWhitespace(Join(words)) == words
  {
    if words != [] {
      var word, joined := words[0], Join(words);
      var rest := if |words| == 1 then "" else " " + Join(words[1..]);
      assert joined == word + rest;
      WordLengthOfWord(word, rest);
      assert joined[..|word|] == word && joined[|word|..] == rest;
      if |words| == 1 {
        assert SplitWhitespace(rest) == [];
      } else {
        assert rest[1..] == Join(words[1..]);
        SplitOfJoin(words[1..]);
      }
    }
  }

  lemma {:induction false} SplitOfField(key: string, value: string)
    requires forall i | 0 <= i < |key| :: key[i] != '='
    ensures SplitField(key + "=" + value) == Some((key, value))
  {
    var s := key + "=" + value;
    if key == "" {
      assert s[1..] == value;
    } else {
      assert s[1..] == key[1..] + "=" + value;
      assert forall i | 0 <= i < |key[1..]| :: key[1..][i] == key[i + 1];
      SplitOfField(key[1..], value);
      assert s[0] == key[0] && [key[0]] + key[1..] == key;
    }
  }

  lemma {:induction false} LineLengthOfLine(line: string, rest: string)
    requires forall i | 0 <= i < |line| :: line[i] != '\n'
    ensures LineLength(line + "\n" + rest) == |line|
  {
    var s := line + "\n" + rest;
    if line != "" {
      assert s[1..] == line[1..] + "\n" + rest;
      assert forall i | 0 <= i < |line[1..]| :: line[1..][i] == line[i + 1];
      LineLengthOfLine(line[1..], rest);
    }
  }

  predicate IsLine(s: string) {
    (forall i | 0 <= i < |s| :: s[i] != '\n') && (s == "" || s[|s| - 1] != '\r')
  }

  /** Cutting into lines undoes ending lines. */
  lemma {:induction false} LinesOfUnlines(lines: seq<string>)
    requires forall i | 0 <= i < |lines| :: IsLine(lines[i])
    ensures Lines(Unlines(lines)) == lines
  {
    if lines != [] {
      var line, rest := lines[0], Unlines(lines[1..]);
      var s := line + "\n" + rest;
      LineLengthOfLine(line, rest);
      assert s[..|line|] == line && s[|line| + 1..] == rest;
      LinesOfUnlines(lines[1..]);
    }
  }

  lemma {:induction false} UnlinesAppend(a: seq<string>, b: seq<string>)
    ensures Unlines(a + b) == Unlines(a) + Unlines(b)
  {
    if a == [] {
      assert a + b == b;
    } else {
      assert (a + b)[1..] == a[1..] + b;
      UnlinesAppend(a[1..], b);
    }
  }
}
