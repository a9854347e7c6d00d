/**
 * The Python 2 string operations the statistics parser relies on, on byte strings:
 * `str.splitlines()`, `str.split()` with no separator, `str.startswith` and `int()`.
 */
module Text {
  import opened Errors

  /** Line boundaries of `str.splitlines()` on a Python 2 byte string. */
  const LineBreaks: set<char> := {'\n', '\r'}

  /** Whitespace of `str.split()` on a Python 2 byte string. */
  const Whitespace: set<char> := {' ', '\t', '\n', '\r', '\U{0B}', '\U{0C}'}

  predicate NoneOf(s: string, stops: set<char>) {
    forall i | 0 <= i < |s| :: s[i] !in stops
  }

  /** The index of the first character of `s` in `stops`, or `|s|` when there is none. */
  function Find(s: string, stops: set<char>): (k: nat)
    ensures k <= |s|
    ensures forall j | 0 <= j < k :: s[j] !in stops
    ensures k < |s| ==> s[k] in stops
  {
    if s == [] || s[0] in stops then 0 else 1 + Find(s[1..], stops)
  }

  lemma FindStopsAt(p: string, t: string, stops: set<char>)
    requires NoneOf(p, stops)
    requires t == [] || t[0] in stops
    ensures Find(p + t, stops) == |p|
  {
    var s := p + t;
    assert forall j | 0 <= j < |p| :: s[j] == p[j];
    assert |p| < |s| ==> s[|p|] == t[0];
  }

  // ---------------------------------------------------------------------------
  // str.splitlines()
  // ---------------------------------------------------------------------------

  /** The length of the line boundary starting at `s[k]`: two for "\r\n", one otherwise. */
  function BreakLength(s: string, k: nat): nat
    requires k < |s|
  {
    if s[k] == '\r' && k + 1 < |s| && s[k + 1] == '\n' then 2 else 1
  }

  /**
   * `s.splitlines()`: the lines of `s` without their boundaries; a final boundary
   * does not open an empty last line, and the empty string has no lines.
   */
  function SplitLines(s: string): (lines: seq<string>)
    ensures forall i | 0 <= i < |lines| :: NoneOf(lines[i], LineBreaks)
    ensures s != [] <==> lines != []
    decreases |s|
  {
    if s == [] then []
    else
      var k := Find(s, LineBreaks);
      if k == |s| then [s]
      else [s[..k]] + SplitLines(s[k + BreakLength(s, k)..])
  }

  /** The text of a file made of `lines`, each ended by a newline. */
  function Terminated(lines: seq<string>): string {
    if lines == [] then [] else lines[0] + "\n" + Terminated(lines[1..])
  }

  lemma {:induction false} SplitTerminated(lines: seq<string>)
    requires forall i | 0 <= i < |lines| :: NoneOf(lines[i], LineBreaks)
    ensures SplitLines(Terminated(lines)) == lines
  {
    if lines != [] {
      var rest := Terminated(lines[1..]);
      var s := Terminated(lines);
      assert s == lines[0] + ("\n" + rest);
      FindStopsAt(lines[0], "\n" + rest, LineBreaks);
      var k := |lines[0]|;
      assert s[k] == '\n';
      assert s[..k] == lines[0];
      assert s[k + 1..] == rest;
      SplitTerminated(lines[1..]);
    }
  }

  // ---------------------------------------------------------------------------
  // str.split()
  // ---------------------------------------------------------------------------

  /** `s.split()`: the maximal runs of non-whitespace characters of `s`, in order. */
  function Split(s: string): (tokens: seq<string>)
    ensures forall i | 0 <= i < |tokens| :: tokens[i] != [] && NoneOf(tokens[i], Whitespace)
    decreases |s|
  {
    if s == [] then []
    else if s[0] in Whitespace then Split(s[1..])
    else
      var k := Find(s, Whitespace);
      [s[..k]] + Split(s[k..])
  }

  predicate IsToken(t: string) {
    t != [] && NoneOf(t, Whitespace)
  }

  /** A run of whitespace characters, possibly empty. */
  predicate Blank(w: string) {
    forall i | 0 <= i < |w| :: w[i] in Whitespace
  }

  /** Leading whitespace opens no field. */
  lemma {:induction false} SplitSkipsBlank(w: string, s: string)
    requires Blank(w)
    ensures Split(w + s) == Split(s)
    decreases |w|
  {
    if w != [] {
      assert (w + s)[0] == w[0] && w[0] in Whitespace;
      assert (w + s)[1..] == w[1..] + s;
      assert Split(w + s) == Split(w[1..] + s);
      SplitSkipsBlank(w[1..], s);
    } else {
      assert w + s == s;
    }
  }

  /** Each token followed by its own gap: `tokens[0] + gaps[0] + tokens[1] + gaps[1] + ...`. */
  function Separated(tokens: seq<string>, gaps: seq<string>): string
    requires |gaps| == |tokens|
  {
    if tokens == [] then [] else tokens[0] + gaps[0] + Separated(tokens[1..], gaps[1..])
  }

  /** `gaps` are whitespace runs, one after each token, and none is empty except the last. */
  predicate Gaps(tokens: seq<string>, gaps: seq<string>) {
    |gaps| == |tokens| &&
    forall i | 0 <= i < |gaps| :: Blank(gaps[i]) && (gaps[i] == [] ==> i == |gaps| - 1)
  }

  /**
   * `str.split()` recovers the fields of a line however wide the whitespace between them:
   * tokens separated by non-empty whitespace runs, with any whitespace before the first
   * and after the last, split back into exactly those tokens.
   */
  lemma {:induction false} SplitSeparated(lead: string, tokens: seq<string>, gaps: seq<string>)
    requires Blank(lead)
    requires forall i | 0 <= i < |tokens| :: IsToken(tokens[i])
    requires Gaps(tokens, gaps)
    ensures Split(lead + Separated(tokens, gaps)) == tokens
    decreases |tokens|
  {
    SplitSkipsBlank(lead, Separated(tokens, gaps));
    if tokens != [] {
      var t := tokens[0];
      var rest := Separated(tokens[1..], gaps[1..]);
      var tail := gaps[0] + rest;
      var s := Separated(tokens, gaps);
      assert s == t + tail;
      if gaps[0] == [] {
        assert tokens[1..] == [];
        assert tail == [];
      }
      FindStopsAt(t, tail, Whitespace);
      assert s[..|t|] == t;
      assert s[|t|..] == tail;
      assert s[0] == t[0];
      SplitSkipsBlank(gaps[0], rest);
      assert [] + rest == rest;
      SplitSeparated([], tokens[1..], gaps[1..]);
    }
  }

  /** Tokens and gaps without a line boundary make a single line. */
  lemma {:induction false} SeparatedHasNoBreak(tokens: seq<string>, gaps: seq<string>)
    requires |gaps| == |tokens|
    requires forall i | 0 <= i < |tokens| :: NoneOf(tokens[i], LineBreaks) && NoneOf(gaps[i], LineBreaks)
    ensures NoneOf(Separated(tokens, gaps), LineBreaks)
  {
    if tokens != [] {
      SeparatedHasNoBreak(tokens[1..], gaps[1..]);
      var t, g, rest := tokens[0], gaps[0], Separated(tokens[1..], gaps[1..]);
      var s := Separated(tokens, gaps);
      assert s == t + g + rest;
      forall i | 0 <= i < |s| ensures s[i] !in LineBreaks {
        if i < |t| {
          assert s[i] == t[i];
        } else if i < |t| + |g| {
          assert s[i] == g[i - |t|];
        } else {
          assert s[i] == rest[i - |t| - |g|];
        }
      }
    }
  }

  // ---------------------------------------------------------------------------
  // str.startswith
  // ---------------------------------------------------------------------------

  predicate StartsWith(s: string, prefix: string) {
    |prefix| <= |s| && s[..|prefix|] == prefix
  }

  // ---------------------------------------------------------------------------
  // int()
  // ---------------------------------------------------------------------------

  predicate IsDigit(c: char) {
    '0' <= c <= '9'
  }

  predicate AllDigits(s: string) {
    forall i | 0 <= i < |s| :: IsDigit(s[i])
  }

  /** The value of a string of decimal digits, most significant first. */
  function DigitsValue(s: string): nat
    requires AllDigits(s)
  {
    if s == [] then 0
    else DigitsValue(s[..|s| - 1]) * 10 + (s[|s| - 1] as int - '0' as int)
  }

  /** The digits after an optional leading sign. */
  function Magnitude(t: string): string {
    if t != [] && (t[0] == '+' || t[0] == '-') then t[1..] else t
  }

  /** What `int()` accepts from a field with no whitespace: an optional sign and one or more digits. */
  predicate IsIntLiteral(t: string) {
    Magnitude(t) != [] && AllDigits(Magnitude(t))
  }

  /** `int(t)` in base ten: `Some` of the value, or `None` where Python raises ValueError. */
  function ParseInt(t: string): Option<int> {
    if !IsIntLiteral(t) then None
    else if t[0] == '-' then Some(-(DigitsValue(Magnitude(t)) as int))
    else Some(DigitsValue(Magnitude(t)))
  }

  /** The decimal digits of `n` without leading zeros. */
  function Digits(n: nat): (s: string)
    ensures s != [] && AllDigits(s)
  {
    if n < 10 then ['0' + n as char] else Digits(n / 10) + ['0' + (n % 10) as char]
  }

  /** `str(n)`: the decimal form of `n`, with a minus sign when it is negative. */
  function Decimal(n: int): string {
    if n < 0 then "-" + Digits(-n) else Digits(n)
  }

  lemma {:induction false} DigitsValueOfDigits(n: nat)
    ensures DigitsValue(Digits(n)) == n
  {
    if n >= 10 {
      var s := Digits(n);
      assert s[..|s| - 1] == Digits(n / 10);
      DigitsValueOfDigits(n / 10);
    }
  }

  /** `int(str(n)) == n` for every integer. */
  lemma ParseDecimal(n: int)
    ensures ParseInt(Decimal(n)) == Some(n)
  {
    if n < 0 {
      assert Magnitude(Decimal(n)) == Digits(-n);
      DigitsValueOfDigits(-n);
    } else {
      assert Magnitude(Decimal(n)) == Digits(n);
      DigitsValueOfDigits(n);
    }
  }

  /** A field with a character that is neither a digit nor a leading sign is refused. */
  lemma ParseIntRejects(t: string, i: nat)
    requires i < |t| && !IsDigit(t[i])
    requires i > 0 || (t[i] != '+' && t[i] != '-')
    ensures ParseInt(t) == None
  {
  }
}
