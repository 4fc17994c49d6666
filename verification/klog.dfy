/** klog.c: the circular log buffer refines an unbounded log of lines. */
module Klog {
  const KLOG_LINES: nat := 64
  const KLOG_LINE_SIZE: nat := 42

  const INT_MIN: int := -0x8000_0000
  type Int32 = x: int | -0x8000_0000 <= x < 0x8000_0000
  type Word32 = x: int | 0 <= x < 0x1_0000_0000

  // ---------------------------------------------------------------- the unbounded log

  /** The finished lines, and the one being written. */
  datatype Log = Log(lines: seq<string>, cur: string)

  function NewLine(log: Log): Log {
    Log(log.lines + [log.cur], "")
  }

  /** A character ends its line when it fills it. */
  function Put(log: Log, c: char): Log {
    var log' := log.(cur := log.cur + [c]);
    if |log'.cur| >= KLOG_LINE_SIZE then NewLine(log') else log'
  }

  function PutChar(log: Log, c: char): Log {
    if c == '\n' then NewLine(log) else Put(log, c)
  }

  function Written(log: Log, s: string): Log {
    if s == "" then log else PutChar(Written(log, s[..|s| - 1]), s[|s| - 1])
  }

  /** Line k, counting from 0; the last one is the one being written. */
  function Line(log: Log, k: nat): string
    requires k <= |log.lines|
  {
    if k < |log.lines| then log.lines[k] else log.cur
  }

  lemma {:induction false} WrittenTwice(log: Log, s: string, t: string)
    ensures Written(Written(log, s), t) == Written(log, s + t)
  {
    if t == "" {
      assert s + t == s;
    } else {
      WrittenTwice(log, s, t[..|t| - 1]);
      assert (s + t)[..|s + t| - 1] == s + t[..|t| - 1];
    }
  }

  function Joined(lines: seq<string>): string {
    if lines == [] then "" else Joined(lines[..|lines| - 1]) + lines[|lines| - 1]
  }

  /** Every character of the log, in order, without the line ends. */
  function Characters(log: Log): string {
    Joined(log.lines) + log.cur
  }

  function WithoutNewlines(s: string): string {
    if s == "" then "" else
      WithoutNewlines(s[..|s| - 1]) + (if s[|s| - 1] == '\n' then "" else [s[|s| - 1]])
  }

  /** Wrapping loses no character, adds none and reorders none. */
  lemma {:induction false} WritingKeepsCharacters(log: Log, s: string)
    ensures Characters(Written(log, s)) == Characters(log) + WithoutNewlines(s)
  {
    if s != "" {
      WritingKeepsCharacters(log, s[..|s| - 1]);
      var before := Written(log, s[..|s| - 1]);
      var c := s[|s| - 1];
      var line := if c == '\n' then before.cur else before.cur + [c];
      assert (before.lines + [line])[..|before.lines|] == before.lines;
      var tail := if c == '\n' then "" else [c];
      assert Characters(PutChar(before, c)) == Joined(before.lines) + line == Characters(before) + tail;
      assert Characters(log) + (WithoutNewlines(s[..|s| - 1]) + tail)
          == (Characters(log) + WithoutNewlines(s[..|s| - 1])) + tail;
    }
  }

  // ---------------------------------------------------------------- what the lines are

  /** s split at its line ends. */
  function Segments(s: string): (r: seq<string>)
    ensures r != []
  {
    if s == "" then [""]
    else
      var r := Segments(s[1..]);
      if s[0] == '\n' then [""] + r else [[s[0]] + r[0]] + r[1..]
  }

  /** A text without line ends, cut into rows; the last one has room left. */
  function Chunks(t: string): (r: seq<string>)
    ensures r != []
  {
    if |t| < KLOG_LINE_SIZE then [t] else [t[..KLOG_LINE_SIZE]] + Chunks(t[KLOG_LINE_SIZE..])
  }

  /** Each segment starts on a row of its own. */
  function Rows(segments: seq<string>): (r: seq<string>)
    ensures segments != [] ==> r != []
  {
    if segments == [] then [] else Rows(segments[..|segments| - 1]) + Chunks(segments[|segments| - 1])
  }

  /** Every line of the log, the one being written last. */
  function AllLines(log: Log): seq<string> {
    log.lines + [log.cur]
  }

  function JoinedByNewlines(segments: seq<string>): string
    requires segments != []
  {
    if |segments| == 1 then segments[0] else segments[0] + ['\n'] + JoinedByNewlines(segments[1..])
  }

  /** The segments are the split: none contains a line end, and joined by line ends they are s. */
  lemma {:induction false} SegmentsAreTheSplit(s: string)
    ensures forall j :: 0 <= j < |Segments(s)| ==> '\n' !in Segments(s)[j]
    ensures JoinedByNewlines(Segments(s)) == s
  {
    if s != "" {
      var r := Segments(s[1..]);
      SegmentsAreTheSplit(s[1..]);
      assert s == [s[0]] + s[1..];
      if s[0] == '\n' {
        assert ([""] + r)[1..] == r;
      } else {
        assert ([[s[0]] + r[0]] + r[1..])[1..] == r[1..];
        if |r| > 1 {
          var tail := ['\n'] + JoinedByNewlines(r[1..]);
          assert [s[0]] + (r[0] + tail) == ([s[0]] + r[0]) + tail;
          assert JoinedByNewlines(r) == r[0] + tail;
        }
      }
    }
  }

  /** The last segment grows by a character, or a new one begins. */
  ghost predicate Grown(r: seq<string>, r': seq<string>, c: char)
    requires r != []
  {
    var last := |r| - 1;
    r' == if c == '\n' then r + [""] else r[..last] + [r[last] + [c]]
  }

  lemma {:induction false} SegmentsGrow(s: string, c: char)
    ensures Grown(Segments(s), Segments(s + [c]), c)
  {
    if s == "" {
      assert s + [c] == [c] && [c][1..] == "";
      assert [c] + "" == "" + [c];
    } else {
      assert (s + [c])[1..] == s[1..] + [c];
      SegmentsGrow(s[1..], c);
      HeadGrown(s[0], Segments(s[1..]), Segments(s[1..] + [c]), c);
    }
  }

  lemma HeadGrown(x: char, r: seq<string>, r': seq<string>, c: char)
    requires r != [] && r' != [] && Grown(r, r', c)
    ensures Grown([""] + r, [""] + r', c)
    ensures Grown([[x] + r[0]] + r[1..], [[x] + r'[0]] + r'[1..], c)
  {
    if c != '\n' && |r| == 1 {
      assert [x] + (r[0] + [c]) == [x] + r[0] + [c];
    }
  }

  /** The last row grows by a character; when that fills it a new one begins. */
  lemma {:induction false} ChunksGrow(t: string, c: char)
    ensures var r := Chunks(t); var last := r[|r| - 1] + [c];
      |last| <= KLOG_LINE_SIZE
      && Chunks(t + [c]) == r[..|r| - 1] + if |last| == KLOG_LINE_SIZE then [last, ""] else [last]
  {
    if |t| < KLOG_LINE_SIZE {
      assert (t + [c])[..|t| + 1] == t + [c] && (t + [c])[|t| + 1..] == "";
    } else {
      assert (t + [c])[KLOG_LINE_SIZE..] == t[KLOG_LINE_SIZE..] + [c];
      assert (t + [c])[..KLOG_LINE_SIZE] == t[..KLOG_LINE_SIZE];
      ChunksGrow(t[KLOG_LINE_SIZE..], c);
    }
  }

  /** One more character, on the rows. */
  lemma RowsGrow(log: Log, lines: seq<string>, s: string, c: char)
    requires AllLines(log) == lines + Rows(Segments(s))
    ensures AllLines(PutChar(log, c)) == lines + Rows(Segments(s + [c]))
  {
    hide Segments, Chunks, Rows;
    var segments := Segments(s);
    var init, last := segments[..|segments| - 1], segments[|segments| - 1];
    assert init + [last] == segments;
    SegmentsGrow(s, c);
    RowsLast(init, last);
    if c == '\n' {
      RowsLast(segments, "");
      NoChunks();
      assert AllLines(PutChar(log, c)) == AllLines(log) + [""];
    } else {
      RowsLast(init, last + [c]);
      ChunksGrow(last, c);
      LastRowGrows(log, lines + Rows(init), Chunks(last), c);
    }
  }

  lemma RowsLast(init: seq<string>, last: string)
    ensures Rows(init + [last]) == Rows(init) + Chunks(last)
  {
    assert (init + [last])[..|init|] == init;
  }

  lemma LastRowGrows(log: Log, above: seq<string>, r: seq<string>, c: char)
    requires r != [] && AllLines(log) == above + r && |r[|r| - 1]| < KLOG_LINE_SIZE && c != '\n'
    ensures var last := r[|r| - 1] + [c];
      AllLines(PutChar(log, c)) == above + (r[..|r| - 1] + if |last| == KLOG_LINE_SIZE then [last, ""] else [last])
  {
    assert AllLines(log) == (above + r[..|r| - 1]) + [r[|r| - 1]];
    SameEnds(log.lines, log.cur, above + r[..|r| - 1], r[|r| - 1]);
  }

  lemma SameEnds(a: seq<string>, x: string, b: seq<string>, y: string)
    requires a + [x] == b + [y]
    ensures a == b && x == y
  {
    assert |a + [x]| == |b + [y]|;
    assert (a + [x])[..|a|] == a && (b + [y])[..|a|] == b && (a + [x])[|a|] == (b + [y])[|b|];
  }

  lemma NoChunks()
    ensures Chunks("") == [""]
  {
  }

  /** The lines after writing s are those before, and then the rows of each segment of s, the first of
    * which continues the line being written. */
  lemma {:induction false} LinesAreChunksOfSegments(log: Log, s: string)
    requires |log.cur| < KLOG_LINE_SIZE && '\n' !in log.cur
    ensures AllLines(Written(log, s)) == log.lines + Rows(Segments(log.cur + s))
    ensures log == Log([], "") ==> Written(log, s).lines + [Written(log, s).cur] == Rows(Segments(s))
  {
    hide Rows, Segments;
    if s == "" {
      OneSegment(log.cur);
      assert log.cur + s == log.cur;
    } else {
      var before, c := s[..|s| - 1], s[|s| - 1];
      LinesAreChunksOfSegments(log, before);
      RowsGrow(Written(log, before), log.lines, log.cur + before, c);
      assert log.cur + s == log.cur + before + [c];
    }
    assert "" + s == s;
  }

  lemma {:induction false} OneSegment(t: string)
    requires '\n' !in t
    ensures Segments(t) == [t]
    ensures |t| < KLOG_LINE_SIZE ==> Rows(Segments(t)) == [t]
  {
    if t != "" {
      assert t == [t[0]] + t[1..];
      OneSegment(t[1..]);
    }
    assert [t][..0] == [];
  }

  /** No line is longer than a row, and the line being written is shorter and without line ends. */
  ghost predicate Fits(log: Log) {
    && |log.cur| < KLOG_LINE_SIZE && '\n' !in log.cur
    && forall k :: 0 <= k < |log.lines| ==> |log.lines[k]| <= KLOG_LINE_SIZE
  }

  lemma {:induction false} WritingFits(log: Log, s: string)
    requires Fits(log)
    ensures Fits(Written(log, s))
    ensures log.lines <= Written(log, s).lines
  {
    if s != "" {
      WritingFits(log, s[..|s| - 1]);
    }
  }

  // ---------------------------------------------------------------- numerals

  const DIGITS: string := "0123456789ABCDEF"

  ghost predicate Base(base: nat) {
    2 <= base <= |DIGITS|
  }

  function Shifted(n: nat, base: nat): (q: nat)
    requires Base(base)
    ensures n > 0 ==> q < n
  {
    assert n > 0 ==> n / base < n by {
      if n > 0 {
        QuotientBelow(n, base, n);
      }
    }
    n / base
  }

  function LastDigit(n: nat, base: nat): (d: nat)
    requires Base(base)
    ensures d < base && n == Shifted(n, base) * base + d
  {
    n % base
  }

  /** The digits of n, none for 0. */
  function Digits(n: nat, base: nat): (s: string)
    requires Base(base)
    ensures n > 0 <==> s != ""
    ensures n > 0 ==> s[0] != '0'
    ensures forall j :: 0 <= j < |s| ==> s[j] in DIGITS[..base]
  {
    hide Shifted, LastDigit;
    if n == 0 then "" else
      var c := DIGITS[LastDigit(n, base)];
      assert c in DIGITS[..base] && (LastDigit(n, base) > 0 ==> c != '0') by {
        assert DIGITS[..base][LastDigit(n, base)] == c;
      }
      Digits(Shifted(n, base), base) + [c]
  }

  /** The value of a digit string, read independently of how it was made. */
  function Value(s: string, base: nat): nat {
    if s == "" then 0 else Value(s[..|s| - 1], base) * base + DigitValue(s[|s| - 1])
  }

  function DigitValue(c: char): nat {
    if '0' <= c <= '9' then c as nat - '0' as nat
    else if 'A' <= c <= 'F' then c as nat - 'A' as nat + 10 else 0
  }

  function Pow(base: nat, k: nat): nat {
    if k == 0 then 1 else base * Pow(base, k - 1)
  }

  lemma {:induction false} DigitsReadBack(n: nat, base: nat)
    requires Base(base)
    ensures Value(Digits(n, base), base) == n
  {
    hide Shifted, LastDigit;
    if n > 0 {
      DigitsReadBack(Shifted(n, base), base);
      var s := Digits(n, base);
      assert s[..|s| - 1] == Digits(Shifted(n, base), base);
      DigitHasItsValue(LastDigit(n, base));
    }
  }

  lemma DigitHasItsValue(d: nat)
    requires d < |DIGITS|
    ensures DigitValue(DIGITS[d]) == d
  {
  }

  lemma {:induction false} DigitsFit(n: nat, base: nat, k: nat)
    requires Base(base) && n < Pow(base, k)
    ensures |Digits(n, base)| <= k
  {
    hide LastDigit, Shifted;
    if n > 0 {
      assert k > 0;
      ShiftedBelow(n, base, Pow(base, k - 1));
      DigitsFit(Shifted(n, base), base, k - 1);
    }
  }

  lemma ShiftedBelow(n: nat, base: nat, m: nat)
    requires Base(base) && n < base * m
    ensures Shifted(n, base) < m
  {
    QuotientBelow(n, base, m);
  }

  lemma QuotientBelow(n: nat, base: nat, m: nat)
    requires base > 0 && n < base * m
    ensures n / base < m
  {
    var q := n / base;
    assert base * q <= n < base * m;
    assert q >= m ==> base * q >= base * m;
  }

  lemma ScratchSuffices()
    ensures Pow(10, 10) == 10_000_000_000 && Pow(16, 8) == 0x1_0000_0000
  {
    assert Pow(10, 5) == 100_000;
    assert Pow(16, 4) == 0x1_0000;
  }

  /** Negation of an int; the most negative one is its own negation. */
  function Negated(num: Int32): Int32 {
    if num == INT_MIN then INT_MIN else -num
  }

  /** What klog_print_dec writes. */
  function DecimalText(num: Int32): string {
    if num == 0 then "0"
    else if num > 0 then Digits(num, 10)
    else "-" + (if Negated(num) > 0 then Digits(Negated(num), 10) else "")
  }

  /** What klog_print_hex writes. */
  function HexText(num: Word32): string {
    if num == 0 then "0" else "0x" + Digits(num, 16)
  }

  /** A decimal numeral: 0, or an optional sign and digits of which the first is not 0. */
  ghost predicate CanonicalDecimal(s: string) {
    s == "0" || CanonicalDigits(s, 10) || (s != "" && s[0] == '-' && CanonicalDigits(s[1..], 10))
  }

  ghost predicate CanonicalDigits(s: string, base: nat)
    requires Base(base)
  {
    s != "" && s[0] != '0' && forall j :: 0 <= j < |s| ==> s[j] in DIGITS[..base]
  }

  function ReadDecimal(s: string): int {
    if s != "" && s[0] == '-' then -(Value(s[1..], 10) as int) else Value(s, 10)
  }

  /** klog_print_dec writes the canonical numeral of its argument, except for the least int. */
  lemma DecimalIsCanonicalExceptMinimum(num: Int32)
    ensures CanonicalDecimal(DecimalText(num)) && ReadDecimal(DecimalText(num)) == num <==> num != INT_MIN
  {
    hide Digits, Value;
    if num == 0 {
      ZeroReadsBack();
    } else if num > 0 {
      DigitsAreCanonical(num);
    } else if num != INT_MIN {
      DigitsAreCanonical(-num);
      assert DecimalText(num)[1..] == Digits(-num, 10);
    }
  }

  lemma ZeroReadsBack()
    ensures Value("0", 10) == 0
  {
    assert "0"[..0] == "";
  }

  lemma DigitsAreCanonical(n: nat)
    requires n > 0
    ensures CanonicalDigits(Digits(n, 10), 10) && Value(Digits(n, 10), 10) == n && Digits(n, 10)[0] != '-'
  {
    hide LastDigit, Shifted;
    DigitsReadBack(n, 10);
    assert Digits(n, 10)[0] in DIGITS[..10];
  }

  /** klog_print_hex writes the canonical numeral of every word. */
  lemma HexIsCanonical(num: Word32)
    ensures num == 0 <==> HexText(num) == "0"
    ensures num > 0 ==> HexText(num)[..2] == "0x" && CanonicalDigits(HexText(num)[2..], 16)
    ensures num > 0 ==> Value(HexText(num)[2..], 16) == num
    ensures |HexText(num)| <= 10
  {
    if num > 0 {
      DigitsReadBack(num, 16);
      ScratchSuffices();
      DigitsFit(num, 16, 8);
      assert HexText(num)[2..] == Digits(num, 16);
    }
  }

  /** The string a NUL-terminated pointer stands for. */
  function Text(memory: seq<char>): (s: string)
    requires '\0' in memory
    ensures |s| < |memory| && s == memory[..|s|] && memory[|s|] == '\0' && '\0' !in s
  {
    if memory[0] == '\0' then "" else [memory[0]] + Text(memory[1..])
  }

  // ---------------------------------------------------------------- the buffer

  /** What row k % 64 shows of line k: the line, padded with spaces, or for the very first line with
    * the zeros the buffer is loaded with. */
  function Cell(log: Log, k: nat, c: nat): char
    requires k <= |log.lines|
  {
    if c < |Line(log, k)| then Line(log, k)[c] else if k == 0 then '\0' else ' '
  }

  function RowOf(k: nat): nat {
    k % KLOG_LINES
  }

  lemma DifferentRows(j: nat, k: nat)
    requires j < k < j + KLOG_LINES
    ensures RowOf(j) != RowOf(k)
  {
  }

  class Buffer {
    var lineIndex: nat               // klog_line_index
    var charIndex: nat               // klog_char_index
    const cells: array2<char>        // klog_buffer
    ghost var log: Log

    ghost predicate ShowsLine(log: Log, k: nat)
      requires k <= |log.lines| && cells.Length0 == KLOG_LINES && cells.Length1 == KLOG_LINE_SIZE
      reads cells
    {
      forall c: nat :: c < KLOG_LINE_SIZE ==> cells[RowOf(k), c] == Cell(log, k, c)
    }

    /** The rows hold the last 64 lines, line k in row k mod 64; rows not reached yet hold zeros. */
    ghost predicate Shows()
      reads `log, cells
    {
      && cells.Length0 == KLOG_LINES && cells.Length1 == KLOG_LINE_SIZE
      && (forall k: nat :: k <= |log.lines| < k + KLOG_LINES ==> ShowsLine(log, k))
      && (forall r: nat, c: nat :: |log.lines| < r < KLOG_LINES && c < KLOG_LINE_SIZE ==> cells[r, c] == '\0')
    }

    ghost predicate Valid()
      reads this, cells
    {
      && Shows()
      && Fits(log)
      && lineIndex == RowOf(|log.lines|)
      && charIndex == |log.cur|
    }

    constructor ()
      ensures Valid() && fresh(cells) && log == Log([], "")
    {
      cells := new char[KLOG_LINES, KLOG_LINE_SIZE]((i, j) => '\0');
      lineIndex, charIndex := 0, 0;
      log := Log([], "");
    }

    /** next_line: the row after this one becomes a line of spaces. */
    method NextLine()
      requires Shows() && lineIndex == RowOf(|log.lines|)
      requires |log.cur| <= KLOG_LINE_SIZE && forall k :: 0 <= k < |log.lines| ==> |log.lines[k]| <= KLOG_LINE_SIZE
      modifies this, cells
      ensures Valid() && log == NewLine(old(log))
      ensures lineIndex == (old(lineIndex) + 1) % KLOG_LINES && charIndex == 0
      ensures forall r, c :: 0 <= r < KLOG_LINES && 0 <= c < KLOG_LINE_SIZE ==>
        cells[r, c] == if r == lineIndex then ' ' else old(cells[r, c])
    {
      lineIndex := (lineIndex + 1) % KLOG_LINES;
      charIndex := 0;
      ghost var n := |log.lines|;
      assert lineIndex == RowOf(n + 1);
      for i := 0 to KLOG_LINE_SIZE
        invariant forall c :: 0 <= c < i ==> cells[lineIndex, c] == ' '
        invariant forall r, c :: 0 <= r < KLOG_LINES && 0 <= c < KLOG_LINE_SIZE && r != lineIndex ==>
          cells[r, c] == old(cells[r, c])
        modifies cells
      {
        cells[lineIndex, i] := ' ';
      }
      log := NewLine(log);
      forall k: nat | k <= n + 1 < k + KLOG_LINES ensures ShowsLine(log, k) {
        if k <= n {
          DifferentRows(k, n + 1);
          assert old(ShowsLine(log, k));
        }
      }
    }

    /** next_char, after a character was stored at the cursor. */
    method NextChar()
      requires Shows() && lineIndex == RowOf(|log.lines|) && charIndex + 1 == |log.cur| <= KLOG_LINE_SIZE
      requires '\n' !in log.cur
      requires forall k :: 0 <= k < |log.lines| ==> |log.lines[k]| <= KLOG_LINE_SIZE
      modifies this, cells
      ensures Valid()
      ensures log == if |old(log).cur| >= KLOG_LINE_SIZE then NewLine(old(log)) else old(log)
    {
      charIndex := charIndex + 1;
      if charIndex >= KLOG_LINE_SIZE {
        charIndex := 0;
        NextLine();
      }
    }

    /** klog_buffer[line][char] = c; next_char() */
    method StoreChar(c: char)
      requires Valid() && c != '\n'
      modifies this, cells
      ensures Valid() && log == Put(old(log), c)
    {
      ghost var n := |log.lines|;
      cells[lineIndex, charIndex] := c;
      log := log.(cur := log.cur + [c]);
      forall k: nat | k <= n < k + KLOG_LINES ensures ShowsLine(log, k) {
        assert old(ShowsLine(log, k));
        if k < n {
          DifferentRows(k, n);
        }
      }
      NextChar();
    }

    /** klog_print */
    method Print(str: seq<char>)
      requires Valid() && '\0' in str
      modifies this, cells
      ensures Valid() && log == Written(old(log), Text(str))
      ensures AllLines(log) == old(log).lines + Rows(Segments(old(log).cur + Text(str)))
    {
      ghost var text := Text(str);
      var p := 0;
      while str[p] != '\0'
        invariant 0 <= p <= |text|
        invariant Valid() && log == Written(old(log), text[..p])
        decreases |text| - p
      {
        assert text[..p + 1][..p] == text[..p];
        if str[p] == '\n' {
          NextLine();
        } else {
          StoreChar(str[p]);
        }
        p := p + 1;
      }
      assert p == |text| && text[..p] == text;
      LinesAreChunksOfSegments(old(log), text);
    }

    /** The loop that takes the digits of num, the last one first. */
    method TakeDigits(scratch: array<char>, num: nat, base: nat) returns (i: nat)
      requires Base(base) && |Digits(num, base)| <= scratch.Length
      modifies scratch
      ensures i == |Digits(num, base)|
      ensures forall j :: 0 <= j < i ==> scratch[j] == Digits(num, base)[i - 1 - j]
    {
      hide Shifted, LastDigit;
      ghost var all := Digits(num, base);
      var rest: nat := num;
      i := 0;
      while rest > 0
        invariant i <= |all| && all[..|all| - i] == Digits(rest, base)
        invariant forall j :: 0 <= j < i ==> scratch[j] == all[|all| - 1 - j]
        decreases rest
      {
        ghost var s := Digits(rest, base);
        assert s[..|s| - 1] == Digits(Shifted(rest, base), base);
        assert all[..|all| - i - 1] == s[..|s| - 1];
        scratch[i] := DIGITS[LastDigit(rest, base)];
        i := i + 1;
        rest := Shifted(rest, base);
      }
    }

    /** The loop that writes the digits, the first one first. */
    method WriteDigits(scratch: array<char>, count: nat, ghost all: string)
      requires Valid()
      requires count == |all| <= scratch.Length && '\n' !in all
      requires forall j :: 0 <= j < count ==> scratch[j] == all[count - 1 - j]
      modifies this, cells
      ensures Valid() && log == Written(old(log), all)
    {
      var i := count;
      assert all[..0] == "";
      while i > 0
        invariant 0 <= i <= count
        invariant Valid() && log == Written(old(log), all[..count - i])
      {
        i := i - 1;
        assert all[..count - i][..count - i - 1] == all[..count - i - 1];
        StoreChar(scratch[i]);
      }
      assert all[..count] == all;
    }

    /** klog_print_dec */
    method PrintDec(num: Int32)
      requires Valid()
      modifies this, cells
      ensures Valid() && log == Written(old(log), DecimalText(num))
    {
      var buffer := new char[11];
      if num == 0 {
        WriteOne('0');
        return;
      }
      var n := num;
      if n < 0 {
        WriteOne('-');
        n := Negated(n);
      }
      if n > 0 {
        ScratchSuffices();
        DigitsFit(n, 10, 10);
        var i := TakeDigits(buffer, n, 10);
        WriteDigits(buffer, i, Digits(n, 10));
        WrittenTwice(old(log), "-", Digits(n, 10));
      }
    }

    /** One character that is not a newline. */
    method WriteOne(c: char)
      requires Valid() && c != '\n'
      modifies this, cells
      ensures Valid() && log == Written(old(log), [c])
    {
      StoreChar(c);
      assert [c][..0] == "" && Written(old(log), "") == old(log);
    }

    /** klog_print_hex */
    method PrintHex(num: Word32)
      requires Valid()
      modifies this, cells
      ensures Valid() && log == Written(old(log), HexText(num))
    {
      var buffer := new char[8];
      if num == 0 {
        WriteOne('0');
        return;
      }
      ScratchSuffices();
      DigitsFit(num, 16, 8);
      var i := TakeDigits(buffer, num, 16);
      Print(['0', 'x', '\0']);
      WriteDigits(buffer, i, Digits(num, 16));
      assert Text(['0', 'x', '\0']) == "0x";
      WrittenTwice(old(log), "0x", Digits(num, 16));
    }
  }
}
