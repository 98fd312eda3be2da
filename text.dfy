/**
 * The character classes, line splitting, trimming and number scanning that
 * the JavaScript sources get from `String.prototype.split`, `trim`,
 * `parseInt`, `parseFloat` and the regular-expression classes `\d`, `\s`
 * and `\w`. Everything is over `string` (a sequence of UTF-16 code units in
 * the original; one `char` each here).
 */
module Text {

  /** `\d` */
  predicate IsDigit(c: char) { '0' <= c <= '9' }

  /** `[a-zA-Z0-9]` */
  predicate IsAlnum(c: char) { IsDigit(c) || 'a' <= c <= 'z' || 'A' <= c <= 'Z' }

  /** `\w`, the class that decides where `\b` holds. */
  predicate IsWordChar(c: char) { IsAlnum(c) || c == '_' }

  /** The characters `.` does not match. */
  predicate IsLineTerminator(c: char) {
    c == '\n' || c == '\r' || c == '\U{2028}' || c == '\U{2029}'
  }

  /** `\s`, which is also the set `String.prototype.trim` strips. */
  predicate IsSpace(c: char) {
    || IsLineTerminator(c)
    || c == ' ' || c == '\t' || c == '\U{000B}' || c == '\U{000C}'
    || c == '\U{00A0}' || c == '\U{FEFF}' || c == '\U{1680}'
    || ('\U{2000}' <= c <= '\U{200A}')
    || c == '\U{202F}' || c == '\U{205F}' || c == '\U{3000}'
  }

  predicate AllDigits(s: string) { forall k :: 0 <= k < |s| ==> IsDigit(s[k]) }

  predicate AllSpace(s: string) { forall k :: 0 <= k < |s| ==> IsSpace(s[k]) }

  // ---------------------------------------------------------------------
  // Lines
  // ---------------------------------------------------------------------

  /** `s.split('\n')`: the pieces between newlines; never empty. */
  function Split(s: string): (lines: seq<string>)
    ensures |lines| >= 1
    ensures forall i :: 0 <= i < |lines| ==> '\n' !in lines[i]
  {
    if s == [] then [""]
    else
      var rest := Split(s[1..]);
      if s[0] == '\n' then [""] + rest
      else [[s[0]] + rest[0]] + rest[1..]
  }

  /** `lines.join('\n')`, the inverse of `Split`. */
  function Join(lines: seq<string>): string
    requires |lines| >= 1
  {
    if |lines| == 1 then lines[0] else lines[0] + "\n" + Join(lines[1..])
  }

  lemma {:induction false} JoinSplit(s: string)
    ensures Join(Split(s)) == s
  {
    if s != [] {
      JoinSplit(s[1..]);
      var rest := Split(s[1..]);
      if s[0] == '\n' {
        assert Split(s) == [""] + rest;
        assert Join(Split(s)) == "" + "\n" + Join(rest);
      } else if |rest| == 1 {
        assert Split(s) == [[s[0]] + rest[0]];
      } else {
        var ls := Split(s);
        assert ls == [[s[0]] + rest[0]] + rest[1..];
        assert ls[1..] == rest[1..];
        assert Join(rest) == rest[0] + "\n" + Join(rest[1..]);
        assert Join(ls) == [s[0]] + rest[0] + "\n" + Join(rest[1..]);
        assert s == [s[0]] + s[1..];
      }
    }
  }

  /** Splitting a string whose first piece `a` holds no newline. */
  lemma {:induction false} SplitPrefix(a: string, t: string)
    requires '\n' !in a
    ensures Split(a + t) == [a + Split(t)[0]] + Split(t)[1..]
  {
    if a != [] {
      var st := Split(t);
      assert (a + t)[1..] == a[1..] + t;
      assert (a + t)[0] == a[0] != '\n';
      SplitPrefix(a[1..], t);
      var rest := Split(a[1..] + t);
      assert rest[0] == a[1..] + st[0] && rest[1..] == st[1..];
      assert Split(a + t) == [[a[0]] + rest[0]] + rest[1..];
      assert [a[0]] + (a[1..] + st[0]) == a + st[0];
    } else {
      assert a + t == t;
      assert a + Split(t)[0] == Split(t)[0];
      assert Split(t) == [Split(t)[0]] + Split(t)[1..];
    }
  }

  /** Splitting at the first newline separates the first line from the split of the rest. */
  lemma SplitFirstLine(first: string, rest: string)
    requires '\n' !in first
    ensures Split(first + "\n" + rest) == [first] + Split(rest)
  {
    assert first + "\n" + rest == first + ("\n" + rest);
    SplitPrefix(first, "\n" + rest);
    assert ("\n" + rest)[1..] == rest;
    assert Split("\n" + rest) == [""] + Split(rest);
    assert first + "" == first;
  }

  lemma {:induction false} SplitJoin(lines: seq<string>)
    requires |lines| >= 1
    requires forall i :: 0 <= i < |lines| ==> '\n' !in lines[i]
    ensures Split(Join(lines)) == lines
  {
    if |lines| == 1 {
      SplitPrefix(lines[0], "");
      assert lines[0] + "" == lines[0];
    } else {
      var tail := Join(lines[1..]);
      SplitJoin(lines[1..]);
      assert ("\n" + tail)[1..] == tail;
      assert Split("\n" + tail) == [""] + lines[1..];
      SplitPrefix(lines[0], "\n" + tail);
      assert Join(lines) == lines[0] + ("\n" + tail);
      assert lines[0] + "" == lines[0];
      assert lines == [lines[0]] + lines[1..];
    }
  }

  // ---------------------------------------------------------------------
  // Trimming
  // ---------------------------------------------------------------------

  /** `s.trim()`: the text between the white space at its start and the white space at its end. */
  function Trim(s: string): (r: string)
    ensures r == [] || (!IsSpace(r[0]) && !IsSpace(r[|r| - 1]))
  {
    var i := SpacesEnd(s, 0);
    s[i..SpacesStart(s, i, |s|)]
  }

  /**
   * What `Trim` removes is white space at either end and nothing else: its
   * result is a slice of the text with only white space around it, and it
   * is empty exactly when the text is all white space.
   */
  lemma TrimIsSlice(s: string)
    ensures Trim(s) == [] <==> AllSpace(s)
    ensures exists i, j :: 0 <= i <= j <= |s| && Trim(s) == s[i..j] && AllSpace(s[..i]) && AllSpace(s[j..])
  {
    var i := SpacesEnd(s, 0);
    var j := SpacesStart(s, i, |s|);
    SpacesEndRun(s, 0);
    SpacesStartRun(s, i, |s|);
    assert s[0..i] == s[..i];
    if AllSpace(s) {
      assert i == |s|;
    }
    if i < |s| {
      SpacesStartAbove(s, i, |s|);
    }
    if Trim(s) == [] {
      assert s[..i] == s;
    }
    assert s[j..|s|] == s[j..];
    assert 0 <= i <= j <= |s| && Trim(s) == s[i..j] && AllSpace(s[..i]) && AllSpace(s[j..]);
  }

  /** Text with no white space at either end is its own trim. */
  lemma TrimUnchanged(s: string)
    requires s == [] || (!IsSpace(s[0]) && !IsSpace(s[|s| - 1]))
    ensures Trim(s) == s
  {
    assert SpacesEnd(s, 0) == 0;
    assert SpacesStart(s, 0, |s|) == |s|;
    assert s[0..|s|] == s;
  }

  // ---------------------------------------------------------------------
  // Runs of characters
  // ---------------------------------------------------------------------

  /** The end of the maximal run of digits starting at `i` (`\d*`, greedy). */
  function DigitsEnd(s: string, i: nat): (e: nat)
    requires i <= |s|
    ensures i <= e <= |s|
    ensures e == |s| || !IsDigit(s[e])
    decreases |s| - i
  {
    if i < |s| && IsDigit(s[i]) then DigitsEnd(s, i + 1) else i
  }

  /** Everything `DigitsEnd` passes over is a digit. */
  lemma {:induction false} DigitsEndRun(s: string, i: nat)
    requires i <= |s|
    ensures AllDigits(s[i..DigitsEnd(s, i)])
    decreases |s| - i
  {
    if i < |s| && IsDigit(s[i]) {
      DigitsEndRun(s, i + 1);
      assert s[i..DigitsEnd(s, i)] == [s[i]] + s[i + 1..DigitsEnd(s, i)];
    }
  }

  /** The end of the maximal run of white space starting at `i` (`\s*`, greedy). */
  function SpacesEnd(s: string, i: nat): (e: nat)
    requires i <= |s|
    ensures i <= e <= |s|
    ensures e == |s| || !IsSpace(s[e])
    decreases |s| - i
  {
    if i < |s| && IsSpace(s[i]) then SpacesEnd(s, i + 1) else i
  }

  /** Everything `SpacesEnd` passes over is white space. */
  lemma {:induction false} SpacesEndRun(s: string, i: nat)
    requires i <= |s|
    ensures AllSpace(s[i..SpacesEnd(s, i)])
    decreases |s| - i
  {
    if i < |s| && IsSpace(s[i]) {
      SpacesEndRun(s, i + 1);
      assert s[i..SpacesEnd(s, i)] == [s[i]] + s[i + 1..SpacesEnd(s, i)];
    }
  }

  /** The start of the run of white space that ends at `j`, going no lower than `lo` (`\s*` read backwards). */
  function SpacesStart(s: string, lo: nat, j: nat): (b: nat)
    requires lo <= j <= |s|
    ensures lo <= b <= j
    ensures b == lo || !IsSpace(s[b - 1])
    decreases j - lo
  {
    if lo < j && IsSpace(s[j - 1]) then SpacesStart(s, lo, j - 1) else j
  }

  /** Everything `SpacesStart` passes over is white space. */
  lemma {:induction false} SpacesStartRun(s: string, lo: nat, j: nat)
    requires lo <= j <= |s|
    ensures AllSpace(s[SpacesStart(s, lo, j)..j])
    decreases j - lo
  {
    if lo < j && IsSpace(s[j - 1]) {
      SpacesStartRun(s, lo, j - 1);
      assert s[SpacesStart(s, lo, j)..j] == s[SpacesStart(s, lo, j)..j - 1] + [s[j - 1]];
    }
  }

  /** Scanning back from `j` never passes a character that is not white space at `lo`. */
  lemma {:induction false} SpacesStartAbove(s: string, lo: nat, j: nat)
    requires lo < j <= |s| && !IsSpace(s[lo])
    ensures SpacesStart(s, lo, j) > lo
    decreases j - lo
  {
    if IsSpace(s[j - 1]) {
      SpacesStartAbove(s, lo, j - 1);
    }
  }

  // ---------------------------------------------------------------------
  // Numbers
  // ---------------------------------------------------------------------

  /** The value of a decimal digit; other characters never reach it and count as 0. */
  function DigitValue(c: char): (v: nat)
    ensures v <= 9
  {
    if IsDigit(c) then c as int - '0' as int else 0
  }

  /** `parseInt` of a run of decimal digits (exact: no loss of precision). */
  function DigitsValue(d: string): nat
    requires AllDigits(d)
  {
    if d == [] then 0 else 10 * DigitsValue(d[..|d| - 1]) + DigitValue(d[|d| - 1])
  }

  function DigitChar(n: nat): (c: char)
    requires n < 10
    ensures IsDigit(c) && DigitValue(c) == n
  {
    ('0' as int + n) as char
  }

  /** `n.toString()` for a natural number, and `DigitsValue` undoes it. */
  function NatToString(n: nat): (r: string)
    ensures |r| >= 1 && AllDigits(r)
    ensures DigitsValue(r) == n
    ensures r[0] == '0' ==> r == "0"
  {
    if n < 10 then [DigitChar(n)]
    else
      var p := NatToString(n / 10);
      var r := p + [DigitChar(n % 10)];
      assert r[..|r| - 1] == p;
      r
  }

  /** The value of the digits after a decimal point: `"25"` is 0.25. */
  function Fraction(d: string): (r: real)
    ensures 0.0 <= r < 1.0
  {
    if d == [] then 0.0 else (DigitValue(d[0]) as real + Fraction(d[1..])) / 10.0
  }

  /** The value of the decimal written `<d1>.<d2>`. */
  function DecimalValue(d1: string, d2: string): real
    requires AllDigits(d1) && AllDigits(d2)
  {
    DigitsValue(d1) as real + Fraction(d2)
  }

  /** A number scanned from text: its value and the position just after it. */
  datatype Number = Number(value: real, end: nat)

  /** Text of the shape `\d+\.?\d*`: digits, then at most one dot and more digits. */
  predicate IsDecimalText(t: string) {
    exists k :: 0 < k <= |t| && AllDigits(t[..k]) && (k == |t| || (t[k] == '.' && AllDigits(t[k + 1..])))
  }

  /**
   * The greedy match of `\d+\.?\d*` at `i` and `parseFloat` of it: the
   * integer digits, and when a dot follows them, the dot and the fraction
   * digits after it (possibly none, as in `12.`).
   */
  function DecimalAt(s: string, i: nat): (n: Number)
    requires i < |s| && IsDigit(s[i])
    ensures i < n.end <= |s| && n.value >= 0.0
    ensures n.end == |s| || !IsDigit(s[n.end])
    ensures n.end == DecimalEnd(s, i)
  {
    var intEnd := DigitsEnd(s, i);
    if intEnd < |s| && s[intEnd] == '.' then
      var fracEnd := DigitsEnd(s, intEnd + 1);
      Number(DigitsValueIn(s, i, intEnd) as real + FractionIn(s, intEnd + 1, fracEnd), fracEnd)
    else
      Number(DigitsValueIn(s, i, intEnd) as real, intEnd)
  }

  /** `DigitsValue` of `s[i..e]`, read in place. */
  function DigitsValueIn(s: string, i: nat, e: nat): nat
    requires i <= e <= |s|
    decreases e - i
  {
    if e == i then 0 else 10 * DigitsValueIn(s, i, e - 1) + DigitValue(s[e - 1])
  }

  /** `Fraction` of `s[i..e]`, read in place. */
  function FractionIn(s: string, i: nat, e: nat): (r: real)
    requires i <= e <= |s|
    ensures 0.0 <= r < 1.0
    decreases e - i
  {
    if i == e then 0.0 else (DigitValue(s[i]) as real + FractionIn(s, i + 1, e)) / 10.0
  }

  /** Reading fraction digits in place is reading the slice they form. */
  lemma {:induction false} FractionOfSlice(s: string, i: nat, e: nat)
    requires i <= e <= |s|
    ensures FractionIn(s, i, e) == Fraction(s[i..e])
    decreases e - i
  {
    if i < e {
      assert s[i..e][0] == s[i];
      assert s[i..e][1..] == s[i + 1..e];
      FractionOfSlice(s, i + 1, e);
    }
  }

  /** Reading digits in place is reading the slice they form. */
  lemma {:induction false} DigitsValueOfSlice(s: string, i: nat, e: nat)
    requires i <= e <= |s|
    requires AllDigits(s[i..e])
    ensures DigitsValueIn(s, i, e) == DigitsValue(s[i..e])
    decreases e - i
  {
    if e > i {
      assert s[i..e][..e - 1 - i] == s[i..e - 1];
      assert s[i..e][e - 1 - i] == s[e - 1];
      DigitsValueOfSlice(s, i, e - 1);
    }
  }

  /** Where the greedy match of `\d+\.?\d*` at `i` ends, without its value. */
  function DecimalEnd(s: string, i: nat): (e: nat)
    requires i <= |s|
    ensures i <= e <= |s|
    ensures e == |s| || !IsDigit(s[e])
  {
    var intEnd := DigitsEnd(s, i);
    if intEnd < |s| && s[intEnd] == '.' then DigitsEnd(s, intEnd + 1) else intEnd
  }

  /** What `DecimalAt` consumes is digits, optionally followed by a dot and more digits. */
  lemma DecimalAtConsumesDecimalText(s: string, i: nat)
    requires i < |s| && IsDigit(s[i])
    ensures IsDecimalText(s[i..DecimalAt(s, i).end])
  {
    var e := DecimalAt(s, i).end;
    var intEnd := DigitsEnd(s, i);
    var t := s[i..e];
    var k := intEnd - i;
    DigitsEndRun(s, i);
    SliceSplit(s, i, intEnd, e);
    if intEnd < |s| && s[intEnd] == '.' {
      DigitsEndRun(s, intEnd + 1);
      SliceSplit(s, i, intEnd + 1, e);
      assert t[k] == '.';
    }
    assert 0 < k <= |t| && AllDigits(t[..k]) && (k == |t| || (t[k] == '.' && AllDigits(t[k + 1..])));
  }

  /** The two parts of a slice cut at `c` are the slices on either side of `c`. */
  lemma SliceSplit(s: string, a: nat, c: nat, b: nat)
    requires a <= c <= b <= |s|
    ensures s[a..b][..c - a] == s[a..c] && s[a..b][c - a..] == s[c..b]
  {
  }

  /** Scanning a run of digits followed by a non-digit stops right after the run. */
  lemma {:induction false} DigitsEndAfter(d: string, rest: string)
    requires AllDigits(d)
    requires rest == [] || !IsDigit(rest[0])
    ensures DigitsEnd(d + rest, 0) == |d|
  {
    var s := d + rest;
    assert forall k :: 0 <= k < |d| ==> IsDigit(s[k]) by {
      forall k | 0 <= k < |d| ensures IsDigit(s[k]) { assert s[k] == d[k]; }
    }
    assert |d| == |s| || !IsDigit(s[|d|]) by {
      if |d| < |s| { assert s[|d|] == rest[0]; }
    }
    DigitsEndRun(s, 0);
  }

  /** A run of digits from `i` to a non-digit (or the end) at `e` is what `DigitsEnd` finds. */
  lemma {:induction false} DigitsEndOfRun(s: string, i: nat, e: nat)
    requires i <= e <= |s|
    requires forall k :: i <= k < e ==> IsDigit(s[k])
    requires e == |s| || !IsDigit(s[e])
    ensures DigitsEnd(s, i) == e
    decreases e - i
  {
    if i < e {
      DigitsEndOfRun(s, i + 1, e);
    }
  }

  /**
   * `w` stands in `s` from position `p` on: `s[p + j] == w[j]` for every
   * `j`, stated one character at a time so that it is unfolded only as far
   * as a proof asks for.
   */
  predicate SpelledAt(s: string, p: nat, w: string) {
    p + |w| <= |s| && SpelledFrom(s, p, w, 0)
  }

  /** The characters of `w` from index `i` on stand in `s` from `p + i` on. */
  predicate SpelledFrom(s: string, p: nat, w: string, i: nat)
    requires p + |w| <= |s| && i <= |w|
    decreases |w| - i
  {
    i < |w| ==> s[p + i] == w[i] && SpelledFrom(s, p, w, i + 1)
  }

  /** Each character of `w` is in its place in `s`. */
  lemma {:induction false} SpelledFromIndex(s: string, p: nat, w: string, i: nat, j: nat)
    requires p + |w| <= |s| && i <= j < |w|
    requires SpelledFrom(s, p, w, i)
    ensures s[p + j] == w[j]
    decreases j - i
  {
    if i < j {
      SpelledFromIndex(s, p, w, i + 1, j);
    }
  }

  /** `SpelledAt` is the character-by-character agreement it stands for. */
  lemma SpelledAtEach(s: string, p: nat, w: string)
    requires SpelledAt(s, p, w)
    ensures forall j :: 0 <= j < |w| ==> s[p + j] == w[j]
  {
    forall j | 0 <= j < |w|
      ensures s[p + j] == w[j]
    {
      SpelledFromIndex(s, p, w, 0, j);
    }
  }

  /** Character-by-character agreement gives `SpelledFrom`. */
  lemma {:induction false} SpelledFromOfEach(s: string, p: nat, w: string, i: nat)
    requires p + |w| <= |s| && i <= |w|
    requires forall j :: i <= j < |w| ==> s[p + j] == w[j]
    ensures SpelledFrom(s, p, w, i)
    decreases |w| - i
  {
    if i < |w| {
      SpelledFromOfEach(s, p, w, i + 1);
    }
  }

  /** Agreement stated over the positions of `s` gives `SpelledAt`. */
  lemma SpelledOfRange(s: string, p: nat, w: string)
    requires p + |w| <= |s|
    requires forall k :: p <= k < p + |w| ==> s[k] == w[k - p]
    ensures SpelledAt(s, p, w)
  {
    assert forall j :: 0 <= j < |w| ==> s[p + j] == w[j];
    SpelledFromOfEach(s, p, w, 0);
  }

  /** Scanning the rendering `d1.d2` of a decimal, wherever it stands, gives back its value. */
  lemma {:induction false} DecimalOfText(pre: string, d1: string, d2: string, rest: string)
    requires |d1| >= 1 && AllDigits(d1) && AllDigits(d2)
    requires rest == [] || !IsDigit(rest[0])
    ensures var s := pre + d1 + "." + d2 + rest;
            |pre| < |s| && IsDigit(s[|pre|])
            && DecimalAt(s, |pre|) == Number(DecimalValue(d1, d2), |pre| + |d1| + 1 + |d2|)
  {
    var s := pre + d1 + "." + d2 + rest;
    var n := |pre|;
    var dot := n + |d1|;
    var e := dot + 1 + |d2|;
    assert forall k :: n <= k < dot ==> s[k] == d1[k - n];
    assert s[dot] == '.';
    assert forall k :: dot + 1 <= k < e ==> s[k] == d2[k - dot - 1];
    assert e < |s| ==> s[e] == rest[0];
    DecimalInText(s, n, d1, d2);
  }

  /** `DecimalOfText` for a string known only through the characters from position `n` on. */
  lemma {:induction false} DecimalInText(s: string, n: nat, d1: string, d2: string)
    requires |d1| >= 1 && AllDigits(d1) && AllDigits(d2)
    requires n + |d1| + 1 + |d2| <= |s|
    requires forall k :: n <= k < n + |d1| ==> s[k] == d1[k - n]
    requires s[n + |d1|] == '.'
    requires forall k :: n + |d1| + 1 <= k < n + |d1| + 1 + |d2| ==> s[k] == d2[k - n - |d1| - 1]
    requires n + |d1| + 1 + |d2| == |s| || !IsDigit(s[n + |d1| + 1 + |d2|])
    ensures n < |s| && IsDigit(s[n])
    ensures DecimalAt(s, n) == Number(DecimalValue(d1, d2), n + |d1| + 1 + |d2|)
  {
    var dot := n + |d1|;
    var e := dot + 1 + |d2|;
    assert s[n] == d1[0];
    DigitsEndOfRun(s, n, dot);
    DigitsEndOfRun(s, dot + 1, e);
    assert s[n..dot] == d1;
    assert s[dot + 1..e] == d2;
    DigitsValueOfSlice(s, n, dot);
    FractionOfSlice(s, dot + 1, e);
    DecimalAtParts(s, n, dot, e);
  }

  /** A decimal with a fraction part, read from its two digit runs. */
  lemma {:induction false} DecimalAtParts(s: string, n: nat, dot: nat, e: nat)
    requires n < dot < e <= |s| && IsDigit(s[n]) && s[dot] == '.'
    requires DigitsEnd(s, n) == dot && DigitsEnd(s, dot + 1) == e
    ensures DecimalAt(s, n) == Number(DigitsValueIn(s, n, dot) as real + FractionIn(s, dot + 1, e), e)
  {
  }

  /** Scanning a rendered natural number gives it back. */
  lemma {:induction false} IntegerOfText(n: nat, rest: string)
    requires rest == [] || (!IsDigit(rest[0]) && rest[0] != '.')
    ensures DecimalAt(NatToString(n) + rest, 0) == Number(n as real, |NatToString(n)|)
  {
    var d := NatToString(n);
    var s := d + rest;
    DigitsEndAfter(d, rest);
    assert s[0..|d|] == d;
    DigitsValueOfSlice(s, 0, |d|);
  }
}
