/** The pieces of the C runtime the three front ends lean on, stated once:
    the ASCII character classes of <ctype.h>, the decimal rendering that
    printf uses for %d and %u, atoi, and the line/column bookkeeping shared
    by the two lexers that track columns. */
module CLib {

  datatype Option<T> = None | Some(value: T)

  // ---------------------------------------------------------------------
  // <ctype.h>, "C" locale (ASCII only)
  // ---------------------------------------------------------------------

  predicate IsSpace(c: char) {
    c == ' ' || c == '\t' || c == '\n' || c == '\U{B}' || c == '\U{C}' || c == '\r'
  }

  predicate IsDigit(c: char) {
    '0' <= c <= '9'
  }

  predicate IsAlpha(c: char) {
    ('a' <= c <= 'z') || ('A' <= c <= 'Z')
  }

  predicate IsAlnum(c: char) {
    IsAlpha(c) || IsDigit(c)
  }

  // ---------------------------------------------------------------------
  // Decimal text: printf("%d") / printf("%u") and its inverse
  // ---------------------------------------------------------------------

  function DigitChar(d: nat): (c: char)
    requires d < 10
    ensures IsDigit(c) && DigitValue(c) == d
  {
    ['0', '1', '2', '3', '4', '5', '6', '7', '8', '9'][d]
  }

  function DigitValue(c: char): nat
    requires IsDigit(c)
  {
    (c as int - '0' as int) as nat
  }

  predicate AllDigits(s: string) {
    forall i :: 0 <= i < |s| ==> IsDigit(s[i])
  }

  /** The value of a run of decimal digits, most significant first. */
  function DigitsValue(s: string): nat
    requires AllDigits(s)
  {
    if s == [] then 0 else DigitsValue(s[..|s| - 1]) * 10 + DigitValue(s[|s| - 1])
  }

  /** Decimal rendering of a natural number, as printf's %u / %d print it. */
  function NatToString(n: nat): (s: string)
    ensures |s| >= 1 && AllDigits(s)
    ensures n < 10 <==> |s| == 1
    decreases n
  {
    if n < 10 then [DigitChar(n)] else NatToString(n / 10) + [DigitChar(n % 10)]
  }

  /** Reading back a rendered number gives the number: printf's %u is
      injective, so distinct indices give distinct labels. */
  lemma {:induction false} NatToStringValue(n: nat)
    ensures DigitsValue(NatToString(n)) == n
    decreases n
  {
    if n >= 10 {
      var s := NatToString(n);
      assert s[..|s| - 1] == NatToString(n / 10);
      NatToStringValue(n / 10);
    }
  }

  lemma NatToStringInjective(m: nat, n: nat)
    requires NatToString(m) == NatToString(n)
    ensures m == n
  {
    NatToStringValue(m);
    NatToStringValue(n);
  }

  /** The first character of a rendering is never '0' unless the number is 0. */
  lemma {:induction false} NatToStringNoLeadingZero(n: nat)
    ensures NatToString(n)[0] == '0' <==> n == 0
    decreases n
  {
    if n >= 10 {
      NatToStringNoLeadingZero(n / 10);
    }
  }

  /** printf("%d") of a C int. */
  function IntToString(i: int): (s: string)
    ensures i >= 0 ==> s == NatToString(i)
    ensures i < 0 ==> s == "-" + NatToString(-i)
  {
    if i < 0 then "-" + NatToString(-i) else NatToString(i)
  }

  // ---------------------------------------------------------------------
  // atoi: leading white space, an optional sign, then the longest run of
  // decimal digits; anything else ends the number (overflow is ignored).
  // ---------------------------------------------------------------------

  /** Length of the longest prefix of s made of decimal digits. */
  function DigitRun(s: string): (k: nat)
    ensures k <= |s| && AllDigits(s[..k])
    ensures k < |s| ==> !IsDigit(s[k])
  {
    if s == [] || !IsDigit(s[0]) then 0
    else
      var k := 1 + DigitRun(s[1..]);
      assert s[..k] == [s[0]] + s[1..][..k - 1];
      k
  }

  function Atoi(s: string): (v: int)
    ensures AllDigits(s) ==> v == DigitsValue(s)
  {
    if s != [] && IsSpace(s[0]) then Atoi(s[1..])
    else if s != [] && (s[0] == '-' || s[0] == '+') then
      var k := DigitRun(s[1..]);
      var mag := DigitsValue(s[1..][..k]);
      if s[0] == '-' then -(mag as int) else mag
    else
      assert AllDigits(s) ==> DigitRun(s) == |s| && s[..|s|] == s;
      DigitsValue(s[..DigitRun(s)])
  }

  lemma AtoiOfRendering(i: int)
    ensures Atoi(IntToString(i)) == i
  {
    NatToStringValue(if i < 0 then -i else i);
    if i < 0 {
      var s := IntToString(i);
      assert s[1..] == NatToString(-i);
      assert DigitRun(s[1..]) == |s[1..]| by { DigitRunAll(s[1..]); }
      assert s[1..][..|s[1..]|] == s[1..];
    }
  }

  lemma {:induction false} DigitRunAll(s: string)
    requires AllDigits(s)
    ensures DigitRun(s) == |s|
  {
    if s != [] {
      DigitRunAll(s[1..]);
    }
  }

  /** A digit run followed by a non-digit is read exactly to its end. */
  lemma {:induction false} DigitRunPrefix(d: string, tail: string)
    requires AllDigits(d)
    requires tail == [] || !IsDigit(tail[0])
    ensures DigitRun(d + tail) == |d|
    decreases |d|
  {
    if d != [] {
      assert (d + tail)[1..] == d[1..] + tail;
      DigitRunPrefix(d[1..], tail);
    } else {
      assert d + tail == tail;
    }
  }

  /** Regrouping a concatenation, for the collecting loops. */
  lemma ConcatAssoc<T>(a: seq<T>, b: seq<T>, c: seq<T>)
    ensures (a + b) + c == a + (b + c)
  {
  }

  // ---------------------------------------------------------------------
  // NUL-terminated buffers: reading at or past the end yields '\0'
  // ---------------------------------------------------------------------

  function At(src: string, i: nat): char {
    if i < |src| then src[i] else '\0'
  }

  /** strlen: the length of the C string held in s, up to its first NUL. */
  function CStrLen(s: string): (n: nat)
    ensures n <= |s|
    ensures forall i :: 0 <= i < n ==> s[i] != '\0'
    ensures n < |s| ==> s[n] == '\0'
  {
    if s == [] || s[0] == '\0' then 0 else 1 + CStrLen(s[1..])
  }

  /** The character classes the scanners skip over one character at a
      time. None of them contains '\0', so no scan runs past the end. */
  datatype CharClass =
    | Space            // isspace
    | Digit            // isdigit
    | WordPart         // isalnum or '_'
    | Alpha            // isalpha
    | Not(stop: char)  // anything but `stop` and the terminating NUL

  predicate In(cl: CharClass, c: char) {
    match cl
    case Space => IsSpace(c)
    case Digit => IsDigit(c)
    case WordPart => IsAlnum(c) || c == '_'
    case Alpha => IsAlpha(c)
    case Not(stop) => c != stop && c != '\0'
  }

  /** Where a `while (in(cl, peek())) advance();` loop started at i stops. */
  function Span(src: string, i: nat, cl: CharClass): (r: nat)
    ensures i <= r && (i <= |src| ==> r <= |src|)
    ensures forall k :: i <= k < r ==> In(cl, At(src, k))
    ensures !In(cl, At(src, r))
    decreases |src| - i
  {
    if In(cl, At(src, i)) then Span(src, i + 1, cl) else i
  }

  // ---------------------------------------------------------------------
  // Line and column bookkeeping: a newline moves to column 1 of the next
  // line, every other character moves one column right.
  // ---------------------------------------------------------------------

  datatype Loc = Loc(line: int, col: int)

  function Step(at: Loc, c: char): (r: Loc)
    ensures c == '\n' ==> r == Loc(at.line + 1, 1)
    ensures c != '\n' ==> r == Loc(at.line, at.col + 1)
  {
    if c == '\n' then Loc(at.line + 1, 1) else Loc(at.line, at.col + 1)
  }

  /** The location reached after consuming src[i..j] in order, stated on
      indices so that consuming one more character is one more Step. */
  function Walk(at: Loc, src: string, i: nat, j: nat): Loc
    requires i <= j <= |src|
    decreases j - i
  {
    if i == j then at else Step(Walk(at, src, i, j - 1), src[j - 1])
  }

  /** Consuming src[i..k] in one go is consuming src[i..j] and then src[j..k]. */
  lemma {:induction false} WalkSplit(at: Loc, src: string, i: nat, j: nat, k: nat)
    requires i <= j <= k <= |src|
    ensures Walk(at, src, i, k) == Walk(Walk(at, src, i, j), src, j, k)
    decreases k - j
  {
    if j < k {
      WalkSplit(at, src, i, j, k - 1);
    }
  }

  /** The number of newlines in src[i..j]. */
  function Newlines(src: string, i: nat, j: nat): nat
    requires i <= j <= |src|
    decreases j - i
  {
    if i == j then 0 else Newlines(src, i, j - 1) + (if src[j - 1] == '\n' then 1 else 0)
  }

  /** The line reached is the starting line plus the newlines consumed, and
      the column is 1 plus the characters consumed since the last newline. */
  lemma {:induction false} WalkLine(at: Loc, src: string, i: nat, j: nat)
    requires i <= j <= |src|
    ensures Walk(at, src, i, j).line == at.line + Newlines(src, i, j)
    ensures Newlines(src, i, j) == 0 ==> Walk(at, src, i, j).col == at.col + (j - i)
    decreases j - i
  {
    if i < j {
      WalkLine(at, src, i, j - 1);
    }
  }

  lemma {:induction false} NewlinesSplit(src: string, i: nat, j: nat, k: nat)
    requires i <= j <= k <= |src|
    ensures Newlines(src, i, k) == Newlines(src, i, j) + Newlines(src, j, k)
    decreases k - j
  {
    if j < k {
      NewlinesSplit(src, i, j, k - 1);
    }
  }

  lemma {:induction false} NewlinesNone(src: string, i: nat, j: nat)
    requires i <= j <= |src|
    requires forall k :: i <= k < j ==> src[k] != '\n'
    ensures Newlines(src, i, j) == 0
    decreases j - i
  {
    if i < j {
      NewlinesNone(src, i, j - 1);
    }
  }

  /** A span stops exactly at the first character outside the class. */
  lemma {:induction false} SpanExact(src: string, i: nat, j: nat, cl: CharClass)
    requires i <= j
    requires forall k :: i <= k < j ==> In(cl, At(src, k))
    requires !In(cl, At(src, j))
    ensures Span(src, i, cl) == j
    decreases j - i
  {
    if i < j {
      SpanExact(src, i + 1, j, cl);
    }
  }
}
