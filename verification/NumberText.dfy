/** Printing numbers (src/libc/stdarg.c:93-225). */
module NumberText {

  const NUL: char := '\0'

  // ----- the text of a number -----

  function Digit(d: nat): (c: char)
    requires d < 36
  {
    if d < 10 then '0' + d as char else 'A' + (d - 10) as char
  }

  /** Digit names the entries of the code's table. */
  lemma DigitTable(d: nat)
    requires d < 36
    ensures "0123456789ABCDEFGHIJKLMNOPQRSTUVWXYZ"[d] == Digit(d)
  {}

  /** The value of a digit. */
  function DigitValue(c: char): int {
    if '0' <= c <= '9' then c as int - '0' as int
    else if 'A' <= c <= 'Z' then c as int - 'A' as int + 10
    else -1
  }

  lemma DigitRoundTrip(d: nat)
    requires d < 36
    ensures DigitValue(Digit(d)) == d && (Digit(d) == '0' <==> d == 0)
  {}

  function Quot(v: nat, base: nat): (q: nat)
    requires base >= 2
    ensures v > 0 ==> q < v
  {
    QuotSmaller(v, base);
    v / base
  }

  function Rem(v: nat, base: nat): (r: nat)
    requires base >= 2
    ensures r < base
  {
    v % base
  }

  lemma QuotSmaller(v: nat, base: nat)
    requires base >= 2
    ensures 0 <= v / base && (v > 0 ==> v / base < v)
  {
    var q := v / base;
    assert v == q * base + v % base;
    if q > 0 { assert q * base >= q * 2; }
  }

  lemma QuotRem(v: nat, base: nat)
    requires base >= 2
    ensures v == Quot(v, base) * base + Rem(v, base)
    ensures v < base <==> Quot(v, base) == 0
  {
    var q := v / base;
    if q > 0 { assert q * base >= base; }
  }

  /** The digits, least significant first, as the loop computes them. */
  function Lsb(v: nat, base: nat): (s: string)
    requires 2 <= base <= 36
    ensures s != []
    decreases v
  {
    [Digit(Rem(v, base))] + if Quot(v, base) == 0 then [] else Lsb(Quot(v, base), base)
  }

  function Reversed(s: string): (t: string)
    ensures |t| == |s| && forall k | 0 <= k < |s| :: t[k] == s[|s| - 1 - k]
  {
    if s == [] then [] else Reversed(s[1..]) + [s[0]]
  }

  function Digits(v: nat, base: nat): (s: string)
    requires 2 <= base <= 36
    ensures s != []
  {
    Reversed(Lsb(v, base))
  }

  function Prefix(base: nat): string {
    if base == 2 then "0b" else if base == 16 then "0x" else ""
  }

  /** The whole text. */
  function Text(v: nat, base: nat): (s: string)
    requires 2 <= base <= 36
  {
    Prefix(base) + Digits(v, base)
  }

  /** The prefix, letter by letter. */
  lemma TextIs(v: nat, base: nat)
    requires 2 <= base <= 36
    ensures Text(v, base) ==
            if base == 2 then ['0', 'b'] + Digits(v, base)
            else if base == 16 then ['0', 'x'] + Digits(v, base)
            else Digits(v, base)
  {
    hide Digits;
  }

  // ----- reading it back -----

  function Parsed(s: string, base: nat): int {
    if s == [] then 0 else Parsed(s[..|s| - 1], base) * base + DigitValue(s[|s| - 1])
  }

  lemma DigitsStep(v: nat, base: nat)
    requires 2 <= base <= 36 && Quot(v, base) > 0
    ensures Digits(v, base) == Digits(Quot(v, base), base) + [Digit(Rem(v, base))]
  {
    hide Quot, Rem;
    assert Lsb(v, base)[1..] == Lsb(Quot(v, base), base);
  }

  lemma OneDigit(v: nat, base: nat)
    requires 2 <= base <= 36 && Quot(v, base) == 0
    ensures v < base && Digits(v, base) == [Digit(v)]
  {
    QuotRem(v, base);
    hide Quot, Rem, Digit;
    assert Lsb(v, base) == [Digit(v)];
    assert Reversed([Digit(v)]) == [Digit(v)];
  }

  lemma ParsedOne(c: char, base: nat)
    ensures Parsed([c], base) == DigitValue(c)
  {
    hide DigitValue;
    assert [c][..0] == [];
    assert Parsed([], base) == 0;
  }

  lemma ParsedMore(s: string, c: char, base: nat)
    ensures Parsed(s + [c], base) == Parsed(s, base) * base + DigitValue(c)
  {
    hide DigitValue;
    assert (s + [c])[..|s|] == s;
  }

  /** The digits read back to the number they were printed from. */
  lemma {:induction false} RoundTrip(v: nat, base: nat)
    requires 2 <= base <= 36
    ensures Parsed(Digits(v, base), base) == v
    decreases v
  {
    hide Digits, Quot, Rem, Digit, DigitValue, Parsed;
    QuotRem(v, base);
    if Quot(v, base) == 0 {
      OneDigit(v, base);
      DigitRoundTrip(v);
      ParsedOne(Digit(v), base);
    } else {
      DigitsStep(v, base);
      RoundTrip(Quot(v, base), base);
      DigitRoundTrip(Rem(v, base));
      ParsedMore(Digits(Quot(v, base), base), Digit(Rem(v, base)), base);
    }
  }

  /** No superfluous zero at the front. */
  lemma {:induction false} NoLeadingZero(v: nat, base: nat)
    requires 2 <= base <= 36
    ensures Digits(v, base)[0] == '0' <==> v == 0
    ensures v == 0 ==> |Digits(v, base)| == 1
    decreases v
  {
    hide Digits, Quot, Rem, Digit, DigitValue, Parsed;
    QuotRem(v, base);
    if Quot(v, base) == 0 {
      OneDigit(v, base);
      DigitRoundTrip(v);
    } else {
      DigitsStep(v, base);
      NoLeadingZero(Quot(v, base), base);
    }
  }

  /** Digits are figures and capital letters. */
  lemma {:induction false} AllDigits(v: nat, base: nat, k: nat)
    requires 2 <= base <= 36 && k < |Digits(v, base)|
    ensures '0' <= Digits(v, base)[k] <= '9' || 'A' <= Digits(v, base)[k] <= 'Z'
    decreases v
  {
    hide Digits, Quot, Rem, Digit;
    QuotRem(v, base);
    if Quot(v, base) == 0 {
      OneDigit(v, base);
      DigitIsPlain(v);
    } else {
      DigitsStep(v, base);
      if k < |Digits(Quot(v, base), base)| {
        AllDigits(Quot(v, base), base, k);
      } else {
        DigitIsPlain(Rem(v, base));
      }
    }
  }

  lemma DigitIsPlain(d: nat)
    requires d < 36
    ensures '0' <= Digit(d) <= '9' || 'A' <= Digit(d) <= 'Z'
  {}

  /** s begins with these two characters. */
  predicate Begins(s: string, c: char, e: char) {
    |s| >= 2 && s[0] == c && s[1] == e
  }

  /** The text begins with 0b exactly in base 2, and with 0x exactly in base 16. */
  lemma PrefixTellsBase(v: nat, base: nat)
    requires 2 <= base <= 36
    ensures Begins(Text(v, base), '0', 'b') <==> base == 2
    ensures Begins(Text(v, base), '0', 'x') <==> base == 16
  {
    TextIs(v, base);
    if |Digits(v, base)| > 1 { AllDigits(v, base, 1); }
    hide Text, Digits;
  }

  /** Reads a number that has no sign. A prefix 0b or 0x says the base; otherwise it is the
      one given. */
  function ReadUnsigned(s: string, base: nat): int {
    if Begins(s, '0', 'b') then Parsed(s[2..], 2)
    else if Begins(s, '0', 'x') then Parsed(s[2..], 16)
    else Parsed(s, base)
  }

  function ReadBack(s: string, base: nat): int {
    if s != [] && s[0] == '-' then -ReadUnsigned(s[1..], base) else ReadUnsigned(s, base)
  }

  /** A text reads back to its number, in base 2 and 16 whatever base the reader is given. */
  lemma TextReadsBack(v: nat, base: nat, given: nat)
    requires 2 <= base <= 36 && (given == base || base == 2 || base == 16)
    ensures ReadUnsigned(Text(v, base), given) == v && Text(v, base)[..1] != "-"
  {
    hide Text, Digits, Parsed;
    TextIs(v, base);
    PrefixTellsBase(v, base);
    RoundTrip(v, base);
    AllDigits(v, base, 0);
    if base == 2 || base == 16 { assert Text(v, base)[2..] == Digits(v, base); }
  }

  /** Different numbers have different texts. */
  lemma TextsDiffer(v: nat, w: nat, base: nat)
    requires 2 <= base <= 36 && Text(v, base) == Text(w, base)
    ensures v == w
  {
    RoundTrip(v, base);
    RoundTrip(w, base);
    assert Text(v, base)[|Prefix(base)|..] == Digits(v, base);
    assert Text(w, base)[|Prefix(base)|..] == Digits(w, base);
  }

  // ----- what is written where -----

  /** The characters from i to j. */
  ghost predicate Shows(str: seq<char>, i: nat, s: string) {
    i + |s| <= |str| && forall p | i <= p < i + |s| :: str[p] == s[p - i]
  }

  /** Nothing changed outside positions i to j - 1. */
  ghost predicate Elsewhere(before: seq<char>, after: seq<char>, i: nat, j: nat) {
    |after| == |before| && forall k | 0 <= k < |before| && !(i <= k < j) :: after[k] == before[k]
  }

  predicate GoodBase(base: nat) { 2 <= base <= 36 }

  /** The base wants a prefix and there is no room for it and a digit. */
  predicate NoPrefixRoom(n: nat, base: nat) { Prefix(base) != "" && n <= 2 }

  /** What u_to_nstr returns: the length of the text, if it has at most n characters. */
  function Width(v: nat, n: nat, base: nat): nat {
    if n == 0 || !GoodBase(base) || NoPrefixRoom(n, base) || |Text(v, base)| > n then 0 else |Text(v, base)|
  }

  /** How many characters u_to_nstr writes, with the terminating NUL. */
  function Written(v: nat, n: nat, base: nat): nat {
    if n == 0 then 0
    else if !GoodBase(base) || NoPrefixRoom(n, base) then 1
    else if |Text(v, base)| <= n then |Text(v, base)| + 1
    else n
  }

  /** The code writes past the n characters it was given exactly when the text has n of
      them: it does not keep the last one for the NUL. */
  lemma OverrunsIff(v: nat, n: nat, base: nat)
    ensures Written(v, n, base) > n
       <==> n > 0 && 2 <= base <= 36 && (base == 2 || base == 16 ==> n > 2) && |Text(v, base)| == n
  {}

  // ----- the loops -----

  function Min(a: nat, b: nat): nat { if a < b then a else b }

  lemma NextDigit(d: string, k: nat, left: nat, base: nat)
    requires GoodBase(base) && k <= |d| && d[k..] == Lsb(left, base)
    ensures k < |d| && d[k] == Digit(Rem(left, base))
    ensures if Quot(left, base) == 0 then k + 1 == |d| else k + 1 < |d| && d[k + 1..] == Lsb(Quot(left, base), base)
  {
    hide Quot, Rem, Digit;
    assert d[k] == d[k..][0] && d[k + 1..] == d[k..][1..];
  }

  /** The first k of the digits d stand at position p of the buffer, and left is the number
      that the others stand for. */
  ghost predicate Progress(before: seq<char>, now: seq<char>, p: nat, d: string, k: nat, left: nat, base: nat) {
    && GoodBase(base) && k <= |d| && p + k <= |now|
    && Elsewhere(before, now, p, p + k) && Shows(now, p, d[..k])
    && if left == 0 then k == |d| else k < |d| && d[k..] == Lsb(left, base)
  }

  lemma FirstDigit(now: seq<char>, p: nat, value: nat, base: nat)
    requires GoodBase(base) && p < |now|
    ensures Progress(now, now[p := Digit(Rem(value, base))], p, Lsb(value, base), 1, Quot(value, base), base)
  {
    var d := Lsb(value, base);
    assert d[0..] == d;
    NextDigit(d, 0, value, base);
    hide Quot, Rem, Digit, Lsb;
    assert d[..1] == [d[0]];
  }

  lemma OneMoreDigit(before: seq<char>, now: seq<char>, p: nat, d: string, k: nat, left: nat, base: nat)
    requires Progress(before, now, p, d, k, left, base) && left != 0 && p + k < |now|
    ensures Progress(before, now[p + k := Digit(Rem(left, base))], p, d, k + 1, Quot(left, base), base)
  {
    NextDigit(d, k, left, base);
    hide Quot, Rem, Digit, Lsb;
  }

  /** As long as digits and the n characters last, the next one is inside the buffer. */
  lemma DigitsLeft(before: seq<char>, now: seq<char>, at: nat, start: nat, d: string, n: nat, i: nat, left: nat,
                   base: nat)
    requires start < i < n && at + Min(start + |d|, n) <= |now|
    requires Progress(before, now, at + start, d, i - start, left, base) && left != 0
    ensures at + i < |now|
  {}

  lemma RoomForOne(at: nat, start: nat, value: nat, base: nat, n: nat, size: nat)
    requires GoodBase(base) && start < n && at + Min(start + |Lsb(value, base)|, n) <= size
    ensures at + start < size
  {}

  lemma ProgressMeans(before: seq<char>, now: seq<char>, p: nat, d: string, k: nat, left: nat, base: nat)
    requires Progress(before, now, p, d, k, left, base)
    ensures k <= |d| && (left == 0 <==> k == |d|)
    ensures Elsewhere(before, now, p, p + k) && (left == 0 ==> Shows(now, p, d))
  {
    assert d[..|d|] == d;
    hide Lsb;
  }

  /** str[p] = c */
  method Put(str: array<char>, p: nat, c: char)
    requires p < str.Length
    modifies str
    ensures str[..] == old(str[..])[p := c]
  {
    str[p] := c;
  }

  /** What the loop leaves behind: all digits, or no room. */
  ghost predicate DigitsWritten(before: seq<char>, after: seq<char>, d: string, n: nat, at: nat, start: nat, i: nat,
          left: nat) {
    && start < i <= n && Elsewhere(before, after, at + start, at + i)
    && (left == 0 <==> start + |d| <= n)
    && (left == 0 ==> i == start + |d| && Shows(after, at + start, d))
  }

  lemma DigitsDone(before: seq<char>, now: seq<char>, d: string, n: nat, at: nat, start: nat, i: nat, left: nat,
          base: nat)
    requires start < i <= n && Progress(before, now, at + start, d, i - start, left, base) && (left == 0 || i == n)
    ensures DigitsWritten(before, now, d, n, at, start, i, left)
  {
    hide Elsewhere, Shows;
    ProgressMeans(before, now, at + start, d, i - start, left, base);
  }

  /** The body of the loop. */
  method DigitOut(str: array<char>, q: nat, left: nat, base: nat) returns (left': nat)
    requires GoodBase(base) && q < str.Length
    modifies str
    ensures str[..] == old(str[..])[q := Digit(Rem(left, base))] && left' == Quot(left, base)
  {
    str[q] := Digit(Rem(left, base));
    left' := Quot(left, base);
  }

  /** The body of the loop when i - start digits are written and others are left. */
  method AnotherDigit(str: array<char>, at: nat, ghost start: nat, i: nat, left: nat, base: nat,
                      ghost before: seq<char>,
                      ghost d: string, ghost n: nat) returns (left': nat)
    requires start < i < n && at + Min(start + |d|, n) <= str.Length && left != 0
    requires Progress(before, str[..], at + start, d, i - start, left, base)
    modifies str
    ensures Progress(before, str[..], at + start, d, i + 1 - start, left', base)
  {
    DigitsLeft(before, str[..], at, start, d, n, i, left, base);
    assert GoodBase(base) by { ProgressBase(before, str[..], at + start, d, i - start, left, base); }
    hide Quot, Rem, Digit, Progress, GoodBase;
    OneMoreDigit(before, str[..], at + start, d, i - start, left, base);
    left' := DigitOut(str, at + i, left, base);
  }

  lemma ProgressBase(before: seq<char>, now: seq<char>, p: nat, d: string, k: nat, left: nat, base: nat)
    requires Progress(before, now, p, d, k, left, base)
    ensures GoodBase(base)
  {}

  /** The do-while loop: digits from position start on until the number or the room runs out. */
  method WriteDigits(value: nat, n: nat, str: array<char>, at: nat, start: nat, base: nat) returns (i: nat, left: nat)
    requires GoodBase(base) && start < n && at + Min(start + |Lsb(value, base)|, n) <= str.Length
    modifies str
    ensures DigitsWritten(old(str[..]), str[..], Lsb(value, base), n, at, start, i, left)
  {
    ghost var d, before := Lsb(value, base), str[..];
    RoomForOne(at, start, value, base, n, str.Length);
    hide Quot, Rem, Digit, Lsb, Progress, DigitsWritten, Min;
    FirstDigit(before, at + start, value, base);
    left := DigitOut(str, at + start, value, base);
    i := start + 1;
    while left != 0 && i < n
      invariant start < i <= n && Progress(before, str[..], at + start, d, i - start, left, base)
      decreases n - i
    {
      left := AnotherDigit(str, at, start, i, left, base, before, d, n);
      i := i + 1;
    }
    DigitsDone(before, str[..], d, n, at, start, i, left, base);
  }

  /** The reversal loop, on the characters from lo to hi. */
  method ReverseInPlace(str: array<char>, lo: nat, hi: nat, ghost s: string)
    requires lo < hi && Shows(str[..], lo, s) && hi == lo + |s|
    modifies str
    ensures Shows(str[..], lo, Reversed(s)) && Elsewhere(old(str[..]), str[..], lo, hi)
  {
    var i, j := hi - 1, lo;
    while i > j
      invariant lo <= j <= i + 1 <= hi && j - lo == hi - 1 - i
      invariant forall p | lo <= p < hi :: str[p] == if p < j || i < p then s[hi - 1 - p] else s[p - lo]
      invariant Elsewhere(old(str[..]), str[..], lo, hi)
    {
      var c := str[j];
      str[j] := str[i];
      str[i] := c;
      i := i - 1;
      j := j + 1;
    }
  }

  // ----- u_to_nstr and i_to_nstr -----

  lemma TextLength(v: nat, base: nat)
    requires GoodBase(base)
    ensures |Text(v, base)| == |Prefix(base)| + |Lsb(v, base)|
    ensures Text(v, base) == Prefix(base) + Reversed(Lsb(v, base))
  {
    hide Lsb;
  }

  /** The prefix, if there is one and there is room; start is where the digits go. */
  method WritePrefix(n: nat, str: array<char>, at: nat, base: nat) returns (ok: bool, start: nat)
    requires GoodBase(base) && n > 0 && at < str.Length && (n > 2 ==> at + |Prefix(base)| <= str.Length)
    modifies str
    ensures ok <==> !NoPrefixRoom(n, base)
    ensures ok ==> start == |Prefix(base)| < n && Shows(str[..], at, Prefix(base))
    ensures !ok ==> str[at] == NUL
    ensures Elsewhere(old(str[..]), str[..], at, at + if ok then |Prefix(base)| else 1)
  {
    ok, start := true, 0;
    if base == 2 {
      if n > 2 {
        str[at] := '0';
        str[at + 1] := 'b';
        start := 2;
      } else {
        str[at] := NUL;
        ok := false;
      }
    } else if base == 16 {
      if n > 2 {
        str[at] := '0';
        str[at + 1] := 'x';
        start := 2;
      } else {
        str[at] := NUL;
        ok := false;
      }
    }
  }

  lemma PrefixStays(before: seq<char>, after: seq<char>, at: nat, s: string, j: nat)
    requires Shows(before, at, s) && Elsewhere(before, after, at + |s|, j)
    ensures Shows(after, at, s)
  {}

  lemma ElsewhereBoth(a: seq<char>, b: seq<char>, c: seq<char>, i: nat, j: nat, k: nat, l: nat, m: nat)
    requires Elsewhere(a, b, i, j) && Elsewhere(b, c, k, l) && i <= k && j <= m && l <= m
    ensures Elsewhere(a, c, i, m)
  {}

  lemma ShowsBoth(str: seq<char>, at: nat, s: string, t: string)
    requires Shows(str, at, s) && Shows(str, at + |s|, t)
    ensures Shows(str, at, s + t)
  {}

  /** What u_to_nstr leaves behind. */
  ghost predicate Printed(before: seq<char>, after: seq<char>, v: nat, n: nat, at: nat, base: nat, r: nat) {
    && r == Width(v, n, base)
    && Elsewhere(before, after, at, at + Written(v, n, base))
    && (r == 0 && n > 0 ==> at < |after| && after[at] == NUL)
    && (r > 0 ==> GoodBase(base) && Shows(after, at, Text(v, base)) && at + r < |after| && after[at + r] == NUL)
  }

  /** u_to_nstr(value, n, str + at, base). */
  method UToNstr(value: nat, n: nat, str: array<char>, at: nat, base: nat) returns (r: nat)
    requires at + Written(value, n, base) <= str.Length
    modifies str
    ensures Printed(old(str[..]), str[..], value, n, at, base, r)
    ensures n == 0 ==> r == 0 && str[..] == old(str[..])
    ensures n > 0 && !(2 <= base <= 36) ==> r == 0 && str[at] == '\0'
    ensures r > 0 ==> ReadsAt(str[..], at, r, base, value)
  {
    if n <= 0 {
      return 0;
    }
    if base < 2 || base > 36 {
      str[at] := NUL;
      return 0;
    }
    ghost var before := str[..];
    RoomToPrint(value, n, at, base, str.Length);
    hide Text, Lsb, Prefix, ReadsAt, Printed, Written, Width, NumberWritten, NoPrefixRoom, Elsewhere, Shows;
    var ok, start := WritePrefix(n, str, at, base);
    if !ok {
      NothingPrinted(before, str[..], value, n, at, base);
      return 0;
    }
    ghost var prefixed := str[..];
    r := WriteNumber(value, n, str, at, start, base);
    NumberPrinted(before, prefixed, str[..], value, n, at, base, r);
    if r > 0 { PrintedReadsBack(before, str[..], value, n, at, base, r); }
  }

  lemma RoomToPrint(v: nat, n: nat, at: nat, base: nat, size: nat)
    requires n > 0 && GoodBase(base) && at + Written(v, n, base) <= size
    ensures at < size && (n > 2 ==> at + |Prefix(base)| <= size)
    ensures !NoPrefixRoom(n, base) ==> at + Min(|Prefix(base)| + |Lsb(v, base)| + 1, n) <= size
    ensures !NoPrefixRoom(n, base) && |Prefix(base)| + |Lsb(v, base)| == n ==> at + n < size
  {
    TextLength(v, base);
    hide Text, Lsb;
  }

  lemma NothingPrinted(before: seq<char>, after: seq<char>, v: nat, n: nat, at: nat, base: nat)
    requires n > 0 && GoodBase(base) && NoPrefixRoom(n, base) && at < |after| && after[at] == NUL
    requires Elsewhere(before, after, at, at + 1)
    ensures Printed(before, after, v, n, at, base, 0)
  {
    hide Text;
  }

  lemma NumberPrinted(before: seq<char>, mid: seq<char>, after: seq<char>, v: nat, n: nat, at: nat, base: nat, r: nat)
    requires n > 0 && GoodBase(base) && !NoPrefixRoom(n, base) && |Prefix(base)| < n
    requires Elsewhere(before, mid, at, at + |Prefix(base)|) && NumberWritten(mid, after, v, n, at, base, r)
    ensures Printed(before, after, v, n, at, base, r)
  {
    TextLength(v, base);
    hide Text, Lsb, Prefix, Reversed, Shows;
  }

  /** There are r characters and a NUL at position at, which read back to v and have the prefix
      of the base. */
  ghost predicate ReadsAt(str: seq<char>, at: nat, r: nat, base: nat, v: nat) {
    && at + r < |str| && str[at + r] == '\0' && ReadBack(str[at..at + r], base) == v
    && (base == 2 ==> r > 2 && str[at] == '0' && str[at + 1] == 'b')
    && (base == 16 ==> r > 2 && str[at] == '0' && str[at + 1] == 'x')
  }

  /** A text that was printed in the buffer. */
  lemma PrintedReadsBack(before: seq<char>, after: seq<char>, v: nat, n: nat, at: nat, base: nat, r: nat)
    requires Printed(before, after, v, n, at, base, r) && r > 0
    ensures ReadsAt(after, at, r, base, v)
  {
    hide Written, Text, Elsewhere, ReadUnsigned;
    assert after[at..at + r] == Text(v, base);
    TextPrefix(v, base);
  }

  lemma TextPrefix(v: nat, base: nat)
    requires 2 <= base <= 36
    ensures ReadBack(Text(v, base), base) == v
    ensures base == 2 ==> |Text(v, base)| > 2 && Text(v, base)[0] == '0' && Text(v, base)[1] == 'b'
    ensures base == 16 ==> |Text(v, base)| > 2 && Text(v, base)[0] == '0' && Text(v, base)[1] == 'x'
  {
    TextIs(v, base);
    TextReadsBack(v, base, base);
    hide Text, Digits, ReadUnsigned;
    if Text(v, base) != [] { assert Text(v, base)[..1] == [Text(v, base)[0]]; }
  }

  /** What the digits, the NUL and the reversal leave behind. */
  ghost predicate NumberWritten(before: seq<char>, after: seq<char>, v: nat, n: nat, at: nat, base: nat, r: nat) {
    && GoodBase(base) && |after| == |before| && at < |after|
    && r == (if |Prefix(base)| + |Lsb(v, base)| <= n then |Prefix(base)| + |Lsb(v, base)| else 0)
    && (r == 0 ==> after[at] == NUL && Elsewhere(before, after, at, at + n))
    && (r > 0 ==>
        && at + r < |after| && after[at + r] == NUL && Elsewhere(before, after, at, at + r + 1)
        && Shows(after, at, Prefix(base) + Reversed(Lsb(v, base))))
  }

  /** The rest of u_to_nstr: the digits, the NUL and the reversal. */
  method WriteNumber(value: nat, n: nat, str: array<char>, at: nat, start: nat, base: nat) returns (r: nat)
    requires GoodBase(base) && start == |Prefix(base)| < n && Shows(str[..], at, Prefix(base))
    requires at + Min(start + |Lsb(value, base)| + 1, n) <= str.Length
    requires start + |Lsb(value, base)| == n ==> at + n < str.Length
    modifies str
    ensures NumberWritten(old(str[..]), str[..], value, n, at, base, r)
  {
    ghost var before := str[..];
    hide Lsb, Prefix, Shows, Elsewhere, Reversed, GoodBase, NumberWritten, DigitsWritten;
    RoomForDigits(at, start, |Lsb(value, base)|, n, str.Length);
    var i, left := WriteDigits(value, n, str, at, start, base);
    ghost var s1 := str[..];
    WrittenFacts(before, s1, Lsb(value, base), n, at, start, i, left);
    if left == 0 {
      TurnDigits(value, n, str, at, start, base, i, before);
      r := i;
    } else {
      Put(str, at, NUL);
      NoNumber(before, s1, value, n, at, start, base, i);
      r := 0;
    }
  }

  /** A NUL behind the digits, which are reversed. */
  method TurnDigits(value: nat, n: nat, str: array<char>, at: nat, start: nat, base: nat, i: nat,
                    ghost before: seq<char>)
    requires GoodBase(base) && start == |Prefix(base)| && i == start + |Lsb(value, base)| && start < i <= n
    requires at + i < str.Length && Shows(before, at, Prefix(base))
    requires Elsewhere(before, str[..], at + start, at + i) && Shows(str[..], at + start, Lsb(value, base))
    modifies str
    ensures NumberWritten(before, str[..], value, n, at, base, i)
  {
    ghost var s1 := str[..];
    hide Lsb, Prefix, Shows, Elsewhere, Reversed, GoodBase, NumberWritten;
    Put(str, at + i, NUL);
    NulKeeps(before, s1, at, start, Lsb(value, base), i);
    ReverseInPlace(str, at + start, at + i, Lsb(value, base));
    ManyWritten(before, s1[at + i := NUL], str[..], value, n, at, start, base, i);
  }

  lemma RoomForDigits(at: nat, start: nat, length: nat, n: nat, size: nat)
    requires at + Min(start + length + 1, n) <= size && start < n && (start + length == n ==> at + n < size)
    ensures at + Min(start + length, n) <= size && at < size && (start + length <= n ==> at + start + length < size)
  {}

  lemma WrittenFacts(before: seq<char>, s1: seq<char>, d: string, n: nat, at: nat, start: nat, i: nat, left: nat)
    requires DigitsWritten(before, s1, d, n, at, start, i, left)
    ensures |s1| == |before| && start < i <= n && (left == 0 <==> start + |d| <= n)
    ensures left == 0 ==> i == start + |d| && Shows(s1, at + start, d)
    ensures Elsewhere(before, s1, at + start, at + i)
  {}

  lemma ManyWritten(before: seq<char>, s2: seq<char>, s3: seq<char>, value: nat, n: nat, at: nat, start: nat, base: nat,
                    i: nat)
    requires GoodBase(base) && start == |Prefix(base)| && i == start + |Lsb(value, base)| && 0 < i <= n
    requires at + i < |s2| && s2[at + i] == NUL && Shows(before, at, Prefix(base))
    requires Elsewhere(before, s2, at + start, at + i + 1)
    requires Elsewhere(s2, s3, at + start, at + i) && Shows(s3, at + start, Reversed(Lsb(value, base)))
    ensures NumberWritten(before, s3, value, n, at, base, i)
  {
    hide Lsb, Prefix, Shows, Reversed, Elsewhere;
    SameSize(s2, s3, at + start, at + i);
    Finished(before, s2, s3, at, Prefix(base), Lsb(value, base), i);
    SameSize(before, s3, at, at + i + 1);
  }

  lemma SameSize(before: seq<char>, after: seq<char>, i: nat, j: nat)
    requires Elsewhere(before, after, i, j)
    ensures |after| == |before|
  {}

  lemma NoNumber(before: seq<char>, s1: seq<char>, value: nat, n: nat, at: nat, start: nat, base: nat, i: nat)
    requires GoodBase(base) && start == |Prefix(base)| && at < |s1| == |before| && start < i <= n
    requires start + |Lsb(value, base)| > n && Elsewhere(before, s1, at + start, at + i)
    ensures NumberWritten(before, s1[at := NUL], value, n, at, base, 0)
  {
    hide Lsb, Prefix, Reversed, Shows;
    NulFirst(before, s1, at, start, i, n);
  }

  lemma NulKeeps(before: seq<char>, s1: seq<char>, at: nat, start: nat, d: string, i: nat)
    requires i == start + |d| && at + i < |s1| && Elsewhere(before, s1, at + start, at + i) && Shows(s1, at + start, d)
    ensures Elsewhere(before, s1[at + i := NUL], at + start, at + i + 1) && Shows(s1[at + i := NUL], at + start, d)
  {}

  lemma NulFirst(before: seq<char>, s1: seq<char>, at: nat, start: nat, i: nat, n: nat)
    requires at < |s1| && i <= n && 0 < n && Elsewhere(before, s1, at + start, at + i)
    ensures Elsewhere(before, s1[at := NUL], at, at + n)
  {}

  lemma Finished(before: seq<char>, s2: seq<char>, s3: seq<char>, at: nat, prefix: string, d: string, i: nat)
    requires i == |prefix| + |d| && at + i < |s2| && s2[at + i] == NUL && Shows(before, at, prefix)
    requires Elsewhere(before, s2, at + |prefix|, at + i + 1)
    requires Elsewhere(s2, s3, at + |prefix|, at + i) && Shows(s3, at + |prefix|, Reversed(d))
    ensures Shows(s3, at, prefix + Reversed(d)) && s3[at + i] == NUL && Elsewhere(before, s3, at, at + i + 1)
  {
    hide Reversed;
    ElsewhereBoth(before, s2, s3, at + |prefix|, at + i + 1, at + |prefix|, at + i, at + i + 1);
    PrefixStays(before, s3, at, prefix, at + i + 1);
    ShowsBoth(s3, at, prefix, Reversed(d));
  }

  // ----- what the comments promise -----

  /** The comment at lines 131-139 promises that a text longer than n - 1 characters is not
      printed. The code keeps that promise except for a text of exactly n. */
  lemma PromiseKeptIff(v: nat, n: nat, base: nat)
    requires n > 0 && 2 <= base <= 36
    ensures Width(v, n, base) == (if |Text(v, base)| <= n - 1 then |Text(v, base)| else 0) <==> |Text(v, base)| != n
  {
    hide Digits;
  }

  /** For two digits in base ten there is room in two characters, but not for the NUL. */
  lemma OverrunExample()
    ensures Width(42, 2, 10) == 2 && Written(42, 2, 10) == 3
  {
    TextLength(42, 10);
    assert Quot(42, 10) == 4 && Quot(4, 10) == 0;
    assert |Lsb(4, 10)| == 1;
    assert |Lsb(42, 10)| == 2;
  }

  /** The text of a signed number. */
  function SignedText(v: int, base: nat): string
    requires GoodBase(base)
  {
    if v < 0 then "-" + Text(-v, base) else Text(v, base)
  }

  /** The room i_to_nstr leaves for a negative number's digits: n - 1 in 32 bits, so that
      room for nothing becomes room for everything. */
  function DigitRoom(n: nat): nat { if n == 0 then 0xFFFF_FFFF else n - 1 }

  function SignedWidth(v: int, n: nat, base: nat): nat {
    if v >= 0 then Width(v, n, base)
    else if Width(-v, DigitRoom(n), base) > 0 then Width(-v, DigitRoom(n), base) + 1
    else 0
  }

  /** The end of what i_to_nstr writes. */
  function SignedWritten(v: int, n: nat, base: nat): nat {
    if v >= 0 then Written(v, n, base) else Written(-v, DigitRoom(n), base) + 1
  }

  /** i_to_nstr. The smallest number's negation is taken to wrap to itself, which as an
      unsigned number is its magnitude. */
  method IToNstr(value: int, n: nat, str: array<char>, base: nat) returns (r: nat)
    requires -0x8000_0000 <= value < 0x8000_0000 && SignedWritten(value, n, base) <= str.Length
    modifies str
    ensures SignedPrinted(old(str[..]), str[..], value, n, base, r)
    ensures r > 0 ==> SignedReads(str[..], r, base, value)
  {
    hide Width, Written, Text, ReadsAt, SignedReads;
    if value < 0 {
      var width := UToNstr(-value, DigitRoom(n), str, 1, base);
      if width > 0 {
        str[0] := '-';
        SignedReadsBack(old(str[..]), str[..], value, n, base, width + 1);
        return width + 1;
      } else {
        return 0;
      }
    } else {
      r := UToNstr(value, n, str, 0, base);
      if r > 0 { SignedReadsBack(old(str[..]), str[..], value, n, base, r); }
    }
  }

  /** There are r characters and a NUL, which read back to v; they begin with the sign if there
      is one. */
  ghost predicate SignedReads(str: seq<char>, r: nat, base: nat, v: int) {
    0 < r < |str| && str[r] == '\0' && ReadBack(str[..r], base) == v && (str[0] == '-' <==> v < 0)
  }

  lemma SignedReadsBack(before: seq<char>, after: seq<char>, v: int, n: nat, base: nat, r: nat)
    requires SignedPrinted(before, after, v, n, base, r) && r > 0
    ensures SignedReads(after, r, base, v)
  {
    SignedLength(v, n, base);
    SignedBegins(v, base);
    SignedRoundTrip(v, base, base);
    hide Text, SignedText, SignedWidth, SignedWritten, ReadBack, Elsewhere;
    assert after[..r] == SignedText(v, base);
  }

  lemma SignedLength(v: int, n: nat, base: nat)
    requires SignedWidth(v, n, base) > 0
    ensures 2 <= base <= 36 && SignedWidth(v, n, base) == |SignedText(v, base)|
  {
    hide Text;
  }

  lemma SignedBegins(v: int, base: nat)
    requires 2 <= base <= 36
    ensures |SignedText(v, base)| > 0 && (SignedText(v, base)[0] == '-' <==> v < 0)
  {
    var u := if v < 0 then -v else v;
    TextReadsBack(u, base, base);
    TextIs(u, base);
    hide Text, Digits, ReadUnsigned;
    assert v >= 0 ==> Text(u, base)[..1] == [Text(u, base)[0]];
  }

  // ----- what the comments promise of signed numbers -----

  lemma {:induction false} LsbBound(v: nat, base: nat)
    requires GoodBase(base)
    ensures |Lsb(v, base)| <= v + 1
    decreases v
  {
    hide Quot, Rem, Digit;
    QuotRem(v, base);
    if Quot(v, base) != 0 { LsbBound(Quot(v, base), base); }
  }

  /** 32 bits have at most 2^31 + 3 characters by a very generous count, so room for
      2^32 - 1 of them is room enough. */
  lemma WrapsToEnough(v: nat, base: nat)
    requires GoodBase(base) && v <= 0x8000_0000
    ensures |Text(v, base)| < 0xFFFF_FFFF
  {
    LsbBound(v, base);
    TextLength(v, base);
    hide Lsb, Text;
  }

  /** More than the n characters given are written exactly in these cases: a number without
      a sign as OverrunsIff says; a negative one whose text has exactly n characters, if its
      prefix finds room; and any negative one without room for anything, where n - 1 wraps. */
  lemma SignedOverrunsIff(v: int, n: nat, base: nat)
    requires -0x8000_0000 <= v < 0x8000_0000
    ensures SignedWritten(v, n, base) > n <==>
              if v >= 0 then
                n > 0 && 2 <= base <= 36 && (base == 2 || base == 16 ==> n > 2) && |SignedText(v, base)| == n
              else
                n == 0
                || (n > 1 && 2 <= base <= 36 && (base == 2 || base == 16 ==> n > 3) && |SignedText(v, base)| == n)
  {
    OverrunsIff(if v < 0 then -v else v, if v < 0 then DigitRoom(n) else n, base);
    if v < 0 && n == 0 && GoodBase(base) { WrapsToEnough(-v, base); }
    hide Text;
  }

  /** What i_to_nstr leaves behind. */
  ghost predicate SignedPrinted(before: seq<char>, after: seq<char>, v: int, n: nat, base: nat, r: nat) {
    && r == SignedWidth(v, n, base) && SignedWritten(v, n, base) <= |after|
    && (r > 0 ==> GoodBase(base) && Shows(after, 0, SignedText(v, base)) && r < |after| && after[r] == NUL)
    && (r == 0 && v >= 0 && n > 0 ==> |after| > 0 && after[0] == NUL)
    && (r == 0 && v < 0 ==>
          && |before| == |after| > 0 && after[0] == before[0]
          && (n > 1 ==> |after| > 1 && after[1] == NUL))
    && Elsewhere(before, after, 0, SignedWritten(v, n, base))
  }

  /** What the comment at lines 93-99 promises: a text of more than n - 1 characters is not
      printed, and leaves the empty string. */
  ghost predicate SignedPromise(v: int, n: nat, base: nat, after: seq<char>, r: nat)
    requires GoodBase(base)
  {
    if |SignedText(v, base)| < n then
      r == |SignedText(v, base)| && Shows(after, 0, SignedText(v, base)) && r < |after| && after[r] == NUL
    else
      r == 0 && (n > 0 ==> |after| > 0 && after[0] == NUL)
  }

  lemma SignedWidthIs(v: int, n: nat, base: nat)
    requires -0x8000_0000 <= v < 0x8000_0000 && GoodBase(base)
    ensures SignedWidth(v, n, base)
         == if (v < 0 && n == 0) || |SignedText(v, base)| <= n then |SignedText(v, base)| else 0
    ensures |SignedText(v, base)| > 0
  {
    var u := if v < 0 then -v else v;
    TextLength(u, base);
    WrapsToEnough(u, base);
    assert |Lsb(u, base)| > 0 && (Prefix(base) != "" ==> |Prefix(base)| == 2);
    hide Text, Lsb, Prefix;
  }

  /** It is broken exactly for a text of n characters, for a negative number with n of 0, and
      for a negative number that does not fit where the buffer held no empty string before. */
  lemma SignedPromiseKeptIff(before: seq<char>, after: seq<char>, v: int, n: nat, base: nat, r: nat)
    requires -0x8000_0000 <= v < 0x8000_0000 && 2 <= base <= 36 && SignedPrinted(before, after, v, n, base, r)
    ensures SignedPromise(v, n, base, after, r) <==>
              && |SignedText(v, base)| != n && !(v < 0 && n == 0)
              && !(v < 0 && 0 < n < |SignedText(v, base)| && before[..1] != [NUL])
  {
    SignedWidthIs(v, n, base);
    hide SignedText, SignedWidth, SignedWritten, Shows, Elsewhere;
  }

  /** Whatever is printed reads back to the number, for every number and base. */
  lemma SignedRoundTrip(v: int, base: nat, given: nat)
    requires 2 <= base <= 36 && (given == base || base == 2 || base == 16)
    ensures ReadBack(SignedText(v, base), given) == v
  {
    var u := if v < 0 then -v else v;
    TextReadsBack(u, base, given);
    hide Text, ReadUnsigned;
    if v < 0 { assert SignedText(v, base)[1..] == Text(u, base); }
  }
}
