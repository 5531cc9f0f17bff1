/** Number and string conversions of util/util.go and of the Go standard library calls behind them. */
module Text {
  import opened Types

  /******* Digits *******/

  predicate IsBase(base: nat) {
    2 <= base <= 36
  }

  function DigitChar(d: nat): char
    requires d < 36
  {
    if d < 10 then ('0' as int + d) as char else ('a' as int + d - 10) as char
  }

  /** Value of a digit character, letters in either case; None when it is no digit of the base. */
  function DigitValue(c: char, base: nat): Option<nat> {
    var d := if '0' <= c <= '9' then c as int - '0' as int
             else if 'a' <= c <= 'z' then c as int - 'a' as int + 10
             else if 'A' <= c <= 'Z' then c as int - 'A' as int + 10
             else 36;
    if d < base then Some(d) else None
  }

  lemma {:induction false} QuotientIsSmaller(n: nat, base: nat)
    requires 2 <= base <= n
    ensures 0 < n / base < n && n == n / base * base + n % base
  {
  }

  function Format(n: nat, base: nat): (s: string)
    requires IsBase(base)
    ensures s != ""
    decreases n
  {
    if n < base then [DigitChar(n)] else
      QuotientIsSmaller(n, base);
      Format(n / base, base) + [DigitChar(n % base)]
  }

  predicate IsLowerDigit(c: char) {
    '0' <= c <= '9' || 'a' <= c <= 'z'
  }

  lemma {:induction false} FormatShape(n: nat, base: nat)
    requires IsBase(base)
    ensures forall i :: 0 <= i < |Format(n, base)| ==> IsLowerDigit(Format(n, base)[i])
    ensures n > 0 ==> Format(n, base)[0] != '0'
    decreases n
  {
    if n >= base {
      QuotientIsSmaller(n, base);
      FormatShape(n / base, base);
    }
  }

  /** Positional value of a nonempty digit string. */
  function Value(s: string, base: nat): Option<nat>
    requires IsBase(base)
    decreases |s|
  {
    if s == "" then None else
      match DigitValue(s[|s| - 1], base)
      case None => None
      case Some(d) =>
        if |s| == 1 then Some(d) else
          match Value(s[..|s| - 1], base)
          case None => None
          case Some(v) => Some(v * base + d)
  }

  lemma {:induction false} FormatHasValue(n: nat, base: nat)
    requires IsBase(base)
    ensures Value(Format(n, base), base) == Some(n)
    decreases n
  {
    if n >= base {
      QuotientIsSmaller(n, base);
      FormatHasValue(n / base, base);
      var s := Format(n, base);
      assert s[..|s| - 1] == Format(n / base, base);
      assert DigitValue(s[|s| - 1], base) == Some(n % base);
    }
  }

  lemma {:induction false} FormatIsInjective(m: nat, n: nat, base: nat)
    requires IsBase(base) && Format(m, base) == Format(n, base)
    ensures m == n
  {
    FormatHasValue(m, base);
    FormatHasValue(n, base);
  }

  /******* What numerals mean *******/

  const SMALL_DIGITS := "0123456789abcdefghijklmnopqrstuvwxyz"
  const CAPITAL_DIGITS := "0123456789ABCDEFGHIJKLMNOPQRSTUVWXYZ"

  /** The digits ds, written in characters; capitals only where they are allowed. */
  ghost predicate Spelled(s: string, base: nat, ds: seq<nat>, capitals: bool)
    requires IsBase(base)
  {
    && |s| == |ds| > 0
    && forall i :: 0 <= i < |ds| ==>
         ds[i] < base && (s[i] == SMALL_DIGITS[ds[i]] || (capitals && s[i] == CAPITAL_DIGITS[ds[i]]))
  }

  /** The number with these digits, the highest first. */
  function Weighed(ds: seq<nat>, base: nat): nat
    decreases |ds|
  {
    if ds == [] then 0 else Weighed(ds[..|ds| - 1], base) * base + ds[|ds| - 1]
  }

  lemma {:induction false} DigitsInOrder(d: nat)
    requires d < 36
    ensures SMALL_DIGITS[d] == if d < 10 then ('0' as int + d) as char else ('a' as int + d - 10) as char
    ensures CAPITAL_DIGITS[d] == if d < 10 then ('0' as int + d) as char else ('A' as int + d - 10) as char
  {
  }

  /** Printing: the digits of the number in small letters, without leading zero. */
  lemma {:induction false} FormatMeans(n: nat, base: nat) returns (ds: seq<nat>)
    requires IsBase(base)
    ensures Spelled(Format(n, base), base, ds, false) && Weighed(ds, base) == n && (|ds| > 1 ==> ds[0] != 0)
    decreases n
  {
    if n < base {
      DigitsInOrder(n);
      ds := [n];
      assert ds[..0] == [];
    } else {
      QuotientIsSmaller(n, base);
      DigitsInOrder(n % base);
      var front := FormatMeans(n / base, base);
      ds := front + [n % base];
      assert ds[..|ds| - 1] == front;
      if |front| == 1 {
        assert front[..0] == [];
      }
    }
  }

  lemma {:induction false} DigitValueMeans(c: char, base: nat, d: nat)
    requires IsBase(base)
    ensures DigitValue(c, base) == Some(d) <==> d < base && (c == SMALL_DIGITS[d] || c == CAPITAL_DIGITS[d])
  {
    if d < 36 {
      DigitsInOrder(d);
    }
  }

  lemma {:induction false} SpelledWithoutLast(s: string, base: nat, ds: seq<nat>)
    requires IsBase(base) && Spelled(s, base, ds, true) && |s| > 1
    ensures Spelled(s[..|s| - 1], base, ds[..|ds| - 1], true)
  {
    var front, less := s[..|s| - 1], ds[..|ds| - 1];
    forall i | 0 <= i < |less|
      ensures less[i] < base && (front[i] == SMALL_DIGITS[less[i]] || front[i] == CAPITAL_DIGITS[less[i]])
    {
      assert less[i] == ds[i] && front[i] == s[i];
    }
  }

  /** Parsing: a text has a value exactly if it consists of digits of the base, one at least, in letters of either case; then it
      is the number with these digits. */
  lemma {:induction false} ValueMeans(s: string, base: nat, ds: seq<nat>)
    requires IsBase(base) && Spelled(s, base, ds, true)
    ensures Value(s, base) == Some(Weighed(ds, base))
    decreases |s|
  {
    var last := |s| - 1;
    assert DigitValue(s[last], base) == Some(ds[last]) by {
      DigitValueMeans(s[last], base, ds[last]);
    }
    if last > 0 {
      assert Value(s[..last], base) == Some(Weighed(ds[..last], base)) by {
        SpelledWithoutLast(s, base, ds);
        ValueMeans(s[..last], base, ds[..last]);
      }
    } else {
      assert ds[..0] == [];
    }
    hide DigitValue, Spelled;
  }

  lemma {:induction false} ValueNeedsDigits(s: string, base: nat) returns (ds: seq<nat>)
    requires IsBase(base) && Value(s, base).Some?
    ensures Spelled(s, base, ds, true)
    decreases |s|
  {
    var last := |s| - 1;
    var d := DigitValue(s[last], base).value;
    DigitValueMeans(s[last], base, d);
    if last > 0 {
      var front := ValueNeedsDigits(s[..last], base);
      ds := front + [d];
      forall i | 0 <= i < last
        ensures ds[i] < base && (s[i] == SMALL_DIGITS[ds[i]] || s[i] == CAPITAL_DIGITS[ds[i]])
      {
        assert s[..last][i] == s[i];
      }
    } else {
      ds := [d];
    }
  }

  /******* Decimal and hexadecimal conversions *******/

  function Decimal(n: nat): string {
    Format(n, 10)
  }

  function Signed(i: int): string {
    if i < 0 then "-" + Decimal(-i) else Decimal(i)
  }

  /** Unsigned 64-bit decimal, with range check. */
  function StringToUint64(s: string): Option<nat> {
    match Value(s, 10)
    case None => None
    case Some(v) => if v < UINT64_LIMIT then Some(v) else None
  }

  /** Signed 64-bit decimal with an optional sign, with range check. */
  function StringToInt64(s: string): Option<int> {
    var negative := s != "" && s[0] == '-';
    var digits := if s != "" && (s[0] == '-' || s[0] == '+') then s[1..] else s;
    match Value(digits, 10)
    case None => None
    case Some(v) =>
      var i: int := if negative then -(v as int) else v;
      if -INT64_LIMIT <= i < INT64_LIMIT then Some(i) else None
  }

  /** An unsigned number parses exactly if it consists of decimal digits and stays below 2^64. */
  lemma {:induction false} StringToUint64Means(s: string, n: nat)
    ensures StringToUint64(s) == Some(n) <==>
      n < UINT64_LIMIT && exists ds :: Spelled(s, 10, ds, true) && Weighed(ds, 10) == n
  {
    if StringToUint64(s) == Some(n) {
      var ds := ValueNeedsDigits(s, 10);
      ValueMeans(s, 10, ds);
    }
    if ds :| Spelled(s, 10, ds, true) && Weighed(ds, 10) == n {
      ValueMeans(s, 10, ds);
    }
  }

  lemma {:induction false} NoSignAmongDigits(digits: string, ds: seq<nat>)
    requires Spelled(digits, 10, ds, true)
    ensures digits[0] != '-' && digits[0] != '+'
  {
    DigitsInOrder(ds[0]);
  }

  /** A signed number parses like its digits, with at most one sign before them, within the signed 64-bit range. */
  lemma {:induction false} StringToInt64Means(digits: string, ds: seq<nat>)
    requires Spelled(digits, 10, ds, true)
    ensures var n: int := Weighed(ds, 10);
      && StringToInt64(digits) == (if n < INT64_LIMIT then Some(n) else None)
      && StringToInt64("+" + digits) == (if n < INT64_LIMIT then Some(n) else None)
      && StringToInt64("-" + digits) == (if n <= INT64_LIMIT then Some(-n) else None)
  {
    NoSignAmongDigits(digits, ds);
    ValueMeans(digits, 10, ds);
    hide Spelled, Value, Weighed;
    assert ("+" + digits)[1..] == digits && ("-" + digits)[1..] == digits;
  }

  lemma {:induction false} SignedNeedsDigits(s: string) returns (digits: string, ds: seq<nat>)
    requires StringToInt64(s).Some?
    ensures (s == digits || s == "+" + digits || s == "-" + digits) && Spelled(digits, 10, ds, true)
  {
    digits := if s != "" && (s[0] == '-' || s[0] == '+') then s[1..] else s;
    ds := ValueNeedsDigits(digits, 10);
    assert s != "" ==> s == [s[0]] + s[1..];
  }

  /** The base that a prefix announces. */
  ghost predicate Announces(prefix: string, base: nat) {
    || ((prefix == "0x" || prefix == "0X") && base == 16)
    || ((prefix == "0o" || prefix == "0O" || prefix == "0") && base == 8)
    || ((prefix == "0b" || prefix == "0B") && base == 2)
  }

  /** A transaction index is read in the base its prefix announces, below 2^64. */
  lemma {:induction false} PrefixedMeans(prefix: string, base: nat, digits: string, ds: seq<nat>)
    requires Announces(prefix, base) && Spelled(digits, base, ds, true)
    ensures HexToUint64(prefix + digits) == InRange(Some(Weighed(ds, base)))
  {
    var s := prefix + digits;
    assert Value(digits, base) == Some(Weighed(ds, base)) by {
      ValueMeans(digits, base, ds);
    }
    assert s[|prefix|..] == digits;
    forall i | 0 <= i < |s| ensures s[i] != '_' {
      NoUnderscores(digits, base, ds);
      assert i >= |prefix| ==> s[i] == digits[i - |prefix|];
    }
    assert '0' <= s[|prefix|] <= '9' || base == 16 by {
      DigitsInOrder(ds[0]);
    }
    hide Spelled, Value, Weighed, InRange;
  }

  lemma {:induction false} NoUnderscores(digits: string, base: nat, ds: seq<nat>)
    requires IsBase(base) && Spelled(digits, base, ds, true)
    ensures forall i :: 0 <= i < |digits| ==> digits[i] != '_'
  {
    forall i | 0 <= i < |digits| ensures digits[i] != '_' {
      DigitsInOrder(ds[i]);
    }
  }

  /** Without prefix it is decimal. */
  lemma {:induction false} UnprefixedMeans(digits: string, ds: seq<nat>)
    requires Spelled(digits, 10, ds, true) && ds[0] != 0
    ensures HexToUint64(digits) == InRange(Some(Weighed(ds, 10)))
  {
    ValueMeans(digits, 10, ds);
    NoUnderscores(digits, 10, ds);
    DigitsInOrder(ds[0]);
  }

  lemma {:induction false} Uint64RoundTrip(n: nat)
    ensures StringToUint64(Decimal(n)) == if n < UINT64_LIMIT then Some(n) else None
  {
    FormatHasValue(n, 10);
  }

  lemma {:induction false} Int64RoundTrip(i: int)
    ensures StringToInt64(Signed(i)) == if -INT64_LIMIT <= i < INT64_LIMIT then Some(i) else None
  {
    FormatShape(if i < 0 then -i else i, 10);
    FormatHasValue(if i < 0 then -i else i, 10);
    if i < 0 {
      assert Signed(i)[1..] == Decimal(-i);
    }
  }

  lemma {:induction false} SignedIsInjective(i: int, j: int)
    requires Signed(i) == Signed(j)
    ensures i == j
  {
    FormatShape(if i < 0 then -i else i, 10);
    FormatShape(if j < 0 then -j else j, 10);
    assert i < 0 <==> Signed(i)[0] == '-';
    assert j < 0 <==> Signed(j)[0] == '-';
    if i < 0 {
      assert Signed(i)[1..] == Decimal(-i) && Signed(j)[1..] == Decimal(-j);
      FormatIsInjective(-i, -j, 10);
    } else {
      FormatIsInjective(i, j, 10);
    }
  }

  /** Underscores may stand only between digits, or between a base prefix and a digit: `prev` is '0' after a digit or
      prefix, '_' after an underscore, '!' otherwise. */
  predicate UnderscoresFine(s: string, prev: char, hex: bool)
    decreases |s|
  {
    if s == "" then prev != '_' else
      var c := s[0];
      if '0' <= c <= '9' || (hex && ('a' <= c <= 'f' || 'A' <= c <= 'F')) then UnderscoresFine(s[1..], '0', hex)
      else if c == '_' then prev == '0' && UnderscoresFine(s[1..], '_', hex)
      else prev != '_' && UnderscoresFine(s[1..], '!', hex)
  }

  function WithoutUnderscores(s: string): string
    decreases |s|
  {
    if s == "" then "" else (if s[0] == '_' then "" else [s[0]]) + WithoutUnderscores(s[1..])
  }

  /** Unsigned 64-bit number in the base its prefix announces: 0x, 0b, 0o or a leading 0, else decimal. */
  function HexToUint64(s: string): (r: Option<nat>)
    ensures r.Some? ==> r.value < UINT64_LIMIT
  {
    var letter := if |s| >= 3 && s[0] == '0' then s[1] else ' ';
    var base := if letter == 'x' || letter == 'X' then 16
                else if letter == 'b' || letter == 'B' then 2
                else if letter == 'o' || letter == 'O' then 8
                else if s != "" && s[0] == '0' then 8
                else 10;
    var prefixed := base == 16 || base == 2 || letter == 'o' || letter == 'O';
    var digits := if prefixed then s[2..] else if base == 8 then s[1..] else s;
    if s == "0" then Some(0)
    else if exists i :: 0 <= i < |s| && s[i] == '_' then
      if !UnderscoresFine(if prefixed then s[2..] else s, if prefixed then '0' else '!', base == 16) then None
      else InRange(Value(WithoutUnderscores(digits), base))
    else InRange(Value(digits, base))
  }

  function InRange(v: Option<nat>): Option<nat> {
    if v.Some? && v.value < UINT64_LIMIT then v else None
  }

  function Int64ToHex(i: int): string {
    "0x" + if i < 0 then "-" + Format(-i, 16) else Format(i, 16)
  }

  /** The transaction index printed for a client reads back as itself. */
  lemma {:induction false} HexRoundTrip(i: int)
    requires 0 <= i < INT64_LIMIT
    ensures HexToUint64(Int64ToHex(i)) == Some(i)
  {
    var s := Int64ToHex(i);
    assert s[2..] == Format(i, 16);
    FormatHasValue(i, 16);
    FormatShape(i, 16);
    assert forall k :: 2 <= k < |s| ==> s[k] == Format(i, 16)[k - 2];
  }

  lemma {:induction false} MinusIsNoDigit(rest: string)
    ensures Value("-" + rest, 16).None?
  {
    if Value("-" + rest, 16).Some? {
      var ds := ValueNeedsDigits("-" + rest, 16);
      DigitsInOrder(ds[0]);
    }
  }

  /** A negative index prints to something that does not read back. */
  lemma {:induction false} NegativeHexIsLost(i: int)
    requires i < 0
    ensures HexToUint64(Int64ToHex(i)).None?
  {
    var s, number := Int64ToHex(i), Format(-i, 16);
    assert s[2..] == "-" + number;
    forall k | 0 <= k < |s| ensures s[k] != '_' {
      FormatShape(-i, 16);
      assert k >= 3 ==> s[k] == number[k - 3];
    }
    MinusIsNoDigit(number);
    hide Value, Format;
  }

  /******* Splitting and joining *******/

  /** The pieces between separators, empty ones included. */
  function Split(s: string, sep: char): (parts: seq<string>)
    ensures |parts| > 0
    ensures forall i :: 0 <= i < |parts| ==> sep !in parts[i]
    decreases |s|
  {
    if s == "" then [""] else
      var rest := Split(s[1..], sep);
      if s[0] == sep then [""] + rest else [[s[0]] + rest[0]] + rest[1..]
  }

  function Join(parts: seq<string>, sep: char): string
    decreases |parts|
  {
    if parts == [] then "" else if |parts| == 1 then parts[0] else parts[0] + [sep] + Join(parts[1..], sep)
  }

  lemma {:induction false} SplitOfPiece(p: string, sep: char)
    requires sep !in p
    ensures Split(p, sep) == [p]
    decreases |p|
  {
    if p != "" {
      assert p[0] in p;
      SplitOfPiece(p[1..], sep);
      assert [p[0]] + p[1..] == p;
    }
  }

  lemma {:induction false} SplitAtFirst(p: string, rest: string, sep: char)
    requires sep !in p
    ensures Split(p + [sep] + rest, sep) == [p] + Split(rest, sep)
    decreases |p|
  {
    var s := p + [sep] + rest;
    if p == "" {
      assert s[1..] == rest;
    } else {
      assert p[0] in p;
      assert s[1..] == p[1..] + [sep] + rest;
      SplitAtFirst(p[1..], rest, sep);
      assert [p[0]] + p[1..] == p;
    }
  }

  /** Splitting undoes joining pieces that do not contain the separator. */
  lemma {:induction false} SplitUndoesJoin(parts: seq<string>, sep: char)
    requires parts != [] && forall i :: 0 <= i < |parts| ==> sep !in parts[i]
    ensures Split(Join(parts, sep), sep) == parts
    decreases |parts|
  {
    if |parts| == 1 {
      SplitOfPiece(parts[0], sep);
    } else {
      SplitUndoesJoin(parts[1..], sep);
      SplitAtFirst(parts[0], Join(parts[1..], sep), sep);
    }
  }

  /******* Underscores in a transaction index *******/

  ghost predicate HexOrUnderscore(t: string) {
    forall i :: 0 <= i < |t| ==> t[i] == '_' || DigitValue(t[i], 16).Some?
  }

  /** Every underscore has a digit behind it. */
  ghost predicate Separates(t: string) {
    forall i :: 0 <= i < |t| && t[i] == '_' ==> i + 1 < |t| && t[i + 1] != '_'
  }

  lemma {:induction false} FineMeans(t: string)
    requires HexOrUnderscore(t)
    ensures UnderscoresFine(t, '0', true) <==> Separates(t)
    ensures UnderscoresFine(t, '_', true) <==> Separates(t) && t != "" && t[0] != '_'
    decreases |t|
  {
    if t != "" {
      var rest := t[1..];
      assert HexOrUnderscore(rest);
      FineMeans(rest);
      assert Separates(t) <==> Separates(rest) && (t[0] == '_' ==> rest != "" && rest[0] != '_') by {
        if Separates(t) {
          forall i | 0 <= i < |rest| && rest[i] == '_' ensures i + 1 < |rest| && rest[i + 1] != '_' {
            assert t[i + 1] == '_';
          }
        }
        if Separates(rest) && (t[0] == '_' ==> rest != "" && rest[0] != '_') {
          forall i | 0 <= i < |t| && t[i] == '_' ensures i + 1 < |t| && t[i + 1] != '_' {
            if i > 0 {
              assert rest[i - 1] == '_';
            }
          }
        }
      }
    }
  }

  function Glue(parts: seq<string>): string
    decreases |parts|
  {
    if parts == [] then "" else parts[0] + Glue(parts[1..])
  }

  /** What is left are the pieces between the underscores. */
  lemma {:induction false} WithoutUnderscoresMeans(t: string)
    ensures WithoutUnderscores(t) == Glue(Split(t, '_'))
    decreases |t|
  {
    if t != "" {
      WithoutUnderscoresMeans(t[1..]);
      var rest := Split(t[1..], '_');
      if t[0] == '_' {
        assert Split(t, '_')[1..] == rest;
      } else {
        assert Split(t, '_')[1..] == rest[1..];
        assert [t[0]] + (rest[0] + Glue(rest[1..])) == ([t[0]] + rest[0]) + Glue(rest[1..]);
      }
    }
  }

  /** A hexadecimal index is read as if its underscores were not there, if each has a digit behind it; otherwise not at all. */
  lemma {:induction false} UnderscoresMean(t: string)
    requires t != "" && HexOrUnderscore(t)
    ensures HexToUint64("0x" + t) == if Separates(t) then InRange(Value(Glue(Split(t, '_')), 16)) else None
  {
    hide DigitValue, Value, Split, Glue;
    var s := "0x" + t;
    assert s[2..] == t;
    WithoutUnderscoresMeans(t);
    FineMeans(t);
    if forall i :: 0 <= i < |s| ==> s[i] != '_' {
      NothingToShed(t) by {
        forall i | 0 <= i < |t| ensures t[i] != '_' {
          assert s[i + 2] == t[i];
        }
      }
    }
  }

  lemma {:induction false} NothingToShed(t: string)
    requires forall i :: 0 <= i < |t| ==> t[i] != '_'
    ensures WithoutUnderscores(t) == t && Separates(t)
    decreases |t|
  {
    if t != "" {
      NothingToShed(t[1..]);
      assert [t[0]] + t[1..] == t;
    }
  }

  /******* The comma list codec *******/

  predicate IsSpace(c: char) {
    || '\U{0009}' <= c <= '\U{000D}' || c == ' ' || c == '\U{0085}' || c == '\U{00A0}' || c == '\U{1680}'
    || '\U{2000}' <= c <= '\U{200A}' || c == '\U{2028}' || c == '\U{2029}' || c == '\U{202F}' || c == '\U{205F}' || c == '\U{3000}'
  }

  function TrimLeft(s: string): (t: string)
    ensures t == "" || !IsSpace(t[0])
    ensures |t| <= |s| && t == s[|s| - |t|..]
    decreases |s|
  {
    if s == "" || !IsSpace(s[0]) then s else TrimLeft(s[1..])
  }

  function TrimRight(s: string): (t: string)
    ensures t == "" || !IsSpace(t[|t| - 1])
    ensures t <= s
    decreases |s|
  {
    if s == "" || !IsSpace(s[|s| - 1]) then s else TrimRight(s[..|s| - 1])
  }

  function TrimSpace(s: string): string {
    TrimRight(TrimLeft(s))
  }

  /** Neither empty nor bordered by white space. */
  predicate IsTrimmed(s: string) {
    s != "" && !IsSpace(s[0]) && !IsSpace(s[|s| - 1])
  }

  lemma {:induction false} TrimmedIsFixed(s: string)
    requires IsTrimmed(s)
    ensures TrimSpace(s) == s
  {
  }

  lemma {:induction false} TrimSpaceTrims(s: string)
    ensures TrimSpace(s) == "" || IsTrimmed(TrimSpace(s))
    ensures forall c :: c in TrimSpace(s) ==> c in s
  {
    var left := TrimLeft(s);
    var t := TrimRight(left);
    if t != "" {
      assert t[0] == left[0];
    }
    forall c | c in t ensures c in s {
      assert c in left;
    }
  }

  /** The white space of ASCII: tab, line feed, vertical tab, form feed, carriage return and space. */
  const ASCII_SPACES := ['\t', '\n', '\U{000B}', '\U{000C}', '\r', ' ']

  lemma {:induction false} SpacesOfAscii(c: char)
    requires c as int < 128
    ensures IsSpace(c) <==> c in ASCII_SPACES
  {
    assert ASCII_SPACES[0] == '\U{0009}' && ASCII_SPACES[1] == '\U{000A}' && ASCII_SPACES[4] == '\U{000D}';
    assert forall i :: 0 <= i < 6 ==> ASCII_SPACES[i] in ASCII_SPACES;
  }

  predicate Blank(s: string) {
    forall i :: 0 <= i < |s| ==> IsSpace(s[i])
  }

  lemma {:induction false} TrimLeftMeans(left: string, s: string)
    requires Blank(left) && (s == "" || !IsSpace(s[0]))
    ensures TrimLeft(left + s) == s
    decreases |left|
  {
    if left == "" {
      assert left + s == s;
    } else {
      assert IsSpace(left[0]);
      assert (left + s)[1..] == left[1..] + s;
      TrimLeftMeans(left[1..], s);
    }
  }

  lemma {:induction false} TrimRightMeans(s: string, right: string)
    requires Blank(right) && (s == "" || !IsSpace(s[|s| - 1]))
    ensures TrimRight(s + right) == s
    decreases |right|
  {
    if right == "" {
      assert s + right == s;
    } else {
      var last := |right| - 1;
      assert IsSpace(right[last]);
      assert (s + right)[..|s| + last] == s + right[..last];
      TrimRightMeans(s, right[..last]);
    }
  }

  lemma {:induction false} BlankTogether(left: string, right: string)
    requires Blank(left) && Blank(right)
    ensures Blank(left + right)
  {
    hide IsSpace;
  }

  lemma {:induction false} BlankTrimsAway(s: string)
    requires Blank(s)
    ensures TrimSpace(s) == ""
  {
    TrimLeftMeans(s, "");
    assert s + "" == s;
    hide IsSpace, Blank;
  }

  /** Trimming takes exactly the white space off both ends. */
  lemma {:induction false} TrimSpaceMeans(left: string, core: string, right: string)
    requires Blank(left) && Blank(right) && (core == "" || IsTrimmed(core))
    ensures TrimSpace(left + core + right) == core
  {
    hide TrimLeft, TrimRight, IsSpace, Blank;
    if core == "" {
      hide TrimSpace;
      BlankTogether(left, right);
      BlankTrimsAway(left + right);
      assert left + core + right == left + right;
    } else {
      TrimLeftMeans(left, core + right);
      assert left + core + right == left + (core + right);
      TrimRightMeans(core, right);
    }
  }

  function Keep(part: string): seq<string> {
    var item := TrimSpace(part);
    if item == "" then [] else [item]
  }

  /** The trimmed nonempty pieces, in order. */
  function Kept(parts: seq<string>): seq<string>
    decreases |parts|
  {
    if parts == [] then [] else Kept(parts[..|parts| - 1]) + Keep(parts[|parts| - 1])
  }

  function CommaItems(s: string): seq<string> {
    Kept(Split(TrimSpace(s), ','))
  }

  method SplitByComma(str: string) returns (trimStr: seq<string>)
    ensures trimStr == CommaItems(str)
  {
    hide TrimSpace, Split;
    var strArr := Split(TrimSpace(str), ',');
    trimStr := [];
    for i := 0 to |strArr|
      invariant trimStr == Kept(strArr[..i])
    {
      var item := TrimSpace(strArr[i]);
      assert strArr[..i + 1][..i] == strArr[..i];
      if |item| > 0 {
        trimStr := trimStr + [item];
      }
    }
    assert strArr[..|strArr|] == strArr;
  }

  function JoinWithComma(items: seq<string>): string {
    Join(items, ',')
  }

  /** What a list item must be for the codec to carry it. */
  predicate IsItem(s: string) {
    IsTrimmed(s) && ',' !in s
  }

  lemma {:induction false} KeptItems(parts: seq<string>)
    requires forall i :: 0 <= i < |parts| ==> ',' !in parts[i]
    ensures forall i :: 0 <= i < |Kept(parts)| ==> IsItem(Kept(parts)[i])
    decreases |parts|
  {
    if parts != [] {
      KeptItems(parts[..|parts| - 1]);
      TrimSpaceTrims(parts[|parts| - 1]);
    }
  }

  lemma {:induction false} KeptFixed(items: seq<string>)
    requires forall i :: 0 <= i < |items| ==> Keep(items[i]) == [items[i]]
    ensures Kept(items) == items
    decreases |items|
  {
    if items != [] {
      var last := |items| - 1;
      var front := items[..last];
      KeptFixed(front);
      assert Keep(items[last]) == [items[last]];
      assert front + [items[last]] == items;
    }
  }

  lemma {:induction false} JoinEnds(items: seq<string>)
    requires items != [] && forall i :: 0 <= i < |items| ==> IsItem(items[i])
    ensures IsTrimmed(JoinWithComma(items))
    decreases |items|
  {
    if |items| > 1 {
      JoinEnds(items[1..]);
    }
  }

  lemma {:induction false} SplitJoinedNothing()
    ensures CommaItems("") == []
  {
    assert Split("", ',') == [""];
    assert [""][..0] == [];
    assert Kept([""]) == Kept([]);
  }

  lemma {:induction false} SplitJoinedItems(items: seq<string>)
    requires forall i :: 0 <= i < |items| ==> IsItem(items[i])
    ensures CommaItems(JoinWithComma(items)) == items
  {
    if items == [] {
      SplitJoinedNothing();
    } else {
      JoinEnds(items);
      TrimmedIsFixed(JoinWithComma(items));
      SplitUndoesJoin(items, ',');
      forall i | 0 <= i < |items| ensures Keep(items[i]) == [items[i]] {
        TrimmedIsFixed(items[i]);
      }
      KeptFixed(items);
    }
  }

  /** Splitting a joined list returns the list exactly when its items are nonempty, trimmed and comma-free. */
  lemma {:induction false} CommaRoundTrip(items: seq<string>)
    ensures CommaItems(JoinWithComma(items)) == items <==> forall i :: 0 <= i < |items| ==> IsItem(items[i])
  {
    KeptItems(Split(TrimSpace(JoinWithComma(items)), ','));
    if forall i :: 0 <= i < |items| ==> IsItem(items[i]) {
      SplitJoinedItems(items);
    }
  }

  /** For every string, splitting what was joined after splitting changes nothing. */
  lemma {:induction false} SplitJoinSplit(s: string)
    ensures CommaItems(JoinWithComma(CommaItems(s))) == CommaItems(s)
  {
    KeptItems(Split(TrimSpace(s), ','));
    SplitJoinedItems(CommaItems(s));
  }

  /******* Letters in either case *******/

  const SMALL_LETTERS := "abcdefghijklmnopqrstuvwxyz"
  const CAPITAL_LETTERS := "ABCDEFGHIJKLMNOPQRSTUVWXYZ"

  /** The two cases of one letter of the ASCII alphabet. */
  ghost predicate TwoCases(c: char, d: char) {
    exists k :: 0 <= k < 26 &&
      ((c == SMALL_LETTERS[k] && d == CAPITAL_LETTERS[k]) || (c == CAPITAL_LETTERS[k] && d == SMALL_LETTERS[k]))
  }

  /** Equal position by position up to the case of letters. */
  ghost predicate SameButCase(a: string, b: string) {
    |a| == |b| && forall i :: 0 <= i < |a| ==> a[i] == b[i] || TwoCases(a[i], b[i])
  }

  lemma {:induction false} LettersInOrder(k: nat)
    requires k < 26
    ensures SMALL_LETTERS[k] == ('a' as int + k) as char && CAPITAL_LETTERS[k] == ('A' as int + k) as char
  {
  }

  lemma {:induction false} TwoCasesMeans(c: char, d: char)
    ensures TwoCases(c, d) <==>
      || ('a' <= c <= 'z' && d as int == c as int - 'a' as int + 'A' as int)
      || ('A' <= c <= 'Z' && d as int == c as int - 'A' as int + 'a' as int)
  {
    if TwoCases(c, d) {
      var k :| 0 <= k < 26 &&
        ((c == SMALL_LETTERS[k] && d == CAPITAL_LETTERS[k]) || (c == CAPITAL_LETTERS[k] && d == SMALL_LETTERS[k]));
      LettersInOrder(k);
    }
    if 'a' <= c <= 'z' {
      LettersInOrder(c as int - 'a' as int);
    }
    if 'A' <= c <= 'Z' {
      LettersInOrder(c as int - 'A' as int);
    }
  }

  /******* Hexadecimal payloads and their hash *******/

  function Nibble(c: char): Option<nat> {
    DigitValue(c, 16)
  }

  /** Bytes of an even-length string of hexadecimal digits. */
  function HexBytes(s: string): Option<bytes>
    decreases |s|
  {
    if s == "" then Some([])
    else if |s| == 1 then None
    else
      match (Nibble(s[0]), Nibble(s[1]), HexBytes(s[2..]))
      case (Some(h), Some(l), Some(rest)) => Some([(16 * h + l) as byte] + rest)
      case _ => None
  }

  /** What a blob text denotes: hexadecimal with or without the 0x prefix. */
  function Decode(hexStr: string): Option<bytes> {
    if "0x" <= hexStr then HexBytes(hexStr[2..]) else HexBytes(hexStr)
  }

  const SMALL_HEX := "0123456789abcdef"
  const CAPITAL_HEX := "0123456789ABCDEF"

  /** c is how d is written as a hexadecimal digit. */
  ghost predicate StandsFor(c: char, d: int) {
    0 <= d < 16 && (c == SMALL_HEX[d] || c == CAPITAL_HEX[d])
  }

  ghost predicate IsHexDigit(c: char) {
    exists d :: StandsFor(c, d)
  }

  /** Two digits for each byte, the high one first. */
  ghost predicate Spells(s: string, bz: bytes) {
    && |s| == 2 * |bz|
    && forall i :: 0 <= i < |bz| ==> StandsFor(s[2 * i], bz[i] as int / 16) && StandsFor(s[2 * i + 1], bz[i] as int % 16)
  }

  /** Hexadecimal digits only, and an even number of them. */
  ghost predicate IsHex(s: string) {
    |s| % 2 == 0 && forall i :: 0 <= i < |s| ==> IsHexDigit(s[i])
  }

  lemma {:induction false} HexInOrder(d: nat)
    requires d < 16
    ensures SMALL_HEX[d] == if d < 10 then ('0' as int + d) as char else ('a' as int + d - 10) as char
    ensures CAPITAL_HEX[d] == if d < 10 then ('0' as int + d) as char else ('A' as int + d - 10) as char
  {
  }

  lemma {:induction false} NibbleMeans(c: char)
    ensures forall d :: StandsFor(c, d) <==> Nibble(c) == Some(d)
    ensures IsHexDigit(c) <==> Nibble(c).Some?
  {
    forall d ensures StandsFor(c, d) <==> 0 <= d && Nibble(c) == Some(d) {
      if 0 <= d < 16 {
        HexInOrder(d);
      }
    }
    if Nibble(c).Some? {
      assert StandsFor(c, Nibble(c).value);
    }
  }

  /** A text yields these bytes exactly if it spells them, in letters of either case. */
  lemma {:induction false} HexBytesMeans(s: string, bz: bytes)
    ensures HexBytes(s) == Some(bz) <==> Spells(s, bz)
    decreases |s|
  {
    if |s| >= 2 && bz != [] {
      hide StandsFor, Nibble, Spells;
      NibbleMeans(s[0]);
      NibbleMeans(s[1]);
      HexBytesMeans(s[2..], bz[1..]);
      SpellsRest(s, bz);
      FirstByte(s, bz);
    }
  }

  lemma {:induction false} FirstByte(s: string, bz: bytes)
    requires |s| >= 2 && bz != []
    ensures HexBytes(s) == Some(bz) <==>
      && Nibble(s[0]) == Some(bz[0] as int / 16) && Nibble(s[1]) == Some(bz[0] as int % 16)
      && HexBytes(s[2..]) == Some(bz[1..])
  {
    hide DigitValue;
    assert bz == [bz[0]] + bz[1..];
    NibblesAreSmall(s[0]);
    NibblesAreSmall(s[1]);
  }

  lemma {:induction false} NibblesAreSmall(c: char)
    ensures Nibble(c).Some? ==> Nibble(c).value < 16
  {
  }

  lemma {:induction false} SpellsRest(s: string, bz: bytes)
    requires |s| >= 2 && bz != []
    ensures Spells(s, bz) <==> StandsFor(s[0], bz[0] as int / 16) && StandsFor(s[1], bz[0] as int % 16) && Spells(s[2..], bz[1..])
  {
    if Spells(s, bz) {
      forall i | 0 <= i < |bz| - 1
        ensures StandsFor(s[2..][2 * i], bz[1..][i] as int / 16) && StandsFor(s[2..][2 * i + 1], bz[1..][i] as int % 16)
      {
        assert StandsFor(s[2 * (i + 1)], bz[i + 1] as int / 16) && StandsFor(s[2 * (i + 1) + 1], bz[i + 1] as int % 16);
      }
    }
    if StandsFor(s[0], bz[0] as int / 16) && StandsFor(s[1], bz[0] as int % 16) && Spells(s[2..], bz[1..]) {
      forall i | 0 <= i < |bz|
        ensures StandsFor(s[2 * i], bz[i] as int / 16) && StandsFor(s[2 * i + 1], bz[i] as int % 16)
      {
        if i > 0 {
          assert StandsFor(s[2..][2 * (i - 1)], bz[1..][i - 1] as int / 16);
          assert StandsFor(s[2..][2 * (i - 1) + 1], bz[1..][i - 1] as int % 16);
        }
      }
    }
  }

  lemma {:induction false} IsHexRest(s: string)
    requires |s| >= 2
    ensures IsHex(s) <==> IsHexDigit(s[0]) && IsHexDigit(s[1]) && IsHex(s[2..])
  {
    hide IsHexDigit;
    if IsHex(s) {
      forall i | 0 <= i < |s| - 2 ensures IsHexDigit(s[2..][i]) {
        assert s[2..][i] == s[i + 2];
      }
    }
    if IsHexDigit(s[0]) && IsHexDigit(s[1]) && IsHex(s[2..]) {
      forall i | 0 <= i < |s| ensures IsHexDigit(s[i]) {
        assert i >= 2 ==> s[i] == s[2..][i - 2];
      }
    }
  }

  /** It yields bytes at all exactly if it consists of an even number of hexadecimal digits, and then half as many. */
  lemma {:induction false} HexBytesExist(s: string)
    ensures HexBytes(s).Some? <==> IsHex(s)
    ensures HexBytes(s).Some? ==> 2 * |HexBytes(s).value| == |s|
    decreases |s|
  {
    if |s| >= 2 {
      hide IsHexDigit, Nibble;
      NibbleMeans(s[0]);
      NibbleMeans(s[1]);
      HexBytesExist(s[2..]);
      IsHexRest(s);
    }
  }

  /** How bytes are printed, in small letters or capitals. */
  function PrintHex(bz: bytes, capitals: bool): (s: string)
    ensures Spells(s, bz)
    decreases |bz|
  {
    if bz == [] then "" else
      var digits := if capitals then CAPITAL_HEX else SMALL_HEX;
      var h, l := bz[0] as int / 16, bz[0] as int % 16;
      var s := [digits[h], digits[l]] + PrintHex(bz[1..], capitals);
      assert s[2..] == PrintHex(bz[1..], capitals);
      SpellsRest(s, bz);
      s
  }

  /** The text after the prefix, if there is one. */
  function Digits(text: string): string {
    if "0x" <= text then text[2..] else text
  }

  /** Decoding undoes printing, with and without prefix. */
  lemma {:induction false} DecodeUndoesPrint(bz: bytes, capitals: bool)
    ensures Decode(PrintHex(bz, capitals)) == Some(bz) && Decode("0x" + PrintHex(bz, capitals)) == Some(bz)
  {
    var s := PrintHex(bz, capitals);
    HexBytesMeans(s, bz);
    assert ("0x" + s)[2..] == s;
    if "0x" <= s {
      assert s[1] == "0x"[1] && StandsFor(s[1], bz[0] as int % 16);
      HexInOrder(bz[0] as int % 16);
    }
  }

  /** Both are hexadecimal and the same up to a prefix and the case of letters. */
  ghost predicate SameHex(a: string, b: string) {
    IsHex(Digits(a)) && IsHex(Digits(b)) && SameButCase(Digits(a), Digits(b))
  }

  lemma {:induction false} SameDigit(c: char, e: char, d: int)
    requires StandsFor(c, d)
    ensures StandsFor(e, d) <==> c == e || TwoCases(c, e)
  {
    HexInOrder(d);
    TwoCasesMeans(c, e);
  }

  lemma {:induction false} SpellsAlike(a: string, b: string, bz: bytes)
    requires Spells(a, bz)
    ensures Spells(b, bz) <==> SameButCase(a, b)
  {
    if |a| == |b| {
      forall i | 0 <= i < |bz|
        ensures StandsFor(b[2 * i], bz[i] as int / 16) <==> a[2 * i] == b[2 * i] || TwoCases(a[2 * i], b[2 * i])
        ensures StandsFor(b[2 * i + 1], bz[i] as int % 16) <==>
          a[2 * i + 1] == b[2 * i + 1] || TwoCases(a[2 * i + 1], b[2 * i + 1])
      {
        SameDigit(a[2 * i], b[2 * i], bz[i] as int / 16);
        SameDigit(a[2 * i + 1], b[2 * i + 1], bz[i] as int % 16);
      }
      if Spells(b, bz) {
        forall i | 0 <= i < |a| ensures a[i] == b[i] || TwoCases(a[i], b[i]) {
          var j := i / 2;
          assert StandsFor(b[2 * j], bz[j] as int / 16) && StandsFor(b[2 * j + 1], bz[j] as int % 16);
          assert i == 2 * j || i == 2 * j + 1;
        }
      }
    }
  }

  /** Two texts denote the same bytes exactly if both are hexadecimal and agree up to prefix and case. */
  lemma {:induction false} DecodesAlike(a: string, b: string)
    ensures Decode(a).Some? <==> IsHex(Digits(a))
    ensures Decode(a).Some? && Decode(a) == Decode(b) <==> SameHex(a, b)
  {
    HexBytesExist(Digits(a));
    HexBytesExist(Digits(b));
    if Decode(a).Some? {
      var bz := Decode(a).value;
      HexBytesMeans(Digits(a), bz);
      HexBytesMeans(Digits(b), bz);
      SpellsAlike(Digits(a), Digits(b), bz);
    }
  }

  /** Hash of the decoded text; text that does not decode yields the nil hash, not an error. */
  function GenerateHash(sha: bytes -> bytes, hexStr: string): Option<bytes> {
    match Decode(hexStr)
    case None => None
    case Some(bz) => Some(sha(bz))
  }

  /** The hash of printed bytes is their digest, with and without prefix. */
  lemma {:induction false} HashOfPrinted(sha: bytes -> bytes, bz: bytes, capitals: bool)
    ensures GenerateHash(sha, PrintHex(bz, capitals)) == GenerateHash(sha, "0x" + PrintHex(bz, capitals)) == Some(sha(bz))
  {
    DecodeUndoesPrint(bz, capitals);
  }
}
