/**
 * The string operations the report relies on, with Python's semantics:
 * substring search (`in`), `str.split(sep)[1]`, `sep.join(parts)`, `str(n)` and `int(s)`.
 */
module Text {
  import opened Wrappers

  /** `sub` starts at index `i` of `s`. */
  predicate OccursAt(s: string, sub: string, i: nat) {
    i + |sub| <= |s| && s[i..i + |sub|] == sub
  }

  lemma OccursShift(s: string, sub: string, k: nat, j: nat)
    requires k <= |s|
    ensures OccursAt(s[k..], sub, j) <==> OccursAt(s, sub, k + j)
  {
    if j + |sub| <= |s| - k {
      assert s[k..][j..j + |sub|] == s[k + j..k + j + |sub|];
    }
  }

  lemma OccursInPrefix(s: string, sub: string, n: nat, p: nat)
    requires n <= |s|
    requires OccursAt(s[..n], sub, p)
    ensures OccursAt(s, sub, p) && p + |sub| <= n
  {
    assert s[..n][p..p + |sub|] == s[p..p + |sub|];
  }

  /** Index of the first occurrence of a non-empty `sub` in `s`, as Python's `str.find` reports it. */
  function FirstOccurrence(s: string, sub: string): (r: Option<nat>)
    requires |sub| > 0
    ensures r.Some? ==> OccursAt(s, sub, r.value)
    ensures r.Some? ==> forall j: nat :: j < r.value ==> !OccursAt(s, sub, j)
    ensures r.None? ==> forall j: nat :: !OccursAt(s, sub, j)
    decreases |s|
  {
    if |s| < |sub| then None
    else if s[..|sub|] == sub then Some(0)
    else
      var t := FirstOccurrence(s[1..], sub);
      assert forall j: nat | 1 <= j :: OccursAt(s, sub, j) <==> OccursAt(s[1..], sub, j - 1) by {
        forall j: nat | 1 <= j ensures OccursAt(s, sub, j) <==> OccursAt(s[1..], sub, j - 1) {
          OccursShift(s, sub, 1, j - 1);
        }
      }
      assert !OccursAt(s, sub, 0);
      match t
      case None => None
      case Some(i) => Some(i + 1)
  }

  /** Python's `sub in s` for a non-empty `sub`. */
  predicate Contains(s: string, sub: string)
    requires |sub| > 0
  {
    FirstOccurrence(s, sub).Some?
  }

  /**
   * Python's `s.split(sep)[1]`: the text between the first occurrence of `sep`
   * and the next one (or the end); `None` where Python raises IndexError.
   */
  function SplitSecond(s: string, sep: string): (r: Option<string>)
    requires |sep| > 0
    ensures r.None? <==> !Contains(s, sep)
    ensures r.Some? ==>
      var start := FirstOccurrence(s, sep).value + |sep|;
      && start + |r.value| <= |s|
      && r.value == s[start..start + |r.value|]
      && !Contains(r.value, sep)
      && (start + |r.value| == |s| || OccursAt(s, sep, start + |r.value|))
  {
    match FirstOccurrence(s, sep)
    case None => None
    case Some(i) =>
      var start := i + |sep|;
      var rest := s[start..];
      match FirstOccurrence(rest, sep)
      case None =>
        assert rest == s[start..start + |rest|];
        Some(rest)
      case Some(j) =>
        OccursShift(s, sep, start, j);
        assert rest[..j] == s[start..start + j];
        assert forall p: nat :: !OccursAt(rest[..j], sep, p) by {
          forall p: nat | OccursAt(rest[..j], sep, p) ensures false {
            OccursInPrefix(rest, sep, j, p);
          }
        }
        Some(rest[..j])
  }

  /** Python's `sep.join(parts)`. */
  function Join(parts: seq<string>, sep: string): string
  {
    if |parts| == 0 then ""
    else if |parts| == 1 then parts[0]
    else parts[0] + sep + Join(parts[1..], sep)
  }

  /** Python's `s.split(c)` for a one-character separator. */
  function Split(s: string, c: char): (r: seq<string>)
    ensures |r| > 0
  {
    if |s| == 0 then [""]
    else if s[0] == c then [""] + Split(s[1..], c)
    else
      var t := Split(s[1..], c);
      [[s[0]] + t[0]] + t[1..]
  }

  lemma {:induction false} SplitNoSeparator(x: string, c: char)
    requires c !in x
    ensures Split(x, c) == [x]
  {
    if |x| > 0 {
      SplitNoSeparator(x[1..], c);
      assert [x[0]] + x[1..] == x;
    }
  }

  lemma {:induction false} SplitAtSeparator(x: string, c: char, y: string)
    requires c !in x
    ensures Split(x + [c] + y, c) == [x] + Split(y, c)
  {
    if |x| == 0 {
      assert x + [c] + y == [c] + y;
      assert ([c] + y)[1..] == y;
    } else {
      SplitAtSeparator(x[1..], c, y);
      assert (x + [c] + y)[1..] == x[1..] + [c] + y;
      assert [x[0]] + x[1..] == x;
    }
  }

  /**
   * Joining with a one-character separator that no part contains, then splitting
   * on it, gives the parts back: the joined string carries exactly the parts.
   */
  lemma {:induction false} SplitJoin(parts: seq<string>, c: char)
    requires |parts| > 0
    requires forall i :: 0 <= i < |parts| ==> c !in parts[i]
    ensures Split(Join(parts, [c]), c) == parts
  {
    if |parts| == 1 {
      SplitNoSeparator(parts[0], c);
    } else {
      SplitJoin(parts[1..], c);
      SplitAtSeparator(parts[0], c, Join(parts[1..], [c]));
      assert [parts[0]] + parts[1..] == parts;
    }
  }

  predicate IsDigit(ch: char) {
    '0' <= ch <= '9'
  }

  predicate AllDigits(s: string) {
    |s| > 0 && forall i :: 0 <= i < |s| ==> IsDigit(s[i])
  }

  function DigitChar(d: nat): (ch: char)
    requires d < 10
    ensures IsDigit(ch)
  {
    (48 + d) as char
  }

  function DigitsValue(s: string): nat
    requires forall i :: 0 <= i < |s| ==> IsDigit(s[i])
  {
    if |s| == 0 then 0
    else
      assert IsDigit(s[|s| - 1]);
      DigitsValue(s[..|s| - 1]) * 10 + (s[|s| - 1] as int - 48)
  }

  /** Decimal digits of `n` without leading zeros. */
  function NatToDigits(n: nat): (r: string)
    ensures AllDigits(r)
  {
    if n < 10 then [DigitChar(n)] else NatToDigits(n / 10) + [DigitChar(n % 10)]
  }

  lemma {:induction false} DigitsValueOfNatToDigits(n: nat)
    ensures DigitsValue(NatToDigits(n)) == n
  {
    if n >= 10 {
      var s := NatToDigits(n);
      assert s[..|s| - 1] == NatToDigits(n / 10);
      DigitsValueOfNatToDigits(n / 10);
    }
  }

  /** Python's `str(n)` for an int. */
  function IntToString(n: int): (r: string)
    ensures |r| > 0 && IsDigit(r[|r| - 1])
    ensures n < 0 <==> r[0] == '-'
    ensures forall i :: 0 <= i < |r| ==> r[i] == '-' || IsDigit(r[i])
  {
    if n < 0 then "-" + NatToDigits(-n) else NatToDigits(n)
  }

  /** The characters Python's `int()` and `str.strip()` treat as white space. */
  predicate IsSpace(ch: char) {
    var c := ch as int;
    (9 <= c <= 13) || (28 <= c <= 32) || c == 0x85 || c == 0xA0 || c == 0x1680
    || (0x2000 <= c <= 0x200A) || c == 0x2028 || c == 0x2029 || c == 0x202F
    || c == 0x205F || c == 0x3000
  }

  function TrimStart(s: string): string {
    if |s| > 0 && IsSpace(s[0]) then TrimStart(s[1..]) else s
  }

  function TrimEnd(s: string): string {
    if |s| > 0 && IsSpace(s[|s| - 1]) then TrimEnd(s[..|s| - 1]) else s
  }

  /** Python's `int(s)` in base 10: `None` where Python raises ValueError. */
  function ParseInt(s: string): Option<int>
  {
    var t := TrimEnd(TrimStart(s));
    if |t| > 0 && (t[0] == '-' || t[0] == '+') then
      var digits := t[1..];
      if AllDigits(digits) then
        var magnitude: int := DigitsValue(digits);
        Some(if t[0] == '-' then -magnitude else magnitude)
      else None
    else if AllDigits(t) then Some(DigitsValue(t))
    else None
  }

  /** `int(str(n)) == n`: the decimal text of any integer parses back to it. */
  lemma ParseIntOfIntToString(n: int)
    ensures ParseInt(IntToString(n)) == Some(n)
  {
    var s := IntToString(n);
    assert !IsSpace(s[0]) && !IsSpace(s[|s| - 1]);
    assert TrimEnd(TrimStart(s)) == s;
    if n < 0 {
      assert s[1..] == NatToDigits(-n);
      DigitsValueOfNatToDigits(-n);
    } else {
      DigitsValueOfNatToDigits(n);
    }
  }
}
