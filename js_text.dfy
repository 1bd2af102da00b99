/**
 * The JavaScript string and number primitives that the poll command parser and the
 * caption renderer of index.js rely on: `trim`, `split(' ')`, `indexOf`, `substr`,
 * `parseInt` (radix left undefined) and the conversion of an integral Number to text.
 */
module JsText {
  import opened Wrappers

  /** The WhiteSpace and LineTerminator code points of ECMAScript, skipped by `trim` and `parseInt`. */
  predicate IsWhitespace(c: char) {
    var n := c as int;
    n == 0x09 || n == 0x0A || n == 0x0B || n == 0x0C || n == 0x0D || n == 0x20 || n == 0xA0
    || n == 0x1680 || (0x2000 <= n <= 0x200A) || n == 0x2028 || n == 0x2029 || n == 0x202F
    || n == 0x205F || n == 0x3000 || n == 0xFEFF
  }

  /** `trimStart`: drops the leading white space and nothing else. */
  function TrimStart(s: string): (r: string)
    ensures |r| <= |s| && r == s[|s| - |r|..]
    ensures forall i :: 0 <= i < |s| - |r| ==> IsWhitespace(s[i])
    ensures r == [] || !IsWhitespace(r[0])
    decreases |s|
  {
    if |s| > 0 && IsWhitespace(s[0]) then TrimStart(s[1..]) else s
  }

  /** `trimEnd`: drops the trailing white space and nothing else. */
  function TrimEnd(s: string): (r: string)
    ensures |r| <= |s| && r == s[..|r|]
    ensures forall i :: |r| <= i < |s| ==> IsWhitespace(s[i])
    ensures r == [] || !IsWhitespace(r[|r| - 1])
    decreases |s|
  {
    if |s| > 0 && IsWhitespace(s[|s| - 1]) then TrimEnd(s[..|s| - 1]) else s
  }

  /** `String.prototype.trim`. */
  function Trim(s: string): string {
    TrimEnd(TrimStart(s))
  }

  /** `indexOf` of a single character: its first position, or -1 when it does not occur. */
  function IndexOf(s: string, c: char): (i: int)
    ensures -1 <= i < |s|
    ensures i == -1 <==> c !in s
    ensures 0 <= i ==> s[i] == c && c !in s[..i]
  {
    if |s| == 0 then -1
    else if s[0] == c then 0
    else
      var j := IndexOf(s[1..], c);
      assert s[1..][..j + 1] == s[1..j + 2] by { }
      if j < 0 then -1 else j + 1
  }

  /** `substr(0, length)`: a negative length selects nothing, a long one everything. */
  function Substr(s: string, length: int): string {
    s[..if length <= 0 then 0 else if length > |s| then |s| else length]
  }

  /** The inverse of `split`: the parts with one separator between neighbours. */
  function Join(parts: seq<string>, d: char): string
    requires |parts| >= 1
  {
    if |parts| == 1 then parts[0] else parts[0] + [d] + Join(parts[1..], d)
  }

  /**
   * `split(d)` for a one-character separator. Every part is separator-free and the
   * parts joined back give the input; together these determine the parts uniquely
   * (lemma SplitJoin), so the contract is the whole meaning of `split`.
   */
  function Split(s: string, d: char): (parts: seq<string>)
    ensures |parts| >= 1
    ensures forall i :: 0 <= i < |parts| ==> d !in parts[i]
    ensures Join(parts, d) == s
    decreases |s|
  {
    var i := IndexOf(s, d);
    if i < 0 then [s]
    else
      var rest := Split(s[i + 1..], d);
      assert s == s[..i] + [d] + s[i + 1..];
      [s[..i]] + rest
  }

  /** Splitting a join of separator-free parts gives the parts back. */
  lemma {:induction false} SplitJoin(parts: seq<string>, d: char)
    requires |parts| >= 1
    requires forall i :: 0 <= i < |parts| ==> d !in parts[i]
    ensures Split(Join(parts, d), d) == parts
  {
    if |parts| > 1 {
      var s := Join(parts, d);
      var p := parts[0];
      assert s == p + [d] + Join(parts[1..], d);
      assert s[|p|] == d && s[..|p|] == p;
      assert IndexOf(s, d) == |p|;
      assert s[|p| + 1..] == Join(parts[1..], d);
      SplitJoin(parts[1..], d);
    }
  }

  /** Every character of a join is the separator or a character of a part. */
  lemma {:induction false} JoinChars(parts: seq<string>, d: char, P: char -> bool)
    requires |parts| >= 1 && P(d)
    requires forall i, k :: 0 <= i < |parts| && 0 <= k < |parts[i]| ==> P(parts[i][k])
    ensures forall k :: 0 <= k < |Join(parts, d)| ==> P(Join(parts, d)[k])
  {
    if |parts| > 1 {
      JoinChars(parts[1..], d, P);
      var rest := Join(parts[1..], d);
      forall k | 0 <= k < |Join(parts, d)|
        ensures P(Join(parts, d)[k])
      {
        if k < |parts[0]| {
          assert Join(parts, d)[k] == parts[0][k];
        } else if k > |parts[0]| {
          assert Join(parts, d)[k] == rest[k - |parts[0]| - 1];
        }
      }
    }
  }

  /** A join ends with the last character of its last part. */
  lemma {:induction false} JoinLast(parts: seq<string>, d: char)
    requires |parts| >= 1 && |parts[|parts| - 1]| > 0
    ensures |Join(parts, d)| > 0
    ensures Join(parts, d)[|Join(parts, d)| - 1] == parts[|parts| - 1][|parts[|parts| - 1]| - 1]
  {
    if |parts| > 1 {
      JoinLast(parts[1..], d);
    }
  }

  /** Trimming text whose ends are not white space, followed by white space, drops just that. */
  lemma TrimBeforeSpace(x: string, c: char)
    requires |x| > 0 && !IsWhitespace(x[0]) && !IsWhitespace(x[|x| - 1]) && IsWhitespace(c)
    ensures Trim(x + [c]) == x
  {
    assert TrimStart(x + [c]) == x + [c];
    assert (x + [c])[..|x|] == x;
  }

  /** A decimal digit of a Number's text. */
  function DigitChar(d: nat): (c: char)
    requires d < 10
    ensures '0' <= c <= '9'
  {
    ('0' as int + d) as char
  }

  /** The text of a non-negative integral Number: decimal, no leading zero. */
  function NatToString(n: nat): (s: string)
    ensures |s| >= 1
    ensures forall i :: 0 <= i < |s| ==> '0' <= s[i] <= '9'
    ensures |s| > 1 ==> s[0] != '0'
    ensures (|s| == 1) == (n < 10)
  {
    if n < 10 then [DigitChar(n)] else NatToString(n / 10) + [DigitChar(n % 10)]
  }

  /** The text of an integral Number, as string concatenation `'' + n` produces it. */
  function IntToString(n: int): string {
    if n < 0 then "-" + NatToString(-n) else NatToString(n)
  }

  /** A hexadecimal digit in either case. */
  predicate IsHexDigit(c: char) {
    ('0' <= c <= '9') || ('a' <= c <= 'f') || ('A' <= c <= 'F')
  }

  /** The value of a hexadecimal digit. */
  function DigitValue(c: char): (v: nat)
    requires IsHexDigit(c)
    ensures v < 16
    ensures '0' <= c <= '9' ==> v < 10
  {
    if '0' <= c <= '9' then c as int - '0' as int
    else if 'a' <= c <= 'f' then c as int - 'a' as int + 10
    else c as int - 'A' as int + 10
  }

  /** A digit of the given radix (10 or 16 for `parseInt`). */
  predicate IsDigit(c: char, radix: nat) {
    IsHexDigit(c) && DigitValue(c) < radix
  }

  /** The length of the longest prefix of `s` made of radix digits. */
  function DigitRun(s: string, radix: nat): (n: nat)
    ensures n <= |s|
    ensures forall i :: 0 <= i < n ==> IsDigit(s[i], radix)
    ensures n < |s| ==> !IsDigit(s[n], radix)
  {
    if |s| > 0 && IsDigit(s[0], radix) then 1 + DigitRun(s[1..], radix) else 0
  }

  /** The value of a digit string, most significant digit first. */
  function DigitsValue(ds: string, radix: nat): nat
    requires radix == 10 || radix == 16
    requires forall i :: 0 <= i < |ds| ==> IsDigit(ds[i], radix)
  {
    if |ds| == 0 then 0
    else
      assert IsDigit(ds[|ds| - 1], radix);
      var high := DigitsValue(ds[..|ds| - 1], radix);
      (if radix == 16 then 16 * high else 10 * high) + DigitValue(ds[|ds| - 1])
  }

  /**
   * The unsigned part of `parseInt`: a `0x`/`0X` prefix switches to radix 16, and the
   * longest run of digits that follows is the value; no digit at all is NaN (None).
   */
  function ParseUnsigned(u: string): Option<nat> {
    var hex := |u| >= 2 && u[0] == '0' && (u[1] == 'x' || u[1] == 'X');
    var radix := if hex then 16 else 10;
    var v := if hex then u[2..] else u;
    var n := DigitRun(v, radix);
    if n == 0 then None else Some(DigitsValue(v[..n], radix))
  }

  /** A sign, then the unsigned part; `-0` is read as 0. */
  function ParseSigned(t: string): Option<int> {
    var negative := |t| > 0 && t[0] == '-';
    var u := if |t| > 0 && (t[0] == '-' || t[0] == '+') then t[1..] else t;
    match ParseUnsigned(u)
    case None => None
    case Some(m) => Some(if negative then -(m as int) else m as int)
  }

  /** `parseInt(s)` with the radix left undefined: leading white space is skipped first. */
  function ParseInt(s: string): Option<int> {
    if |s| > 0 && IsWhitespace(s[0]) then ParseInt(s[1..]) else ParseSigned(s)
  }

  /** Reading back the decimal text of a natural number. */
  lemma {:induction false} DecimalValue(n: nat)
    ensures DigitsValue(NatToString(n), 10) == n
  {
    var s := NatToString(n);
    if n >= 10 {
      DecimalValue(n / 10);
      assert s[..|s| - 1] == NatToString(n / 10);
    }
  }

  /** The unsigned part of `parseInt` reads a decimal text back. */
  lemma ParseUnsignedOfNatToString(m: nat)
    ensures ParseUnsigned(NatToString(m)) == Some(m)
  {
    var u := NatToString(m);
    assert !(|u| >= 2 && u[0] == '0');
    assert DigitRun(u, 10) == |u| by {
      if DigitRun(u, 10) < |u| {
        assert IsDigit(u[DigitRun(u, 10)], 10);
      }
    }
    assert u[..|u|] == u;
    DecimalValue(m);
  }

  /** Digits and the minus sign are not white space. */
  lemma SignOrDigitNotWhitespace(c: char)
    requires c == '-' || '0' <= c <= '9'
    ensures !IsWhitespace(c)
  {
  }

  /** Text that starts with a digit is read by its unsigned part alone. */
  lemma ParseIntUnsigned(s: string, m: nat)
    requires |s| > 0 && '0' <= s[0] <= '9'
    requires ParseUnsigned(s) == Some(m)
    ensures ParseInt(s) == Some(m as int)
  {
    SignOrDigitNotWhitespace(s[0]);
    assert ParseSigned(s) == Some(m as int);
  }

  /** Text that starts with a minus sign is read as the negated unsigned part after it. */
  lemma ParseIntMinus(s: string, m: nat)
    requires |s| > 0 && s[0] == '-'
    requires ParseUnsigned(s[1..]) == Some(m)
    ensures ParseInt(s) == Some(-(m as int))
  {
    SignOrDigitNotWhitespace(s[0]);
    assert ParseSigned(s) == Some(-(m as int));
  }

  /** `parseInt` reads a decimal text back. */
  lemma ParseIntOfNatToString(m: nat)
    ensures ParseInt(NatToString(m)) == Some(m)
  {
    ParseUnsignedOfNatToString(m);
    ParseIntUnsigned(NatToString(m), m);
  }

  /** `parseInt` reads a minus sign and a decimal text back as the negated number. */
  lemma ParseIntOfNegative(m: nat)
    ensures ParseInt("-" + NatToString(m)) == Some(-(m as int))
  {
    var d := NatToString(m);
    ParseUnsignedOfNatToString(m);
    assert ("-" + d)[1..] == d;
    ParseIntMinus("-" + d, m);
  }

  /** `parseInt` reads back exactly the integer whose text it is given. */
  lemma ParseIntOfIntToString(n: int)
    ensures ParseInt(IntToString(n)) == Some(n)
  {
    if n < 0 {
      var m: nat := -n;
      assert IntToString(n) == "-" + NatToString(m);
      ParseIntOfNegative(m);
    } else {
      var m: nat := n;
      assert IntToString(n) == NatToString(m);
      ParseIntOfNatToString(m);
    }
  }
}
