/**
 * The page arithmetic shared by the product handlers (`prods/getproductlist.go`,
 * `prods/searchproduct.go`): the page parameter read with Go's `strconv.Atoi`,
 * its error ignored, clamped to at least 1; five products per page; the offset
 * computed in Go's 64-bit `int`; and the page count as a ceiling.
 */
module Paging {
  const PerPage: int := 5

  const MaxInt64: int := 0x7FFF_FFFF_FFFF_FFFF
  const MinInt64: int := -0x8000_0000_0000_0000
  const MaxUint64: int := 0xFFFF_FFFF_FFFF_FFFF

  /** Go's `int` arithmetic on a 64-bit platform: results wrap around modulo 2^64. */
  function Wrap64(x: int): (r: int)
    ensures MinInt64 <= r <= MaxInt64
    ensures MinInt64 <= x <= MaxInt64 ==> r == x
  {
    (x - MinInt64) % 0x1_0000_0000_0000_0000 + MinInt64
  }

  predicate IsDigit(c: char) {
    '0' <= c <= '9'
  }

  /** The longest prefix of `s` made of decimal digits. */
  function DigitPrefix(s: string): (p: string)
    ensures |p| <= |s| && p == s[..|p|]
    ensures forall k | 0 <= k < |p| :: IsDigit(p[k])
    ensures |p| < |s| ==> !IsDigit(s[|p|])
  {
    if s == [] || !IsDigit(s[0]) then []
    else
      var rest := DigitPrefix(s[1..]);
      assert [s[0]] + rest == s[..|rest| + 1];
      [s[0]] + rest
  }

  /** The value of a string of decimal digits, most significant first. */
  function DigitsValue(p: string): (v: nat)
    requires forall k | 0 <= k < |p| :: IsDigit(p[k])
  {
    if p == [] then 0
    else
      assert IsDigit(p[|p| - 1]);
      DigitsValue(p[..|p| - 1]) * 10 + (p[|p| - 1] as int - '0' as int)
  }

  /**
   * The integer Go's `strconv.Atoi` returns, whether or not it also reports an
   * error: an optional sign and the digits after it; 0 on a syntax error; and on
   * overflow the int64 bound of that sign. `ParseUint` reports an overflow as soon
   * as the digits read so far exceed 64 bits, before it sees a later bad character.
   */
  function Atoi(s: string): (n: int)
    ensures MinInt64 <= n <= MaxInt64
  {
    if s == [] then 0
    else
      var neg := s[0] == '-';
      var body := if s[0] == '-' || s[0] == '+' then s[1..] else s;
      if body == [] then 0
      else
        var p := DigitPrefix(body);
        var v: int := DigitsValue(p);
        if v > MaxUint64 then (if neg then MinInt64 else MaxInt64)
        else if p != body then 0
        else if neg then (if v > -MinInt64 then MinInt64 else -v)
        else (if v > MaxInt64 then MaxInt64 else v)
  }

  /** The page a handler serves for the `page` path parameter. */
  function PageNumber(s: string): (pg: int)
    ensures 1 <= pg <= MaxInt64
    ensures Atoi(s) >= 1 ==> pg == Atoi(s)
    ensures Atoi(s) < 1 ==> pg == 1
  {
    var pg := Atoi(s);
    if pg < 1 then 1 else pg
  }

  /** `(pg - 1) * perPage`, in Go's `int`. */
  function Offset(pg: int): (o: int)
    ensures MinInt64 <= o <= MaxInt64
    ensures 1 <= pg <= MaxPage ==> o == (pg - 1) * PerPage
  {
    Wrap64((pg - 1) * PerPage)
  }

  /** The largest page whose offset does not wrap around. */
  const MaxPage: int := MaxInt64 / PerPage + 1

  /** Pages up to `MaxPage` start exactly five products after the previous page. */
  lemma OffsetExact(pg: int)
    requires 1 <= pg <= MaxPage
    ensures Offset(pg) == (pg - 1) * PerPage >= 0
    ensures pg > 1 ==> Offset(pg) == Offset(pg - 1) + PerPage
  {
  }

  /** `math.Ceil(total / perPage)` on a whole number of records. */
  function TotalPages(total: nat): (pages: nat)
    ensures pages * PerPage >= total
    ensures pages == 0 || (pages - 1) * PerPage < total
  {
    (total + PerPage - 1) / PerPage
  }

  /** Every record lies on a page between 1 and the page count. */
  lemma RecordOnSomePage(total: nat, k: nat)
    requires k < total && k <= MaxInt64
    ensures 1 <= k / PerPage + 1 <= TotalPages(total)
    ensures Offset(k / PerPage + 1) <= k < Offset(k / PerPage + 1) + PerPage
  {
    var pg := k / PerPage + 1;
    assert pg <= k + 1;
    OffsetExact(pg);
  }

  /** How a JavaScript page number is written into the request path. */
  function DecimalString(n: nat): (s: string)
    ensures s != [] && forall k | 0 <= k < |s| :: IsDigit(s[k])
  {
    var d := ['0' + (n % 10) as char];
    if n < 10 then d else DecimalString(n / 10) + d
  }

  lemma {:induction false} DecimalStringValue(n: nat)
    ensures DigitsValue(DecimalString(n)) == n
  {
    var s := DecimalString(n);
    if n >= 10 {
      DecimalStringValue(n / 10);
      assert s[..|s| - 1] == DecimalString(n / 10);
    }
  }

  lemma {:induction false} DigitPrefixOfDigits(s: string)
    requires forall k | 0 <= k < |s| :: IsDigit(s[k])
    ensures DigitPrefix(s) == s
  {
    if s != [] {
      DigitPrefixOfDigits(s[1..]);
    }
  }

  /** The page number the client sends is the page number the server reads. */
  lemma DecimalRoundTrip(n: nat)
    requires n <= MaxInt64
    ensures Atoi(DecimalString(n)) == n
    ensures n >= 1 ==> PageNumber(DecimalString(n)) == n
  {
    var s := DecimalString(n);
    DigitPrefixOfDigits(s);
    DecimalStringValue(n);
  }

  /** Page 0, which the client asks for after "last" on an empty list, is served as page 1. */
  lemma PageZeroServedAsOne()
    ensures PageNumber(DecimalString(0)) == 1
  {
    DecimalRoundTrip(0);
  }

  /** A page parameter that is not a number is served as page 1. */
  lemma NotANumberServedAsOne(s: string)
    requires s != [] && !IsDigit(s[0]) && s[0] != '-' && s[0] != '+'
    ensures PageNumber(s) == 1
  {
  }
}
