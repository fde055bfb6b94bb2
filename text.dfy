/** String helpers shared by the evaluator, the pretty-printer and the query builder. */
module Text {
  import opened Wrappers

  /** `parts.join(sep)`: the parts with `sep` between neighbours. */
  function JoinWith(parts: seq<string>, sep: string): (r: string)
    ensures |parts| == 0 ==> r == ""
    ensures |parts| == 1 ==> r == parts[0]
  {
    if |parts| == 0 then ""
    else if |parts| == 1 then parts[0]
    else JoinWith(parts[..|parts| - 1], sep) + sep + parts[|parts| - 1]
  }

  /** The summed length of the parts. */
  function TotalLength(parts: seq<string>): nat {
    if |parts| == 0 then 0 else TotalLength(parts[..|parts| - 1]) + |parts[|parts| - 1]|
  }

  /** A join is as long as its parts plus one separator between each pair of neighbours. */
  lemma {:induction false} JoinWithLength(parts: seq<string>, sep: string)
    requires |parts| > 0
    ensures |JoinWith(parts, sep)| == TotalLength(parts) + (|parts| - 1) * |sep|
  {
    if |parts| > 1 {
      JoinWithLength(parts[..|parts| - 1], sep);
      var p := parts[..|parts| - 1];
      assert TotalLength(p[..|p| - 1]) + |p[|p| - 1]| == TotalLength(p);
      assert (|parts| - 1) * |sep| == (|parts| - 2) * |sep| + |sep|;
    }
  }

  /** Joining one more part appends the separator and that part. */
  lemma JoinWithSnoc(parts: seq<string>, p: string, sep: string)
    requires |parts| > 0
    ensures JoinWith(parts + [p], sep) == JoinWith(parts, sep) + sep + p
  {
    assert (parts + [p])[..|parts|] == parts;
  }

  function DigitChar(d: nat): (c: char)
    requires d < 10
    ensures '0' <= c <= '9'
  {
    (('0' as int) + d) as char
  }

  function DigitValue(c: char): (d: nat)
    requires '0' <= c <= '9'
    ensures d < 10
  {
    (c as int) - ('0' as int)
  }

  /** Decimal digits of a natural number, most significant first, no leading zero. */
  function NatToString(n: nat): (r: string)
    ensures |r| > 0
    ensures forall k :: 0 <= k < |r| ==> '0' <= r[k] <= '9'
    ensures |r| > 1 ==> r[0] != '0'
  {
    if n < 10 then [DigitChar(n)]
    else NatToString(n / 10) + [DigitChar(n % 10)]
  }

  /** Rust's `{}` formatting of an integer: a `-` sign, then the digits. */
  function IntToString(i: int): (r: string)
    ensures |r| > 0
    ensures forall k :: 0 <= k < |r| ==> r[k] == '-' || '0' <= r[k] <= '9'
  {
    if i < 0 then "-" + NatToString(-i) else NatToString(i)
  }

  /** Reads a non-empty run of decimal digits. */
  function ParseNat(s: string): (r: Option<nat>)
    ensures r.Some? ==> |s| > 0
  {
    if |s| == 0 then None
    else if !('0' <= s[|s| - 1] <= '9') then None
    else if |s| == 1 then Some(DigitValue(s[0]))
    else
      match ParseNat(s[..|s| - 1])
      case None => None
      case Some(h) => Some(h * 10 + DigitValue(s[|s| - 1]))
  }

  /** Reads an optionally signed decimal integer. */
  function ParseInt(s: string): (r: Option<int>) {
    if |s| > 0 && s[0] == '-' then
      match ParseNat(s[1..])
      case None => None
      case Some(n) => Some(-(n as int))
    else
      match ParseNat(s)
      case None => None
      case Some(n) => Some(n)
  }

  lemma DigitRoundTrip(d: nat)
    requires d < 10
    ensures DigitValue(DigitChar(d)) == d
  {
  }

  lemma {:induction false} NatRoundTrip(n: nat)
    ensures ParseNat(NatToString(n)) == Some(n)
  {
    var s := NatToString(n);
    DigitRoundTrip(n % 10);
    if n < 10 {
      assert s == [DigitChar(n)];
    } else {
      NatRoundTrip(n / 10);
      var h := NatToString(n / 10);
      assert s == h + [DigitChar(n % 10)];
      assert s[..|s| - 1] == h;
      assert ParseNat(s) == Some((n / 10) * 10 + DigitValue(DigitChar(n % 10)));
    }
  }

  /** Printing an integer and reading it back gives the same integer. */
  lemma IntRoundTrip(i: int)
    ensures ParseInt(IntToString(i)) == Some(i)
  {
    var s := IntToString(i);
    if i < 0 {
      var m: nat := -i;
      NatRoundTrip(m);
      assert s == "-" + NatToString(m);
      assert s[1..] == NatToString(m);
      assert ParseNat(s[1..]) == Some(m);
    } else {
      NatRoundTrip(i);
      assert s == NatToString(i);
      assert s[0] != '-';
    }
  }
}
