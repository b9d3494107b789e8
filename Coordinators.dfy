/**
 * The coordinator record the gateway keeps in memory, its identity key, and
 * the base URL handed to the query dispatcher ("http://host:port").
 */
module Coordinators {
  import opened Wrappers

  /** One coordinator row: where it listens and whether it was live when admitted. */
  datatype Coordinator = Coordinator(host: string, port: int, active: bool)

  /**
   * Record identity used by removal. The removal path builds a probe record
   * carrying only host and port, so equality is taken on the (host, port) key
   * and the `active` flag is ignored.
   */
  predicate HasKey(c: Coordinator, host: string, port: int) {
    c.host == host && c.port == port
  }

  const Scheme: string := "http://"

  // ----- decimal text of an int, as Java's string concatenation renders it -----

  predicate IsDigit(ch: char) {
    '0' <= ch <= '9'
  }

  predicate AllDigits(s: string) {
    forall i :: 0 <= i < |s| ==> IsDigit(s[i])
  }

  function Digit(d: nat): (ch: char)
    requires d < 10
    ensures IsDigit(ch)
  {
    ('0' as int + d) as char
  }

  function DigitValue(ch: char): (d: nat)
    requires IsDigit(ch)
    ensures d < 10 && Digit(d) == ch
  {
    ch as int - '0' as int
  }

  /** The digits of `n`, most significant first, without leading zeros. */
  function NatText(n: nat): (s: string)
    ensures 0 < |s| && AllDigits(s)
    ensures |s| > 1 ==> s[0] != '0'
    decreases n
  {
    if n < 10 then [Digit(n)] else NatText(n / 10) + [Digit(n % 10)]
  }

  /** An int in decimal: a leading '-' for negative values, then the magnitude. */
  function IntText(i: int): (s: string)
    ensures ':' !in s
  {
    if i < 0 then "-" + NatText(-i) else NatText(i)
  }

  /** The value of a string of decimal digits (the empty string reads as 0). */
  function NatValue(s: string): nat
    requires AllDigits(s)
  {
    if s == [] then 0 else NatValue(s[..|s| - 1]) * 10 + DigitValue(s[|s| - 1])
  }

  /** Reads back what `IntText` writes; `None` for anything else. */
  function ParseInt(s: string): Option<int> {
    if 0 < |s| && AllDigits(s) then Some(NatValue(s))
    else if 1 < |s| && s[0] == '-' && AllDigits(s[1..]) then Some(0 - NatValue(s[1..]) as int)
    else None
  }

  lemma {:induction false} NatTextRoundTrip(n: nat)
    ensures NatValue(NatText(n)) == n
  {
    if n >= 10 {
      var s := NatText(n);
      assert s == NatText(n / 10) + [Digit(n % 10)];
      assert s[..|s| - 1] == NatText(n / 10);
      NatTextRoundTrip(n / 10);
    }
  }

  /** Every int is recovered from its decimal text. */
  lemma IntTextRoundTrip(i: int)
    ensures ParseInt(IntText(i)) == Some(i)
  {
    if i < 0 {
      var s := IntText(i);
      assert s[1..] == NatText(-i);
      assert !AllDigits(s) by { assert !IsDigit(s[0]); }
      NatTextRoundTrip(-i);
    } else {
      NatTextRoundTrip(i);
    }
  }

  // ----- the selection URL and its reader -----

  /** The base URL handed out for a record: scheme, host, ':' and the port in decimal. */
  function Url(c: Coordinator): (u: string)
    ensures Scheme <= u
    ensures |u| > |Scheme| + |c.host| && u[|Scheme| + |c.host|] == ':'
  {
    Scheme + c.host + ":" + IntText(c.port)
  }

  /** Position of the last ':' in `s`, if any. */
  function LastColon(s: string): (r: Option<nat>)
    ensures r.None? ==> ':' !in s
    ensures r.Some? ==> r.value < |s| && s[r.value] == ':' && ':' !in s[r.value + 1..]
  {
    if s == [] then None
    else if s[|s| - 1] == ':' then Some(|s| - 1)
    else
      var r := LastColon(s[..|s| - 1]);
      assert s == s[..|s| - 1] + [s[|s| - 1]];
      r
  }

  /**
   * Splits a base URL back into host and port: the port is the decimal text
   * after the last ':' (so a host may itself contain ':').
   */
  function ParseUrl(u: string): Option<(string, int)> {
    if !(Scheme <= u) then None
    else
      var rest := u[|Scheme|..];
      match LastColon(rest)
      case None => None
      case Some(k) =>
        match ParseInt(rest[k + 1..])
        case None => None
        case Some(p) => Some((rest[..k], p))
  }

  /** The URL of a record determines its host and port. */
  lemma {:induction false} UrlRoundTrip(c: Coordinator)
    ensures ParseUrl(Url(c)) == Some((c.host, c.port))
  {
    var u := Url(c);
    var rest := u[|Scheme|..];
    var port := IntText(c.port);
    assert rest == c.host + ":" + port;
    var k := |c.host|;
    assert rest[k] == ':';
    assert rest[k + 1..] == port;
    assert LastColon(rest) == Some(k);
    IntTextRoundTrip(c.port);
    assert rest[..k] == c.host;
  }

  /** Two records get the same URL exactly when they have the same key. */
  lemma UrlIdentifiesKey(a: Coordinator, b: Coordinator)
    ensures Url(a) == Url(b) <==> HasKey(a, b.host, b.port)
  {
    UrlRoundTrip(a);
    UrlRoundTrip(b);
  }
}
