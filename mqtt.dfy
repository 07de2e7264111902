/** The MQTT server address `host[:port]` (`DBConnection::getPort` / `getEndpoint`,
    lib/MPPTLib/solar.cpp:592-599): split at the first ':'; the port defaults to 1883. */
module Mqtt {
  const DefaultPort: int := 1883

  /** Arduino `String::indexOf(char)`: the first index of `c`, or -1. */
  function IndexOf(s: string, c: char): (r: int)
    ensures -1 <= r < |s|
    ensures r == -1 <==> c !in s
    ensures r >= 0 ==> s[r] == c && c !in s[..r]
  {
    if s == [] then -1
    else if s[0] == c then 0
    else
      var k := IndexOf(s[1..], c);
      assert k >= 0 ==> s[1..][..k] == s[1..k + 1];
      if k < 0 then -1 else k + 1
  }

  /** The whitespace `atol` skips: space, \t, \n, \v, \f, \r. */
  predicate IsSpace(c: char)
  {
    c == ' ' || 9 <= c as int <= 13
  }

  predicate IsDigit(c: char)
  {
    '0' <= c <= '9'
  }

  function SkipSpaces(s: string): (r: string)
    ensures |r| <= |s| && r == s[|s| - |r|..]
    ensures |r| > 0 ==> !IsSpace(r[0])
  {
    if |s| > 0 && IsSpace(s[0]) then SkipSpaces(s[1..]) else s
  }

  /** The longest prefix of decimal digits. */
  function DigitRun(s: string): (r: string)
    ensures |r| <= |s| && r == s[..|r|]
    ensures forall j :: 0 <= j < |r| ==> IsDigit(r[j])
  {
    if |s| > 0 && IsDigit(s[0]) then [s[0]] + DigitRun(s[1..]) else []
  }

  /** The value of a string of decimal digits, most significant first. */
  function DigitsValue(d: string): nat
    requires forall j :: 0 <= j < |d| ==> IsDigit(d[j])
  {
    if d == [] then 0
    else
      assert IsDigit(d[|d| - 1]);
      DigitsValue(d[..|d| - 1]) * 10 + (d[|d| - 1] as int - '0' as int)
  }

  /** Arduino `String::toInt()` (`atol`): skip whitespace, an optional sign, then the leading
      digits; no digits gives 0. */
  function ToInt(s: string): int
  {
    var t := SkipSpaces(s);
    if |t| > 0 && t[0] == '-' then 0 - DigitsValue(DigitRun(t[1..])) as int
    else if |t| > 0 && t[0] == '+' then DigitsValue(DigitRun(t[1..]))
    else DigitsValue(DigitRun(t))
  }

  function GetPort(serv: string): int
  {
    var sep := IndexOf(serv, ':');
    if sep >= 0 then ToInt(serv[sep + 1..]) else DefaultPort
  }

  function GetEndpoint(serv: string): string
  {
    var sep := IndexOf(serv, ':');
    if sep >= 0 then serv[..sep] else serv
  }

  /** The endpoint never holds a ':'; without one the whole address is the endpoint and the
      port is 1883; with one, endpoint, ':' and the port text put the address back together. */
  lemma SplitAddress(serv: string)
    ensures ':' !in GetEndpoint(serv)
    ensures ':' !in serv ==> GetEndpoint(serv) == serv && GetPort(serv) == DefaultPort
    ensures ':' in serv ==> exists rest :: serv == GetEndpoint(serv) + ":" + rest && GetPort(serv) == ToInt(rest)
  {
    var sep := IndexOf(serv, ':');
    if sep >= 0 {
      var rest := serv[sep + 1..];
      assert serv == serv[..sep] + ":" + rest;
    }
  }

  /** The decimal spelling of a natural number. */
  function Decimal(n: nat): (d: string)
    ensures |d| > 0 && forall j :: 0 <= j < |d| ==> IsDigit(d[j])
  {
    var c := ('0' as int + n % 10) as char;
    if n < 10 then [c] else Decimal(n / 10) + [c]
  }

  lemma {:induction false} DecimalValue(n: nat)
    ensures DigitsValue(Decimal(n)) == n
  {
    var d := Decimal(n);
    if n >= 10 {
      assert d[..|d| - 1] == Decimal(n / 10);
      DecimalValue(n / 10);
    }
  }

  lemma {:induction false} DigitRunOfDigits(d: string)
    requires forall j :: 0 <= j < |d| ==> IsDigit(d[j])
    ensures DigitRun(d) == d
  {
    if |d| > 0 {
      DigitRunOfDigits(d[1..]);
    }
  }

  /** Round trip: an address built from a host without ':' and a port number splits back into
      that host and that port. */
  lemma AddressRoundTrip(host: string, port: nat)
    requires ':' !in host
    ensures GetEndpoint(host + ":" + Decimal(port)) == host
    ensures GetPort(host + ":" + Decimal(port)) == port
  {
    var serv := host + ":" + Decimal(port);
    var d := Decimal(port);
    assert serv[|host|] == ':';
    assert serv[..|host|] == host;
    IndexOfFirst(host, d);
    assert serv[|host| + 1..] == d;
    DigitRunOfDigits(d);
    DecimalValue(port);
    assert !IsSpace(d[0]) && d[0] != '-' && d[0] != '+';
  }

  lemma IndexOfFirst(host: string, tail: string)
    requires ':' !in host
    ensures IndexOf(host + ":" + tail, ':') == |host|
  {
    var s := host + ":" + tail;
    assert s[..|host|] == host;
    assert s[|host|] == ':';
  }
}
