/** CInetAddr::toIpAndPort (net/src/InetAddr.h): the text that keys the connection registry. */
module InetAddr {

  /** sockaddr_in: the four address bytes as they lie in memory, and sin_port in network order. */
  datatype Address = Address(a: nat, b: nat, c: nat, d: nat, sinPort: nat)

  predicate IsAddress(x: Address) {
    x.a < 256 && x.b < 256 && x.c < 256 && x.d < 256 && x.sinPort < 65536
  }

  /** ntohs on a little-endian host. */
  function Ntohs(p: nat): (h: nat)
    requires p < 65536
    ensures h < 65536
  {
    p % 256 * 256 + p / 256
  }

  function Digit(n: nat): char
    requires n < 10
  {
    '0' + n as char
  }

  predicate IsDigit(c: char) {
    '0' <= c <= '9'
  }

  predicate AllDigits(s: string) {
    forall i :: 0 <= i < |s| ==> IsDigit(s[i])
  }

  /** printf's %d of a number that is not negative. */
  function Decimal(n: nat): (s: string)
    ensures s != [] && AllDigits(s)
  {
    if n < 10 then [Digit(n)] else Decimal(n / 10) + [Digit(n % 10)]
  }

  function Value(s: string): nat
    requires AllDigits(s)
  {
    if s == [] then 0 else Value(s[..|s| - 1]) * 10 + (s[|s| - 1] - '0') as nat
  }

  lemma {:induction false} DecimalValue(n: nat)
    ensures Value(Decimal(n)) == n
  {
    if n < 10 {
    } else {
      DecimalValue(n / 10);
      assert Decimal(n)[..|Decimal(n)| - 1] == Decimal(n / 10);
    }
  }

  lemma {:induction false} DecimalLength(n: nat)
    ensures n < 10 ==> |Decimal(n)| == 1
    ensures n < 1000 ==> |Decimal(n)| <= 3
    ensures n < 100000 ==> |Decimal(n)| <= 5
  {
    if n < 10 {
    } else {
      DecimalLength(n / 10);
      if n >= 100 {
        DecimalLength(n / 10 / 10);
      }
    }
  }

  /** inet_ntoa. */
  function GetIp(x: Address): string {
    Decimal(x.a) + ("." + (Decimal(x.b) + ("." + (Decimal(x.c) + ("." + Decimal(x.d))))))
  }

  function Terminators(n: nat): (s: string)
    ensures |s| == n && forall i :: 0 <= i < n ==> s[i] == 0 as char
  {
    if n == 0 then "" else Terminators(n - 1) + [0 as char]
  }

  /** What sprintf stores, before its terminator. */
  function Printed(x: Address): string
    requires IsAddress(x)
  {
    GetIp(x) + (":" + Decimal(Ntohs(x.sinPort)))
  }

  /** The text and its terminator fit the ten extra bytes. */
  lemma PrintedFits(x: Address)
    requires IsAddress(x)
    ensures |Printed(x)| + 1 <= |GetIp(x)| + 10
  {
    DecimalLength(Ntohs(x.sinPort));
  }

  /** toIpAndPort: a string of the address's length plus ten, all NUL, with the text printed over its front. The
      NULs behind the text are part of the key. */
  function ToIpAndPort(x: Address): (key: string)
    requires IsAddress(x)
    ensures |key| == |GetIp(x)| + 10
    ensures |Printed(x)| < |key| && key[..|Printed(x)|] == Printed(x) && key[|Printed(x)|] == 0 as char
  {
    PrintedFits(x);
    Printed(x) + Terminators(|GetIp(x)| + 10 - |Printed(x)|)
  }

  /** Two texts that stop at the first character which is not a digit. */
  lemma SplitAtStop(s1: string, t1: string, s2: string, t2: string)
    requires AllDigits(s1) && AllDigits(s2) && t1 != [] && t2 != [] && !IsDigit(t1[0]) && !IsDigit(t2[0])
    requires s1 + t1 == s2 + t2
    ensures s1 == s2 && t1 == t2
  {
    var u := s1 + t1;
    assert u[|s1|] == t1[0] && forall i :: 0 <= i < |s1| ==> u[i] == s1[i];
    assert u == s2 + t2;
    assert u[|s2|] == t2[0] && forall i :: 0 <= i < |s2| ==> u[i] == s2[i];
    assert |s1| == |s2|;
    assert s1 == (s1 + t1)[..|s1|] == (s2 + t2)[..|s2|] == s2;
    assert t1 == (s1 + t1)[|s1|..] == (s2 + t2)[|s2|..] == t2;
  }

  /** A number followed by something that is not a digit can be read off the front. */
  lemma NumberInFront(m: nat, t1: string, n: nat, t2: string)
    requires t1 != [] && t2 != [] && !IsDigit(t1[0]) && !IsDigit(t2[0])
    requires Decimal(m) + t1 == Decimal(n) + t2
    ensures m == n && t1 == t2
  {
    SplitAtStop(Decimal(m), t1, Decimal(n), t2);
    DecimalValue(m);
    DecimalValue(n);
  }

  /** The key from the first, second, third and last separator on. */
  function Tail1(x: Address): (t: string)
    requires IsAddress(x)
    ensures t != [] && t[0] == '.'
  {
    "." + (Decimal(x.b) + Tail2(x))
  }

  function Tail2(x: Address): (t: string)
    requires IsAddress(x)
    ensures t != [] && t[0] == '.'
  {
    "." + (Decimal(x.c) + Tail3(x))
  }

  function Tail3(x: Address): (t: string)
    requires IsAddress(x)
    ensures t != [] && t[0] == '.'
  {
    "." + (Decimal(x.d) + Tail4(x))
  }

  function Tail4(x: Address): (t: string)
    requires IsAddress(x)
    ensures t != [] && t[0] == ':'
  {
    ":" + (Decimal(Ntohs(x.sinPort)) + Padding(x))
  }

  function Padding(x: Address): (t: string)
    requires IsAddress(x)
    ensures t != [] && t[0] == 0 as char
  {
    PrintedFits(x);
    Terminators(|GetIp(x)| + 10 - |Printed(x)|)
  }

  lemma Regroup(x: Address)
    requires IsAddress(x)
    ensures ToIpAndPort(x) == Decimal(x.a) + Tail1(x)
  {
    assert ToIpAndPort(x) == Printed(x) + Padding(x);
  }

  /** Strips one number and the separator behind it. */
  lemma Strip(m: nat, stop: char, rest1: string, n: nat, rest2: string)
    requires !IsDigit(stop)
    requires Decimal(m) + ([stop] + rest1) == Decimal(n) + ([stop] + rest2)
    ensures m == n && rest1 == rest2
  {
    NumberInFront(m, [stop] + rest1, n, [stop] + rest2);
    assert ([stop] + rest1)[1..] == rest1 && ([stop] + rest2)[1..] == rest2;
  }

  lemma TailsInjective(x: Address, y: Address)
    requires IsAddress(x) && IsAddress(y) && Decimal(x.a) + Tail1(x) == Decimal(y.a) + Tail1(y)
    ensures x.a == y.a && x.b == y.b && x.c == y.c && x.d == y.d && Ntohs(x.sinPort) == Ntohs(y.sinPort)
  {
    hide Decimal, Padding, Ntohs;
    Strip(x.a, '.', Decimal(x.b) + Tail2(x), y.a, Decimal(y.b) + Tail2(y));
    Strip(x.b, '.', Decimal(x.c) + Tail3(x), y.b, Decimal(y.c) + Tail3(y));
    Strip(x.c, '.', Decimal(x.d) + Tail4(x), y.c, Decimal(y.d) + Tail4(y));
    Strip(x.d, ':', Decimal(Ntohs(x.sinPort)) + Padding(x), y.d, Decimal(Ntohs(y.sinPort)) + Padding(y));
    NumberInFront(Ntohs(x.sinPort), Padding(x), Ntohs(y.sinPort), Padding(y));
  }

  lemma NtohsInjective(p: nat, q: nat)
    requires p < 65536 && q < 65536 && Ntohs(p) == Ntohs(q)
    ensures p == q
  {
  }

  /** Main theorem: two addresses have the same key exactly when they are the same address and port. */
  lemma KeyInjective(x: Address, y: Address)
    requires IsAddress(x) && IsAddress(y)
    ensures ToIpAndPort(x) == ToIpAndPort(y) <==> x == y
  {
    if ToIpAndPort(x) == ToIpAndPort(y) {
      Regroup(x);
      Regroup(y);
      TailsInjective(x, y);
      NtohsInjective(x.sinPort, y.sinPort);
    }
  }

  /* ------------------------------------------------------------------ reading the key back */

  /** The digits in front of a text, and what comes behind them and the character that ends them. */
  function Leading(s: string): (d: string)
    ensures AllDigits(d) && |d| <= |s| && d == s[..|d|]
    ensures |d| < |s| ==> !IsDigit(s[|d|])
  {
    if s == [] || !IsDigit(s[0]) then "" else [s[0]] + Leading(s[1..])
  }

  function Rest(s: string): string {
    if |Leading(s)| < |s| then s[|Leading(s)| + 1..] else ""
  }

  lemma ReadsInFront(m: nat, stop: char, rest: string)
    requires !IsDigit(stop)
    ensures var s := Decimal(m) + ([stop] + rest);
      Reads(s, m, stop) && Rest(s) == rest
  {
    var t := [stop] + rest;
    var s := Decimal(m) + t;
    var d := Leading(s);
    assert s[|Decimal(m)|] == stop;
    assert !IsDigit(s[|Decimal(m)|]);
    assert s == d + s[|d|..];
    SplitAtStop(d, s[|d|..], Decimal(m), t);
    DecimalValue(m);
    assert s[|d| + 1..] == t[1..] == rest;
  }

  /** A text of five numbers, each with the character that ends it. */
  predicate Reads(s: string, number: nat, stop: char) {
    |Leading(s)| < |s| && Value(Leading(s)) == number && s[|Leading(s)|] == stop
  }

  /** Main theorem: read from the front, the key is the four bytes of the address in the order they lie in memory, with
      dots between them and a colon behind, and then the port, whose first byte in memory is the more significant
      one. So the port that was sent as hi, lo is printed as 256 * hi + lo. */
  lemma KeyReads(x: Address, hi: nat, lo: nat)
    requires IsAddress(x) && hi < 256 && lo < 256 && x.sinPort == hi + 256 * lo
    ensures
      var s1 := ToIpAndPort(x);
      var s2 := Rest(s1);
      var s3 := Rest(s2);
      var s4 := Rest(s3);
      var s5 := Rest(s4);
      && Reads(s1, x.a, '.') && Reads(s2, x.b, '.') && Reads(s3, x.c, '.') && Reads(s4, x.d, ':')
      && Reads(s5, 256 * hi + lo, 0 as char)
  {
    Regroup(x);
    PortOf(x.sinPort, hi, lo);
    PaddingStops(x);
    var port, pad := Ntohs(x.sinPort), Padding(x);
    hide Decimal, Padding, Ntohs, ToIpAndPort, Rest, Reads;
    ReadsInFront(x.a, '.', Decimal(x.b) + Tail2(x));
    ReadsInFront(x.b, '.', Decimal(x.c) + Tail3(x));
    ReadsInFront(x.c, '.', Decimal(x.d) + Tail4(x));
    ReadsInFront(x.d, ':', Decimal(port) + pad);
    ReadsInFront(port, 0 as char, pad[1..]);
  }

  lemma PaddingStops(x: Address)
    requires IsAddress(x)
    ensures Padding(x) == [0 as char] + Padding(x)[1..]
  {
  }

  lemma PortOf(p: nat, hi: nat, lo: nat)
    requires hi < 256 && lo < 256 && p == hi + 256 * lo
    ensures p < 65536 && Ntohs(p) == 256 * hi + lo
  {
  }
}
