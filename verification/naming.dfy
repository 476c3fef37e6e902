/** The strings `register` and `identity` build: the connection URL kept in
    `@redis_url` and the identity used in log messages. */
module Naming {
  import opened Wrappers

  predicate IsDigit(c: char) {
    '0' <= c <= '9'
  }

  predicate AllDigits(s: string) {
    forall k :: 0 <= k < |s| ==> IsDigit(s[k])
  }

  function DigitChar(d: nat): (c: char)
    requires d < 10
    ensures IsDigit(c)
  {
    ('0' as int + d) as char
  }

  function DigitValue(c: char): nat
    requires IsDigit(c)
  {
    c as int - '0' as int
  }

  /** The decimal digits of `n`, most significant first, without leading zeros. */
  function Digits(n: nat): (s: string)
    ensures 0 < |s| && AllDigits(s)
  {
    if n < 10 then [DigitChar(n)] else Digits(n / 10) + [DigitChar(n % 10)]
  }

  /** How a number is interpolated into a Ruby string (`Integer#to_s`): a minus
      sign for negative numbers, then the decimal digits. */
  function DecimalString(n: int): (s: string)
    ensures 0 < |s| && ':' !in s && '/' !in s
  {
    if n < 0 then "-" + Digits(-n) else Digits(n)
  }

  function DigitsValue(s: string): nat
    requires AllDigits(s)
  {
    if |s| == 0 then 0 else 10 * DigitsValue(s[..|s| - 1]) + DigitValue(s[|s| - 1])
  }

  /** Reads back what `DecimalString` writes; `None` for any other text. */
  function ParseDecimal(s: string): Option<int> {
    if 1 < |s| && s[0] == '-' && AllDigits(s[1..]) then Some(-(DigitsValue(s[1..]) as int))
    else if 0 < |s| && AllDigits(s) then Some(DigitsValue(s))
    else None
  }

  lemma {:induction false} DigitsValueOfDigits(n: nat)
    ensures DigitsValue(Digits(n)) == n
  {
    if n >= 10 {
      DigitsValueOfDigits(n / 10);
      var s := Digits(n);
      assert s[..|s| - 1] == Digits(n / 10);
    }
  }

  /** A number rendered by `DecimalString` reads back as the same number. */
  lemma DecimalRoundTrip(n: int)
    ensures ParseDecimal(DecimalString(n)) == Some(n)
  {
    if n < 0 {
      var d := Digits(-n);
      DigitsValueOfDigits(-n);
      assert DecimalString(n) == "-" + d;
      assert ("-" + d)[1..] == d;
    } else {
      var d := Digits(n);
      DigitsValueOfDigits(n);
      assert IsDigit(d[0]);
    }
  }

  /** The position of the last `c` in `s`, or -1 when `s` has none. */
  function LastIndex(s: string, c: char): (r: int)
    ensures -1 <= r < |s|
    ensures r == -1 <==> c !in s
    ensures 0 <= r ==> s[r] == c
    ensures forall k :: r < k < |s| ==> s[k] != c
  {
    if |s| == 0 then -1
    else if s[|s| - 1] == c then |s| - 1
    else
      var r := LastIndex(s[..|s| - 1], c);
      assert s == s[..|s| - 1] + [s[|s| - 1]];
      r
  }

  lemma {:induction false} LastIndexBefore(x: string, c: char, z: string)
    requires c !in z
    ensures LastIndex(x + [c] + z, c) == |x|
    decreases |z|
  {
    var s := x + [c] + z;
    if |z| > 0 {
      var z' := z[..|z| - 1];
      assert s[|s| - 1] == z[|z| - 1];
      assert s[..|s| - 1] == x + [c] + z';
      LastIndexBefore(x, c, z');
    }
  }

  /** The text a configured password interpolates as: nothing when unset. */
  function PasswordText(password: Option<string>): string {
    password.GetOr("")
  }

  /** `@redis_url`, built by `register`. */
  function RedisUrl(password: Option<string>, host: string, port: int, db: int): string {
    "redis://" + PasswordText(password) + "@" + host + ":" + DecimalString(port) + "/" + DecimalString(db)
  }

  /** The port a URL names: the number between its last ':' and its last '/'. */
  function UrlPort(url: string): Option<int> {
    var colon := LastIndex(url, ':');
    var slash := LastIndex(url, '/');
    if 0 <= colon < slash then ParseDecimal(url[colon + 1..slash]) else None
  }

  /** The database a URL names: the number after its last '/'. */
  function UrlDb(url: string): Option<int> {
    var slash := LastIndex(url, '/');
    if 0 <= slash then ParseDecimal(url[slash + 1..]) else None
  }

  /** The text after the last ':' of an identity string. */
  function IdentityKey(identity: string): string {
    identity[LastIndex(identity, ':') + 1..]
  }

  /** Text of the shape `head:p/d`, where neither `p` nor `d` holds ':' or
      '/', names `p` as its port and `d` as its database. */
  lemma PortAndDbSegments(head: string, p: string, d: string)
    requires ':' !in p && '/' !in p && ':' !in d && '/' !in d
    ensures UrlPort(head + [':'] + p + ['/'] + d) == ParseDecimal(p)
    ensures UrlDb(head + [':'] + p + ['/'] + d) == ParseDecimal(d)
  {
    var url := head + [':'] + p + ['/'] + d;
    assert LastIndex(url, '/') == |head| + 1 + |p| by {
      LastIndexBefore(head + [':'] + p, '/', d);
    }
    assert LastIndex(url, ':') == |head| by {
      assert ':' !in p + ['/'] + d;
      assert url == head + [':'] + (p + ['/'] + d);
      LastIndexBefore(head, ':', p + ['/'] + d);
    }
    assert url[|head| + 1..|head| + 1 + |p|] == p;
    assert url[|head| + 1 + |p| + 1..] == d;
  }

  /** The URL starts with the redis scheme and names the configured port and
      database, whatever the password and host contain. */
  lemma UrlNamesPortAndDb(password: Option<string>, host: string, port: int, db: int)
    ensures RedisUrl(password, host, port, db)[..8] == "redis://"
    ensures UrlPort(RedisUrl(password, host, port, db)) == Some(port)
    ensures UrlDb(RedisUrl(password, host, port, db)) == Some(db)
  {
    var head := "redis://" + PasswordText(password) + "@" + host;
    var p, d := DecimalString(port), DecimalString(db);
    assert RedisUrl(password, host, port, db) == head + [':'] + p + ['/'] + d;
    PortAndDbSegments(head, p, d);
    DecimalRoundTrip(port);
    DecimalRoundTrip(db);
  }
}
