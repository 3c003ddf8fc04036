/**
  The account description loaded from the configuration file (src/config.rs)
  and the hand-written `Debug` output that keeps credentials and user details
  out of the logs.
 */
module Config {
  import opened Wrappers

  /** Rust's `u16`, the type of the port. */
  type u16 = x: int | 0 <= x < 0x1_0000

  /** Rust's `usize` on a 64-bit target, the type of the connection count. */
  type usize = x: int | 0 <= x < 0x1_0000_0000_0000_0000

  /** Where the password comes from: given in the file, or printed by a command. */
  datatype PasswordContainer = Plaintext(secret: string) | Shell(command: string)

  /** How the TLS session is set up: upgraded after connecting, or from the start. */
  datatype Method = StartTls | Tls

  /** One account. The source's field `method` is called `security` here, since
      `method` is a Dafny keyword. */
  datatype Account = Account(
    host: string,
    port: u16,
    security: Method,
    username: string,
    password: PasswordContainer,
    folder: string,
    connections: usize)

  /** An account table as written in the configuration file, where
      `connections` may be absent. */
  datatype AccountEntry = AccountEntry(
    host: string,
    port: u16,
    security: Method,
    username: string,
    password: PasswordContainer,
    folder: string,
    connections: Option<usize>)

  /** The `zero` default of `connections`. */
  const DEFAULT_CONNECTIONS: usize := 0

  /** The account the deserialiser builds from an entry: every field as given,
      `connections` taken from the entry or else the default 0. */
  function AccountFromEntry(e: AccountEntry): (a: Account)
    ensures e.connections.None? ==> a.connections == 0
    ensures e.connections.Some? ==> a.connections == e.connections.value
    ensures a.host == e.host && a.port == e.port && a.security == e.security
    ensures a.username == e.username && a.password == e.password && a.folder == e.folder
  {
    var connections := match e.connections
      case Some(c) => c
      case None => DEFAULT_CONNECTIONS;
    Account(e.host, e.port, e.security, e.username, e.password, e.folder, connections)
  }

  // ---------------------------------------------------------------------------
  // Decimal formatting of integers, as `{:?}` prints a `u16` or a `usize`.

  predicate IsDigit(c: char) {
    '0' <= c <= '9'
  }

  predicate AllDigits(s: string) {
    forall i :: 0 <= i < |s| ==> IsDigit(s[i])
  }

  function DigitChar(d: nat): (c: char)
    requires d < 10
    ensures IsDigit(c)
  {
    (d + '0' as int) as char
  }

  function DigitValue(c: char): nat
    requires IsDigit(c)
  {
    c as int - '0' as int
  }

  /** The decimal digits of n, without leading zeros. */
  function DecimalString(n: nat): (s: string)
    ensures |s| >= 1 && AllDigits(s)
    ensures |s| > 1 ==> s[0] != '0'
  {
    if n < 10 then [DigitChar(n)]
    else DecimalString(n / 10) + [DigitChar(n % 10)]
  }

  /** The value of a string of decimal digits. */
  function ParseDecimal(s: string): nat
    requires AllDigits(s)
  {
    if s == [] then 0
    else ParseDecimal(s[..|s| - 1]) * 10 + DigitValue(s[|s| - 1])
  }

  lemma {:induction false} ParseDecimalString(n: nat)
    ensures ParseDecimal(DecimalString(n)) == n
  {
    var s := DecimalString(n);
    if n >= 10 {
      assert s[..|s| - 1] == DecimalString(n / 10);
      ParseDecimalString(n / 10);
    }
  }

  /** The length of the run of digits that s starts with. */
  function DigitRunLength(s: string): (n: nat)
    ensures n <= |s|
  {
    if s != [] && IsDigit(s[0]) then 1 + DigitRunLength(s[1..]) else 0
  }

  lemma {:induction false} DigitRunOfDigits(d: string, rest: string)
    requires AllDigits(d)
    requires rest == [] || !IsDigit(rest[0])
    ensures DigitRunLength(d + rest) == |d|
  {
    if d == [] {
      assert d + rest == rest;
    } else {
      assert (d + rest)[0] == d[0];
      assert (d + rest)[1..] == d[1..] + rest;
      DigitRunOfDigits(d[1..], rest);
    }
  }

  // ---------------------------------------------------------------------------
  // The Debug implementations.

  /** The derived `Debug` of `Method`: the variant's name. */
  function MethodDebug(m: Method): string {
    match m
    case StartTls => "StartTls"
    case Tls => "Tls"
  }

  /** `Debug` of a password container: a fixed text per variant, never the
      secret or the command. */
  function PasswordDebug(p: PasswordContainer): string {
    match p
    case Plaintext(_) => "[plaintext password]"
    case Shell(_) => "[shell command]"
  }

  /** The output names the variant and nothing else: two containers print the
      same exactly when they are of the same variant. */
  lemma PasswordDebugShowsOnlyVariant(p: PasswordContainer, q: PasswordContainer)
    ensures PasswordDebug(p) == PasswordDebug(q) <==> p.Plaintext? == q.Plaintext?
    ensures p.Plaintext? ==> PasswordDebug(p) == "[plaintext password]"
    ensures p.Shell? ==> PasswordDebug(p) == "[shell command]"
  {
  }

  /** `Debug` of an account: its method, port and connection count only. */
  function AccountDebug(a: Account): string {
    "Account { method: " + MethodDebug(a.security)
    + ", port: " + DecimalString(a.port)
    + ", connections: " + DecimalString(a.connections) + " }"
  }

  // ---------------------------------------------------------------------------
  // Reading an account's Debug line back, to show what it reveals.

  /** What an account's log line shows. */
  datatype AccountSummary = AccountSummary(security: Method, port: nat, connections: nat)

  /** The rest of s after the prefix p, if s starts with p. */
  function DropPrefix(p: string, s: string): (r: Option<string>)
    ensures r.Some? ==> s == p + r.value
  {
    if |p| <= |s| && s[..|p|] == p then
      assert s == s[..|p|] + s[|p|..];
      Some(s[|p|..])
    else None
  }

  lemma DropPrefixOfAppend(p: string, q: string)
    ensures DropPrefix(p, p + q) == Some(q)
  {
  }

  function ParseMethod(s: string): Option<(Method, string)> {
    match DropPrefix("StartTls", s)
    case Some(rest) => Some((StartTls, rest))
    case None =>
      match DropPrefix("Tls", s)
      case Some(rest) => Some((Tls, rest))
      case None => None
  }

  function ParseNumber(s: string): Option<(nat, string)> {
    var n := DigitRunLength(s);
    if n == 0 then None
    else
      assert forall i :: 0 <= i < n ==> IsDigit(s[i]) by {
        DigitRunPrefix(s);
      }
      Some((ParseDecimal(s[..n]), s[n..]))
  }

  lemma {:induction false} DigitRunPrefix(s: string)
    ensures forall i :: 0 <= i < DigitRunLength(s) ==> IsDigit(s[i])
  {
    if s != [] && IsDigit(s[0]) {
      DigitRunPrefix(s[1..]);
      assert forall i :: 1 <= i < DigitRunLength(s) ==> s[i] == s[1..][i - 1];
    }
  }

  /** The inverse of `AccountDebug` on what it shows. */
  function ParseAccountDebug(s: string): Option<AccountSummary> {
    match DropPrefix("Account { method: ", s)
    case None => None
    case Some(s1) =>
      match ParseMethod(s1)
      case None => None
      case Some((m, s2)) =>
        match DropPrefix(", port: ", s2)
        case None => None
        case Some(s3) =>
          match ParseNumber(s3)
          case None => None
          case Some((port, s4)) =>
            match DropPrefix(", connections: ", s4)
            case None => None
            case Some(s5) =>
              match ParseNumber(s5)
              case None => None
              case Some((connections, s6)) =>
                if s6 == " }" then Some(AccountSummary(m, port, connections)) else None
  }

  lemma ParseMethodOfAppend(m: Method, rest: string)
    requires rest == [] || rest[0] == ','
    ensures ParseMethod(MethodDebug(m) + rest) == Some((m, rest))
  {
    DropPrefixOfAppend(MethodDebug(m), rest);
    if m == Tls {
      assert (MethodDebug(m) + rest)[0] == 'T';
    }
  }

  lemma ParseNumberOfAppend(n: nat, rest: string)
    requires rest == [] || !IsDigit(rest[0])
    ensures ParseNumber(DecimalString(n) + rest) == Some((n, rest))
  {
    var d := DecimalString(n);
    DigitRunOfDigits(d, rest);
    assert (d + rest)[..|d|] == d;
    assert (d + rest)[|d|..] == rest;
    ParseDecimalString(n);
  }

  /** Reading the log line of an account gives back its method, port and
      connection count. */
  lemma AccountDebugReadsBack(a: Account)
    ensures ParseAccountDebug(AccountDebug(a)) == Some(AccountSummary(a.security, a.port, a.connections))
  {
    var m := MethodDebug(a.security);
    var p := DecimalString(a.port);
    var c := DecimalString(a.connections);
    var s6 := " }";
    var s5 := c + s6;
    var s4 := ", connections: " + s5;
    var s3 := p + s4;
    var s2 := ", port: " + s3;
    var s1 := m + s2;
    assert AccountDebug(a) == "Account { method: " + s1;
    DropPrefixOfAppend("Account { method: ", s1);
    ParseMethodOfAppend(a.security, s2);
    DropPrefixOfAppend(", port: ", s3);
    ParseNumberOfAppend(a.port, s4);
    DropPrefixOfAppend(", connections: ", s5);
    ParseNumberOfAppend(a.connections, s6);
  }

  /** The log line of an account reveals its method, port and connection count
      and nothing else: two accounts print the same exactly when those agree,
      whatever their host, user name, password or folder. */
  lemma AccountDebugShowsOnlySummary(a: Account, b: Account)
    ensures AccountDebug(a) == AccountDebug(b)
        <==> a.security == b.security && a.port == b.port && a.connections == b.connections
  {
    if AccountDebug(a) == AccountDebug(b) {
      AccountDebugReadsBack(a);
      AccountDebugReadsBack(b);
    }
  }
}
