/**
 * The type-state login session of `thesis/listings/type-state.rs`. A
 * session is anonymous or verified; only an anonymous session can log in,
 * only a verified one holds a user and may read the secret, and the
 * connection moves unchanged from the one to the other.
 *
 * The authentication status is a type parameter in the listing; here it is
 * the constructor of `Session`, and what the types forbid are `requires`.
 */
module TypeState {
  import opened Wrappers

  /** An octet of an IPv4 address. */
  newtype Octet = x: int | 0 <= x < 256

  /** `Ipv4Addr`: four octets, most significant first. */
  datatype Ipv4 = Ipv4(a: Octet, b: Octet, c: Octet, d: Octet)

  /** `User`. */
  datatype User = User(userName: string)

  /** `Connection(Ipv4Addr)`: its printing on creation and drop is left out. */
  datatype Connection = Connection(client: Ipv4)

  /** `Session<Anonymous>` with context `()`, and `Session<Verified>` with context `User`. */
  datatype Session =
    | Anonymous(connection: Connection)
    | Verified(connection: Connection, ctx: User)

  /** `LoginError`. */
  datatype LoginError = InvalidPassword(userName: string, password: string)

  const Password: string := "password"

  /** `Session::<Anonymous>::new`: an anonymous session over a new connection to `ip`. */
  function New(ip: Ipv4): (s: Session)
    ensures s.Anonymous? && s.connection.client == ip
  {
    Anonymous(Connection(ip))
  }

  /** `db_check_password`: only "password" passes; otherwise the error names the user and the password given. */
  function CheckPassword(user: User, password: string): (r: Result<(), LoginError>)
    ensures r.Ok? <==> password == Password
    ensures r.Err? ==> r.error == InvalidPassword(user.userName, password)
  {
    if password == Password then Ok(()) else Err(InvalidPassword(user.userName, password))
  }

  /**
   * `Session::<Anonymous>::log_in`: on a passing check, a verified session
   * over the same connection whose context is the user; otherwise the
   * check's error.
   */
  function LogIn(s: Session, user: User, password: string): (r: Result<Session, LoginError>)
    requires s.Anonymous?
    ensures r.Ok? <==> password == Password
    ensures r.Ok? ==> r.value == Verified(s.connection, user)
    ensures r.Err? ==> r.error == InvalidPassword(user.userName, password)
  {
    match CheckPassword(user, password)
    case Ok(_) => Ok(Verified(s.connection, user))
    case Err(e) => Err(e)
  }

  /** `Session::<Verified>::secret`. */
  function Secret(s: Session): (r: string)
    requires s.Verified?
    ensures r == "'a secret'"
  {
    "'a secret'"
  }

  /**
   * The secret is out of reach of a new session, and reachable from it
   * exactly through a log-in with the right password.
   */
  lemma SecretNeedsLogIn(ip: Ipv4, user: User, password: string)
    ensures !New(ip).Verified?
    ensures LogIn(New(ip), user, password).Ok? <==> password == Password
    ensures LogIn(New(ip), user, password).Ok? ==>
      LogIn(New(ip), user, password).value.Verified?
      && Secret(LogIn(New(ip), user, password).value) == "'a secret'"
  {
  }

  // ---------------------------------------------------------------------
  // Main pages

  /** The decimal digit of `n < 10`. */
  function Digit(n: nat): char
    requires n < 10
  {
    "0123456789"[n]
  }

  predicate IsDigit(c: char)
  {
    '0' <= c <= '9'
  }

  function DigitValue(c: char): nat
    requires IsDigit(c)
  {
    (c - '0') as nat
  }

  /** The decimal numeral of `n`, without leading zeros. */
  function Decimal(n: nat): (s: string)
    ensures |s| > 0
    ensures forall i :: 0 <= i < |s| ==> IsDigit(s[i])
    decreases n
  {
    if n < 10 then [Digit(n)] else Decimal(n / 10) + [Digit(n % 10)]
  }

  /** The value of a string of decimal digits. */
  function ParseDecimal(s: string): nat
    requires forall i :: 0 <= i < |s| ==> IsDigit(s[i])
  {
    if s == [] then 0 else ParseDecimal(s[..|s| - 1]) * 10 + DigitValue(s[|s| - 1])
  }

  /** Reading the numeral of `n` gives `n` back. */
  lemma {:induction false} DecimalRoundTrip(n: nat)
    ensures ParseDecimal(Decimal(n)) == n
    decreases n
  {
    var s := Decimal(n);
    if n < 10 {
      assert s[..|s| - 1] == [];
    } else {
      DecimalRoundTrip(n / 10);
      assert s[..|s| - 1] == Decimal(n / 10);
    }
  }

  /** A numeral, a dot, then the rest. */
  function Dotted(n: nat, rest: string): (r: string)
    ensures |r| > |rest| + 1 && IsDigit(r[0])
  {
    Decimal(n) + "." + rest
  }

  /** `{:?}` of an `Ipv4Addr`: the four octets in decimal, joined by dots. */
  function FormatIp(ip: Ipv4): (r: string)
    ensures |r| >= 7 && IsDigit(r[0]) && IsDigit(r[|r| - 1])
  {
    Dotted(ip.a as nat, Dotted(ip.b as nat, Dotted(ip.c as nat, Decimal(ip.d as nat))))
  }

  /** A numeral and what follows its first dot can be told apart. */
  lemma SplitAtDot(m: nat, n: nat, r: string, t: string)
    requires Dotted(m, r) == Dotted(n, t)
    ensures m == n && r == t
  {
    var x, y := Decimal(m), Decimal(n);
    var lhs, rhs := Dotted(m, r), Dotted(n, t);
    assert forall i :: 0 <= i < |x| ==> lhs[i] == x[i];
    assert forall i :: 0 <= i < |y| ==> rhs[i] == y[i];
    assert lhs[|x|] == '.' && rhs[|y|] == '.';
    assert |x| == |y|;
    assert x == lhs[..|x|] == rhs[..|x|] == y;
    assert r == lhs[|x| + 1..] == rhs[|x| + 1..] == t;
    DecimalRoundTrip(m);
    DecimalRoundTrip(n);
  }

  /** Different addresses print differently. */
  lemma FormatIpInjective(p: Ipv4, q: Ipv4)
    requires FormatIp(p) == FormatIp(q)
    ensures p == q
  {
    SplitAtDot(p.a as nat, q.a as nat, Dotted(p.b as nat, Dotted(p.c as nat, Decimal(p.d as nat))),
               Dotted(q.b as nat, Dotted(q.c as nat, Decimal(q.d as nat))));
    SplitAtDot(p.b as nat, q.b as nat, Dotted(p.c as nat, Decimal(p.d as nat)), Dotted(q.c as nat, Decimal(q.d as nat)));
    SplitAtDot(p.c as nat, q.c as nat, Decimal(p.d as nat), Decimal(q.d as nat));
    DecimalRoundTrip(p.d as nat);
    DecimalRoundTrip(q.d as nat);
  }

  /** Equal greetings with equal names show equal addresses. */
  lemma SameNameSameAddress(who: string, a: string, b: string)
    requires "welcome " + who + " at " + a + "!" == "welcome " + who + " at " + b + "!"
    ensures a == b
  {
    var w := "welcome " + who + " at ";
    assert (w + a + "!")[|w|..|w| + |a|] == a;
    assert (w + b + "!")[|w|..|w| + |b|] == b;
  }

  /** Equal greetings with equal addresses show equal names. */
  lemma SameAddressSameName(v: string, w: string, a: string)
    requires "welcome " + v + " at " + a + "!" == "welcome " + w + " at " + a + "!"
    ensures v == w
  {
    var rest := " at " + a + "!";
    assert "welcome " + v + " at " + a + "!" == "welcome " + v + rest;
    assert "welcome " + w + " at " + a + "!" == "welcome " + w + rest;
    assert ("welcome " + v + rest)[8..8 + |v|] == v;
    assert ("welcome " + w + rest)[8..8 + |w|] == w;
  }

  /** `MainPage::main_page`: a generic greeting for anonymous sessions, the user's name for verified ones. */
  function MainPage(s: Session): (r: string)
    ensures "welcome " + Greeted(s) + " at " <= r && r[|r| - 1] == '!'
  {
    match s
    case Anonymous(conn) => "welcome anonymous at " + FormatIp(conn.client) + "!"
    case Verified(conn, user) => "welcome " + user.userName + " at " + FormatIp(conn.client) + "!"
  }

  /** `who` in "welcome {who} at {ip}!": "anonymous" or the user's name. */
  function Greeted(s: Session): string
  {
    match s
    case Anonymous(_) => "anonymous"
    case Verified(_, user) => user.userName
  }

  /** Every main page is "welcome {who} at {ip}!". */
  lemma MainPageShape(s: Session)
    ensures MainPage(s) == "welcome " + Greeted(s) + " at " + FormatIp(s.connection.client) + "!"
  {
  }

  /**
   * A main page tells the address given the name, and the name given the
   * address.
   */
  lemma MainPageReadBack(s: Session, t: Session)
    requires MainPage(s) == MainPage(t)
    ensures Greeted(s) == Greeted(t) ==> s.connection == t.connection
    ensures s.connection == t.connection ==> Greeted(s) == Greeted(t)
  {
    MainPageShape(s);
    MainPageShape(t);
    if Greeted(s) == Greeted(t) {
      SameNameSameAddress(Greeted(s), FormatIp(s.connection.client), FormatIp(t.connection.client));
      FormatIpInjective(s.connection.client, t.connection.client);
    }
    if s.connection == t.connection {
      SameAddressSameName(Greeted(s), Greeted(t), FormatIp(s.connection.client));
    }
  }

  /** After a successful log-in the page greets the user at the address the anonymous page showed. */
  lemma LogInPage(ip: Ipv4, user: User)
    ensures LogIn(New(ip), user, Password).Ok?
    ensures MainPage(New(ip)) == "welcome anonymous at " + FormatIp(ip) + "!"
    ensures MainPage(LogIn(New(ip), user, Password).value) == "welcome " + user.userName + " at " + FormatIp(ip) + "!"
  {
  }

  /** A verified user named "anonymous" sees the anonymous page. */
  lemma AnonymousNameSamePage(ip: Ipv4)
    ensures MainPage(Verified(Connection(ip), User("anonymous"))) == MainPage(New(ip))
  {
  }
}
