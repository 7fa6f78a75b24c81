/**
 * The login screen: the change handler that clears the error, the checks
 * submit makes before it sends the credentials (both fields filled, an
 * e-mail address of the form `x@y.z`), and the guard of the reset request.
 */
module Login {
  import opened Text

  // ---------------------------------------------------------------- e-mail pattern

  /** A character of the class `[^\s@]`. */
  predicate PlainChar(c: char) {
    !IsWhitespace(c) && c != '@'
  }

  predicate Plain(s: string) {
    forall i :: 0 <= i < |s| ==> PlainChar(s[i])
  }

  /**
   * `/^[^\s@]+@[^\s@]+\.[^\s@]+$/.test(s)`: `s` is a non-empty run of
   * plain characters, `@`, a non-empty run, a literal `.`, and a non-empty run.
   */
  predicate EmailPattern(s: string) {
    exists k, j :: (0 < k && k + 1 < j && j + 1 < |s| && s[k] == '@' && s[j] == '.'
      && Plain(s[..k]) && Plain(s[k + 1..j]) && Plain(s[j + 1..]))
  }

  function CountChar(s: string, c: char): nat {
    if s == [] then 0 else (if s[0] == c then 1 else 0) + CountChar(s[1..], c)
  }

  lemma {:induction false} CountConcat(a: string, b: string, c: char)
    ensures CountChar(a + b, c) == CountChar(a, c) + CountChar(b, c)
    decreases |a|
  {
    if a == [] {
      assert a + b == b;
    } else {
      assert (a + b)[0] == a[0];
      assert (a + b)[1..] == a[1..] + b;
      CountConcat(a[1..], b, c);
    }
  }

  lemma {:induction false} CountAbsent(s: string, c: char)
    ensures CountChar(s, c) == 0 <==> forall i :: 0 <= i < |s| ==> s[i] != c
    decreases |s|
  {
    if s != [] {
      CountAbsent(s[1..], c);
      assert forall i :: 1 <= i < |s| ==> s[i] == s[1..][i - 1];
    }
  }

  /** A `.` in `b` that is neither its first nor its last character. */
  predicate InnerDot(b: string) {
    exists j :: 0 < j < |b| - 1 && b[j] == '.'
  }

  /** The shape the pattern describes, stated character by character. */
  predicate EmailShape(s: string) {
    NoWhitespace(s) && CountChar(s, '@') == 1
    && exists k :: 0 < k < |s| && s[k] == '@' && InnerDot(s[k + 1..])
  }

  lemma NoWhitespaceConcat(x: string, y: string)
    ensures NoWhitespace(x + y) <==> NoWhitespace(x) && NoWhitespace(y)
  {
    if NoWhitespace(x + y) {
      assert forall i :: 0 <= i < |x| ==> x[i] == (x + y)[i];
      assert forall i :: 0 <= i < |y| ==> y[i] == (x + y)[|x| + i];
    }
  }

  lemma PlainConcat(x: string, y: string)
    ensures Plain(x + y) <==> Plain(x) && Plain(y)
  {
    if Plain(x + y) {
      assert forall i :: 0 <= i < |x| ==> x[i] == (x + y)[i];
      assert forall i :: 0 <= i < |y| ==> y[i] == (x + y)[|x| + i];
    }
  }

  /** Plain text is text with neither white space nor `@`. */
  lemma PlainIff(x: string)
    ensures Plain(x) <==> NoWhitespace(x) && CountChar(x, '@') == 0
  {
    CountAbsent(x, '@');
  }

  /** The part after `@` in a matching address: no white space, no `@`, an inner `.`. */
  lemma Domain(c: string, d: string)
    requires Plain(c) && Plain(d) && |c| > 0 && |d| > 0
    ensures NoWhitespace(c + "." + d) && CountChar(c + "." + d, '@') == 0 && InnerDot(c + "." + d)
  {
    PlainConcat(c, ".");
    PlainConcat(c + ".", d);
    PlainIff(c + "." + d);
    assert (c + "." + d)[|c|] == '.';
  }

  lemma ShapeOfParts(a: string, b: string)
    requires Plain(a) && |a| > 0
    requires NoWhitespace(b) && CountChar(b, '@') == 0 && InnerDot(b)
    ensures EmailShape(a + "@" + b)
  {
    var s := a + "@" + b;
    PlainIff(a);
    NoWhitespaceConcat(a, "@");
    NoWhitespaceConcat(a + "@", b);
    CountConcat(a, "@", '@');
    CountConcat(a + "@", b, '@');
    assert s[|a|] == '@';
    assert s[|a| + 1..] == b;
  }

  lemma PatternOfParts(a: string, c: string, d: string)
    requires Plain(a) && Plain(c) && Plain(d) && |a| > 0 && |c| > 0 && |d| > 0
    ensures EmailPattern(a + "@" + c + "." + d)
  {
    var s := a + "@" + c + "." + d;
    var k, j := |a|, |a| + 1 + |c|;
    assert s[..k] == a && s[k + 1..j] == c && s[j + 1..] == d;
    assert s[k] == '@' && s[j] == '.';
  }

  lemma Reassemble(s: string, k: nat, j: nat)
    requires k < j < |s| && s[k] == '@' && s[j] == '.'
    ensures s == s[..k] + "@" + (s[k + 1..j] + "." + s[j + 1..])
  {
    assert s[k + 1..] == s[k + 1..j] + "." + s[j + 1..];
    assert s == s[..k] + "@" + s[k + 1..];
  }

  /** A matching address has no white space, exactly one `@`, a non-empty local part and an inner `.` after the `@`. */
  lemma EmailPatternShape(s: string)
    requires EmailPattern(s)
    ensures EmailShape(s)
  {
    var k, j :| (0 < k && k + 1 < j && j + 1 < |s| && s[k] == '@' && s[j] == '.'
      && Plain(s[..k]) && Plain(s[k + 1..j]) && Plain(s[j + 1..]));
    var a, c, d := s[..k], s[k + 1..j], s[j + 1..];
    Reassemble(s, k, j);
    Domain(c, d);
    ShapeOfParts(a, c + "." + d);
  }

  /** Around the only `@` of white-space-free text both sides are plain. */
  lemma AroundOnlyAt(a: string, b: string)
    requires NoWhitespace(a + "@" + b) && CountChar(a + "@" + b, '@') == 1
    ensures Plain(a) && Plain(b)
  {
    CountConcat(a, "@", '@');
    CountConcat(a + "@", b, '@');
    NoWhitespaceConcat(a, "@");
    NoWhitespaceConcat(a + "@", b);
    PlainIff(a);
    PlainIff(b);
  }

  lemma PatternOfDomain(a: string, b: string)
    requires Plain(a) && |a| > 0 && Plain(b) && InnerDot(b)
    ensures EmailPattern(a + "@" + b)
  {
    var m :| 0 < m < |b| - 1 && b[m] == '.';
    var c, d := b[..m], b[m + 1..];
    assert b == c + "." + d;
    PlainConcat(c, ".");
    PlainConcat(c + ".", d);
    PatternOfParts(a, c, d);
    assert a + "@" + c + "." + d == a + "@" + b;
  }

  /** Every string of that shape matches. */
  lemma ShapeEmailPattern(s: string)
    requires EmailShape(s)
    ensures EmailPattern(s)
  {
    var k :| 0 < k < |s| && s[k] == '@' && InnerDot(s[k + 1..]);
    var a, b := s[..k], s[k + 1..];
    assert s == a + "@" + b;
    AroundOnlyAt(a, b);
    PatternOfDomain(a, b);
  }

  /** The pattern and the shape describe the same strings. */
  lemma EmailPatternIff(s: string)
    ensures EmailPattern(s) <==> EmailShape(s)
  {
    if EmailPattern(s) {
      EmailPatternShape(s);
    }
    if EmailShape(s) {
      ShapeEmailPattern(s);
    }
  }

  /** A plain address matches. */
  lemma SimpleAddressMatches()
    ensures EmailPattern("a@b.c")
  {
    var s := "a@b.c";
    assert s[..1] == "a" && s[2..3] == "b" && s[4..] == "c";
    assert s[1] == '@' && s[3] == '.';
  }

  /** An address with a second `@` does not match. */
  lemma SecondAtRejected()
    ensures !EmailPattern("a@b@c.d")
  {
    var s := "a@b@c.d";
    assert CountChar(s, '@') == 2;
    EmailPatternIff(s);
  }

  // ---------------------------------------------------------------- form

  /** The form's fields by input name, the error shown, and whether a request is pending. */
  datatype LoginState = LoginState(fields: map<string, string>, error: string, loading: bool)

  const InitialState := LoginState(map["email" := "", "password" := ""], "", false)

  const FillAllFieldsMessage := "Please fill in all fields"
  const InvalidEmailMessage := "Please enter a valid email address"
  const ResetEmailMessage := "Please enter your email address"

  function Field(st: LoginState, name: string): string {
    if name in st.fields then st.fields[name] else ""
  }

  /** `handleChange`: input `name` takes `value` and the error is cleared. */
  function HandleChange(st: LoginState, name: string, value: string): (r: LoginState)
    ensures Field(r, name) == value
    ensures forall n :: n != name ==> Field(r, n) == Field(st, n)
    ensures r.error == "" && r.loading == st.loading
  {
    st.(fields := st.fields[name := value], error := "")
  }

  /** What submit decides before any request. */
  datatype LoginCheck = MissingFields | BadEmail | SendLogin(email: string, password: string)

  function CheckLogin(st: LoginState): (o: LoginCheck)
    ensures o == MissingFields <==> Field(st, "email") == "" || Field(st, "password") == ""
    ensures o == BadEmail <==> o != MissingFields && !EmailPattern(Field(st, "email"))
    ensures o.SendLogin? ==> o.email == Field(st, "email") && o.password == Field(st, "password")
  {
    var email := Field(st, "email");
    var password := Field(st, "password");
    if email == "" || password == "" then MissingFields
    else if !EmailPattern(email) then BadEmail
    else SendLogin(email, password)
  }

  /** `handleSubmit` up to the request: a rejection shows its message and stops loading; otherwise the request is pending. */
  function Submit(st: LoginState): (r: LoginState)
    ensures r.fields == st.fields
    ensures CheckLogin(st) == MissingFields ==> r.error == FillAllFieldsMessage && !r.loading
    ensures CheckLogin(st) == BadEmail ==> r.error == InvalidEmailMessage && !r.loading
    ensures CheckLogin(st).SendLogin? <==> r.loading
    ensures r.loading ==> r.error == ""
  {
    match CheckLogin(st)
    case MissingFields => st.(error := FillAllFieldsMessage, loading := false)
    case BadEmail => st.(error := InvalidEmailMessage, loading := false)
    case SendLogin(_, _) => st.(error := "", loading := true)
  }

  /** Credentials that reach the request name an address with exactly one `@` and no white space. */
  lemma SentEmailWellFormed(st: LoginState)
    requires CheckLogin(st).SendLogin?
    ensures var e := CheckLogin(st).email;
      e != "" && NoWhitespace(e) && CountChar(e, '@') == 1
  {
    EmailPatternShape(Field(st, "email"));
  }

  /** After a rejected submit, typing into either field clears the message. */
  lemma TypingClearsRejection(st: LoginState, name: string, value: string)
    requires !CheckLogin(st).SendLogin?
    ensures Submit(st).error != ""
    ensures HandleChange(Submit(st), name, value).error == ""
  {
  }

  // ---------------------------------------------------------------- reset

  datatype ResetOutcome = ResetRejected | ResetSent

  /** `handleResetPassword`: only an empty address is refused; its format is not checked. */
  function ResetPassword(resetEmail: string): (o: ResetOutcome)
    ensures o == ResetRejected <==> resetEmail == ""
  {
    if resetEmail == "" then ResetRejected else ResetSent
  }

  /** An address submit would refuse is still accepted by the reset request. */
  lemma ResetSkipsFormatCheck()
    ensures ResetPassword("x") == ResetSent && !EmailPattern("x")
  {
  }
}
