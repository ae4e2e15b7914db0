/**
 * The email sender's configuration handling: the check and password
 * clean-up `send_email` performs before it talks to SMTP, and the
 * diagnostic report of `validate_email_config`. The environment is the
 * map of environment variables; the SMTP exchange itself is a parameter.
 */
module EmailConfig {
  import opened Wrappers
  import opened Text
  import Tokens

  const DefaultPort: nat := 465
  const GmailHost: string := "smtp.gmail.com"
  const AppPasswordLength: nat := 16

  /** `host`, `user` and `password` are all set and non-empty. */
  predicate Complete(env: Tokens.Env) {
    !Tokens.Unset(env, "EMAIL_HOST") && !Tokens.Unset(env, "EMAIL_HOST_USER")
    && !Tokens.Unset(env, "EMAIL_HOST_PASSWORD")
  }

  /** One enclosing pair of double quotes: a first and a last character `"` (the same one for `"` alone). */
  predicate DoubleQuoted(p: string) {
    |p| > 0 && p[0] == '"' && p[|p| - 1] == '"'
  }

  /** `p[1:-1]` when `p` starts and ends with `"`; otherwise `p`. */
  function StripQuotePair(p: string): (r: string)
    ensures DoubleQuoted(p) && |p| >= 2 ==> p == "\"" + r + "\""
    ensures DoubleQuoted(p) && |p| < 2 ==> r == ""
    ensures !DoubleQuoted(p) ==> r == p
  {
    if DoubleQuoted(p) then (if |p| >= 2 then p[1..|p| - 1] else "") else p
  }

  /**
   * `int(os.environ.get('EMAIL_PORT', 465))`: the default when unset, the
   * number when the setting is decimal digits, None where `int` raises.
   */
  function Port(env: Tokens.Env): (r: Option<nat>)
    ensures "EMAIL_PORT" !in env ==> r == Some(DefaultPort)
    ensures "EMAIL_PORT" in env ==>
      (r.None? <==> env["EMAIL_PORT"] == "" || exists i :: 0 <= i < |env["EMAIL_PORT"]| && !IsDigit(env["EMAIL_PORT"][i]))
  {
    if "EMAIL_PORT" !in env then Some(DefaultPort)
    else
      var s := env["EMAIL_PORT"];
      if |s| > 0 && forall i :: 0 <= i < |s| ==> IsDigit(s[i]) then Some(DecimalValue(s)) else None
  }

  /** What `send_email` logs in and sends with. */
  datatype Login = Login(host: string, port: nat, user: string, password: string, ssl: bool)

  /**
   * The settings `send_email` connects with: None when the configuration is
   * incomplete (it then returns False without connecting); the password
   * loses one enclosing pair of double quotes.
   */
  function SmtpLogin(env: Tokens.Env, port: nat): (r: Option<Login>)
    ensures r.None? <==> !Complete(env)
    ensures r.Some? ==>
      && r.value.host == env["EMAIL_HOST"] && r.value.user == env["EMAIL_HOST_USER"] && r.value.port == port
      && r.value.password == StripQuotePair(env["EMAIL_HOST_PASSWORD"])
      && (r.value.ssl <==> Lower(if "EMAIL_USE_SSL" in env then env["EMAIL_USE_SSL"] else "True") == "true")
  {
    if !Complete(env) then None
    else
      var ssl := Lower(if "EMAIL_USE_SSL" in env then env["EMAIL_USE_SSL"] else "True") == "true";
      Some(Login(env["EMAIL_HOST"], port, env["EMAIL_HOST_USER"], StripQuotePair(env["EMAIL_HOST_PASSWORD"]), ssl))
  }

  /**
   * `send_email(to, subject, template)`; `deliver` is the SMTP exchange
   * (True when the server accepted the message). None where a malformed
   * port raises, which happens before the configuration check.
   */
  function SendEmail(env: Tokens.Env, deliver: Login -> bool): (r: Option<bool>)
    ensures r.None? <==> Port(env).None?
    ensures Port(env).Some? && !Complete(env) ==> r == Some(false)
    ensures r == Some(true) ==> Complete(env) && deliver(SmtpLogin(env, Port(env).value).value)
    ensures Port(env).Some? && Complete(env) ==> r == Some(deliver(SmtpLogin(env, Port(env).value).value))
  {
    match Port(env)
    case None => None
    case Some(port) =>
      match SmtpLogin(env, port)
      case None => Some(false)
      case Some(login) => Some(deliver(login))
  }

  /** The dictionary `validate_email_config` returns. */
  datatype Report = Report(valid: bool, issues: seq<string>, recommendations: seq<string>)

  /** The issues for settings that are absent or empty, in the order host, user, password. */
  function MissingIssues(env: Tokens.Env): (r: seq<string>)
    ensures r == [] <==> Complete(env)
    ensures |r| <= 3
  {
    (if Tokens.Unset(env, "EMAIL_HOST") then ["EMAIL_HOST not set"] else [])
    + (if Tokens.Unset(env, "EMAIL_HOST_USER") then ["EMAIL_HOST_USER not set"] else [])
    + (if Tokens.Unset(env, "EMAIL_HOST_PASSWORD") then ["EMAIL_HOST_PASSWORD not set"] else [])
  }

  predicate IsQuote(c: char) {
    c == '"' || c == '\''
  }

  /** `password.strip('"\'')`: every leading and trailing quote of either kind goes. */
  function CleanPassword(p: string): (r: string)
    ensures |r| <= |p|
    ensures |r| > 0 ==> !IsQuote(r[0]) && !IsQuote(r[|r| - 1])
    ensures QuoteLead(p) + |r| <= |p| && p[QuoteLead(p)..QuoteLead(p) + |r|] == r
    ensures forall k :: QuoteLead(p) + |r| <= k < |p| ==> IsQuote(p[k])
  {
    var l := LStripBy(p, IsQuote);
    var r := RStripBy(l, IsQuote);
    SliceOfSuffix(p, l, r);
    r
  }

  /** A prefix `r` of the suffix `l` of `p` is the slice of `p` that starts where `l` does. */
  lemma SliceOfSuffix(p: string, l: string, r: string)
    requires |l| <= |p| && l == p[|p| - |l|..] && |r| <= |l| && r == l[..|r|]
    ensures p[|p| - |l|..|p| - |l| + |r|] == r
    ensures forall k :: |p| - |l| + |r| <= k < |p| ==> p[k] == l[k - (|p| - |l|)]
  {
  }

  /** The number of quotes of either kind `p` starts with. */
  function QuoteLead(p: string): (n: nat)
    ensures n <= |p|
    ensures forall k :: 0 <= k < n ==> IsQuote(p[k])
    ensures n < |p| ==> !IsQuote(p[n])
  {
    |p| - |LStripBy(p, IsQuote)|
  }

  /** The part of an address before its first `@`. */
  function LocalPart(user: string): string {
    Before(user, '@')
  }

  /** The issue reported for a Gmail password of the wrong length `n`. */
  function LengthIssue(n: nat): string {
    GmailPrefix + "be 16 characters, got " + Decimal(n)
  }

  /** The start the length and space issues share; the issue texts are built from short pieces. */
  const GmailPrefix: string := "Gmail App Password should "
  const SpaceIssue: string := GmailPrefix + "not contain spaces"
  const AccountPasswordIssue: string := "Using Gmail account " + "password instead of App Password"

  /** The recommendation that accompanies each Gmail issue. */
  function Recommendation(issue: string): string {
    if issue == SpaceIssue then "Remove spaces from App Password"
    else if issue == AccountPasswordIssue then "Generate and use Gmail App Password"
    else "Generate a Gmail App Password"
  }

  /** The three Gmail issues are told apart by their text. */
  lemma IssuesDistinct(n: nat)
    ensures LengthIssue(n) != SpaceIssue && LengthIssue(n) != AccountPasswordIssue
    ensures SpaceIssue != AccountPasswordIssue
  {
    var k := |GmailPrefix|;
    assert LengthIssue(n)[k] == 'b' && SpaceIssue[k] == 'n';
    assert LengthIssue(n)[0] == 'G' && SpaceIssue[0] == 'G';
    assert AccountPasswordIssue[0] == 'U';
  }

  /**
   * The Gmail App Password checks on the cleaned password, each adding one
   * issue: wrong length, a space, the account name itself. `user` is None
   * where the username comparison is not made.
   */
  function GmailIssues(clean: string, user: Option<string>): (r: seq<string>)
    ensures |r| <= 3
    ensures r == [] <==> (|clean| == AppPasswordLength && ' ' !in clean
                          && (user.Some? ==> clean != LocalPart(user.value)))
    ensures LengthIssue(|clean|) in r <==> |clean| != AppPasswordLength
    ensures SpaceIssue in r <==> ' ' in clean
    ensures AccountPasswordIssue in r <==> user.Some? && clean == LocalPart(user.value)
    ensures |clean| != AppPasswordLength ==> r[0] == LengthIssue(|clean|)
  {
    IssuesDistinct(|clean|);
    (if |clean| != AppPasswordLength then [LengthIssue(|clean|)] else [])
    + (if ' ' in clean then [SpaceIssue] else [])
    + (if user.Some? && clean == LocalPart(user.value) then [AccountPasswordIssue] else [])
  }

  /** The issues of the Gmail checks, each with the recommendation that accompanies it. */
  function GmailAdvice(clean: string, user: Option<string>): (r: (seq<string>, seq<string>))
    ensures r.0 == GmailIssues(clean, user)
    ensures |r.0| == |r.1| <= 3
    ensures forall i :: 0 <= i < |r.0| ==> r.1[i] == Recommendation(r.0[i])
  {
    var issues := GmailIssues(clean, user);
    (issues, seq(|issues|, i requires 0 <= i < |issues| => Recommendation(issues[i])))
  }

  /**
   * `validate_email_config()` as written: None where it raises, because
   * with the Gmail host and a password set it splits the username even
   * when `EMAIL_HOST_USER` is absent.
   */
  function ValidateEmailConfigAsWritten(env: Tokens.Env): (r: Option<Report>)
    ensures r.None? <==> !Tokens.Unset(env, "EMAIL_HOST_PASSWORD") && Tokens.Setting(env, "EMAIL_HOST") == GmailHost
                         && "EMAIL_HOST_USER" !in env
  {
    var missing := MissingIssues(env);
    if Tokens.Unset(env, "EMAIL_HOST_PASSWORD") || Tokens.Setting(env, "EMAIL_HOST") != GmailHost then
      Some(Report(missing == [], missing, []))
    else if "EMAIL_HOST_USER" !in env then None
    else
      var advice := GmailAdvice(CleanPassword(env["EMAIL_HOST_PASSWORD"]), Some(env["EMAIL_HOST_USER"]));
      Some(Report(missing == [], missing + advice.0, advice.1))
  }

  /**
   * `validate_email_config()` with the username comparison skipped when
   * there is no username: `valid` says whether host, user and password are
   * all set, and the Gmail checks only ever add advice.
   */
  function ValidateEmailConfig(env: Tokens.Env): (r: Report)
    ensures r.valid <==> Complete(env)
    ensures |r.issues| >= |MissingIssues(env)| && r.issues[..|MissingIssues(env)|] == MissingIssues(env)
    ensures |r.issues| == |MissingIssues(env)| + |r.recommendations|
    ensures (Tokens.Unset(env, "EMAIL_HOST_PASSWORD") || Tokens.Setting(env, "EMAIL_HOST") != GmailHost)
            ==> r.issues == MissingIssues(env) && r.recommendations == []
    ensures (!Tokens.Unset(env, "EMAIL_HOST_PASSWORD") && Tokens.Setting(env, "EMAIL_HOST") == GmailHost) ==>
      var user := if "EMAIL_HOST_USER" in env then Some(env["EMAIL_HOST_USER"]) else None;
      && r.issues[|MissingIssues(env)|..] == GmailAdvice(CleanPassword(env["EMAIL_HOST_PASSWORD"]), user).0
      && r.recommendations == GmailAdvice(CleanPassword(env["EMAIL_HOST_PASSWORD"]), user).1
  {
    var missing := MissingIssues(env);
    if Tokens.Unset(env, "EMAIL_HOST_PASSWORD") || Tokens.Setting(env, "EMAIL_HOST") != GmailHost then
      Report(missing == [], missing, [])
    else
      var user := if "EMAIL_HOST_USER" in env then Some(env["EMAIL_HOST_USER"]) else None;
      var advice := GmailAdvice(CleanPassword(env["EMAIL_HOST_PASSWORD"]), user);
      assert (missing + advice.0)[..|missing|] == missing;
      assert (missing + advice.0)[|missing|..] == advice.0;
      Report(missing == [], missing + advice.0, advice.1)
  }
}
