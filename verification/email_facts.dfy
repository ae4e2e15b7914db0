/**
 * How the email sender's two readings of the configuration relate: the
 * report's `valid` flag is exactly the sender's precondition, the two
 * password clean-ups differ, and the correction of the report agrees
 * with the original wherever the original returns.
 */
module EmailConfigFacts {
  import opened Wrappers
  import opened Text
  import Tokens
  import opened EmailConfig

  /** One pair of enclosing double quotes comes off, and only one. */
  lemma QuotePairRoundTrip(x: string)
    ensures StripQuotePair("\"" + x + "\"") == x
    ensures StripQuotePair("\"\"" + x + "\"\"") == "\"" + x + "\""
  {
    var p := "\"\"" + x + "\"\"";
    assert p[1..|p| - 1] == "\"" + x + "\"";
  }

  /** A port written as `str(n)` is read back as `n`. */
  lemma PortRoundTrip(env: Tokens.Env, n: nat)
    requires "EMAIL_PORT" in env && env["EMAIL_PORT"] == Decimal(n)
    ensures Port(env) == Some(n)
  {
    DecimalRoundTrip(n);
  }

  /** The report calls a configuration valid exactly when `send_email` goes on to connect. */
  lemma ValidIffSenderConnects(env: Tokens.Env, port: nat)
    ensures ValidateEmailConfig(env).valid <==> SmtpLogin(env, port).Some?
  {
  }

  /** Wherever the report as written returns, the corrected report returns the same. */
  lemma CorrectionAgrees(env: Tokens.Env)
    requires ValidateEmailConfigAsWritten(env).Some?
    ensures ValidateEmailConfigAsWritten(env) == Some(ValidateEmailConfig(env))
  {
  }

  /** With the Gmail host and a password but no username, the report as written raises; the corrected one reports the missing user. */
  lemma MissingUserWithGmail(env: Tokens.Env)
    requires env == map["EMAIL_HOST" := GmailHost, "EMAIL_HOST_PASSWORD" := "abcdabcdabcdabcd"]
    ensures ValidateEmailConfigAsWritten(env).None?
    ensures ValidateEmailConfig(env).valid == false
    ensures ValidateEmailConfig(env).issues[0] == "EMAIL_HOST_USER not set"
  {
    assert MissingIssues(env) == ["EMAIL_HOST_USER not set"];
  }

  /** A password with no quote at either end is validated as it is. */
  lemma CleanKeepsUnquoted(p: string)
    requires |p| > 0 && !IsQuote(p[0]) && !IsQuote(p[|p| - 1])
    ensures CleanPassword(p) == p
  {
    assert LStripBy(p, IsQuote) == p;
  }

  /** One quote at each end of such a password goes before validation. */
  lemma CleanDropsQuotes(x: string)
    requires |x| > 0 && !IsQuote(x[0]) && !IsQuote(x[|x| - 1])
    ensures CleanPassword("'" + x + "'") == x
  {
    var p := "'" + x + "'";
    assert p[1..] == x + "'";
    assert LStripBy(p, IsQuote) == LStripBy(x + "'", IsQuote) == x + "'";
    assert (x + "'")[..|x|] == x;
    assert RStripBy(x + "'", IsQuote) == RStripBy(x, IsQuote) == x;
  }

  /** The local part of `name@domain` is `name`. */
  lemma {:induction false} LocalPartOf(name: string, domain: string)
    requires '@' !in name
    ensures LocalPart(name + "@" + domain) == name
  {
    if |name| > 0 {
      assert (name + "@" + domain)[1..] == name[1..] + "@" + domain;
      LocalPartOf(name[1..], domain);
      assert name == [name[0]] + name[1..];
    }
  }

  /** A password whose only fault is its length draws the length advice alone. */
  lemma OnlyLengthAdvice(clean: string, user: string)
    requires |clean| != AppPasswordLength && ' ' !in clean && clean != LocalPart(user)
    ensures GmailAdvice(clean, Some(user)) == ([LengthIssue(|clean|)], [Recommendation(LengthIssue(|clean|))])
  {
    var issues := GmailIssues(clean, Some(user));
    assert issues == [LengthIssue(|clean|)];
    var advice := GmailAdvice(clean, Some(user));
    assert |advice.1| == 1 && advice.1[0] == Recommendation(LengthIssue(|clean|));
    assert advice.0 == [LengthIssue(|clean|)];
    assert advice.1 == [Recommendation(LengthIssue(|clean|))];
  }

  /** The length issue for `n` spelled out. */
  lemma LengthIssueText(n: nat)
    requires n < 10
    ensures LengthIssue(n) == "Gmail App Password should be 16 characters, got " + [('0' as int + n) as char]
  {
    assert Decimal(n) == [('0' as int + n) as char];
  }

  /** A six-character password against the account `clinic@gmail.com` draws only the length issue. */
  lemma ShortPasswordAdvice()
    ensures GmailAdvice("secret", Some("clinic@gmail.com")).0 == [LengthIssue(6)]
  {
    LocalPartOf("clinic", "gmail.com");
    assert "clinic" + "@" + "gmail.com" == "clinic@gmail.com";
    assert "clinic"[0] != "secret"[0];
    assert ' ' !in "secret";
    OnlyLengthAdvice("secret", "clinic@gmail.com");
  }

  /**
   * A complete Gmail setup whose password has the wrong length (but no
   * space, no enclosing quote, and is not the account name) stays valid;
   * the only issue is the length, with the count written in decimal.
   */
  lemma ShortGmailPasswordStaysValid(env: Tokens.Env, x: string)
    requires Complete(env) && Tokens.Setting(env, "EMAIL_HOST") == GmailHost
    requires env["EMAIL_HOST_PASSWORD"] == x && x != LocalPart(env["EMAIL_HOST_USER"])
    requires |x| != AppPasswordLength && ' ' !in x && !IsQuote(x[0]) && !IsQuote(x[|x| - 1])
    ensures ValidateEmailConfig(env).valid
    ensures ValidateEmailConfig(env).issues == [LengthIssue(|x|)]
  {
    assert MissingIssues(env) == [];
    CleanKeepsUnquoted(x);
    OnlyLengthAdvice(x, env["EMAIL_HOST_USER"]);
    var advice := GmailAdvice(x, Some(env["EMAIL_HOST_USER"]));
    var r := ValidateEmailConfig(env);
    assert r.issues == r.issues[0..] == advice.0;
  }

  /** A sixteen-character password without spaces that is not the account name draws no advice. */
  lemma AppPasswordNoAdvice(x: string)
    requires |x| == AppPasswordLength && ' ' !in x
    ensures GmailAdvice(x, Some("clinic@gmail.com")) == ([], [])
  {
    LocalPartOf("clinic", "gmail.com");
    assert "clinic" + "@" + "gmail.com" == "clinic@gmail.com";
    assert |"clinic"| != |x|;
  }

  /**
   * Single quotes around an App Password: the report strips them and finds
   * nothing wrong, while `send_email` logs in with the quotes kept.
   */
  lemma SingleQuotesSeenDifferently(env: Tokens.Env, x: string, port: nat)
    requires |x| == AppPasswordLength && ' ' !in x && !IsQuote(x[0]) && !IsQuote(x[|x| - 1])
    requires env == map["EMAIL_HOST" := GmailHost, "EMAIL_HOST_USER" := "clinic@gmail.com",
                        "EMAIL_HOST_PASSWORD" := "'" + x + "'"]
    ensures ValidateEmailConfig(env) == Report(true, [], [])
    ensures SmtpLogin(env, port).value.password == "'" + x + "'" != x
  {
    assert Complete(env);
    assert MissingIssues(env) == [];
    assert env["EMAIL_HOST_USER"] == "clinic@gmail.com" && env["EMAIL_HOST_PASSWORD"] == "'" + x + "'";
    CleanDropsQuotes(x);
    AppPasswordNoAdvice(x);
    assert ("'" + x + "'")[0] == '\'';
  }
}
