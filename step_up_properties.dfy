/** What the step-up flow promises, stated over `StepUp.Step` and `StepUp.Run`. */
module StepUpProperties {
  import opened Wrappers
  import opened Ledger
  import opened OtpStore
  import opened StepUp

  /**
   * Password login: an unknown email fails and changes nothing; a known one asks for
   * an OTP exactly when the step-up predicate holds, issuing a fresh code for that
   * email, and otherwise succeeds with nothing changed. No login touches a history.
   */
  lemma PasswordLoginDecision(s: State, email: string, fp: Fingerprint, now: int, draw: Draw)
    ensures var t := Step(s, PasswordLogin(email, fp, now, draw));
      && (email !in s.accounts ==> t == Transition(s, InvalidCredentials))
      && (email in s.accounts ==>
            && t.next.accounts == s.accounts
            && (t.outcome == OtpRequired <==> NeedsStepUp(s.accounts[email], fp))
            && (t.outcome == OtpRequired ==> t.next.otps == Issue(s.otps, email, draw, now))
            && (t.outcome != OtpRequired ==> t == Transition(s, Success)))
  {
  }

  /**
   * Federated login: an unknown email is provisioned with an empty history and let in
   * without a code; a known one is decided exactly as the password path decides it.
   */
  lemma GoogleLoginDecision(s: State, email: string, fp: Fingerprint, now: int, draw: Draw)
    ensures var t := Step(s, GoogleLogin(email, fp, now, draw));
      && (email !in s.accounts ==>
            && t.outcome == Success
            && t.next.otps == s.otps
            && t.next.accounts == s.accounts[email := []])
      && (email in s.accounts ==> t == Step(s, PasswordLogin(email, fp, now, draw)))
  {
  }

  /** A login is challenged exactly when the account has a last login whose browser
      or platform differs from the current ones; the two login paths agree. */
  lemma ChallengeIffFingerprintChanged(s: State, email: string, fp: Fingerprint, now: int, draw: Draw)
    requires email in s.accounts
    ensures var h := s.accounts[email];
      var changed := h != [] && (h[|h| - 1].browser != fp.browser || h[|h| - 1].platform != fp.platform);
      && Step(s, PasswordLogin(email, fp, now, draw)).outcome == (if changed then OtpRequired else Success)
      && Step(s, GoogleLogin(email, fp, now, draw)).outcome == (if changed then OtpRequired else Success)
  {
  }

  /** `/register` opens an unknown account with an empty history and touches nothing else. */
  lemma RegisterStartsEmpty(s: State, email: string)
    ensures var t := Step(s, Register(email));
      && t.outcome == Success && t.next.otps == s.otps
      && email in t.next.accounts
      && (email !in s.accounts ==> t.next.accounts[email] == [])
      && (forall e :: e in s.accounts ==> t.next.accounts[e] == s.accounts[e])
  {
  }

  /** `/login-history` puts exactly one event, built from the current request, at the end
      of that account's history; every other history and every OTP stay as they were. */
  lemma RecordLoginAppends(s: State, email: string, fp: Fingerprint, ip: string, now: int)
    ensures var t := Step(s, RecordLogin(email, fp, ip, now));
      && t.outcome == Success && t.next.otps == s.otps
      && t.next.accounts.Keys == s.accounts.Keys
      && (email in s.accounts ==> t.next.accounts[email] == s.accounts[email] + [LoginEvent(now, fp.browser, fp.platform, ip)])
      && (forall e :: e in s.accounts && e != email ==> t.next.accounts[e] == s.accounts[e])
  {
  }

  /** `/send-otp` stores a six-digit code expiring exactly five minutes from now,
      replacing whatever that email had; the histories do not change. */
  lemma SendOtpOverwrites(s: State, email: string, now: int, draw: Draw)
    ensures var t := Step(s, SendOtp(email, now, draw));
      && t.outcome == Success && t.next.accounts == s.accounts
      && email in t.next.otps
      && t.next.otps[email].expires == now + 300000
      && IsSixDigitCode(t.next.otps[email].code)
      && Decimal.Value(t.next.otps[email].code) == 100000 + draw
      && t.next.otps == s.otps[email := t.next.otps[email]]
  {
  }

  /** No request touches the OTP entry or the history of an email other than its own. */
  lemma OtherEmailsUntouched(s: State, req: Request, e: string)
    requires e != req.email
    ensures var t := Step(s, req);
      && (e in s.otps ==> e in t.next.otps && t.next.otps[e] == s.otps[e])
      && (e !in s.otps ==> e !in t.next.otps)
      && (e in s.accounts ==> t.next.accounts[e] == s.accounts[e])
      && (e !in s.accounts ==> e !in t.next.accounts)
  {
  }

  /** Verification succeeds iff an entry exists, the submitted value is that very string,
      and the clock is strictly before the expiry. */
  lemma VerifyIff(s: State, email: string, submitted: BodyValue, fp: Fingerprint, ip: string, now: int)
    ensures var t := Step(s, VerifyOtp(email, submitted, fp, ip, now));
      && (t.outcome == Success <==>
            email in s.otps && submitted == Text(s.otps[email].code) && now < s.otps[email].expires)
      && (t.outcome != Success ==> t.outcome == InvalidOtp)
  {
  }

  /** At the instant of expiry, and after it, even the right code fails. */
  lemma ExpiredCodeFails(s: State, email: string, submitted: BodyValue, fp: Fingerprint, ip: string, now: int)
    requires email in s.otps && now >= s.otps[email].expires
    ensures Step(s, VerifyOtp(email, submitted, fp, ip, now)) == Transition(s, InvalidOtp)
  {
  }

  /** `===` against the stored string: a code sent as a JSON number never verifies. */
  lemma NumericOtpNeverVerifies(s: State, email: string, n: int, fp: Fingerprint, ip: string, now: int)
    ensures Step(s, VerifyOtp(email, Number(n), fp, ip, now)) == Transition(s, InvalidOtp)
  {
  }

  /** A failed verification changes neither the OTP dictionary nor any history. */
  lemma FailedVerifyChangesNothing(s: State, email: string, submitted: BodyValue, fp: Fingerprint, ip: string, now: int)
    ensures var t := Step(s, VerifyOtp(email, submitted, fp, ip, now));
      t.outcome != Success ==> t.next == s
  {
  }

  /**
   * A successful verification deletes that email's entry and nothing else, and appends
   * exactly one event carrying the current browser, platform and address to the end
   * of that account's history, leaving the earlier entries in place.
   */
  lemma VerifyConsumesAndRecords(s: State, email: string, submitted: BodyValue, fp: Fingerprint, ip: string, now: int)
    ensures var t := Step(s, VerifyOtp(email, submitted, fp, ip, now));
      t.outcome == Success ==>
        && email !in t.next.otps
        && t.next.otps == s.otps - {email}
        && t.next.accounts.Keys == s.accounts.Keys
        && (email in s.accounts ==>
              t.next.accounts[email] == s.accounts[email] + [LoginEvent(now, fp.browser, fp.platform, ip)])
  {
  }

  /** One-time use: once a code has verified, the same submission fails at any later time. */
  lemma OneTimeUse(s: State, email: string, submitted: BodyValue, fp: Fingerprint, ip: string, now: int,
                   fp2: Fingerprint, ip2: string, now2: int)
    requires Step(s, VerifyOtp(email, submitted, fp, ip, now)).outcome == Success
    ensures var s' := Step(s, VerifyOtp(email, submitted, fp, ip, now)).next;
      Step(s', VerifyOtp(email, submitted, fp2, ip2, now2)) == Transition(s', InvalidOtp)
  {
  }

  /**
   * Last issued wins: after two codes are issued for one email, the first one verifies
   * only when the two draws were equal (so the codes are the same string), and then only
   * before the second code's expiry.
   */
  lemma LatestCodeWins(s: State, email: string, t1: int, d1: Draw, t2: int, d2: Draw,
                       fp: Fingerprint, ip: string, now: int)
    ensures var s2 := Run(s, [SendOtp(email, t1, d1), SendOtp(email, t2, d2)]);
      var ok := Step(s2, VerifyOtp(email, Text(OtpCode(d1)), fp, ip, now)).outcome == Success;
      ok <==> d1 == d2 && now < t2 + 300000
  {
    var s1 := Step(s, SendOtp(email, t1, d1)).next;
    var s2 := Step(s1, SendOtp(email, t2, d2)).next;
    RunTwo(s, SendOtp(email, t1, d1), SendOtp(email, t2, d2));
    SendOtpOverwrites(s1, email, t2, d2);
    assert s2.otps[email] == OtpEntry(OtpCode(d2), t2 + 300000);
    VerifyIff(s2, email, Text(OtpCode(d1)), fp, ip, now);
    OtpCodeInjective(d1, d2);
  }

  /** Running two requests is stepping twice. */
  lemma RunTwo(s: State, a: Request, b: Request)
    ensures Run(s, [a, b]) == Step(Step(s, a).next, b).next
  {
    var s1 := Step(s, a).next;
    assert [a, b][1..] == [b];
    assert [b][1..] == [];
    assert Run(s, [a, b]) == Run(s1, [b]);
    assert Run(s1, [b]) == Run(Step(s1, b).next, []);
  }

  /**
   * Per step, a history changes only at its end and only by one event: through
   * `/login-history`, or through a successful verification, for that request's own
   * email. Logins never record, so a challenged attempt is recorded at most once,
   * after its code is verified.
   */
  lemma OnlyRecordOrVerifyAppends(s: State, req: Request, e: string)
    requires e in s.accounts
    ensures var t := Step(s, req);
      || t.next.accounts[e] == s.accounts[e]
      || (&& e == req.email
          && (req.RecordLogin? || (req.VerifyOtp? && t.outcome == Success))
          && t.next.accounts[e] == s.accounts[e] + [LoginEvent(req.now, req.fp.browser, req.fp.platform, req.ip)])
  {
  }

  /** The events `/login-history` requests for `email` record, in order. */
  function RecordedEvents(reqs: seq<Request>): (events: seq<LoginEvent>)
    requires forall i :: 0 <= i < |reqs| ==> reqs[i].RecordLogin?
    ensures |events| == |reqs|
  {
    if reqs == [] then []
    else [EventFrom(reqs[0].now, reqs[0].fp, reqs[0].ip)] + RecordedEvents(reqs[1..])
  }

  /**
   * No append is lost: N `/login-history` requests for an existing account leave its
   * history as the old one followed by the N events, in request order.
   */
  lemma {:induction false} RecordsAccumulate(s: State, email: string, reqs: seq<Request>)
    requires email in s.accounts
    requires forall i :: 0 <= i < |reqs| ==> reqs[i].RecordLogin? && reqs[i].email == email
    ensures email in Run(s, reqs).accounts
    ensures Run(s, reqs).accounts[email] == s.accounts[email] + RecordedEvents(reqs)
    ensures |Run(s, reqs).accounts[email]| == |s.accounts[email]| + |reqs|
    decreases |reqs|
  {
    if reqs != [] {
      var s1 := Step(s, reqs[0]).next;
      assert s1.accounts[email] == s.accounts[email] + [EventFrom(reqs[0].now, reqs[0].fp, reqs[0].ip)];
      RecordsAccumulate(s1, email, reqs[1..]);
      assert Run(s, reqs) == Run(s1, reqs[1..]);
      assert RecordedEvents(reqs) == [EventFrom(reqs[0].now, reqs[0].fp, reqs[0].ip)] + RecordedEvents(reqs[1..]);
    }
  }

  /** Over any run, every account survives and its old history stays a prefix of the new one. */
  lemma HistoryIsAppendOnly(s: State, reqs: seq<Request>, e: string)
    requires e in s.accounts
    ensures e in Run(s, reqs).accounts
    ensures s.accounts[e] <= Run(s, reqs).accounts[e]
    ensures |s.accounts[e]| <= |Run(s, reqs).accounts[e]|
  {
  }

  /** A restart empties `otps` but keeps the user store: no verification succeeds then,
      whatever the accounts hold and whatever is submitted. */
  lemma RestartLosesCodes(accounts: Histories, email: string, submitted: BodyValue, fp: Fingerprint, ip: string, now: int)
    ensures var s := State(map[], accounts);
      Step(s, VerifyOtp(email, submitted, fp, ip, now)) == Transition(s, InvalidOtp)
  {
  }

  /** The worked example: last login Chrome on Windows, new login Safari on macOS. */
  lemma ChangedFingerprintScenario(now: int, draw: Draw)
    ensures var last := LoginEvent(0, Some("Chrome"), Some("Windows"), "10.0.0.1");
      var s := State(map[], map["a@x.com" := [last]]);
      var t := Step(s, PasswordLogin("a@x.com", Fingerprint(Some("Safari"), Some("macOS")), now, draw));
      && t.outcome == OtpRequired
      && "a@x.com" in t.next.otps
      && IsSixDigitCode(t.next.otps["a@x.com"].code)
      && t.next.otps["a@x.com"].expires == now + 300000
  {
  }

  /** The right code issued at `t0` verifies at `t0 + 299 s`, fails at `t0 + 300 s` and at `t0 + 301 s`. */
  lemma ExpiryScenario(s: State, email: string, t0: int, draw: Draw, fp: Fingerprint, ip: string)
    ensures var s1 := Step(s, SendOtp(email, t0, draw)).next;
      var code := Text(OtpCode(draw));
      && Step(s1, VerifyOtp(email, code, fp, ip, t0 + 299000)).outcome == Success
      && Step(s1, VerifyOtp(email, code, fp, ip, t0 + 300000)).outcome == InvalidOtp
      && Step(s1, VerifyOtp(email, code, fp, ip, t0 + 301000)).outcome == InvalidOtp
  {
  }
}
