/**
 * The step-up login flow as a pure state machine: the state is the OTP dictionary
 * and the account store; each request the core handles is one `Step`.
 */
module StepUp {
  import opened Wrappers
  import opened Ledger
  import opened OtpStore

  /** What a handler answers: `{success: true}`, `{success: true, otpRequired: true}`,
      `400 Invalid email or password`, `400 Invalid OTP`. */
  datatype Outcome = Success | OtpRequired | InvalidCredentials | InvalidOtp

  datatype State = State(otps: Otps, accounts: Histories)

  datatype Transition = Transition(next: State, outcome: Outcome)

  /** The requests of the core, with everything the handler reads from its environment
      (the parsed user agent, the client address, the clock, the random draw) as fields. */
  datatype Request =
    | Register(email: string)
    | PasswordLogin(email: string, fp: Fingerprint, now: int, draw: Draw)
    | GoogleLogin(email: string, fp: Fingerprint, now: int, draw: Draw)
    | RecordLogin(email: string, fp: Fingerprint, ip: string, now: int)
    | SendOtp(email: string, now: int, draw: Draw)
    | VerifyOtp(email: string, submitted: BodyValue, fp: Fingerprint, ip: string, now: int)

  /**
   * `lastLogin && (lastLogin.browser !== currentBrowser || lastLogin.platform !== currentPlatform)`:
   * a challenge is due exactly when there is a previous login and its browser or
   * its platform differs from the current one.
   */
  function NeedsStepUp(history: seq<LoginEvent>, fp: Fingerprint): (challenge: bool)
    ensures challenge <==> (history != [] &&
      (history[|history| - 1].browser != fp.browser || history[|history| - 1].platform != fp.platform))
  {
    match LastLogin(history)
    case None => false
    case Some(last) => last.browser != fp.browser || last.platform != fp.platform
  }

  /** The part both login handlers share once the account is found: challenge
      (through `/send-otp`) or let in. */
  function Challenge(s: State, email: string, fp: Fingerprint, now: int, draw: Draw): (t: Transition)
    requires email in s.accounts
    ensures t.next.accounts == s.accounts
    ensures t.outcome == OtpRequired <==> NeedsStepUp(s.accounts[email], fp)
    ensures t.outcome == OtpRequired ==> t.next.otps == Issue(s.otps, email, draw, now)
    ensures t.outcome != OtpRequired ==> t == Transition(s, Success)
  {
    if NeedsStepUp(s.accounts[email], fp) then
      Transition(s.(otps := Issue(s.otps, email, draw, now)), OtpRequired)
    else
      Transition(s, Success)
  }

  /** Every stored OTP is a six-digit code. */
  ghost predicate WellFormedState(s: State) {
    WellFormed(s.otps)
  }

  /** One request handled to completion. */
  function Step(s: State, req: Request): (t: Transition)
    ensures Extends(s.accounts, t.next.accounts)
    ensures WellFormedState(s) ==> WellFormedState(t.next)
  {
    match req
    case Register(email) =>
      Transition(s.(accounts := Open(s.accounts, email)), Success)
    case PasswordLogin(email, fp, now, draw) =>
      if email in s.accounts then Challenge(s, email, fp, now, draw)
      else Transition(s, InvalidCredentials)
    case GoogleLogin(email, fp, now, draw) =>
      if email in s.accounts then Challenge(s, email, fp, now, draw)
      else Transition(s.(accounts := Open(s.accounts, email)), Success)
    case RecordLogin(email, fp, ip, now) =>
      Transition(s.(accounts := Push(s.accounts, email, EventFrom(now, fp, ip))), Success)
    case SendOtp(email, now, draw) =>
      Transition(s.(otps := Issue(s.otps, email, draw, now)), Success)
    case VerifyOtp(email, submitted, fp, ip, now) =>
      if Accepts(s.otps, email, submitted, now) then
        Transition(State(Consume(s.otps, email), Push(s.accounts, email, EventFrom(now, fp, ip))), Success)
      else
        Transition(s, InvalidOtp)
  }

  /** A sequence of requests handled one after the other. */
  function Run(s: State, reqs: seq<Request>): (s': State)
    ensures Extends(s.accounts, s'.accounts)
    ensures WellFormedState(s) ==> WellFormedState(s')
    decreases |reqs|
  {
    if reqs == [] then s else Run(Step(s, reqs[0]).next, reqs[1..])
  }
}
