/**
 * The HTTP handlers of the step-up flow over the process's mutable state: the global
 * `otps` dictionary and the account store's login histories, updated in place.
 * Each handler is proved to leave the state and give the reply that `StepUp.Step`
 * prescribes for its request.
 */
module Service {
  import opened Wrappers
  import opened Ledger
  import opened OtpStore
  import opened StepUp

  class AuthService {
    /** `const otps = {}` */
    var otps: Otps
    /** The `users` collection, reduced to email to `loginHistory`. */
    var accounts: Histories

    /** The state as the pure model sees it. */
    function Snapshot(): State
      reads this
    {
      State(otps, accounts)
    }

    /** Every stored code is one `/send-otp` could have made; `VerifyOtp` relies on it
        to promise that a success matched a six-digit code. */
    ghost predicate Valid()
      reads this
    {
      WellFormedState(Snapshot())
    }

    /** A process start: `otps` is empty, the user store keeps what it already holds. */
    constructor (stored: Histories)
      ensures Valid()
      ensures otps == map[] && accounts == stored
    {
      otps := map[];
      accounts := stored;
    }

    /** `POST /register`: the new account starts with `loginHistory: []`. */
    method Register(email: string) returns (r: Outcome)
      requires Valid()
      modifies this
      ensures Valid()
      ensures Transition(Snapshot(), r) == Step(old(Snapshot()), Request.Register(email))
    {
      if email !in accounts {
        accounts := accounts[email := []];
      }
      r := Success;
    }

    /** `POST /send-otp`: draws a code, stores it with a five-minute expiry, and returns
        the code handed to the mail transport. */
    method SendOtp(email: string, now: int, draw: Draw) returns (r: Outcome, code: string)
      requires Valid()
      modifies this
      ensures Valid()
      ensures Transition(Snapshot(), r) == Step(old(Snapshot()), Request.SendOtp(email, now, draw))
      ensures IsSixDigitCode(code) && otps[email].code == code
    {
      code := OtpCode(draw);
      otps := otps[email := OtpEntry(code, now + OtpLifetimeMs)];
      r := Success;
    }

    /** The tail both login handlers share once the account is found: compare the
        current fingerprint with the last login and, if it changed, call `/send-otp`. */
    method StepUpIfChanged(email: string, fp: Fingerprint, now: int, draw: Draw) returns (r: Outcome)
      requires Valid() && email in accounts
      modifies this
      ensures Valid()
      ensures Transition(Snapshot(), r) == Challenge(old(Snapshot()), email, fp, now, draw)
    {
      var history := accounts[email];
      if history != [] {
        var lastLogin := history[|history| - 1];
        if lastLogin.browser != fp.browser || lastLogin.platform != fp.platform {
          var _, _ := SendOtp(email, now, draw);
          return OtpRequired;
        }
      }
      r := Success;
    }

    /** `POST /login`: unknown email fails; otherwise step up if the fingerprint changed. */
    method PasswordLogin(email: string, fp: Fingerprint, now: int, draw: Draw) returns (r: Outcome)
      requires Valid()
      modifies this
      ensures Valid()
      ensures Transition(Snapshot(), r) == Step(old(Snapshot()), Request.PasswordLogin(email, fp, now, draw))
    {
      if email !in accounts {
        return InvalidCredentials;
      }
      r := StepUpIfChanged(email, fp, now, draw);
    }

    /** `POST /google-login`: unknown email is provisioned with an empty history and let in. */
    method GoogleLogin(email: string, fp: Fingerprint, now: int, draw: Draw) returns (r: Outcome)
      requires Valid()
      modifies this
      ensures Valid()
      ensures Transition(Snapshot(), r) == Step(old(Snapshot()), Request.GoogleLogin(email, fp, now, draw))
    {
      if email !in accounts {
        accounts := accounts[email := []];
        return Success;
      }
      r := StepUpIfChanged(email, fp, now, draw);
    }

    /** `POST /login-history`: push the current request's event onto the account's history. */
    method RecordLogin(email: string, fp: Fingerprint, ip: string, now: int) returns (r: Outcome)
      requires Valid()
      modifies this
      ensures Valid()
      ensures Transition(Snapshot(), r) == Step(old(Snapshot()), Request.RecordLogin(email, fp, ip, now))
    {
      if email in accounts {
        accounts := accounts[email := accounts[email] + [EventFrom(now, fp, ip)]];
      }
      r := Success;
    }

    /** `POST /verify-otp`: on a valid code, record the login and delete the entry. */
    method VerifyOtp(email: string, submitted: BodyValue, fp: Fingerprint, ip: string, now: int) returns (r: Outcome)
      requires Valid()
      modifies this
      ensures Valid()
      ensures Transition(Snapshot(), r) == Step(old(Snapshot()), Request.VerifyOtp(email, submitted, fp, ip, now))
      ensures r == Success ==> email in old(otps) && submitted == Text(old(otps)[email].code)
                               && IsSixDigitCode(old(otps)[email].code)
    {
      if Accepts(otps, email, submitted, now) {
        if email in accounts {
          accounts := accounts[email := accounts[email] + [EventFrom(now, fp, ip)]];
        }
        otps := otps - {email};
        r := Success;
      } else {
        r := InvalidOtp;
      }
    }
  }
}
