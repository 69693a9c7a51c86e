/**
 * The process-wide `otps` dictionary: email to the one live one-time passcode
 * `{otp, expires}`. Issuing overwrites, verifying compares strictly and checks the
 * expiry, a successful verification deletes the entry.
 */
module OtpStore {
  import opened Decimal

  /** How long a code stays valid, in milliseconds (five minutes). */
  const OtpLifetimeMs: int := 300000
  /** Codes are `Math.floor(CodeLow + Math.random() * CodeSpan)`. */
  const CodeLow: nat := 100000
  const CodeSpan: nat := 900000

  /** `Math.floor(Math.random() * CodeSpan)`: the random part of a code. */
  type Draw = d: nat | d < CodeSpan

  datatype OtpEntry = OtpEntry(code: string, expires: int)

  type Otps = map<string, OtpEntry>

  /** The `otp` field of a JSON request body: a string, a number, or anything else. */
  datatype BodyValue = Text(s: string) | Number(n: int) | Absent

  /** A six-digit code as `/send-otp` makes them: digits only, value in [100000, 999999]. */
  predicate IsSixDigitCode(code: string) {
    |code| == 6 && AllDigits(code) && CodeLow <= Value(code) < CodeLow + CodeSpan
  }

  /** The code for a draw: the decimal string of `CodeLow + draw`. */
  function OtpCode(draw: Draw): (code: string)
    ensures IsSixDigitCode(code) && Value(code) == CodeLow + draw
  {
    ShowLength(CodeLow + draw, 5);
    ValueOfShow(CodeLow + draw);
    Show(CodeLow + draw)
  }

  /** Different draws give different codes, so an older code never matches a newer one by accident. */
  lemma OtpCodeInjective(d1: Draw, d2: Draw)
    ensures OtpCode(d1) == OtpCode(d2) <==> d1 == d2
  {
  }

  /** `otps[email] = {otp, expires: now + 300000}`: replaces any earlier entry for `email`. */
  function Issue(otps: Otps, email: string, draw: Draw, now: int): (otps': Otps)
    ensures otps'.Keys == otps.Keys + {email}
    ensures otps'[email].code == OtpCode(draw) && otps'[email].expires == now + OtpLifetimeMs
    ensures forall e :: e in otps && e != email ==> otps'[e] == otps[e]
  {
    otps[email := OtpEntry(OtpCode(draw), now + OtpLifetimeMs)]
  }

  /** JavaScript `===` between the stored string and whatever the body carried. */
  predicate StrictEquals(stored: string, submitted: BodyValue) {
    match submitted
    case Text(s) => s == stored
    case Number(_) => false
    case Absent => false
  }

  /** `storedOtp && storedOtp.otp === otp && Date.now() < storedOtp.expires`. */
  function Accepts(otps: Otps, email: string, submitted: BodyValue, now: int): (ok: bool)
    ensures ok <==> email in otps && submitted == Text(otps[email].code) && now < otps[email].expires
  {
    email in otps && StrictEquals(otps[email].code, submitted) && now < otps[email].expires
  }

  /** `delete otps[email]`: only that entry goes. */
  function Consume(otps: Otps, email: string): (otps': Otps)
    ensures otps'.Keys == otps.Keys - {email}
    ensures forall e :: e in otps' ==> otps'[e] == otps[e]
  {
    otps - {email}
  }

  /** Every stored entry holds a code `/send-otp` could have made. */
  ghost predicate WellFormed(otps: Otps) {
    forall e :: e in otps ==> IsSixDigitCode(otps[e].code)
  }
}
