/**
 * The login-history ledger: each account's `loginHistory`, an ordered sequence of
 * login events that the handlers modelled here extend only at its end (a MongoDB
 * `$push`). `PATCH /userUpdates/:email`, which is not modelled, can overwrite it.
 */
module Ledger {
  import opened Wrappers

  /**
   * What the user-agent parser reports for a request: the browser name and the
   * operating-system name, `None` where the parser cannot name one.
   */
  datatype Fingerprint = Fingerprint(browser: Option<string>, platform: Option<string>)

  /**
   * One login: when, from which browser and platform, from which client address.
   * The source also stores the operating-system name a second time as `os`, always
   * equal to `platform`; the model keeps it once.
   */
  datatype LoginEvent = LoginEvent(timestamp: int, browser: Option<string>, platform: Option<string>, ip: string)

  /** The account store, reduced to what the core reads: email to login history. */
  type Histories = map<string, seq<LoginEvent>>

  /** The event recorded for a request seen at `now` with fingerprint `fp` from `ip`. */
  function EventFrom(now: int, fp: Fingerprint, ip: string): (e: LoginEvent)
    ensures e.browser == fp.browser && e.platform == fp.platform
    ensures e.timestamp == now && e.ip == ip
  {
    LoginEvent(now, fp.browser, fp.platform, ip)
  }

  /** `loginHistory[loginHistory.length - 1]`: undefined on an empty history. */
  function LastLogin(history: seq<LoginEvent>): (last: Option<LoginEvent>)
    ensures last.None? <==> history == []
    ensures last.Some? ==> last.value == history[|history| - 1]
  {
    if history == [] then None else Some(history[|history| - 1])
  }

  /** A new account: inserted with `loginHistory: []`; an existing account is left as it is. */
  function Open(hs: Histories, email: string): (hs': Histories)
    ensures hs'.Keys == hs.Keys + {email}
    ensures email !in hs ==> hs'[email] == []
    ensures forall e :: e in hs ==> hs'[e] == hs[e]
  {
    if email in hs then hs else hs[email := []]
  }

  /**
   * `updateOne({email}, {$push: {loginHistory: event}})` without upsert: the event
   * goes at the end of that account's history; an unknown email matches nothing.
   */
  function Push(hs: Histories, email: string, event: LoginEvent): (hs': Histories)
    ensures hs'.Keys == hs.Keys
    ensures email in hs ==> hs'[email] == hs[email] + [event]
    ensures forall e :: e in hs && e != email ==> hs'[e] == hs[e]
  {
    if email in hs then hs[email := hs[email] + [event]] else hs
  }

  /** Every account of `hs` is still in `hs'`, with its old history as a prefix of the new one. */
  ghost predicate Extends(hs: Histories, hs': Histories) {
    forall e :: e in hs ==> e in hs' && hs[e] <= hs'[e]
  }
}
