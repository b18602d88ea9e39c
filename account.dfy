/** The stored account (Model/Account.swift) and its access-token expiry
    rule. Instants are integer milliseconds since the Unix epoch. The app
    stores the expiry as ISO 8601 text with fractional seconds, which is
    millisecond-exact; here that text is the decimal number of milliseconds,
    so the codec is lossless in the same way. */
module Accounts {
  import opened Common

  /** The expiry text written for an instant. */
  function FormatInstant(t: int): string {
    IntToString(t)
  }

  /** Reading expiry text back; text that is not an instant gives `None`. */
  function ParseInstant(s: string): Option<int> {
    ParseSigned(s)
  }

  /** `isAccessTokenExpired()` with the clock reading `now`: the token is
      still valid only when the expiry text names an instant and `now` is
      not after it; empty or unreadable text counts as expired. */
  function ExpiredAt(expiry: string, now: int): (r: bool)
    ensures expiry == "" ==> r
    ensures !r <==> ParseInstant(expiry).Some? && now <= ParseInstant(expiry).value
  {
    if expiry == "" then true
    else
      match ParseInstant(expiry)
      case None => true
      case Some(d) => now > d
  }

  /** An expiry written with `setAccessTokenExpiry(d)` is read as "not
      expired" exactly up to and including the instant `d`. */
  lemma ExpiryRoundTrip(d: int, now: int)
    ensures !ExpiredAt(FormatInstant(d), now) <==> now <= d
  {
    SignedRoundTrip(d);
  }

  /** The value of an account's five fields; also the transient
      `Account(email:profileName:)` that profile discovery hands around. */
  datatype AccountRecord = AccountRecord(
    email: string,
    profileName: string := "",
    masterToken: string := "",
    accessToken: string := "",
    accessTokenExpiry: string := "")

  /** A persisted account, updated in place by the token client and the
      account list. */
  class Account {
    const email: string
    var profileName: string
    var masterToken: string
    var accessToken: string
    var accessTokenExpiry: string

    /** Every field but `email` defaults to `""`. */
    constructor (email: string, profileName: string := "", masterToken: string := "",
                 accessToken: string := "", accessTokenExpiry: string := "")
      ensures Value() == AccountRecord(email, profileName, masterToken, accessToken, accessTokenExpiry)
    {
      this.email := email;
      this.profileName := profileName;
      this.masterToken := masterToken;
      this.accessToken := accessToken;
      this.accessTokenExpiry := accessTokenExpiry;
    }

    function Value(): AccountRecord
      reads this
    {
      AccountRecord(email, profileName, masterToken, accessToken, accessTokenExpiry)
    }

    function IsAccessTokenExpired(now: int): bool
      reads this
    {
      ExpiredAt(accessTokenExpiry, now)
    }

    /** Stores the expiry text of `date`; afterwards the token reads as
        valid at every instant up to `date` and expired after it. */
    method SetAccessTokenExpiry(date: int)
      modifies this
      ensures Value() == old(Value()).(accessTokenExpiry := FormatInstant(date))
      ensures forall now :: !IsAccessTokenExpired(now) <==> now <= date
    {
      accessTokenExpiry := FormatInstant(date);
      forall now ensures !IsAccessTokenExpired(now) <==> now <= date {
        ExpiryRoundTrip(date, now);
      }
    }
  }
}
