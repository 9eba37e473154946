/** The server's eligibility rule `validEmailAddress`: an address is accepted when
    splitting it on `@` gives exactly two pieces and the second is an allow-listed domain. */
module Eligibility {
  import opened Wrappers
  import opened JsStrings

  /** `EMAIL_DOMAIN_WHITELIST` of the server. */
  const EMAIL_DOMAIN_WHITELIST: seq<string> := ["durfee.io"]

  /** `validEmailAddress(emailAddress)`; `None` is `undefined`, which `|| ''` turns into `''`. */
  predicate ValidEmailAddress(emailAddress: Option<string>) {
    var eap := Split(emailAddress.GetOr(""), '@');
    |eap| == 2 && eap[1] in EMAIL_DOMAIN_WHITELIST
  }

  /** An address with an `@` is eligible exactly when it has no other `@` and the text after
      the `@` is an allow-listed domain (matched exactly and case-sensitively). The local
      part may be anything without `@`, the empty string included. */
  lemma {:induction false} ValidEmailAddressAt(local: string, domain: string)
    ensures ValidEmailAddress(Some(local + "@" + domain))
        <==> '@' !in local && '@' !in domain && domain in EMAIL_DOMAIN_WHITELIST
  {
    var s := local + "@" + domain;
    CountConcat(local, "@", '@');
    CountConcat(local + "@", domain, '@');
    assert Count("@", '@') == 1 by { assert "@"[1..] == []; }
    if '@' !in local && '@' !in domain {
      assert Join([local, domain], '@') == s;
      SplitJoin([local, domain], '@');
    }
  }

  /** An address without `@`, the empty one and a missing one included, is never eligible. */
  lemma ValidEmailAddressNeedsAt(emailAddress: Option<string>)
    requires '@' !in emailAddress.GetOr("")
    ensures !ValidEmailAddress(emailAddress)
  {
  }

  /** An address with more than one `@` is never eligible. */
  lemma ValidEmailAddressOneAt(emailAddress: Option<string>)
    requires Count(emailAddress.GetOr(""), '@') >= 2
    ensures !ValidEmailAddress(emailAddress)
  {
  }
}
