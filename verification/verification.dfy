/** The webhook subscription handshake (`verify_webhook`, GET /webhook). */
module Verification {

  import opened Maybe

  /** The HTTP answer: a body (`None` is Python's `None`) and a status. */
  datatype VerifyReply = VerifyReply(body: Option<string>, status: int)

  const Subscribe: string := "subscribe"

  predicate Accepted(r: VerifyReply) {
    r.status == 200
  }

  /** `verify_webhook` as written. Every argument is optional: the three
      query arguments may be absent from the request and the configured
      token may be unset in the environment. The tokens are compared with
      Python's `==`, under which two absent values are equal. */
  function VerifyWebhook(mode: Option<string>, token: Option<string>, challenge: Option<string>,
                         configured: Option<string>): (r: VerifyReply)
    ensures r.status == 200 || r == VerifyReply(Some("Forbidden"), 403)
    ensures r.status == 200 <==> mode == Some(Subscribe) && token == configured
    ensures r.status == 200 ==> r.body == challenge
  {
    if mode == Some(Subscribe) && token == configured then VerifyReply(challenge, 200)
    else VerifyReply(Some("Forbidden"), 403)
  }

  /** With no verify token configured, a subscribe request that carries no
      token is accepted. */
  lemma UnsetTokenAcceptsTokenlessRequest(challenge: Option<string>)
    ensures VerifyWebhook(Some(Subscribe), None, challenge, None) == VerifyReply(challenge, 200)
  {
  }

  /** The handshake as evidently intended: a request is accepted only when a
      verify token is configured and the request presents that token. */
  function VerifyWebhookConfigured(mode: Option<string>, token: Option<string>, challenge: Option<string>,
                                   configured: Option<string>): (r: VerifyReply)
    ensures r.status == 200 ==> configured.Some? && token == configured && r.body == challenge
    ensures r.status != 200 ==> r == VerifyReply(Some("Forbidden"), 403)
    ensures configured.None? ==> r.status == 403
  {
    if configured.None? then VerifyReply(Some("Forbidden"), 403)
    else VerifyWebhook(mode, token, challenge, configured)
  }

  /** Once a verify token is configured, the corrected handshake and the
      written one give the same answer on every request. */
  lemma ConfiguredAgreesWhenSet(mode: Option<string>, token: Option<string>, challenge: Option<string>,
                                configured: Option<string>)
    requires configured.Some?
    ensures VerifyWebhookConfigured(mode, token, challenge, configured)
            == VerifyWebhook(mode, token, challenge, configured)
  {
  }

  /** The corrected handshake accepts a request exactly when it asks to
      subscribe and presents the configured token. */
  lemma ConfiguredAcceptsExactly(mode: Option<string>, token: Option<string>, challenge: Option<string>,
                                 configured: Option<string>)
    ensures Accepted(VerifyWebhookConfigured(mode, token, challenge, configured)) <==>
              mode == Some(Subscribe) && token.Some? && token == configured
  {
  }

  /** Sample: the right token with challenge "123" echoes "123" with 200;
      a wrong token is refused with 403. */
  lemma HandshakeSamples(secret: string, wrong: string)
    requires secret != wrong
    ensures VerifyWebhook(Some("subscribe"), Some(secret), Some("123"), Some(secret)) == VerifyReply(Some("123"), 200)
    ensures VerifyWebhook(Some("subscribe"), Some(wrong), Some("123"), Some(secret)).status == 403
  {
  }
}
