/**
 * The route guard (src/components/ProtectedRoute.tsx): on each render it
 * checks the stored token and either renders the protected children or
 * redirects to the landing page, clearing a token that is unreadable or
 * expired.
 *
 * `jwtDecode` is a parameter, a partial function from token text to payload
 * (`None` where it throws); the clock is an integer count of milliseconds.
 */
module ProtectedRoute {
  import opened Wrappers
  import opened Types

  /** What the guard renders, and whether it removes the stored token first. */
  datatype Outcome = Redirect(clearToken: bool) | RenderChildren

  /** `decoded.exp` is truthy: present and not 0. */
  predicate HasExpiry(p: JWTPayload) {
    p.exp.Some? && p.exp.value != 0
  }

  /**
   * `decoded.exp < Date.now() / 1000` (ProtectedRoute.tsx:19-21), stated
   * without division: `exp` seconds lie strictly before `nowMs` milliseconds.
   */
  predicate ExpiredAt(p: JWTPayload, nowMs: int) {
    HasExpiry(p) && p.exp.value * 1000 < nowMs
  }

  /**
   * The guard's decision (ProtectedRoute.tsx:11-31): no token (or an empty
   * one) redirects and leaves the store alone; a token that does not decode,
   * or whose truthy expiry has passed, is cleared and redirects; any other
   * token renders the children.
   */
  function Decide(token: Option<string>, decode: string -> Option<JWTPayload>, nowMs: int): (r: Outcome)
    ensures token == None || token == Some("") ==> r == Redirect(false)
    ensures token.Some? && token.value != "" && decode(token.value).None? ==> r == Redirect(true)
    ensures token.Some? && token.value != "" && decode(token.value).Some? ==>
              (r == Redirect(true) <==> ExpiredAt(decode(token.value).value, nowMs))
    ensures r == RenderChildren <==>
              token.Some? && token.value != "" && decode(token.value).Some? && !ExpiredAt(decode(token.value).value, nowMs)
  {
    if token.None? || token.value == "" then Redirect(false)
    else
      match decode(token.value)
      case None => Redirect(true)
      case Some(p) => if ExpiredAt(p, nowMs) then Redirect(true) else RenderChildren
  }

  /**
   * A token whose `exp` is missing or 0 never expires: for every clock
   * reading it renders the children.
   */
  lemma NoExpiryNeverExpires(token: string, decode: string -> Option<JWTPayload>, nowMs: int)
    requires token != "" && decode(token).Some? && !HasExpiry(decode(token).value)
    ensures Decide(Some(token), decode, nowMs) == RenderChildren
  {}

  /**
   * The boundary: a token is still valid up to and including the very
   * millisecond its `exp` second begins, and is expired from the next
   * millisecond on.
   */
  lemma ExpiryBoundary(token: string, decode: string -> Option<JWTPayload>, nowMs: int)
    requires token != "" && decode(token).Some? && HasExpiry(decode(token).value)
    ensures nowMs <= decode(token).value.exp.value * 1000 ==> Decide(Some(token), decode, nowMs) == RenderChildren
    ensures nowMs > decode(token).value.exp.value * 1000 ==> Decide(Some(token), decode, nowMs) == Redirect(true)
  {}

  /** Once expired, a token stays expired as the clock moves on. */
  lemma ExpiryIsMonotone(token: string, decode: string -> Option<JWTPayload>, nowMs: int, laterMs: int)
    requires nowMs <= laterMs
    requires Decide(Some(token), decode, nowMs) == Redirect(true)
    ensures Decide(Some(token), decode, laterMs) == Redirect(true)
  {}

  /** The browser's durable storage, reduced to the one key the client keeps: `token`. */
  class TokenStore {
    var token: Option<string>

    constructor (token: Option<string>)
      ensures this.token == token
    {
      this.token := token;
    }

    /**
     * One render of the guard: decide, and remove the token when the decision
     * says so (ProtectedRoute.tsx:22, 28). The token is untouched whenever
     * the children render.
     */
    method Guard(decode: string -> Option<JWTPayload>, nowMs: int) returns (r: Outcome)
      modifies this
      ensures r == Decide(old(token), decode, nowMs)
      ensures token == if r == Redirect(true) then None else old(token)
    {
      r := Decide(token, decode, nowMs);
      if r == Redirect(true) {
        token := None;
      }
    }
  }

  /** A guard that has just cleared the token redirects again, without clearing, on the next render. */
  method GuardTwice(store: TokenStore, decode: string -> Option<JWTPayload>, nowMs: int, laterMs: int)
    returns (first: Outcome, second: Outcome)
    modifies store
    ensures first == Redirect(true) ==> second == Redirect(false) && store.token == None
    ensures first == RenderChildren && nowMs == laterMs ==> second == RenderChildren
  {
    first := store.Guard(decode, nowMs);
    second := store.Guard(decode, laterMs);
  }
}
