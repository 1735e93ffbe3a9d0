/**
 * JWT authentication for unary and streaming calls. Token verification itself
 * (signature, expiry) is an opaque partial function `verify` passed in; the model
 * covers what decides whether it is consulted and what the handler then sees.
 */
module Interceptors {
  import opened Wrappers
  import opened Status
  import Normalize

  /** The identity a verified token carries. */
  datatype Claims = Claims(userId: string, email: string)

  /** Incoming gRPC metadata: lower-case header names to their values, in order. */
  type Metadata = map<string, seq<string>>

  /** The keys under which values are stored in a context. */
  datatype Key = AuthContextKey | OtherKey(name: string)

  datatype Value = ClaimsValue(claims: Claims) | OtherValue(v: string)

  /**
   * A request context: the root carries the incoming metadata (or none), and
   * `context.WithValue` layers one key/value pair on a parent.
   */
  datatype Context = Incoming(md: Option<Metadata>) | WithValue(parent: Context, key: Key, val: Value)

  /** `ctx.Value(key)`: the innermost binding of the key, if any. */
  function Lookup(ctx: Context, key: Key): (r: Option<Value>)
    ensures ctx.WithValue? && ctx.key == key ==> r == Some(ctx.val)
    ensures ctx.WithValue? && ctx.key != key ==> r == Lookup(ctx.parent, key)
    ensures ctx.Incoming? ==> r == None
  {
    match ctx
    case Incoming(_) => None
    case WithValue(parent, k, v) => if k == key then Some(v) else Lookup(parent, key)
  }

  /** `metadata.FromIncomingContext`: values layered on top do not hide it. */
  function IncomingMetadata(ctx: Context): Option<Metadata> {
    match ctx
    case Incoming(md) => md
    case WithValue(parent, _, _) => IncomingMetadata(parent)
  }

  /** `getClaimsFromContext`: the claims stored under the auth key, if the value there is claims. */
  function GetClaims(ctx: Context): (r: Option<Claims>)
    ensures r.Some? <==> Lookup(ctx, AuthContextKey).Some? && Lookup(ctx, AuthContextKey).value.ClaimsValue?
    ensures r.Some? ==> Lookup(ctx, AuthContextKey) == Some(ClaimsValue(r.value))
  {
    match Lookup(ctx, AuthContextKey)
    case Some(ClaimsValue(c)) => Some(c)
    case _ => None
  }

  /** Attaching claims makes exactly those claims visible, and nothing else about the context changes. */
  lemma AttachThenGet(ctx: Context, c: Claims, k: Key)
    ensures GetClaims(WithValue(ctx, AuthContextKey, ClaimsValue(c))) == Some(c)
    ensures k != AuthContextKey ==> Lookup(WithValue(ctx, AuthContextKey, ClaimsValue(c)), k) == Lookup(ctx, k)
    ensures IncomingMetadata(WithValue(ctx, AuthContextKey, ClaimsValue(c))) == IncomingMetadata(ctx)
  {
  }

  /** A context straight from the transport carries no claims. */
  lemma FreshContextHasNoClaims(md: Option<Metadata>)
    ensures GetClaims(Incoming(md)) == None
  {
  }

  /** `strings.TrimPrefix`. */
  function TrimPrefix(s: string, prefix: string): (r: string)
    ensures prefix <= s ==> s == prefix + r
    ensures !(prefix <= s) ==> r == s
  {
    if prefix <= s then s[|prefix|..] else s
  }

  /** The token read from an authorization header: one leading "Bearer" dropped, then white space trimmed. */
  function BearerToken(header: string): string {
    Normalize.TrimSpace(TrimPrefix(header, "Bearer"))
  }

  /** A well-formed header `Bearer <token>` yields the token. */
  lemma BearerTokenOfHeader(token: string)
    requires Normalize.Trimmed(token)
    ensures BearerToken("Bearer " + token) == token
  {
    assert TrimPrefix("Bearer " + token, "Bearer") == " " + token;
    Normalize.TrimSpacePadded(" ", token, []);
    assert " " + token + [] == " " + token;
  }

  /** A header without the scheme is taken as the token itself. */
  lemma BareTokenAccepted(token: string)
    requires Normalize.Trimmed(token) && !("Bearer" <= token)
    ensures BearerToken(token) == token
  {
    Normalize.TrimSpaceOfTrimmed(token);
  }

  /** The header carrying nothing but the scheme gives the empty token. */
  lemma SchemeOnlyIsEmpty(pad: string)
    requires forall k :: 0 <= k < |pad| ==> Normalize.IsSpace(pad[k])
    ensures BearerToken("Bearer" + pad) == ""
  {
    assert TrimPrefix("Bearer" + pad, "Bearer") == pad;
    Normalize.TrimSpacePadded(pad, [], []);
    assert pad + [] + [] == pad;
  }

  /** Methods callable without a token. */
  const Allowed: set<string> := {"/chat.v1.ChatService/Register", "/chat.v1.ChatService/Login"}

  /**
   * What the interceptor reads from the context: the error it reports when the
   * metadata or the authorization header is missing, else the token.
   */
  function PresentedToken(ctx: Context): (r: Result<string, string>)
    ensures IncomingMetadata(ctx).None? ==> r == Err("missing metadata")
    ensures IncomingMetadata(ctx).Some? && r.Err? ==> r.error == "missing authorization header"
    ensures r.Ok? <==> IncomingMetadata(ctx).Some? && "authorization" in IncomingMetadata(ctx).value
                        && |IncomingMetadata(ctx).value["authorization"]| > 0
    ensures r.Ok? ==> r.value == BearerToken(IncomingMetadata(ctx).value["authorization"][0])
  {
    match IncomingMetadata(ctx)
    case None => Err("missing metadata")
    case Some(md) =>
      var headers := if "authorization" in md then md["authorization"] else [];
      if |headers| == 0 then Err("missing authorization header")
      else Ok(BearerToken(headers[0]))
  }

  /** What an interceptor does with a call: run the handler on the given context, or fail it. */
  datatype Outcome = Handled(ctx: Context) | Denied(err: StatusError)

  /**
   * `authUnaryInterceptor`: allowed methods pass untouched; any other call runs only
   * with a non-empty token that `verify` accepts, and then sees its claims.
   */
  function AuthUnary(fullMethod: string, ctx: Context, verify: string -> Result<Claims, string>): (r: Outcome)
    ensures fullMethod in Allowed ==> r == Handled(ctx)
    ensures r.Denied? ==> r.err.code == Unauthenticated
    ensures fullMethod !in Allowed ==>
      (r.Handled? <==> PresentedToken(ctx).Ok? && PresentedToken(ctx).value != "" && verify(PresentedToken(ctx).value).Ok?)
    ensures fullMethod !in Allowed && r.Handled? ==>
      && GetClaims(r.ctx) == Some(verify(PresentedToken(ctx).value).value)
      && IncomingMetadata(r.ctx) == IncomingMetadata(ctx)
    ensures fullMethod !in Allowed && PresentedToken(ctx) == Ok("") ==>
      r == Denied(StatusError(Unauthenticated, "invalid token"))
  {
    if fullMethod in Allowed then Handled(ctx) else Authenticate(ctx, verify)
  }

  /** The checks `authUnaryInterceptor` makes on a protected method: a token, non-empty, that `verify` accepts. */
  function Authenticate(ctx: Context, verify: string -> Result<Claims, string>): (r: Outcome)
    ensures r.Denied? ==> r.err.code == Unauthenticated
    ensures r.Handled? <==> PresentedToken(ctx).Ok? && PresentedToken(ctx).value != "" && verify(PresentedToken(ctx).value).Ok?
    ensures r.Handled? ==>
      && GetClaims(r.ctx) == Some(verify(PresentedToken(ctx).value).value)
      && IncomingMetadata(r.ctx) == IncomingMetadata(ctx)
    ensures PresentedToken(ctx) == Ok("") ==> r == Denied(StatusError(Unauthenticated, "invalid token"))
  {
    match PresentedToken(ctx)
    case Err(msg) => Denied(StatusError(Unauthenticated, msg))
    case Ok(token) =>
      if token == "" then Denied(StatusError(Unauthenticated, "invalid token"))
      else match verify(token)
        case Err(e) => Denied(StatusError(Unauthenticated, "unauthenticated: " + e))
        case Ok(claims) =>
          var authed := WithValue(ctx, AuthContextKey, ClaimsValue(claims));
          assert GetClaims(authed) == Some(claims) && IncomingMetadata(authed) == IncomingMetadata(ctx);
          Handled(authed)
  }

  /** A server stream, reduced to the context it reports. */
  datatype ServerStream = ServerStream(id: nat, ctx: Context)

  datatype StreamOutcome = StreamHandled(ss: ServerStream) | StreamDenied(err: StatusError)

  /** `authStreamInterceptor`: the same checks, with the claims attached to a wrapped stream's context. */
  function AuthStream(fullMethod: string, ss: ServerStream, verify: string -> Result<Claims, string>): (r: StreamOutcome)
    ensures r.StreamHandled? ==> r.ss.id == ss.id
  {
    if fullMethod in Allowed then StreamHandled(ss)
    else
      var md := IncomingMetadata(ss.ctx);
      if md.None? then StreamDenied(StatusError(Unauthenticated, "missing metadata"))
      else
        var headers := if "authorization" in md.value then md.value["authorization"] else [];
        if |headers| == 0 then StreamDenied(StatusError(Unauthenticated, "missing authorization header"))
        else
          var token := Normalize.TrimSpace(TrimPrefix(headers[0], "Bearer"));
          if token == "" then StreamDenied(StatusError(Unauthenticated, "invalid token"))
          else match verify(token)
            case Err(e) => StreamDenied(StatusError(Unauthenticated, "unauthenticated: " + e))
            case Ok(claims) => StreamHandled(ServerStream(ss.id, WithValue(ss.ctx, AuthContextKey, ClaimsValue(claims))))
  }

  /** Streaming and unary calls are authenticated alike: same verdict, same error, same handler context. */
  lemma StreamAgreesWithUnary(fullMethod: string, ss: ServerStream, verify: string -> Result<Claims, string>)
    ensures AuthStream(fullMethod, ss, verify).StreamHandled? <==> AuthUnary(fullMethod, ss.ctx, verify).Handled?
    ensures AuthStream(fullMethod, ss, verify).StreamHandled? ==>
      AuthStream(fullMethod, ss, verify).ss.ctx == AuthUnary(fullMethod, ss.ctx, verify).ctx
    ensures AuthStream(fullMethod, ss, verify).StreamDenied? ==>
      AuthStream(fullMethod, ss, verify).err == AuthUnary(fullMethod, ss.ctx, verify).err
  {
  }

  /** A handler behind the interceptor of a protected method only ever sees claims a non-empty token verified to. */
  lemma HandlerSeesVerifiedClaims(fullMethod: string, ctx: Context, verify: string -> Result<Claims, string>)
    requires fullMethod !in Allowed
    requires AuthUnary(fullMethod, ctx, verify).Handled?
    ensures exists token :: token != "" && verify(token).Ok? && GetClaims(AuthUnary(fullMethod, ctx, verify).ctx) == Some(verify(token).value)
  {
    var token := PresentedToken(ctx).value;
    assert token != "" && verify(token).Ok? && GetClaims(AuthUnary(fullMethod, ctx, verify).ctx) == Some(verify(token).value);
  }
}
