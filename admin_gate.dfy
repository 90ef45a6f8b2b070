/** The `admin_required` decorator: it reads the `Authorization` header,
    strips an optional "Bearer " prefix, decodes the token and lets the
    wrapped handler run only for a token whose `role` claim is "admin".
    Signature checking and expiry are the token library's business; here
    they are the `decode` oracle. */
module AdminGate {
  import opened Wrappers
  import opened Text
  import opened Documents

  /** What decoding a token can give: the library signals an expired token
      and any other bad token by exceptions; a good one yields its claims. */
  datatype DecodeResult = Expired | Invalid | Claims(claims: map<string, Json>)

  /** Either the wrapped handler runs, or the request stops with `response`. */
  datatype Decision = Proceed | Halt(response: Response)

  const BearerPrefix := "Bearer "

  function Forbidden(message: string): Response {
    Response(403, Message(message))
  }

  /** The token the gate decodes: with the "Bearer " prefix, the second
      space-separated piece of the header; otherwise the whole header. */
  function TokenOf(header: string): string {
    if StartsWith(header, BearerPrefix) then
      SplitAfterWord("Bearer", ' ', header[|BearerPrefix|..]);
      assert header == "Bearer" + [' '] + header[|BearerPrefix|..];
      Split(header, ' ')[1]
    else header
  }

  /** True when the decoded claims name the administrator role. */
  predicate AdminClaims(d: DecodeResult) {
    d.Claims? && "role" in d.claims && d.claims["role"] == JStr("admin")
  }

  function Authorize(header: Option<string>, decode: string -> DecodeResult): (g: Decision)
    ensures g.Proceed? <==> header.Some? && header.value != "" && AdminClaims(decode(TokenOf(header.value)))
    ensures g.Halt? ==> g.response.status == 403 || g.response.status == 500
  {
    if header.None? || header.value == "" then Halt(Forbidden("Token missing"))
    else
      var token := TokenOf(header.value);
      match decode(token)
      case Expired => Halt(Forbidden("Token expired"))
      case Invalid => Halt(Response(403, InvalidToken("Invalid token", token)))
      case Claims(claims) =>
        // `data["role"]` raises KeyError, which neither except clause catches
        if "role" !in claims then Halt(Response(500, InternalError))
        else if claims["role"] != JStr("admin") then Halt(Forbidden("Unauthorized"))
        else Proceed
  }

  predicate Admitted(header: Option<string>, decode: string -> DecodeResult) {
    Authorize(header, decode).Proceed?
  }

  /** The decorated handler: what the wrapped handler answers when the gate
      admits the request, the gate's own response otherwise. */
  function AdminRequired(header: Option<string>, decode: string -> DecodeResult, handled: Response): (r: Response)
    ensures Admitted(header, decode) ==> r == handled
    ensures !Admitted(header, decode) ==> r == Authorize(header, decode).response
  {
    var g := Authorize(header, decode);
    if g.Proceed? then handled else g.response
  }

  /** With the prefix, the token is the text after "Bearer " up to the next
      space; it never contains a space. */
  lemma BearerToken(rest: string)
    ensures TokenOf(BearerPrefix + rest) == Split(rest, ' ')[0]
    ensures ' ' !in TokenOf(BearerPrefix + rest)
  {
    var h := BearerPrefix + rest;
    assert StartsWith(h, BearerPrefix);
    assert h[|BearerPrefix|..] == rest;
    SplitAfterWord("Bearer", ' ', rest);
    assert h == "Bearer" + [' '] + rest;
  }

  /** A refused request never depends on the wrapped handler: whatever the
      handler would have answered, the caller gets the same response. */
  lemma RefusalIgnoresHandler(header: Option<string>, decode: string -> DecodeResult, a: Response, b: Response)
    requires !Admitted(header, decode)
    ensures AdminRequired(header, decode, a) == AdminRequired(header, decode, b)
    ensures AdminRequired(header, decode, a).status == 403 || AdminRequired(header, decode, a).status == 500
  {
  }

  /** No header, or an empty one: "Token missing", whatever the decoder does. */
  lemma MissingToken(header: Option<string>, decode: string -> DecodeResult)
    requires header.None? || header == Some("")
    ensures Authorize(header, decode) == Halt(Response(403, Message("Token missing")))
  {
  }

  /** The four refusals of a present header, by what the decoder reports for
      its token; the only 500 is a claim set without a `role`. */
  lemma RefusalTable(header: string, decode: string -> DecodeResult)
    requires header != ""
    ensures var d := decode(TokenOf(header)); var g := Authorize(Some(header), decode);
      && (d.Expired? ==> g == Halt(Response(403, Message("Token expired"))))
      && (d.Invalid? ==> g == Halt(Response(403, InvalidToken("Invalid token", TokenOf(header)))))
      && (d.Claims? && "role" !in d.claims ==> g == Halt(Response(500, InternalError)))
      && (d.Claims? && "role" in d.claims && d.claims["role"] != JStr("admin") ==>
            g == Halt(Response(403, Message("Unauthorized"))))
  {
  }
}
