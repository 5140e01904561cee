/** The authentication guard: it reads the token from the `Authorization`
    header, has it verified, and then either attaches `{ userId }` to the
    request and passes it on, or answers 401. `jwt.verify` is a parameter:
    `None` stands for a call that throws. */
module AuthMiddleware {

  import opened Wrappers
  import opened Text
  import opened Js

  const AuthRequiredMessage := "Authentification requise !"

  /** The body of every rejection: `{ error: 'Authentification requise !' }`. */
  const RejectBody: Value := Obj(map["error" := Str(AuthRequiredMessage)])

  /** How the guard ends: `next()` with the user it attached, or the 401 answer. */
  datatype Decision = Proceed(user: Value) | Reject(status: int, body: Value)

  /** `authorization.split(' ')[1]`, kept when it is truthy. An absent header
      (the `split` call throws), a header with no space, and an empty second
      piece all give `None`. */
  function BearerToken(header: Option<string>): (token: Option<string>)
    ensures header.None? ==> token.None?
    ensures token.Some? ==> token.value != "" && ' ' !in token.value
  {
    if header.None? then None
    else
      var pieces := Split(header.value, ' ');
      if |pieces| < 2 || pieces[1] == "" then None
      else
        SplitPiecesHaveNoSeparator(header.value, ' ', 1);
        Some(pieces[1])
  }

  /** The guard's decision for a header, given the verifier: a missing header,
      a missing or empty token and a verifier that throws all get the same
      401 answer. */
  function Decide(header: Option<string>, verify: string -> Option<Value>): (d: Decision)
    ensures d.Proceed? <==> BearerToken(header).Some? && verify(BearerToken(header).value).Some?
    ensures d.Proceed? ==>
      d.user == Obj(map["userId" := Prop(verify(BearerToken(header).value).value, "userId")])
    ensures d.Reject? ==> d == Reject(401, RejectBody)
    ensures header.None? ==> d == Reject(401, RejectBody)
  {
    var token := BearerToken(header);
    if token.None? then Reject(401, RejectBody)
    else
      var decoded := verify(token.value);
      if decoded.None? then Reject(401, RejectBody)
      else Proceed(Obj(map["userId" := Prop(decoded.value, "userId")]))
  }

  /** The token is the text between the first and the second space: with a
      space-free first word `w`, a space-free `t` and a rest that is empty or
      starts with a space, the token of `w t rest` is `t` (none when `t` is empty). */
  lemma {:induction false} TokenBetweenSpaces(w: string, t: string, rest: string)
    requires ' ' !in w && ' ' !in t
    requires rest == "" || rest[0] == ' '
    ensures BearerToken(Some(w + " " + t + rest)) == if t == "" then None else Some(t)
  {
    var h := w + " " + t + rest;
    assert h == w + [' '] + (t + rest);
    SplitAfterPiece(w, ' ', t + rest);
    if rest == "" {
      assert t + rest == t;
      SplitNoSeparator(t, ' ');
    } else {
      assert t + rest == t + [' '] + rest[1..];
      SplitAfterPiece(t, ' ', rest[1..]);
    }
  }

  /** The first word is not checked: any space-free word before the first
      space gives the same token, "Bearer" or not. */
  lemma {:induction false} SchemeIgnored(w1: string, w2: string, x: string)
    requires ' ' !in w1 && ' ' !in w2
    ensures BearerToken(Some(w1 + " " + x)) == BearerToken(Some(w2 + " " + x))
  {
    assert w1 + " " + x == w1 + [' '] + x;
    assert w2 + " " + x == w2 + [' '] + x;
    SplitAfterPiece(w1, ' ', x);
    SplitAfterPiece(w2, ' ', x);
  }

  /** A header without a space has no second piece and is rejected. */
  lemma {:induction false} NoSpaceRejected(h: string, verify: string -> Option<Value>)
    requires ' ' !in h
    ensures Decide(Some(h), verify) == Reject(401, RejectBody)
  {
    SplitNoSeparator(h, ' ');
  }

  /** A header `w t` whose token `t` the verifier accepts with payload
      `{ userId: n }` attaches `{ userId: n }` (for instance
      `Bearer faux_token_valide` and `123`). */
  lemma ValidTokenProceeds(w: string, t: string, n: int, verify: string -> Option<Value>)
    requires ' ' !in w && ' ' !in t && t != ""
    requires verify(t) == Some(Obj(map["userId" := Num(n)]))
    ensures Decide(Some(w + " " + t), verify) == Proceed(Obj(map["userId" := Num(n)]))
  {
    TokenBetweenSpaces(w, t, "");
    assert w + " " + t + "" == w + " " + t;
  }

  /** The part of the request the guard reads and writes. */
  class Request {
    var authorization: Option<string>
    var user: Value

    constructor (authorization: Option<string>)
      ensures this.authorization == authorization && user == Undefined
    {
      this.authorization := authorization;
      user := Undefined;
    }
  }

  /** What `res.status(...).json(...)` records. */
  class Response {
    var status: Option<int>
    var body: Option<Value>

    constructor ()
      ensures status.None? && body.None?
    {
      status := None;
      body := None;
    }
  }

  /** The middleware: on success it sets `req.user` and calls `next` once
      (returned as `nextCalls`), and leaves the response alone; otherwise it
      answers 401, does not touch `req.user` and does not call `next`. */
  method Authenticate(req: Request, res: Response, verify: string -> Option<Value>) returns (nextCalls: nat)
    modifies req, res
    ensures req.authorization == old(req.authorization)
    ensures Decide(old(req.authorization), verify).Proceed? ==>
      && nextCalls == 1
      && req.user == Decide(old(req.authorization), verify).user
      && res.status == old(res.status) && res.body == old(res.body)
    ensures Decide(old(req.authorization), verify).Reject? ==>
      && nextCalls == 0
      && req.user == old(req.user)
      && res.status == Some(401) && res.body == Some(RejectBody)
  {
    var token := BearerToken(req.authorization);
    if token.None? {
      res.status := Some(401);
      res.body := Some(RejectBody);
      return 0;
    }
    var decoded := verify(token.value);
    if decoded.None? {
      res.status := Some(401);
      res.body := Some(RejectBody);
      return 0;
    }
    req.user := Obj(map["userId" := Prop(decoded.value, "userId")]);
    nextCalls := 1;
  }
}
