/**
 The request gates every route passes before its handler runs: extraction and
 verification of the bearer token (`authenticateToken`) and the role check
 (`authorizeRole`). Both are pure apart from handing the decoded payload on.
 */
module Middleware {
  import opened Wrappers

  /** The token payload placed in `req.user`: `{ id, role, company_id }`. */
  datatype Principal = Principal(id: nat, role: string, companyId: nat)

  /**
   JavaScript's `s.split(' ')`: the maximal space-free pieces of `s`, in order,
   with an empty piece between two adjacent spaces and at either end.
   */
  function SplitOnSpace(s: string): (r: seq<string>)
    ensures |r| >= 1
    ensures forall k :: 0 <= k < |r| ==> ' ' !in r[k]
    ensures |r| >= 2 <==> ' ' in s
  {
    if |s| == 0 then [""]
    else
      var rest := SplitOnSpace(s[1..]);
      assert ' ' in s <==> s[0] == ' ' || ' ' in s[1..];
      if s[0] == ' ' then [""] + rest
      else [[s[0]] + rest[0]] + rest[1..]
  }

  /** The inverse of `SplitOnSpace`: the pieces joined with single spaces. */
  function JoinOnSpace(pieces: seq<string>): (s: string)
    requires |pieces| >= 1
  {
    if |pieces| == 1 then pieces[0] else pieces[0] + " " + JoinOnSpace(pieces[1..])
  }

  /** Splitting loses nothing: joining the pieces gives the header back. */
  lemma {:induction false} JoinSplit(s: string)
    ensures JoinOnSpace(SplitOnSpace(s)) == s
  {
    if |s| > 0 {
      JoinSplit(s[1..]);
      var rest := SplitOnSpace(s[1..]);
      if s[0] == ' ' {
        assert SplitOnSpace(s)[1..] == rest;
      } else if |rest| == 1 {
        assert s == [s[0]] + s[1..];
      } else {
        assert SplitOnSpace(s)[1..] == rest[1..];
        assert JoinOnSpace(rest) == rest[0] + " " + JoinOnSpace(rest[1..]);
        assert s == [s[0]] + s[1..];
      }
    }
  }

  /** Splitting a space-free prefix glued to `s` glues it onto the first piece. */
  lemma {:induction false} SplitPrefix(a: string, s: string)
    requires ' ' !in a
    ensures SplitOnSpace(a + s) == [a + SplitOnSpace(s)[0]] + SplitOnSpace(s)[1..]
  {
    if |a| > 0 {
      assert (a + s)[1..] == a[1..] + s;
      assert a[0] != ' ' by { assert a[0] in a; }
      SplitPrefix(a[1..], s);
      assert [a[0]] + (a[1..] + SplitOnSpace(s)[0]) == a + SplitOnSpace(s)[0];
    } else {
      var r := SplitOnSpace(s);
      assert a + s == s;
      assert a + r[0] == r[0];
      assert r == [r[0]] + r[1..];
    }
  }

  /** Joining space-free pieces and splitting again gives the pieces back. */
  lemma {:induction false} SplitJoin(pieces: seq<string>)
    requires |pieces| >= 1
    requires forall k :: 0 <= k < |pieces| ==> ' ' !in pieces[k]
    ensures SplitOnSpace(JoinOnSpace(pieces)) == pieces
  {
    if |pieces| == 1 {
      SplitPrefix(pieces[0], "");
      assert pieces[0] + "" == pieces[0];
    } else {
      var tail := JoinOnSpace(pieces[1..]);
      SplitJoin(pieces[1..]);
      assert pieces[0] + " " + tail == pieces[0] + (" " + tail);
      SplitPrefix(pieces[0], " " + tail);
      assert (" " + tail)[1..] == tail;
      assert SplitOnSpace(" " + tail) == [""] + pieces[1..];
      assert pieces[0] + "" == pieces[0];
    }
  }

  /**
   The token taken from the `authorization` header: none without a header; an
   empty header is falsy and passes through unchanged; otherwise the second
   space-separated piece, which is missing when the header holds no space.
   */
  function ExtractToken(header: Option<string>): (token: Option<string>)
    ensures token.None? <==> header.None? || (header.value != "" && ' ' !in header.value)
    ensures header == Some("") ==> token == Some("")
    ensures token.Some? && header.value != "" ==> ' ' !in token.value
  {
    match header
    case None => None
    case Some(h) =>
      if h == "" then Some("")
      else
        var pieces := SplitOnSpace(h);
        if |pieces| >= 2 then Some(pieces[1]) else None
  }

  /** The token is the second space-separated piece of the header, however many pieces follow. */
  lemma SecondPiece(pieces: seq<string>)
    requires |pieces| >= 2
    requires forall k :: 0 <= k < |pieces| ==> ' ' !in pieces[k]
    ensures ExtractToken(Some(JoinOnSpace(pieces))) == Some(pieces[1])
  {
    SplitJoin(pieces);
    assert |SplitOnSpace(JoinOnSpace(pieces))| >= 2;
  }

  /** The header `"Bearer X"` yields exactly the token `X`. */
  lemma BearerRoundTrip(scheme: string, token: string)
    requires ' ' !in scheme && ' ' !in token
    ensures ExtractToken(Some(scheme + " " + token)) == Some(token)
  {
    var pieces := [scheme, token];
    assert JoinOnSpace(pieces[1..]) == token;
    SplitJoin(pieces);
  }

  /** What `authenticateToken` does with a request. */
  datatype AuthOutcome =
    | Unauthorized  // 401: no token
    | Forbidden     // 403: the token does not verify
    | Authenticated(user: Principal)  // `req.user` set, `next()` called

  /**
   `authenticateToken`, with `jwt.verify` under the server's secret given as the
   oracle `verify`: `None` for a token that fails verification, the decoded
   payload otherwise.
   */
  function Authenticate(header: Option<string>, verify: string -> Option<Principal>): (r: AuthOutcome)
    ensures r == Unauthorized <==> ExtractToken(header).None?
    ensures r == Forbidden <==> ExtractToken(header).Some? && verify(ExtractToken(header).value).None?
    ensures r.Authenticated? ==> ExtractToken(header).Some? && verify(ExtractToken(header).value) == Some(r.user)
  {
    match ExtractToken(header)
    case None => Unauthorized
    case Some(t) =>
      match verify(t)
      case None => Forbidden
      case Some(user) => Authenticated(user)
  }

  /** A request with no `authorization` header is turned away with 401, whatever the verifier. */
  lemma NoHeaderIsUnauthorized(verify: string -> Option<Principal>)
    ensures Authenticate(None, verify) == Unauthorized
  {
  }

  /** A header with no space (such as a bare token) is turned away with 401. */
  lemma NoSpaceIsUnauthorized(h: string, verify: string -> Option<Principal>)
    requires h != "" && ' ' !in h
    ensures Authenticate(Some(h), verify) == Unauthorized
  {
  }

  /** A well-formed bearer header is decided by the verifier on exactly its token. */
  lemma BearerIsVerified(token: string, verify: string -> Option<Principal>)
    requires ' ' !in token
    ensures Authenticate(Some("Bearer " + token), verify) ==
              match verify(token) case None => Forbidden case Some(u) => Authenticated(u)
  {
    assert ' ' !in "Bearer";
    assert "Bearer " + token == "Bearer" + " " + token;
    BearerRoundTrip("Bearer", token);
  }

  /** The argument of `authorizeRole`: one role, or an array of roles. */
  datatype RoleArg = OneRole(role: string) | RoleList(roles: seq<string>)

  /** The role list the gate checks against: an array as it is, a single role as a one-element list. */
  function AllowedRoles(arg: RoleArg): (allowed: seq<string>)
    ensures arg.OneRole? ==> allowed == [arg.role]
    ensures arg.RoleList? ==> allowed == arg.roles
  {
    match arg
    case OneRole(r) => [r]
    case RoleList(rs) => rs
  }

  /** What `authorizeRole` does with a request. */
  datatype Gate = Next | InsufficientRole  // `next()` called, or 403 without calling `next`

  /** `authorizeRole(roles)` applied to a request whose `req.user.role` is `role`. */
  function AuthorizeRole(arg: RoleArg, role: string): (g: Gate)
    ensures g == Next <==> exists k :: 0 <= k < |AllowedRoles(arg)| && AllowedRoles(arg)[k] == role
  {
    if role in AllowedRoles(arg) then Next else InsufficientRole
  }

  /** A single role behaves exactly like the one-element list holding it. */
  lemma OneRoleIsSingletonList(r: string, role: string)
    ensures AuthorizeRole(OneRole(r), role) == AuthorizeRole(RoleList([r]), role)
  {
  }

  /** With one role the gate is plain equality. */
  lemma OneRoleIsEquality(r: string, role: string)
    ensures AuthorizeRole(OneRole(r), role) == Next <==> role == r
  {
  }
}
