/** authMiddleware (Bearer header, token extraction, verification) and roleMiddleware. */
module AuthMiddleware {
  import opened Wrappers
  import opened OrderModel

  /** What jwt.verify decodes from a token: the claims the server signed, plus the
      registered issued-at and expiry claims. */
  datatype Decoded = Decoded(userId: UserId, role: Role, iat: nat, exp: nat)

  /** req.userData. */
  datatype Claims = Claims(userId: UserId, role: Role)

  function StartsWith(s: string, prefix: string): bool {
    |prefix| <= |s| && s[..|prefix|] == prefix
  }

  /** String.prototype.split with a one-character separator. */
  function Split(s: string, sep: char): (r: seq<string>)
    ensures |r| >= 1
    ensures forall i :: 0 <= i < |r| ==> sep !in r[i]
    decreases |s|
  {
    if s == [] then [""]
    else
      var rest := Split(s[1..], sep);
      if s[0] == sep then [""] + rest
      else [[s[0]] + rest[0]] + rest[1..]
  }

  /** Array.prototype.join, the inverse of Split. */
  function Join(pieces: seq<string>, sep: char): string
    requires |pieces| >= 1
    decreases |pieces|
  {
    if |pieces| == 1 then pieces[0] else pieces[0] + [sep] + Join(pieces[1..], sep)
  }

  /** Joining the pieces back with the separator gives the original string. */
  lemma {:induction false} JoinSplit(s: string, sep: char)
    ensures Join(Split(s, sep), sep) == s
    decreases |s|
  {
    if s != [] {
      JoinSplit(s[1..], sep);
      var rest := Split(s[1..], sep);
      if s[0] != sep && |rest| > 1 {
        assert Join(rest, sep) == rest[0] + [sep] + Join(rest[1..], sep);
        assert [s[0]] + (rest[0] + [sep] + Join(rest[1..], sep)) == ([s[0]] + rest[0]) + [sep] + Join(rest[1..], sep);
      }
      assert s == [s[0]] + s[1..];
    }
  }

  /** A word with no separator in it, followed by the separator, splits off as one piece. */
  lemma {:induction false} SplitAfterWord(w: string, sep: char, s: string)
    requires sep !in w
    ensures Split(w + [sep] + s, sep) == [w] + Split(s, sep)
    decreases |w|
  {
    if w == [] {
      assert w + [sep] + s == [sep] + s;
      assert ([sep] + s)[1..] == s;
    } else {
      SplitAfterWord(w[1..], sep, s);
      assert (w + [sep] + s)[1..] == w[1..] + [sep] + s;
      assert [w[0]] + w[1..] == w;
    }
  }

  /** A string with no separator in it is a single piece. */
  lemma {:induction false} SplitWord(w: string, sep: char)
    requires sep !in w
    ensures Split(w, sep) == [w]
    decreases |w|
  {
    if w != [] {
      SplitWord(w[1..], sep);
      assert [w[0]] + w[1..] == w;
    }
  }

  const BearerPrefix: string := "Bearer "

  /** authHeader.split(" ")[1] for a header that starts with "Bearer ": the text after the
      prefix up to the next space. */
  function BearerToken(header: string): (token: string)
    requires StartsWith(header, BearerPrefix)
    ensures ' ' !in token
    ensures token == Split(header[|BearerPrefix|..], ' ')[0]
  {
    assert header == "Bearer" + [' '] + header[|BearerPrefix|..];
    SplitAfterWord("Bearer", ' ', header[|BearerPrefix|..]);
    Split(header, ' ')[1]
  }

  /** The token of "Bearer abc" is "abc". */
  lemma BearerTokenExample()
    ensures BearerToken("Bearer abc") == "abc"
  {
    assert "Bearer abc"[|BearerPrefix|..] == "abc";
    SplitWord("abc", ' ');
  }

  /** authMiddleware: 401 without a "Bearer " header or when verification fails; otherwise
      req.userData is the decoded userId and role, and next() runs. jwt.verify, with its
      secret, is the partial function `verify`. */
  function Authenticate(header: Option<string>, verify: string -> Option<Decoded>): (r: Result<Claims>)
    ensures r.Err? ==> r.failure == Unauthorized
    ensures header.None? || !StartsWith(header.value, BearerPrefix) ==> r.Err?
    ensures r.Ok? <==> header.Some? && StartsWith(header.value, BearerPrefix) && verify(BearerToken(header.value)).Some?
    ensures r.Ok? ==> var d := verify(BearerToken(header.value)).value;
      r.value.userId == d.userId && r.value.role == d.role
  {
    if header.None? || !StartsWith(header.value, BearerPrefix) then Err(Unauthorized)
    else
      match verify(BearerToken(header.value))
      case None => Err(Unauthorized)
      case Some(d) => Ok(Claims(d.userId, d.role))
  }

  /** roleMiddleware(roles): next() exactly when the caller's role is listed, else 403. */
  function RoleGate(roles: seq<Role>, claims: Claims): (r: Result<Claims>)
    ensures r.Ok? <==> claims.role in roles
    ensures r.Ok? ==> r.value == claims
    ensures r.Err? ==> r.failure == Forbidden
  {
    if claims.role in roles then Ok(claims) else Err(Forbidden)
  }
}
