/** The bearer-token guard in front of the protected routes
    (backend/src/middleware/auth.middleware.ts). Token verification is an
    oracle `verify`: it answers with the decoded payload or with nothing. */
module AuthMiddleware {
  import opened Common

  /** `s.split(' ')`: the pieces between single spaces, so `n` spaces give
      `n + 1` pieces and two spaces in a row give an empty piece. */
  function Split(s: string): (parts: seq<string>)
    ensures |parts| >= 1
    ensures forall i :: 0 <= i < |parts| ==> ' ' !in parts[i]
    decreases |s|
  {
    if s == [] then [[]]
    else if s[0] == ' ' then [[]] + Split(s[1..])
    else
      var rest := Split(s[1..]);
      [[s[0]] + rest[0]] + rest[1..]
  }

  /** `parts.join(' ')` */
  function Join(parts: seq<string>): string
    requires |parts| >= 1
    decreases |parts|
  {
    if |parts| == 1 then parts[0] else parts[0] + " " + Join(parts[1..])
  }

  /** Splitting loses nothing: joining the pieces with single spaces gives
      the header back. */
  lemma {:induction false} JoinSplit(s: string)
    ensures Join(Split(s)) == s
    decreases |s|
  {
    if s == [] {
    } else if s[0] == ' ' {
      JoinSplit(s[1..]);
      assert Join(Split(s)) == [] + " " + Join(Split(s[1..]));
      assert s == [s[0]] + s[1..];
    } else {
      var rest := Split(s[1..]);
      var parts := Split(s);
      JoinSplit(s[1..]);
      assert parts == [[s[0]] + rest[0]] + rest[1..];
      assert parts[0] == [s[0]] + rest[0] && parts[1..] == rest[1..];
      if |rest| == 1 {
        assert Join(parts) == parts[0];
        assert Join(rest) == rest[0];
      } else {
        assert Join(parts) == parts[0] + " " + Join(rest[1..]);
        assert Join(rest) == rest[0] + " " + Join(rest[1..]);
      }
      assert Join(parts) == [s[0]] + Join(rest);
      assert s == [s[0]] + s[1..];
    }
  }

  /** The first piece is the longest space-free prefix: all of `s`, or the
      text before its first space. */
  lemma {:induction false} SplitFirst(s: string)
    ensures |Split(s)[0]| <= |s| && s[..|Split(s)[0]|] == Split(s)[0]
    ensures |Split(s)[0]| == |s| || s[|Split(s)[0]|] == ' '
    ensures |Split(s)| == 1 <==> ' ' !in s
    decreases |s|
  {
    if s != [] && s[0] != ' ' {
      SplitFirst(s[1..]);
      assert s == [s[0]] + s[1..];
    }
  }

  /** After a leading `word` without spaces and one space, the second piece
      is the first piece of the rest. */
  lemma {:induction false} SplitAfterWord(word: string, rest: string)
    requires ' ' !in word
    ensures |Split(word + " " + rest)| >= 2
    ensures Split(word + " " + rest)[0] == word
    ensures Split(word + " " + rest)[1..] == Split(rest)
    decreases |word|
  {
    if word == [] {
      assert word + " " + rest == [' '] + rest;
    } else {
      assert (word + " " + rest)[1..] == word[1..] + " " + rest;
      SplitAfterWord(word[1..], rest);
    }
  }

  predicate StartsWith(s: string, prefix: string)
  {
    |prefix| <= |s| && s[..|prefix|] == prefix
  }

  const Bearer: string := "Bearer "
  const NoTokenMessage: string := "No token, authorization denied"
  const BadTokenMessage: string := "Token is not valid"

  /** `authHeader.split(' ')[1]` of a header that starts with "Bearer ". */
  function Token(header: string): (token: string)
    requires StartsWith(header, Bearer)
    ensures token == Split(header[|Bearer|..])[0]
    ensures ' ' !in token
  {
    assert header == "Bearer" + " " + header[|Bearer|..];
    SplitAfterWord("Bearer", header[|Bearer|..]);
    Split(header)[1]
  }

  /** "Bearer abc" carries the token "abc"; with a second space the token is empty. */
  lemma TokenExamples()
    ensures Token("Bearer abc") == "abc"
    ensures Token("Bearer  abc") == ""
  {
    assert "Bearer abc"[|Bearer|..] == "abc";
    assert "Bearer  abc"[|Bearer|..] == " abc";
    assert ' ' !in "abc";
    SplitFirst("abc");
    assert "abc"[..3] == "abc";
    assert " abc"[0] == ' ';
  }

  /** The payload `jwt.verify` decodes; a payload without `userId` leaves it undefined. */
  datatype Decoded = Decoded(userId: Option<Id>)

  datatype Outcome =
    | Denied(message: string)             // 401, `next` not called
    | Authenticated(userId: Option<Id>)   // `req.userId` set, `next` called

  /** The guard's decision. An absent or empty header (both falsy) and one
      without the exact, case-sensitive "Bearer " prefix are refused before
      any token is read; a token the oracle rejects is refused after. */
  function Authenticate(header: Option<string>, verify: string -> Option<Decoded>): (r: Outcome)
    ensures r == Denied(NoTokenMessage) <==> header.None? || !StartsWith(header.value, Bearer)
    ensures r == Denied(BadTokenMessage) <==>
              header.Some? && StartsWith(header.value, Bearer) && verify(Token(header.value)).None?
    ensures r.Authenticated? ==>
              header.Some? && StartsWith(header.value, Bearer)
              && verify(Token(header.value)) == Some(Decoded(r.userId))
  {
    if header.None? || header.value == [] || !StartsWith(header.value, Bearer) then Denied(NoTokenMessage)
    else match verify(Token(header.value))
      case None => Denied(BadTokenMessage)
      case Some(decoded) => Authenticated(decoded.userId)
  }

  /** A reply the guard sends itself. */
  datatype Reply = Reply(status: int, message: string)

  /** The parts of an Express request and response the guard touches. */
  class Exchange {
    var authorization: Option<string>
    var userId: Option<Id>
    var reply: Option<Reply>
    var nextCalls: nat

    constructor (authorization: Option<string>)
      ensures this.authorization == authorization
      ensures userId.None? && reply.None? && nextCalls == 0
    {
      this.authorization := authorization;
      userId := None;
      reply := None;
      nextCalls := 0;
    }

    /** `authMiddleware(req, res, next)`: on success it sets `req.userId` and
        calls `next` once; on failure it sends a 401 and calls nothing. */
    method Guard(verify: string -> Option<Decoded>)
      modifies this
      ensures authorization == old(authorization)
      ensures match Authenticate(authorization, verify)
              case Authenticated(id) =>
                userId == id && nextCalls == old(nextCalls) + 1 && reply == old(reply)
              case Denied(message) =>
                userId == old(userId) && nextCalls == old(nextCalls) && reply == Some(Reply(401, message))
    {
      var header := authorization;
      if header.None? || header.value == [] || !StartsWith(header.value, Bearer) {
        reply := Some(Reply(401, NoTokenMessage));
        return;
      }
      var token := Token(header.value);
      var decoded := verify(token);
      if decoded.None? {
        reply := Some(Reply(401, BadTokenMessage));
        return;
      }
      userId := decoded.value.userId;
      nextCalls := nextCalls + 1;
    }
  }
}
