/** Session lookup and the authentication gate of the API routes (lib/auth.ts).
    Token verification (`jwtVerify`) is a library call: it is the parameter
    `decrypt`, a total function from the token text to the payload it
    verifies, or `None` when verification fails. */
module Auth {
  import opened Types
  import opened Text

  const COOKIE_NAME := "session"

  /** The text a cookie entry for the session starts with. */
  const SESSION_PREFIX := COOKIE_NAME + "="

  /** The separator between entries of a `Cookie` header. */
  const ENTRY_SEPARATOR := "; "

  /** A verified token's payload; the handlers read only its `email`. */
  datatype Session = Session(email: string)

  /** `parts.findIndex(p => p.startsWith(prefix))`, as an option. */
  function FirstWithPrefix(parts: seq<string>, prefix: string): (i: Option<nat>)
    ensures i.Some? ==> i.value < |parts| && StartsWith(parts[i.value], prefix)
    ensures i.Some? ==> forall j :: 0 <= j < i.value ==> !StartsWith(parts[j], prefix)
    ensures i.None? ==> forall j :: 0 <= j < |parts| ==> !StartsWith(parts[j], prefix)
  {
    if parts == [] then None
    else if StartsWith(parts[0], prefix) then Some(0)
    else
      match FirstWithPrefix(parts[1..], prefix)
      case None => None
      case Some(j) => Some(j + 1)
  }

  /** The session entry of a `Cookie` header: the first `"; "`-separated entry
      that starts with `session=`, or `None` without a header or such an entry. */
  function SessionEntry(header: Option<string>): (entry: Option<string>)
    ensures entry.Some? ==> StartsWith(entry.value, SESSION_PREFIX)
    ensures entry.None? <==>
      header.None? || forall p | p in Split(header.value, ENTRY_SEPARATOR) :: !StartsWith(p, SESSION_PREFIX)
  {
    if header.None? then None
    else
      var parts := Split(header.value, ENTRY_SEPARATOR);
      match FirstWithPrefix(parts, SESSION_PREFIX)
      case None => None
      case Some(i) => assert parts[i] in parts; Some(parts[i])
  }

  /** `entry.split('=')[1]`: for an entry starting with `session=`, the text
      after the first `=` up to the next `=`, if any. */
  function TokenOf(entry: string): (token: string)
    requires StartsWith(entry, SESSION_PREFIX)
    ensures '=' !in token && StartsWith(entry, SESSION_PREFIX + token)
    ensures |SESSION_PREFIX + token| == |entry| || entry[|SESSION_PREFIX + token|] == '='
  {
    var rest := entry[|SESSION_PREFIX|..];
    assert entry == COOKIE_NAME + "=" + rest;
    SplitAfterPlain(COOKIE_NAME, "=", rest);
    FirstPart(rest, '=');
    assert entry[..|SESSION_PREFIX| + |Split(rest, "=")[0]|] == SESSION_PREFIX + Split(rest, "=")[0];
    Split(entry, "=")[1]
  }

  /** `getSession`: the verified payload of the session cookie, if any. */
  function GetSession(header: Option<string>, decrypt: string -> Option<Session>): (session: Option<Session>)
    ensures session.Some? ==> SessionEntry(header).Some?
  {
    match SessionEntry(header)
    case None => None
    case Some(entry) => decrypt(TokenOf(entry))
  }

  /** A header made of the single entry `session=<t>`, with `t` free of `;`
      and `=`, hands exactly `t` to `decrypt`. */
  lemma SingleEntryToken(t: string, decrypt: string -> Option<Session>)
    requires ';' !in t && '=' !in t
    ensures GetSession(Some(SESSION_PREFIX + t), decrypt) == decrypt(t)
  {
    var header := SESSION_PREFIX + t;
    assert ';' !in header by {
      assert forall k :: 0 <= k < |header| ==> header[k] == if k < |SESSION_PREFIX| then SESSION_PREFIX[k] else t[k - |SESSION_PREFIX|];
    }
    SplitPlain(header, ENTRY_SEPARATOR);
    assert SessionEntry(Some(header)) == Some(header);
    assert header == COOKIE_NAME + "=" + t;
    SplitAfterPlain(COOKIE_NAME, "=", t);
    SplitPlain(t, "=");
  }

  /** When several entries start with `session=`, the first one is used. */
  lemma FirstEntryWins(a: string, b: string)
    requires StartsWith(a, SESSION_PREFIX) && ';' !in a
    ensures SessionEntry(Some(a + ENTRY_SEPARATOR + b)) == Some(a)
  {
    SplitAfterPlain(a, ENTRY_SEPARATOR, b);
  }

  /** A token that itself contains `=` is cut at its first `=`: only the text
      between the first and second `=` of the entry reaches `decrypt`. */
  lemma TokenStopsAtEquals(t: string, u: string)
    requires '=' !in t
    ensures TokenOf(SESSION_PREFIX + t + "=" + u) == t
  {
    var entry := SESSION_PREFIX + t + "=" + u;
    assert entry == COOKIE_NAME + "=" + (t + "=" + u);
    SplitAfterPlain(COOKIE_NAME, "=", t + "=" + u);
    SplitAfterPlain(t, "=", u);
  }

  /** The request object of an API route: its `Cookie` header and the `user`
      field that `withAuth` attaches. */
  class Request {
    const cookie: Option<string>
    var user: Option<Session>

    constructor (cookie: Option<string>)
      ensures this.cookie == cookie && user == None
    {
      this.cookie := cookie;
      user := None;
    }
  }

  /** The gate of `withAuth`: answer 401 and leave the request alone when
      there is no session; otherwise attach it as `req.user`, after which the
      wrapped handler runs (`denied == None`). */
  method Authenticate(req: Request, decrypt: string -> Option<Session>) returns (denied: Option<Response>)
    modifies req
    ensures GetSession(req.cookie, decrypt).None? ==>
      denied == Some(Response(401, Message)) && req.user == old(req.user)
    ensures GetSession(req.cookie, decrypt).Some? ==>
      denied == None && req.user == GetSession(req.cookie, decrypt)
  {
    var session := GetSession(req.cookie, decrypt);
    if session.None? {
      return Some(Response(401, Message));
    }
    req.user := session;
    denied := None;
  }
}
