/** Admin session tokens: "payload.signature" in unpadded base64url
    (app/core/admin_auth.py). The keyed hash, JSON and the text of ids are
    parameters; of them only that reading undoes writing is supposed.
    Instants are whole microseconds. */
module AdminToken {
  import opened Payloads
  import opened Strings
  import opened Base64Url
  import AdminUsers

  type Id = AdminUsers.Id

  const SECOND: int := 1_000_000

  /** The first and the last second a date can hold. */
  const FIRST_SECOND: int := -62_135_596_800
  const LAST_SECOND: int := 253_402_300_799

  predicate IsDate(instant: int) { FIRST_SECOND * SECOND <= instant < (LAST_SECOND + 1) * SECOND }

  datatype Claims = Claims(sub: string, username: string, iat: int, exp: int)

  datatype Field = Missing | Text(s: string) | Whole(n: int) | OtherJson

  /** What reading the payload as JSON gives. */
  datatype Loaded = NotText | NotJson | NotObject | Object(sub: Field, exp: Field)

  /** `secret` is empty when it is not configured. */
  datatype Env = Env(secret: string, mac: (string, string) -> seq<byte>,
                     dumps: Claims -> seq<byte>, loads: seq<byte> -> Loaded,
                     render: Id -> string, parse: string -> Option<Id>)

  ghost predicate Sound(env: Env) {
    && (forall c :: env.loads(env.dumps(c)) == Object(Text(c.sub), Whole(c.exp)))
    && (forall id: Id :: env.render(id) != "" && env.parse(env.render(id)) == Some(id))
  }

  predicate SecretOk(env: Env) { |env.secret| >= 32 }

  /** Python's int() of a number of seconds cuts toward zero. */
  function WholeSeconds(instant: int): int {
    if instant >= 0 then instant / SECOND else -(-instant / SECOND)
  }

  function Signed(env: Env, part: string): string {
    part + "." + Encode(env.mac(env.secret, part))
  }

  /** The first part of a token. */
  function PayloadText(env: Env, id: Id, username: string, now: int, ttl: int): string {
    Encode(env.dumps(Claims(env.render(id), username, WholeSeconds(now), WholeSeconds(now + ttl * SECOND))))
  }

  /** The token and its expiry; None when the date or the secret is unusable. */
  function Create(env: Env, id: Id, username: string, now: int, ttl: int): Option<(string, int)> {
    var expiresAt := now + ttl * SECOND;
    if !IsDate(expiresAt) || !SecretOk(env) then None
    else Some((Signed(env, PayloadText(env, id, username, now, ttl)), expiresAt))
  }

  /** The text before and after the first separator. */
  function SplitAt(separator: char, s: string): (parts: Option<(string, string)>)
    ensures parts.Some? ==> s == parts.value.0 + [separator] + parts.value.1 && separator !in parts.value.0
    ensures parts.None? ==> separator !in s
  {
    if s == "" then None
    else if s[0] == separator then Some(("", s[1..]))
    else
      match SplitAt(separator, s[1..])
      case None => None
      case Some((head, tail)) => Some(([s[0]] + head, tail))
  }

  predicate Ascii(s: string) { forall i :: 0 <= i < |s| ==> s[i] < 128 as char }

  /** Granted, refused with status 401, or stopped by an error nothing catches. */
  datatype Verdict = Granted(id: Id, expiresAt: int) | Invalid | Expired | Crashed

  function VerifyClaims(env: Env, sub: Field, exp: Field, now: int): Verdict {
    if !sub.Text? || sub.s == "" || !exp.Whole? then Invalid
    else if !(FIRST_SECOND <= exp.n <= LAST_SECOND) then Crashed
    else if exp.n * SECOND <= now then Expired
    else if env.parse(sub.s).None? then Invalid
    else Granted(env.parse(sub.s).value, exp.n * SECOND)
  }

  function VerifyPayload(env: Env, part: string, now: int): Verdict {
    if !Ascii(part) then Crashed
    else
      match Decode(part)
      case None => Crashed
      case Some(bytes) =>
        match env.loads(bytes)
        case NotText => Crashed
        case NotJson => Invalid
        case NotObject => Crashed
        case Object(sub, exp) => VerifyClaims(env, sub, exp, now)
  }

  function Verify(env: Env, token: string, now: int): Verdict {
    match SplitAt('.', token)
    case None => Invalid
    case Some((part, signature)) =>
      if !SecretOk(env) || !Ascii(signature) then Crashed
      else if Encode(env.mac(env.secret, part)) != signature then Invalid
      else VerifyPayload(env, part, now)
  }

  // ---------------------------------------------------------------- tokens

  lemma AlphabetIsPlain(s: string)
    requires AllInAlphabet(s)
    ensures Ascii(s) && '.' !in s && ' ' !in s
    ensures forall i :: 0 <= i < |s| ==> !IsBlank(s[i])
  {
  }

  lemma {:induction false} SplitAtFirst(separator: char, head: string, tail: string)
    requires separator !in head
    ensures SplitAt(separator, head + [separator] + tail) == Some((head, tail))
  {
    var s := head + [separator] + tail;
    if head == "" {
      assert s[1..] == tail;
    } else {
      assert s[1..] == head[1..] + [separator] + tail;
      SplitAtFirst(separator, head[1..], tail);
      assert [head[0]] + head[1..] == head;
    }
  }

  /** Verifying a signed payload comes down to its claims. */
  lemma SignedPayload(env: Env, bytes: seq<byte>, now: int)
    requires SecretOk(env) && env.loads(bytes).Object?
    ensures Verify(env, Signed(env, Encode(bytes)), now)
            == VerifyClaims(env, env.loads(bytes).sub, env.loads(bytes).exp, now)
  {
    var part := Encode(bytes);
    TokenText(env, bytes);
    SplitAtFirst('.', part, Encode(env.mac(env.secret, part)));
    DecodeEncode(bytes);
  }

  lemma OwnClaims(env: Env, id: Id, exp: int, now: int)
    requires Sound(env) && FIRST_SECOND <= exp <= LAST_SECOND
    ensures VerifyClaims(env, Text(env.render(id)), Whole(exp), now)
            == if now < exp * SECOND then Granted(id, exp * SECOND) else Expired
  {
  }

  /** A created token names its user until the whole second its expiry falls
      in, and is expired from then on. */
  lemma CreatedTokenVerifies(env: Env, id: Id, username: string, now: int, ttl: int, later: int)
    requires Sound(env)
    requires Create(env, id, username, now, ttl).Some?
    ensures var (token, expiresAt) := Create(env, id, username, now, ttl).value;
            var ends := WholeSeconds(expiresAt) * SECOND;
            && Verify(env, token, later) == (if later < ends then Granted(id, ends) else Expired)
            && (expiresAt >= 0 ==> expiresAt - SECOND < ends <= expiresAt)
  {
    var expiresAt := now + ttl * SECOND;
    var bytes := env.dumps(Claims(env.render(id), username, WholeSeconds(now), WholeSeconds(expiresAt)));
    var token := Signed(env, Encode(bytes));
    SignedPayload(env, bytes, later);
    assert env.loads(bytes) == Object(Text(env.render(id)), Whole(WholeSeconds(expiresAt)));
    DatesHoldSeconds(expiresAt);
    OwnClaims(env, id, WholeSeconds(expiresAt), later);
    assert Create(env, id, username, now, ttl) == Some((token, expiresAt));
  }

  /** Both parts of a token are plain: no dot, no blank, nothing foreign. */
  lemma TokenText(env: Env, bytes: seq<byte>)
    ensures AllInAlphabet(Encode(bytes)) && AllInAlphabet(Encode(env.mac(env.secret, Encode(bytes))))
    ensures Ascii(Encode(bytes)) && '.' !in Encode(bytes) && Ascii(Encode(env.mac(env.secret, Encode(bytes))))
  {
    var part := Encode(bytes);
    EncodedText(bytes);
    AlphabetIsPlain(part);
    EncodedText(env.mac(env.secret, part));
    AlphabetIsPlain(Encode(env.mac(env.secret, part)));
  }

  lemma DatesHoldSeconds(instant: int)
    requires IsDate(instant)
    ensures FIRST_SECOND <= WholeSeconds(instant) <= LAST_SECOND
    ensures instant >= 0 ==> instant - SECOND < WholeSeconds(instant) * SECOND <= instant
  {
  }

  /** A granted token is the signed form of its payload text: whoever alters
      the signature, or alters the payload without the secret, is refused. */
  lemma GrantedTokensAreSigned(env: Env, token: string, now: int)
    requires Verify(env, token, now).Granted?
    ensures SplitAt('.', token).Some? && token == Signed(env, SplitAt('.', token).value.0)
  {
  }

  /** At most one token is accepted for a payload text, at any two instants. */
  lemma OneTokenPerPayload(env: Env, part: string, a: string, b: string, now: int, later: int)
    requires '.' !in part
    requires Verify(env, part + "." + a, now).Granted? && Verify(env, part + "." + b, later).Granted?
    ensures a == b
  {
    SplitAtFirst('.', part, a);
    SplitAtFirst('.', part, b);
  }

  /** Time only ends a token: one granted now was granted, with the same
      answer, at every earlier instant, and a refused one stays refused. */
  lemma TimeOnlyEndsTokens(env: Env, token: string, now: int, later: int)
    requires now <= later
    ensures Verify(env, token, later).Granted? ==> Verify(env, token, now) == Verify(env, token, later)
    ensures Verify(env, token, now).Granted? ==>
              Verify(env, token, later) ==
              if later < Verify(env, token, now).expiresAt then Verify(env, token, now) else Expired
  {
  }

  // ---------------------------------------------------------------- sessions

  /** Where a request carries its token: a bearer header, or else the cookie. */
  function BearerToken(header: string): string {
    match SplitAt(' ', header)
    case None => ""
    case Some((scheme, value)) => if Lower(scheme) == "bearer" then Strip(value) else ""
  }

  function SessionToken(header: string, cookie: string): string {
    if BearerToken(header) != "" then BearerToken(header) else cookie
  }

  datatype Session = Session(user: Id, isSuper: bool, expiresAt: int) | Unauthorized | ServerError

  function GetSession(env: Env, users: map<Id, AdminUsers.User>, header: string, cookie: string, now: int): Session {
    var token := SessionToken(header, cookie);
    if token == "" then Unauthorized
    else
      match Verify(env, token, now)
      case Crashed => ServerError
      case Granted(id, expiresAt) =>
        if id in users && users[id].isActive then Session(id, users[id].isSuper, expiresAt) else Unauthorized
      case _ => Unauthorized
  }

  lemma StripPlain(s: string)
    requires forall i :: 0 <= i < |s| ==> !IsBlank(s[i])
    ensures Strip(s) == s
  {
  }

  /** The bearer header, in any case of the word, carries a created token
      whole, ahead of any cookie. */
  lemma BearerCarriesToken(env: Env, id: Id, username: string, now: int, ttl: int, scheme: string, cookie: string)
    requires Create(env, id, username, now, ttl).Some?
    requires Lower(scheme) == "bearer"
    ensures SessionToken(scheme + " " + Create(env, id, username, now, ttl).value.0, cookie)
            == Create(env, id, username, now, ttl).value.0
  {
    var token := Create(env, id, username, now, ttl).value.0;
    var part := PayloadText(env, id, username, now, ttl);
    TokenText(env, env.dumps(Claims(env.render(id), username, WholeSeconds(now), WholeSeconds(now + ttl * SECOND))));
    AlphabetIsPlain(part);
    AlphabetIsPlain(Encode(env.mac(env.secret, part)));
    StripPlain(token);
    SchemeHasNoBlank(scheme);
    SplitAtFirst(' ', scheme, token);
  }

  lemma SchemeHasNoBlank(scheme: string)
    requires Lower(scheme) == "bearer"
    ensures ' ' !in scheme
  {
    assert forall i :: 0 <= i < |scheme| ==> Lower(scheme)[i] == LowerChar(scheme[i]);
  }

  /** A signed-in account has a session exactly while the token lasts and the
      table still holds the account as active, with the role the table gives it
      now: deactivating, deleting or demoting takes effect at once. */
  lemma SessionFollowsTable(env: Env, id: Id, username: string, now: int, ttl: int,
                            users: map<Id, AdminUsers.User>, scheme: string, cookie: string, later: int)
    requires Sound(env) && Create(env, id, username, now, ttl).Some? && Lower(scheme) == "bearer"
    ensures var (token, expiresAt) := Create(env, id, username, now, ttl).value;
            var ends := WholeSeconds(expiresAt) * SECOND;
            GetSession(env, users, scheme + " " + token, cookie, later) ==
            if later < ends && id in users && users[id].isActive then Session(id, users[id].isSuper, ends)
            else Unauthorized
  {
    BearerCarriesToken(env, id, username, now, ttl, scheme, cookie);
    CreatedTokenVerifies(env, id, username, now, ttl, later);
  }

  predicate OtherScheme(header: string, scheme: string, value: string) {
    header == scheme + " " + value && ' ' !in scheme && (Lower(scheme) != "bearer" || Strip(value) == "")
  }

  ghost predicate NoBearer(header: string) {
    ' ' !in header || exists scheme, value :: OtherScheme(header, scheme, value)
  }

  /** The cookie counts when the header carries no token: it is empty, has no
      blank, names another scheme or has a blank value. */
  lemma CookieCounts(header: string, cookie: string)
    requires NoBearer(header)
    ensures SessionToken(header, cookie) == cookie
  {
    if ' ' in header {
      var scheme, value :| OtherScheme(header, scheme, value);
      SplitAtFirst(' ', scheme, value);
    } else {
      NoSeparator(' ', header);
    }
  }

  lemma {:induction false} NoSeparator(separator: char, s: string)
    requires separator !in s
    ensures SplitAt(separator, s) == None
  {
    if s != "" { NoSeparator(separator, s[1..]); }
  }

  /** So the cookie that holds a created token gives the same session as the
      bearer header: exactly while it lasts and the account exists and is active. */
  lemma CookieSessionFollowsTable(env: Env, id: Id, username: string, now: int, ttl: int,
                                  users: map<Id, AdminUsers.User>, header: string, later: int)
    requires Sound(env) && Create(env, id, username, now, ttl).Some?
    requires NoBearer(header)
    ensures var (token, expiresAt) := Create(env, id, username, now, ttl).value;
            var ends := WholeSeconds(expiresAt) * SECOND;
            GetSession(env, users, header, token, later) ==
            if later < ends && id in users && users[id].isActive then Session(id, users[id].isSuper, ends)
            else Unauthorized
  {
    CookieCounts(header, Create(env, id, username, now, ttl).value.0);
    CreatedTokenVerifies(env, id, username, now, ttl, later);
  }

  /** Without a token there is no session. */
  lemma NoTokenNoSession(env: Env, users: map<Id, AdminUsers.User>, now: int)
    ensures GetSession(env, users, "", "", now) == Unauthorized
  {
  }

  /** A deleted account is signed out: its tokens give no session any more,
      wherever they are carried. */
  lemma DeletedAccountsHaveNoSession(env: Env, t: AdminUsers.Table, actor: Id, id: Id, username: string, now: int, ttl: int,
                                     scheme: string, cookie: string, later: int)
    requires Sound(env) && Create(env, id, username, now, ttl).Some? && Lower(scheme) == "bearer" && id in t.users
    requires AdminUsers.Admission(t, actor, AdminUsers.Delete(Some(id))).Accepted?
    requires AdminUsers.Handle(t, actor, AdminUsers.Delete(Some(id))).1.Accepted?
    ensures var (token, users) := (Create(env, id, username, now, ttl).value.0,
                                   AdminUsers.Handle(t, actor, AdminUsers.Delete(Some(id))).0.users);
            && GetSession(env, users, scheme + " " + token, cookie, later) == Unauthorized
            && GetSession(env, users, "", token, later) == Unauthorized
  {
    AdminUsers.DeleteAccepted(t, actor, id);
    var users := AdminUsers.Handle(t, actor, AdminUsers.Delete(Some(id))).0.users;
    SessionFollowsTable(env, id, username, now, ttl, users, scheme, cookie, later);
    CookieSessionFollowsTable(env, id, username, now, ttl, users, "", later);
  }

  // -------------------------------------------------------- what a token says

  /** A token is refused a name only for its expiry lying outside the dates or a
      secret shorter than 32 characters; its payload decodes to the claims: the
      account, its name, and both instants in whole seconds. */
  lemma CreateMeaning(env: Env, id: Id, username: string, now: int, ttl: int)
    ensures Create(env, id, username, now, ttl).Some? <==>
            |env.secret| >= 32
            && -62_135_596_800 * 1_000_000 <= now + ttl * 1_000_000 < 253_402_300_800 * 1_000_000
    ensures Create(env, id, username, now, ttl).Some? ==>
              var (token, expiresAt) := Create(env, id, username, now, ttl).value;
              && expiresAt == now + ttl * 1_000_000
              && SplitAt('.', token).Some?
              && Decode(SplitAt('.', token).value.0)
                 == Some(env.dumps(Claims(env.render(id), username, WholeSeconds(now), WholeSeconds(expiresAt))))
              && Decode(SplitAt('.', token).value.1) == Some(env.mac(env.secret, SplitAt('.', token).value.0))
  {
    if Create(env, id, username, now, ttl).Some? {
      var bytes := env.dumps(Claims(env.render(id), username, WholeSeconds(now), WholeSeconds(now + ttl * SECOND)));
      var part := PayloadText(env, id, username, now, ttl);
      TokenText(env, bytes);
      SplitAtFirst('.', part, Encode(env.mac(env.secret, part)));
      DecodeEncode(bytes);
      DecodeEncode(env.mac(env.secret, part));
    }
  }

  /** Whole seconds are cut toward zero. */
  lemma WholeSecondsMeaning(instant: int)
    ensures instant >= 0 ==> WholeSeconds(instant) * 1_000_000 <= instant < (WholeSeconds(instant) + 1) * 1_000_000
    ensures instant < 0 ==> (WholeSeconds(instant) - 1) * 1_000_000 < instant <= WholeSeconds(instant) * 1_000_000
  {
  }

  /** The answers to a token that is not granted: one without a dot or with
      another signature is invalid; a signed payload that is no JSON, or names no
      user or no whole expiry, is too. */
  lemma InvalidTokens(env: Env, part: string, signature: string, now: int)
    requires '.' !in part && |env.secret| >= 32
    ensures Verify(env, part, now) == Invalid
    ensures Ascii(signature) && signature != Encode(env.mac(env.secret, part)) ==> Verify(env, part + "." + signature, now) == Invalid
    ensures signature == Encode(env.mac(env.secret, part)) && Ascii(part) && Decode(part).Some? ==>
              var loaded, verdict := env.loads(Decode(part).value), Verify(env, part + "." + signature, now);
              && (loaded.NotJson? ==> verdict == Invalid)
              && (loaded.Object? && (!loaded.sub.Text? || loaded.sub.s == "" || !loaded.exp.Whole?) ==> verdict == Invalid)
  {
    NoSeparator('.', part);
    SplitAtFirst('.', part, signature);
    EncodedText(env.mac(env.secret, part));
    AlphabetIsPlain(Encode(env.mac(env.secret, part)));
  }

  /** What a signed payload's claims come to: a named user and a whole expiry
      that is a date and still ahead, with an id that can be read. */
  lemma ClaimsMeaning(env: Env, sub: string, exp: int, now: int)
    requires sub != ""
    ensures var verdict := VerifyClaims(env, Text(sub), Whole(exp), now);
            && (verdict == Crashed <==> exp < -62_135_596_800 || 253_402_300_799 < exp)
            && (verdict == Expired <==> -62_135_596_800 <= exp <= 253_402_300_799 && exp * 1_000_000 <= now)
            && (verdict.Granted? <==>
                  -62_135_596_800 <= exp <= 253_402_300_799 && now < exp * 1_000_000 && env.parse(sub).Some?)
            && (verdict.Granted? ==> verdict == Granted(env.parse(sub).value, exp * 1_000_000))
  {
  }

  /** What stops verification with an error nothing catches: a secret that is
      missing or short, characters outside ASCII, and a signed payload that does
      not decode, is no text or is no object. */
  lemma CrashingTokens(env: Env, part: string, signature: string, now: int)
    requires '.' !in part
    ensures |env.secret| < 32 ==> Verify(env, part + "." + signature, now) == Crashed
    ensures (exists i :: 0 <= i < |signature| && signature[i] as int >= 128) ==> Verify(env, part + "." + signature, now) == Crashed
    ensures |env.secret| >= 32 && signature == Encode(env.mac(env.secret, part)) &&
            ((exists i :: 0 <= i < |part| && part[i] as int >= 128)
             || Decode(part).None?
             || env.loads(Decode(part).value).NotText? || env.loads(Decode(part).value).NotObject?)
            ==> Verify(env, part + "." + signature, now) == Crashed
  {
    SplitAtFirst('.', part, signature);
    EncodedText(env.mac(env.secret, part));
    AlphabetIsPlain(Encode(env.mac(env.secret, part)));
  }

  /** A session whose token carries a payload text made for `owner` is the
      owner's, and lasts no longer than the token made with that text. */
  lemma SessionsBelongToOwner(env: Env, users: map<Id, AdminUsers.User>, header: string, cookie: string, now: int,
                              owner: Id, username: string, issued: int, ttl: int)
    requires Sound(env) && Create(env, owner, username, issued, ttl).Some?
    requires GetSession(env, users, header, cookie, now).Session?
    requires SplitAt('.', SessionToken(header, cookie)).Some?
    requires SplitAt('.', SessionToken(header, cookie)).value.0 == PayloadText(env, owner, username, issued, ttl)
    ensures GetSession(env, users, header, cookie, now).user == owner
    ensures now < WholeSeconds(issued + ttl * SECOND) * SECOND
  {
    TokensBelongToOwner(env, SessionToken(header, cookie), now, owner, username, issued, ttl);
  }

  lemma TokensBelongToOwner(env: Env, token: string, now: int, owner: Id, username: string, issued: int, ttl: int)
    requires Sound(env) && Create(env, owner, username, issued, ttl).Some?
    requires Verify(env, token, now).Granted? && SplitAt('.', token).Some?
    requires SplitAt('.', token).value.0 == PayloadText(env, owner, username, issued, ttl)
    ensures Verify(env, token, now).id == owner
    ensures now < WholeSeconds(issued + ttl * SECOND) * SECOND
  {
    GrantedTokensAreSigned(env, token, now);
    assert token == Create(env, owner, username, issued, ttl).value.0;
    CreatedTokenVerifies(env, owner, username, issued, ttl, now);
  }
}
