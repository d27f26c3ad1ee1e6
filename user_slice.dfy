/** The signed-in user as the browser keeps it (frontend/src/reducers/userSlice.js):
    the Redux `user` slice, its three reducers, and the `access_token` entry of
    `localStorage` they read and write. */
module UserSlice {
  import opened JsValues
  import opened JsText

  /** The decoded claims of a token: its `exp` (seconds since the epoch, when
      present) and the other claims as a plain object. */
  datatype Claims = Claims(exp: Option<real>, rest: Obj)

  /** `{ ...claims, token }`. */
  datatype CurrentUser = CurrentUser(claims: Claims, token: string)

  // ----- parseJwt -------------------------------------------------------

  /** `s.replace(/from/g, to)`. */
  function ReplaceAll(s: string, from: char, to: char): (r: string)
    ensures |r| == |s|
    ensures forall i :: 0 <= i < |s| ==> r[i] == if s[i] == from then to else s[i]
    decreases |s|
  {
    if s == [] then []
    else [if s[0] == from then to else s[0]] + ReplaceAll(s[1..], from, to)
  }

  /** The base64url text of a token segment rewritten in the base64 alphabet. */
  function ToBase64(s: string): string {
    ReplaceAll(ReplaceAll(s, '-', '+'), '_', '/')
  }

  predicate IsBase64UrlChar(c: char) {
    'A' <= c <= 'Z' || 'a' <= c <= 'z' || '0' <= c <= '9' || c == '-' || c == '_' || c == '='
  }

  predicate IsBase64Char(c: char) {
    'A' <= c <= 'Z' || 'a' <= c <= 'z' || '0' <= c <= '9' || c == '+' || c == '/' || c == '='
  }

  /** The rewrite maps the alphabet of section 5 of RFC 4648 onto that of
      section 4 character by character: `-` to `+`, `_` to `/`, the rest kept. */
  lemma ToBase64Alphabet(s: string)
    requires forall i :: 0 <= i < |s| ==> IsBase64UrlChar(s[i])
    ensures |ToBase64(s)| == |s|
    ensures forall i :: 0 <= i < |s| ==> IsBase64Char(ToBase64(s)[i])
    ensures forall i :: 0 <= i < |s| ==> (ToBase64(s)[i] == '+' <==> s[i] == '-')
    ensures forall i :: 0 <= i < |s| ==> (ToBase64(s)[i] == '/' <==> s[i] == '_')
  {
    var once := ReplaceAll(s, '-', '+');
    forall i | 0 <= i < |s|
      ensures IsBase64Char(ToBase64(s)[i])
      ensures ToBase64(s)[i] == '+' <==> s[i] == '-'
      ensures ToBase64(s)[i] == '/' <==> s[i] == '_'
    {
      assert once[i] == if s[i] == '-' then '+' else s[i];
    }
  }

  /** `parseJwt(token)`: the second `.`-separated segment, rewritten to base64
      and handed to `decode`, which stands for `atob`, `decodeURIComponent`
      and `JSON.parse` together and is `None` when any of them throws or the
      result is falsy. A token without a second segment gives `None`. */
  function ParseJwt(token: string, decode: string -> Option<Claims>): (c: Option<Claims>)
    ensures Piece(token, '.', 1).None? ==> c.None?
    ensures Piece(token, '.', 1).Some? ==> c == decode(ToBase64(Piece(token, '.', 1).value))
  {
    var segment := Piece(token, '.', 1);
    if segment.None? then None else decode(ToBase64(segment.value))
  }

  /** A token in the compact form of section 7.1 of RFC 7515 (header, payload
      and signature joined by dots) is decoded from its payload. */
  lemma ParseCompactToken(header: string, payload: string, signature: string, decode: string -> Option<Claims>)
    requires '.' !in header && '.' !in payload && '.' !in signature
    ensures ParseJwt(header + "." + payload + "." + signature, decode) == decode(ToBase64(payload))
  {
    SecondPieceOfThree(header, payload, signature, '.');
    assert header + "." + payload + "." + signature == header + ['.'] + payload + ['.'] + signature;
  }

  /** A text without a dot is never taken for a token. */
  lemma ParseDotlessText(token: string, decode: string -> Option<Claims>)
    requires '.' !in token
    ensures ParseJwt(token, decode).None?
  {
    assert NoSeparator([token], '.');
    SplitJoin([token], '.');
  }

  // ----- the slice ------------------------------------------------------

  /** `decoded.exp > Date.now() / 1000`, with the clock in milliseconds. */
  predicate Live(c: Claims, nowMs: int) {
    c.exp.Some? && c.exp.value > nowMs as real / 1000.0
  }

  class Session {
    var currentUser: Option<CurrentUser>
    var isAuthenticated: bool
    /** `localStorage.getItem('access_token')`. */
    var storedToken: Option<string>
    /** The decoding steps `parseJwt` runs on the payload segment. */
    const decode: string -> Option<Claims>

    /** An authenticated session holds a user decoded from its own token. */
    ghost predicate Valid()
      reads this
    {
      isAuthenticated ==>
        currentUser.Some? && ParseJwt(currentUser.value.token, decode) == Some(currentUser.value.claims)
    }

    /** The `initialState`; `stored` is whatever the browser already keeps. */
    constructor (decode: string -> Option<Claims>, stored: Option<string>)
      ensures Valid()
      ensures this.decode == decode
      ensures currentUser.None? && !isAuthenticated && storedToken == stored
    {
      this.decode := decode;
      currentUser := None;
      isAuthenticated := false;
      storedToken := stored;
    }

    /** `setUser({ token })`: a token that decodes signs the user in and is
      stored; one that does not leaves everything as it was. */
    method SetUser(token: string)
      requires Valid()
      modifies this
      ensures Valid()
      ensures ParseJwt(token, decode).Some? ==>
        && currentUser == Some(CurrentUser(ParseJwt(token, decode).value, token))
        && isAuthenticated
        && storedToken == Some(token)
      ensures ParseJwt(token, decode).None? ==>
        currentUser == old(currentUser) && isAuthenticated == old(isAuthenticated) && storedToken == old(storedToken)
    {
      var user := ParseJwt(token, decode);
      if user.Some? {
        currentUser := Some(CurrentUser(user.value, token));
        isAuthenticated := true;
        storedToken := Some(token);
      }
    }

    /** `logout()`: the user and the stored token are gone. */
    method Logout()
      modifies this
      ensures Valid()
      ensures currentUser.None? && !isAuthenticated && storedToken.None?
    {
      currentUser := None;
      isAuthenticated := false;
      storedToken := None;
    }

    /** `initializeUser()` at `nowMs`: a stored token that decodes and has not
        expired signs its user in; a stored token that does not is removed;
        with no token only the flag is cleared. A failed start leaves
        `currentUser` as it was. */
    method InitializeUser(nowMs: int)
      requires Valid()
      modifies this
      ensures Valid()
      ensures isAuthenticated <==>
        && TruthyText(old(storedToken))
        && ParseJwt(old(storedToken).value, decode).Some?
        && Live(ParseJwt(old(storedToken).value, decode).value, nowMs)
      ensures isAuthenticated ==>
        currentUser == Some(CurrentUser(ParseJwt(old(storedToken).value, decode).value, old(storedToken).value))
      ensures !isAuthenticated ==> currentUser == old(currentUser)
      ensures !TruthyText(old(storedToken)) ==> storedToken == old(storedToken)
      ensures TruthyText(old(storedToken)) ==> (storedToken == old(storedToken) <==> isAuthenticated)
      ensures TruthyText(old(storedToken)) && !isAuthenticated ==> storedToken.None?
    {
      var token := storedToken;
      if TruthyText(token) {
        var decoded := ParseJwt(token.value, decode);
        if decoded.Some? && Live(decoded.value, nowMs) {
          currentUser := Some(CurrentUser(decoded.value, token.value));
          isAuthenticated := true;
        } else {
          isAuthenticated := false;
          storedToken := None;
        }
      } else {
        isAuthenticated := false;
      }
    }
  }

  /** Signing in and reloading before the token expires keeps the user signed
      in with the same claims; after `Logout` a reload signs no one in. */
  method SignInThenReload(decode: string -> Option<Claims>, token: string, nowMs: int)
    returns (afterReload: bool, afterLogout: bool)
    requires ParseJwt(token, decode).Some? && Live(ParseJwt(token, decode).value, nowMs)
    ensures afterReload && !afterLogout
  {
    var s := new Session(decode, None);
    s.SetUser(token);
    s.InitializeUser(nowMs);
    afterReload := s.isAuthenticated;
    s.Logout();
    s.InitializeUser(nowMs);
    afterLogout := s.isAuthenticated;
  }
}
