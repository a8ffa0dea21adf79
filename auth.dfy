/**
 * The API-key gate of auth.js: where the presented credential is taken
 * from, how it is compared with the configured key, and the verdict the
 * middleware gives. The configured key is a parameter (it is read once
 * from the environment at start-up and never changes).
 */
module Auth {
  import opened Wrappers
  import opened JsString
  import Utf8

  /** A request header as Node.js hands it over: absent, a string, or some
      other value (`typeof` not "string"). */
  datatype Header = Missing | Text(text: string) | NotText

  /** The two headers the gate looks at: `x-api-key` and `authorization`. */
  datatype Headers = Headers(apiKey: Header, authorization: Header)

  /** `process.env.API_KEY || process.env.DUMMY_TOKEN`. */
  function KeyFromEnvironment(apiKey: Option<string>, dummyToken: Option<string>): (key: Option<string>)
    ensures Configured(key) <==> Configured(apiKey) || Configured(dummyToken)
    ensures Configured(key) ==> key == if Configured(apiKey) then apiKey else dummyToken
  {
    if Configured(apiKey) then apiKey else dummyToken
  }

  /** A key is configured when it is present and not the empty string. */
  predicate Configured(key: Option<string>) {
    key.Some? && key.value != ""
  }

  /** `value || ""`. */
  function OrEmpty(s: Option<string>): string {
    if s.Some? then s.value else ""
  }

  /** `crypto.timingSafeEqual` on two buffers of the same length: every
      byte is compared, whatever the first difference. */
  function TimingSafeEqual(a: seq<Utf8.Byte>, b: seq<Utf8.Byte>): (r: bool)
    requires |a| == |b|
    ensures r <==> a == b
  {
    forall i :: 0 <= i < |a| ==> a[i] == b[i]
  }

  /** `timingSafeMatch(input, expected)`: compare the UTF-8 encodings,
      refusing at once when their lengths differ. */
  function TimingSafeMatch(input: Option<string>, expected: Option<string>): (r: bool)
    ensures |Utf8.Encode(OrEmpty(input))| != |Utf8.Encode(OrEmpty(expected))| ==> !r
    ensures r <==> Utf8.Encode(OrEmpty(input)) == Utf8.Encode(OrEmpty(expected))
  {
    var inputBuffer := Utf8.Encode(OrEmpty(input));
    var expectedBuffer := Utf8.Encode(OrEmpty(expected));
    if |inputBuffer| != |expectedBuffer| then false
    else TimingSafeEqual(inputBuffer, expectedBuffer)
  }

  /** The comparison holds exactly when the two strings are equal, an
      absent one counting as the empty string. */
  lemma {:induction false} TimingSafeMatchIsEquality(input: Option<string>, expected: Option<string>)
    ensures TimingSafeMatch(input, expected) <==> OrEmpty(input) == OrEmpty(expected)
  {
    if TimingSafeMatch(input, expected) {
      Utf8.EncodeInjective(OrEmpty(input), OrEmpty(expected));
    }
  }

  /** The `x-api-key` header holds a usable key: a string that is not blank. */
  predicate HasApiKeyHeader(h: Headers) {
    h.apiKey.Text? && !IsBlank(h.apiKey.text)
  }

  const BearerScheme: string := "Bearer"

  /** The authorization-header branch of `getTokenFromRequest`: split on
      spaces, keep the first two fields, and accept only the exact scheme
      `Bearer` with a non-empty token, which is returned trimmed. */
  function BearerToken(auth: string): (r: Option<string>)
    ensures r.Some? ==> IsTrimmed(r.value)
  {
    var fields := Split(auth, ' ');
    var scheme := fields[0];
    if scheme != BearerScheme || |fields| < 2 || fields[1] == "" then None
    else Some(Trim(fields[1]))
  }

  /** `getTokenFromRequest(req)`: the trimmed `x-api-key` if it is usable,
      otherwise the token of a non-blank authorization header, otherwise
      nothing. */
  function TokenFromRequest(h: Headers): (r: Option<string>)
    ensures HasApiKeyHeader(h) ==> r == Some(Trim(h.apiKey.text))
    ensures !HasApiKeyHeader(h) && (!h.authorization.Text? || IsBlank(h.authorization.text)) ==> r == None
    ensures r.Some? ==> IsTrimmed(r.value)
  {
    if HasApiKeyHeader(h) then Some(Trim(h.apiKey.text))
    else if !h.authorization.Text? || Trim(h.authorization.text) == "" then None
    else BearerToken(h.authorization.text)
  }

  /** `auth` reads `Bearer <token>`, possibly followed by more
      space-separated text. */
  predicate BearerForm(auth: string, token: string, rest: string) {
    auth == BearerScheme + [' '] + token + rest && token != [] && ' ' !in token
    && (rest == [] || rest[0] == ' ')
  }

  /** A header of the Bearer form yields its token, trimmed. */
  lemma {:induction false} BearerTokenExtracted(auth: string, token: string, rest: string)
    requires BearerForm(auth, token, rest)
    ensures BearerToken(auth) == Some(Trim(token))
  {
    assert BearerScheme + [' '] + (token + rest) == auth;
    SplitAtFirst(BearerScheme, ' ', token + rest);
    if rest == [] {
      assert token + rest == token;
      SplitNoSeparator(token, ' ');
    } else {
      assert token + rest == token + [' '] + rest[1..];
      SplitAtFirst(token, ' ', rest[1..]);
    }
  }

  /** Conversely, a token comes only from a header of that form: it starts
      with exactly `Bearer `, and the token is the trimmed field that
      follows. */
  lemma {:induction false} BearerTokenRequired(auth: string)
    requires BearerToken(auth).Some?
    ensures exists token, rest :: BearerForm(auth, token, rest) && BearerToken(auth).value == Trim(token)
  {
    var fields := Split(auth, ' ');
    assert fields[0] == BearerScheme && |fields| >= 2 && fields[1] != [];
    var rest := JoinAfterSecond(fields, ' ');
    assert BearerForm(auth, fields[1], rest);
  }

  /** Everything a joined list holds after its second field. */
  lemma {:induction false} JoinAfterSecond(fields: seq<string>, sep: char) returns (rest: string)
    requires |fields| >= 2
    requires forall i :: 0 <= i < |fields| ==> sep !in fields[i]
    ensures Join(fields, sep) == fields[0] + [sep] + fields[1] + rest
    ensures rest == [] || rest[0] == sep
  {
    if |fields| == 2 {
      rest := [];
    } else {
      rest := [sep] + Join(fields[2..], sep);
      assert fields[1..][1..] == fields[2..];
    }
  }

  /** An `x-api-key` value padded with whitespace yields the key inside,
      whatever the authorization header says. */
  lemma {:induction false} PaddedApiKeyTrimmed(h: Headers, pre: string, key: string, post: string)
    requires h.apiKey == Text(pre + key + post)
    requires IsBlank(pre) && IsBlank(post) && key != [] && IsTrimmed(key)
    ensures TokenFromRequest(h) == Some(key)
  {
    TrimPadded(pre, key, post);
  }

  /** A Bearer header whose token has no surrounding whitespace yields the
      token itself. */
  lemma {:induction false} BearerTokenVerbatim(auth: string, token: string, rest: string)
    requires BearerForm(auth, token, rest) && IsTrimmed(token)
    ensures BearerToken(auth) == Some(token)
  {
    BearerTokenExtracted(auth, token, rest);
    TrimOfTrimmed(token);
  }

  /** The header is split at every space, not only the first: with two
      spaces after the scheme the second field is empty and no token is
      taken, whatever follows. */
  lemma {:induction false} DoubleSpaceYieldsNothing(auth: string, after: string)
    requires auth == BearerScheme + [' ', ' '] + after
    ensures BearerToken(auth) == None
  {
    assert auth == BearerScheme + [' '] + ([' '] + after);
    SplitAtFirst(BearerScheme, ' ', [' '] + after);
    assert [' '] + after == [] + [' '] + after;
    SplitAtFirst([], ' ', after);
  }

  /** With no usable `x-api-key`, a non-blank authorization header is
      looked at for a `Bearer` token. */
  lemma {:induction false} AuthorizationConsulted(h: Headers)
    requires !HasApiKeyHeader(h) && h.authorization.Text?
    requires !IsBlank(h.authorization.text)
    ensures TokenFromRequest(h) == BearerToken(h.authorization.text)
  {
  }

  /** The middleware's decision: pass the request on, or answer it. */
  datatype Verdict = Allow | Deny(status: nat, message: string)

  const NotConfiguredMessage: string := "API key is not configured"
  const MissingMessage: string := "API key missing"
  const InvalidMessage: string := "Invalid API key"

  /** `authenticate(req, res, next)`, with `next()` as `Allow`. The checks
      run in a fixed order: configuration, presence, match. */
  function Authenticate(key: Option<string>, h: Headers): (v: Verdict)
    ensures !Configured(key) ==> v == Deny(500, NotConfiguredMessage)
    ensures Configured(key) && OrEmpty(TokenFromRequest(h)) == "" ==> v == Deny(401, MissingMessage)
    ensures v.Deny? ==> (v.status == 500 <==> !Configured(key))
  {
    if !Configured(key) then Deny(500, NotConfiguredMessage)
    else
      var token := TokenFromRequest(h);
      if OrEmpty(token) == "" then Deny(401, MissingMessage)
      else if !TimingSafeMatch(token, key) then Deny(401, InvalidMessage)
      else Allow
  }

  /** `next()` runs exactly when a key is configured and the credential
      taken from the headers is that key. */
  lemma {:induction false} AllowedIffKeyMatches(key: Option<string>, h: Headers)
    ensures Authenticate(key, h) == Allow <==> Configured(key) && TokenFromRequest(h) == Some(key.value)
  {
    TimingSafeMatchIsEquality(TokenFromRequest(h), key);
  }

  /** A present credential that differs from the configured key is
      refused as invalid. */
  lemma {:induction false} WrongKeyRejected(key: Option<string>, h: Headers)
    requires Configured(key)
    requires TokenFromRequest(h).Some? && TokenFromRequest(h).value != ""
    requires TokenFromRequest(h).value != key.value
    ensures Authenticate(key, h) == Deny(401, InvalidMessage)
  {
    TimingSafeMatchIsEquality(TokenFromRequest(h), key);
  }

  /** Credentials are trimmed before the comparison, so a configured key
      with leading or trailing whitespace admits no request at all. */
  lemma {:induction false} PaddedKeyAdmitsNothing(key: Option<string>, h: Headers)
    requires Configured(key) && !IsTrimmed(key.value)
    ensures Authenticate(key, h) != Allow
  {
    AllowedIffKeyMatches(key, h);
  }

  /** A header with another scheme, such as `Basic abc`, yields nothing. */
  lemma {:induction false} BasicExample()
    ensures BearerToken("Basic abc") == None
  {
    assert "Basic abc" == "Basic" + [' '] + "abc";
    SplitAtFirst("Basic", ' ', "abc");
  }
}
