/** Phone numbers as the registration use cases normalise them. */
module Phone {
  import opened Base
  import Text

  predicate IsSeparator(c: char) {
    c == ' ' || c == '-' || c == '.' || c == '(' || c == ')'
  }

  /** strings.NewReplacer with every separator replaced by nothing. */
  function Strip(s: string): string {
    if s == "" then "" else (if IsSeparator(s[0]) then "" else [s[0]]) + Strip(s[1..])
  }

  predicate AllDigits(s: string) {
    forall i :: 0 <= i < |s| ==> '0' <= s[i] <= '9'
  }

  /** The pattern ^\+?[0-9]{9,15}$. */
  predicate Canonical(s: string) {
    var digits := if s != "" && s[0] == '+' then s[1..] else s;
    9 <= |digits| <= 15 && AllDigits(digits)
  }

  function Normalize(raw: string): Option<string> {
    var s := Strip(Text.Trim(raw));
    if Canonical(s) then Some(s) else None
  }

  lemma {:induction false} StripKeepsOthers(s: string)
    requires forall i :: 0 <= i < |s| ==> !IsSeparator(s[i])
    ensures Strip(s) == s
  {
    if s != "" {
      StripKeepsOthers(s[1..]);
    }
  }

  /** Normalising accepts exactly the canonical numbers unchanged, and only yields
      canonical numbers; so normalising a normalised number changes nothing. */
  lemma NormalizeIdempotent(raw: string)
    ensures Canonical(raw) <==> Normalize(raw) == Some(raw)
    ensures Normalize(raw).Some? ==> Normalize(Normalize(raw).value) == Normalize(raw)
  {
    CanonicalIsFixed(raw);
    if Normalize(raw).Some? {
      CanonicalIsFixed(Normalize(raw).value);
    }
  }

  /** White space around a number does not matter. */
  lemma NormalizeIgnoresOuterSpace(raw: string)
    ensures Normalize(raw) == Normalize(Text.Trim(raw))
  {
    Text.TrimIsTrimmed(raw);
    Text.TrimIsTrimmed(Text.Trim(raw));
  }

  lemma CanonicalChars(s: string)
    requires Canonical(s)
    ensures s != "" && forall i :: 0 <= i < |s| ==> s[i] == '+' || '0' <= s[i] <= '9'
  {
    forall i | 0 <= i < |s| ensures s[i] == '+' || '0' <= s[i] <= '9' {
      if s[0] == '+' && i > 0 { assert s[i] == s[1..][i - 1]; }
    }
  }

  lemma CanonicalIsFixed(s: string)
    ensures Canonical(s) ==> Normalize(s) == Some(s)
  {
    if Canonical(s) {
      CanonicalChars(s);
      assert Text.Trimmed(s);
      Text.TrimIsTrimmed(s);
      StripKeepsOthers(s);
    }
  }

  /** isValidOTPCode. */
  predicate ValidOtpCode(code: string) {
    |code| == 6 && AllDigits(code)
  }

  /** Stripping goes character by character and drops exactly five of them. */
  lemma {:induction false} StripDropsSeparators(s: string, c: char)
    ensures Strip("") == ""
    ensures Strip(s + [c]) == if c in " -.()" then Strip(s) else Strip(s) + [c]
  {
    if s == "" {
      assert s + [c] == [c] && [c][1..] == "";
    } else {
      assert (s + [c])[0] == s[0] && (s + [c])[1..] == s[1..] + [c];
      StripDropsSeparators(s[1..], c);
    }
  }

  /** What normalising accepts: nine to fifteen digits, with a plus before them or not. */
  lemma CanonicalMeans(s: string)
    ensures Canonical(s) <==>
      exists digits: string ::
        (s == digits || s == "+" + digits) && 9 <= |digits| <= 15 && forall c :: c in digits ==> c in "0123456789"
  {
    DigitsMeans(s);
    if s != "" {
      DigitsMeans(s[1..]);
    }
    if Canonical(s) {
      var digits := if s[0] == '+' then s[1..] else s;
      assert s == digits || s == "+" + digits;
    }
    if digits: string :|
        (s == digits || s == "+" + digits) && 9 <= |digits| <= 15 && forall c :: c in digits ==> c in "0123456789" {
      if s == digits {
        assert s[0] in digits;
      } else {
        assert s[1..] == digits;
      }
    }
  }

  lemma DigitsMeans(s: string)
    ensures AllDigits(s) <==> forall c :: c in s ==> c in "0123456789"
  {
    if AllDigits(s) {
      forall c | c in s ensures c in "0123456789" { DigitsAre(c); }
    }
    if forall c :: c in s ==> c in "0123456789" {
      forall i | 0 <= i < |s| ensures '0' <= s[i] <= '9' { DigitsAre(s[i]); }
    }
  }

  lemma DigitsAre(c: char)
    ensures '0' <= c <= '9' <==> c in "0123456789"
  {
    if '0' <= c <= '9' {
      assert "0123456789"[(c as int) - 48] == c;
    }
  }

  lemma OtpCodeMeans(code: string)
    ensures ValidOtpCode(code) <==> |code| == 6 && forall c :: c in code ==> c in "0123456789"
  {
    DigitsMeans(code);
  }
}

/** The rows of the account tables and the effect of every SQL statement or transaction on them. */
module AuthTables {
  import opened Base

  /** bcrypt and SHA-256, idealised as injective: a hash matches the hashed text and nothing else. */
  datatype CodeHash = Bcrypt(code: string)
  datatype TokenHash = Sha256(raw: string)

  datatype User = User(id: string, phone: string, fullName: string, password: CodeHash)

  datatype Otp = Otp(
    id: string,
    phone: string,
    hash: CodeHash,
    expiresAt: Time,
    attempts: nat,
    maxAttempts: nat,
    usedAt: Option<Time>,
    createdAt: Time)

  datatype Token = Token(userId: string, expiresAt: Time, revokedAt: Option<Time>)

  datatype Tables = Tables(users: map<string, User>, otps: map<string, Otp>, tokens: map<TokenHash, Token>)

  datatype AuthError =
    | InvalidInput
    | PhoneAlreadyExists
    | OtpNotFound
    | OtpUsed
    | OtpExpired
    | OtpTooManyAttempts
    | InvalidOtp
    | InvalidRefreshToken
    | RefreshTokenExpired
    | RefreshTokenRevoked
    | ConstraintViolation

  const REGISTER_OTP_TTL: Time := 5 * MINUTE
  const REGISTER_OTP_MAX_ATTEMPTS: nat := 5

  // ---- users ----

  predicate HasPhone(t: Tables, phone: string) {
    exists u :: u in t.users && t.users[u].phone == phone
  }

  /** One transaction: the user and its first refresh token, or neither. */
  function InsertUserWithToken(t: Tables, user: User, hash: TokenHash, expiresAt: Time)
    : (Tables, Result<string, AuthError>)
  {
    if user.id in t.users || HasPhone(t, user.phone) then (t, Failure(PhoneAlreadyExists))
    else if hash in t.tokens then (t, Failure(ConstraintViolation))
    else (t.(users := t.users[user.id := user], tokens := t.tokens[hash := Token(user.id, expiresAt, None)]),
        Success(user.id))
  }

  // ---- auth_otps ----

  function InsertOtp(t: Tables, otp: Otp): Tables {
    if otp.id in t.otps then t else t.(otps := t.otps[otp.id := otp])
  }

  /** A row the query for the newest code of the number may return. */
  predicate IsLatest(t: Tables, phone: string, id: string) {
    && id in t.otps && t.otps[id].phone == phone
    && forall j :: j in t.otps && t.otps[j].phone == phone ==> t.otps[j].createdAt <= t.otps[id].createdAt
  }

  predicate HasOtp(t: Tables, phone: string) {
    exists id :: id in t.otps && t.otps[id].phone == phone
  }

  /** ORDER BY created_at DESC LIMIT 1 has a row to return whenever the number has any. */
  lemma LatestExists(t: Tables, phone: string)
    requires HasOtp(t, phone)
    ensures exists id :: IsLatest(t, phone, id)
  {
    var ids := set id | id in t.otps && t.otps[id].phone == phone;
    var id :| id in t.otps && t.otps[id].phone == phone;
    assert id in ids;
    var newest := NewestOf(t, ids);
    assert IsLatest(t, phone, newest);
  }

  lemma {:induction false} NewestOf(t: Tables, ids: set<string>) returns (newest: string)
    requires ids != {} && ids <= t.otps.Keys
    ensures newest in ids && forall j :: j in ids ==> t.otps[j].createdAt <= t.otps[newest].createdAt
    decreases ids
  {
    newest :| newest in ids;
    if ids != {newest} {
      var other := NewestOf(t, ids - {newest});
      newest := if t.otps[newest].createdAt < t.otps[other].createdAt then other else newest;
    }
  }

  function IncrementAttempt(t: Tables, id: string): Tables {
    if id in t.otps then t.(otps := t.otps[id := t.otps[id].(attempts := t.otps[id].attempts + 1)]) else t
  }

  function MarkUsed(t: Tables, id: string, now: Time): Tables {
    if id in t.otps then t.(otps := t.otps[id := t.otps[id].(usedAt := Some(now))]) else t
  }

  // ---- refresh_tokens ----

  predicate Live(t: Tables, h: TokenHash) {
    h in t.tokens && t.tokens[h].revokedAt.None?
  }

  predicate CanInsertToken(t: Tables, h: TokenHash, token: Token) {
    h !in t.tokens && token.userId in t.users
  }

  function InsertToken(t: Tables, h: TokenHash, token: Token): Tables {
    if CanInsertToken(t, h, token) then t.(tokens := t.tokens[h := token]) else t
  }

  function RevokeToken(t: Tables, h: TokenHash, now: Time): Tables {
    if Live(t, h) then t.(tokens := t.tokens[h := t.tokens[h].(revokedAt := Some(now))]) else t
  }

  /** One transaction: revoke the current token and insert the next, or neither. */
  function ReplaceToken(t: Tables, current: TokenHash, next: TokenHash, token: Token, now: Time)
    : (Tables, Result<(), AuthError>)
  {
    if !Live(t, current) then (t, Failure(InvalidRefreshToken))
    else if !CanInsertToken(t, next, token) then (t, Failure(ConstraintViolation))
    else (InsertToken(RevokeToken(t, current, now), next, token), Success(()))
  }

  function RevokedToken(token: Token, userId: string, now: Time): Token {
    if token.userId == userId && token.revokedAt.None? then token.(revokedAt := Some(now)) else token
  }

  function RevokeAll(t: Tables, userId: string, now: Time): Tables {
    t.(tokens := map h | h in t.tokens :: RevokedToken(t.tokens[h], userId, now))
  }
}
