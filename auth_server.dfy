/**
 * The server-side account state of the Flask application: the users table,
 * the per-name login counters, the one-time-code store and the reset-token
 * store, and the request handlers that change them.
 *
 * Each handler is a pure step function on a snapshot of the four stores
 * (`Stores`), and a method of `Server` that performs the same dictionary
 * updates in place and is proved to agree with it. Clock readings, random
 * draws and generated tokens arrive as parameters; times are microseconds.
 */
module AuthServer {
  import opened Wrappers
  import opened Text
  import opened AccountRules

  const Minute: int := 60_000_000
  /** A one-time code lives five minutes, a reset token ten. */
  const OtpLifetime: int := 5 * Minute
  const TokenLifetime: int := 10 * Minute
  /** Wrong passwords tolerated before a name is locked out. */
  const MaxAttempts: int := 3

  datatype OtpEntry = OtpEntry(code: string, expiry: int)
  datatype TokenEntry = TokenEntry(email: string, expiry: int)

  /** A snapshot of everything the handlers read and write. */
  datatype Stores = Stores(
    users: seq<Account>,
    attempts: map<string, int>,
    otps: map<string, OtpEntry>,
    tokens: map<string, TokenEntry>)

  /** The two columns the handlers look rows up by. */
  datatype Column = NameColumn | EmailColumn

  function Field(row: Account, col: Column): string {
    match col
    case NameColumn => row.name
    case EmailColumn => row.email
  }

  /** `SELECT ... WHERE col=%s` followed by `fetchone`: the first row holding `value`, if any. */
  function FirstWhere(users: seq<Account>, col: Column, value: string): (r: Option<nat>)
    ensures r.None? <==> forall i :: 0 <= i < |users| ==> Field(users[i], col) != value
    ensures r.Some? ==> r.value < |users| && Field(users[r.value], col) == value
    ensures r.Some? ==> forall j :: 0 <= j < r.value ==> Field(users[j], col) != value
  {
    if users == [] then None
    else if Field(users[0], col) == value then Some(0)
    else match FirstWhere(users[1..], col, value)
      case None => None
      case Some(i) => Some(i + 1)
  }

  /** `UPDATE users SET password=... WHERE email=...`: every row with that email, and only those. */
  function SetSecretByEmail(users: seq<Account>, email: string, secret: string): (r: seq<Account>)
    ensures |r| == |users|
    ensures forall i :: 0 <= i < |users| ==>
      r[i] == if users[i].email == email then users[i].(secret := secret) else users[i]
  {
    if users == [] then []
    else
      var row := if users[0].email == email then users[0].(secret := secret) else users[0];
      [row] + SetSecretByEmail(users[1..], email, secret)
  }

  /** The counter of a name; a name never seen counts as zero. */
  function Attempts(attempts: map<string, int>, name: string): int {
    if name in attempts then attempts[name] else 0
  }

  predicate AttemptsBounded(attempts: map<string, int>) {
    forall n :: n in attempts ==> 0 <= attempts[n] <= MaxAttempts
  }

  /** What `str(secrets.randbelow(900000) + 100000)` can produce: six digits, no leading zero. */
  predicate IsOtpCode(code: string) {
    |code| == 6 && AllDigits(code) && 100000 <= DigitsValue(code) <= 999999
  }

  predicate StoresValid(s: Stores) {
    AttemptsBounded(s.attempts) && forall e :: e in s.otps ==> IsOtpCode(s.otps[e].code)
  }

  /** The code mailed for the draw `draw` of `secrets.randbelow(900000)`. */
  function OtpCode(draw: nat): (code: string)
    ensures IsOtpCode(code)
    ensures DigitsValue(code) == draw % 900000 + 100000
  {
    var n := draw % 900000 + 100000;
    DecimalSixDigits(n);
    DecimalRoundTrip(n);
    Decimal(n)
  }

  /** `signup` with the users table: a registered account becomes the last row. */
  function SignupStep(s: Stores, name: string, aadhar: string, phone: string, email: string,
                      choice: PasswordChoice, emojiPick: nat): (r: (SignupOutcome, Stores))
    requires WellDrawn(choice)
    ensures r.0 == Signup(name, aadhar, phone, email, choice, emojiPick)
    ensures r.0.Registered? ==> r.1 == s.(users := s.users + [r.0.account])
    ensures r.0.SignupRejected? ==> r.1 == s
  {
    var outcome := Signup(name, aadhar, phone, email, choice, emojiPick);
    if outcome.Registered? then (outcome, s.(users := s.users + [outcome.account])) else (outcome, s)
  }

  datatype LoginOutcome =
    | UserNotFound
    | TooManyAttempts
    | LoggedIn(emoji: nat)
    | WrongPassword(attemptsLeft: int)

  /**
   * `login`: an unknown name changes nothing; a name at the limit is refused
   * without looking at the password and without touching its counter; a
   * right password clears the counter, a wrong one adds one to it.
   */
  function LoginStep(s: Stores, name: string, password: string): (r: (LoginOutcome, Stores))
    ensures r.1.users == s.users && r.1.otps == s.otps && r.1.tokens == s.tokens
    ensures r.0 == UserNotFound <==> FirstWhere(s.users, NameColumn, name).None?
    ensures r.0 == TooManyAttempts <==>
      FirstWhere(s.users, NameColumn, name).Some? && Attempts(s.attempts, name) >= MaxAttempts
    ensures r.0 == UserNotFound || r.0 == TooManyAttempts ==> r.1 == s
    ensures r.0.LoggedIn? ==>
      var row := s.users[FirstWhere(s.users, NameColumn, name).value];
      && password == row.secret && r.0.emoji == row.emoji
      && Attempts(s.attempts, name) < MaxAttempts
      && r.1.attempts == s.attempts[name := 0]
    ensures r.0.WrongPassword? ==>
      && password != s.users[FirstWhere(s.users, NameColumn, name).value].secret
      && Attempts(s.attempts, name) < MaxAttempts
      && r.1.attempts == s.attempts[name := Attempts(s.attempts, name) + 1]
      && r.0.attemptsLeft == MaxAttempts - Attempts(r.1.attempts, name)
    ensures AttemptsBounded(s.attempts) ==> AttemptsBounded(r.1.attempts)
  {
    match FirstWhere(s.users, NameColumn, name)
    case None => (UserNotFound, s)
    case Some(i) =>
      var count := Attempts(s.attempts, name);
      if count >= MaxAttempts then (TooManyAttempts, s)
      else if password == s.users[i].secret then (LoggedIn(s.users[i].emoji), s.(attempts := s.attempts[name := 0]))
      else (WrongPassword(MaxAttempts - (count + 1)), s.(attempts := s.attempts[name := count + 1]))
  }

  datatype ForgotOutcome = EmailNotFound | OtpSent(username: string, code: string)

  /**
   * `forgot_password` on a POST: for a known email, a fresh six-digit code
   * valid for five minutes replaces whatever code that email had.
   */
  function ForgotStep(s: Stores, email: string, draw: nat, now: int): (r: (ForgotOutcome, Stores))
    ensures r.0 == EmailNotFound <==> FirstWhere(s.users, EmailColumn, email).None?
    ensures r.0 == EmailNotFound ==> r.1 == s
    ensures r.0.OtpSent? ==>
      && r.0.username == s.users[FirstWhere(s.users, EmailColumn, email).value].name
      && IsOtpCode(r.0.code)
      && r.1 == s.(otps := s.otps[email := OtpEntry(r.0.code, now + OtpLifetime)])
  {
    match FirstWhere(s.users, EmailColumn, email)
    case None => (EmailNotFound, s)
    case Some(i) =>
      var code := OtpCode(draw);
      (OtpSent(s.users[i].name, code), s.(otps := s.otps[email := OtpEntry(code, now + OtpLifetime)]))
  }

  datatype VerifyOutcome = NoOtp | OtpExpired | WrongOtp | OtpAccepted(token: string)

  /**
   * `verify_otp_page` on a POST. A code is accepted only while it is live
   * and only if it matches; an expired code is discarded, a wrong one is
   * kept, an accepted one is consumed and exchanged for a reset token
   * valid for ten minutes.
   */
  function VerifyStep(s: Stores, email: string, entered: string, now: int, token: string): (r: (VerifyOutcome, Stores))
    ensures r.1.users == s.users && r.1.attempts == s.attempts
    ensures r.0 == NoOtp <==> email !in s.otps
    ensures r.0 == OtpExpired <==> email in s.otps && now > s.otps[email].expiry
    ensures r.0.OtpAccepted? <==>
      email in s.otps && now <= s.otps[email].expiry && entered == s.otps[email].code
    ensures r.0 == WrongOtp || r.0 == NoOtp ==> r.1 == s
    ensures r.0 == OtpExpired || r.0.OtpAccepted? ==> r.1.otps == s.otps - {email}
    ensures r.0.OtpAccepted? ==>
      r.0.token == token && r.1.tokens == s.tokens[token := TokenEntry(email, now + TokenLifetime)]
    ensures !r.0.OtpAccepted? ==> r.1.tokens == s.tokens
  {
    if email !in s.otps then (NoOtp, s)
    else
      var entry := s.otps[email];
      if now > entry.expiry then (OtpExpired, s.(otps := s.otps - {email}))
      else if entered != entry.code then (WrongOtp, s)
      else (OtpAccepted(token), s.(otps := s.otps - {email}, tokens := s.tokens[token := TokenEntry(email, now + TokenLifetime)]))
  }

  /** A GET of the reset page, or a POST with the chosen password. */
  datatype ResetRequest = ShowResetForm | SubmitReset(choice: PasswordChoice)

  predicate WellDrawnRequest(req: ResetRequest) {
    req.SubmitReset? ==> WellDrawn(req.choice)
  }

  datatype ResetOutcome =
    | InvalidToken
    | TokenExpired
    | ResetForm(email: string)
    | ServerError
    | ResetRejected(message: string)
    | PasswordReset(email: string, password: string, generated: bool)

  /** The last name `reset_password_page` takes from the stored full name, if it has one. */
  function LastWord(name: string): (r: Option<string>)
    ensures r.Some? ==> |r.value| >= 1
    ensures r.None? <==> |Words(name)| == 0
  {
    var parts := Words(name);
    WordsSpec(name);
    if |parts| == 0 then None else Some(parts[|parts| - 1])
  }

  /**
   * The POST half of `reset_password_page` for a live token naming `email`:
   * the new password is generated, or checked against the policy of the
   * account the email names first; a refused password changes nothing, a
   * new password is written to every row with that email and spends the
   * token. A missing row or an empty stored name makes the handler fail
   * before it changes anything.
   */
  function SubmitStep(s: Stores, token: string, email: string, choice: PasswordChoice): (r: (ResetOutcome, Stores))
    requires WellDrawn(choice)
    ensures !r.0.PasswordReset? ==> r.1 == s
    ensures r.0.ServerError? <==>
      FirstWhere(s.users, EmailColumn, email).None? || LastWord(s.users[FirstWhere(s.users, EmailColumn, email).value].name).None?
    ensures r.0.ServerError? || r.0.ResetRejected? || r.0.PasswordReset?
    ensures r.0.PasswordReset? ==>
      && r.0.email == email
      && r.0.generated == choice.AutoPassword?
      && r.1 == s.(users := SetSecretByEmail(s.users, email, r.0.password), tokens := s.tokens - {token})
    ensures !r.0.ServerError? ==>
      var row := s.users[FirstWhere(s.users, EmailColumn, email).value];
      var lastName := LastWord(row.name).value;
      && (choice.ManualPassword? ==>
           (r.0.PasswordReset? <==> ValidatePassword(choice.password, lastName, row.aadhar, row.phone) == Accepted))
      && (choice.ManualPassword? && r.0.PasswordReset? ==> r.0.password == choice.password)
      && (choice.ManualPassword? && r.0.ResetRejected? ==>
           r.0.message == VerdictMessage(ValidatePassword(choice.password, lastName, row.aadhar, row.phone)))
      && (choice.AutoPassword? ==>
           && r.0.PasswordReset? && HasRequiredCapital(r.0.password, lastName)
           && r.0.password == AutoGeneratePassword(lastName, row.aadhar, row.phone, choice.capPick, choice.extra, choice.picks))
  {
    match FirstWhere(s.users, EmailColumn, email)
    case None => (ServerError, s)
    case Some(i) =>
      var row := s.users[i];
      match LastWord(row.name)
      case None => (ServerError, s)
      case Some(lastName) =>
        match choice
        case AutoPassword(capPick, extra, picks) =>
          var password := AutoGeneratePassword(lastName, row.aadhar, row.phone, capPick, extra, picks);
          GeneratedHasCapital(lastName, row.aadhar, row.phone, capPick, extra, picks);
          (PasswordReset(email, password, true),
           s.(users := SetSecretByEmail(s.users, email, password), tokens := s.tokens - {token}))
        case ManualPassword(password) =>
          var verdict := ValidatePassword(password, lastName, row.aadhar, row.phone);
          if verdict != Accepted then (ResetRejected(VerdictMessage(verdict)), s)
          else
            (PasswordReset(email, password, false),
             s.(users := SetSecretByEmail(s.users, email, password), tokens := s.tokens - {token}))
  }

  /**
   * `reset_password_page`. An unknown token is refused, an expired one is
   * discarded; a live token shows the form on a GET and is handed to the
   * POST half otherwise. Neither the login counters nor the code store
   * are touched.
   */
  function ResetStep(s: Stores, token: string, now: int, req: ResetRequest): (r: (ResetOutcome, Stores))
    requires WellDrawnRequest(req)
    ensures r.1.attempts == s.attempts && r.1.otps == s.otps
    ensures r.0 == InvalidToken <==> token !in s.tokens
    ensures r.0 == TokenExpired <==> token in s.tokens && now > s.tokens[token].expiry
    ensures r.0 == TokenExpired ==> r.1 == s.(tokens := s.tokens - {token})
    ensures r.0.ResetForm? <==> token in s.tokens && now <= s.tokens[token].expiry && req.ShowResetForm?
    ensures r.0.ResetForm? ==> r.0.email == s.tokens[token].email
    ensures !r.0.PasswordReset? && r.0 != TokenExpired ==> r.1 == s
    ensures token in s.tokens && now <= s.tokens[token].expiry && req.SubmitReset? ==>
      r == SubmitStep(s, token, s.tokens[token].email, req.choice)
  {
    if token !in s.tokens then (InvalidToken, s)
    else
      var entry := s.tokens[token];
      if now > entry.expiry then (TokenExpired, s.(tokens := s.tokens - {token}))
      else if req.ShowResetForm? then (ResetForm(entry.email), s)
      else SubmitStep(s, token, entry.email, req.choice)
  }

  /** The counters stay within 0..3, so "Attempts left" is never negative. */
  lemma LoginKeepsValid(s: Stores, name: string, password: string)
    requires StoresValid(s)
    ensures StoresValid(LoginStep(s, name, password).1)
    ensures LoginStep(s, name, password).0.WrongPassword? ==> LoginStep(s, name, password).0.attemptsLeft >= 0
  {
  }

  lemma ForgotKeepsValid(s: Stores, email: string, draw: nat, now: int)
    requires StoresValid(s)
    ensures StoresValid(ForgotStep(s, email, draw, now).1)
  {
  }

  /**
   * Three wrong passwords in a row on a fresh counter report 2, 1 and 0
   * attempts left; after that even the right password is refused.
   */
  lemma ThreeStrikes(s: Stores, name: string, wrong: string, right: string)
    requires FirstWhere(s.users, NameColumn, name).Some? && Attempts(s.attempts, name) == 0
    requires wrong != s.users[FirstWhere(s.users, NameColumn, name).value].secret
    ensures var (r1, s1) := LoginStep(s, name, wrong);
      var (r2, s2) := LoginStep(s1, name, wrong);
      var (r3, s3) := LoginStep(s2, name, wrong);
      r1 == WrongPassword(2) && r2 == WrongPassword(1) && r3 == WrongPassword(0) &&
      LoginStep(s3, name, right).0 == TooManyAttempts
  {
  }

  /** Resetting the password never changes which row a name finds first. */
  lemma {:induction false} SetSecretKeepsNames(users: seq<Account>, email: string, secret: string, name: string)
    ensures FirstWhere(SetSecretByEmail(users, email, secret), NameColumn, name) == FirstWhere(users, NameColumn, name)
    decreases |users|
  {
    if users != [] {
      SetSecretKeepsNames(users[1..], email, secret, name);
      assert SetSecretByEmail(users, email, secret)[1..] == SetSecretByEmail(users[1..], email, secret);
    }
  }

  /**
   * Nothing in the reset flow touches the login counters: a locked-out
   * name stays locked out after its password is reset, whatever password
   * is then tried.
   */
  lemma LockoutOutlivesReset(s: Stores, name: string, token: string, now: int, req: ResetRequest, password: string)
    requires WellDrawnRequest(req)
    requires FirstWhere(s.users, NameColumn, name).Some? && Attempts(s.attempts, name) >= MaxAttempts
    ensures LoginStep(ResetStep(s, token, now, req).1, name, password).0 == TooManyAttempts
  {
    var s1 := ResetStep(s, token, now, req).1;
    if ResetStep(s, token, now, req).0.PasswordReset? {
      SetSecretKeepsNames(s.users, ResetStep(s, token, now, req).0.email, ResetStep(s, token, now, req).0.password, name);
    }
  }

  /**
   * A reset takes effect: a name whose first row carries the reset email,
   * and which is not locked out, logs in with the new password.
   */
  lemma LoginAfterReset(s: Stores, token: string, now: int, req: ResetRequest, name: string)
    requires WellDrawnRequest(req)
    requires ResetStep(s, token, now, req).0.PasswordReset?
    requires FirstWhere(s.users, NameColumn, name).Some?
    requires s.users[FirstWhere(s.users, NameColumn, name).value].email == ResetStep(s, token, now, req).0.email
    requires Attempts(s.attempts, name) < MaxAttempts
    ensures LoginStep(ResetStep(s, token, now, req).1, name, ResetStep(s, token, now, req).0.password).0.LoggedIn?
  {
    var r := ResetStep(s, token, now, req).0;
    SetSecretKeepsNames(s.users, r.email, r.password, name);
  }

  /** The code a user is mailed opens the reset flow if entered within five minutes. */
  lemma MailedCodeAccepted(s: Stores, email: string, draw: nat, now: int, later: int, token: string)
    requires ForgotStep(s, email, draw, now).0.OtpSent?
    requires now <= later <= now + OtpLifetime
    ensures var (r, s1) := ForgotStep(s, email, draw, now);
      VerifyStep(s1, email, r.code, later, token).0 == OtpAccepted(token)
  {
  }

  /** After five minutes the same code is refused as expired, and discarded. */
  lemma MailedCodeExpires(s: Stores, email: string, draw: nat, now: int, later: int, entered: string, token: string)
    requires ForgotStep(s, email, draw, now).0.OtpSent?
    requires later > now + OtpLifetime
    ensures var s1 := ForgotStep(s, email, draw, now).1;
      VerifyStep(s1, email, entered, later, token).0 == OtpExpired &&
      email !in VerifyStep(s1, email, entered, later, token).1.otps
  {
  }

  /** A code is good for one use: once accepted, a second try finds no code. */
  lemma OtpSingleUse(s: Stores, email: string, entered: string, now: int, token: string,
                     again: string, later: int, token2: string)
    requires VerifyStep(s, email, entered, now, token).0.OtpAccepted?
    ensures VerifyStep(VerifyStep(s, email, entered, now, token).1, email, again, later, token2).0 == NoOtp
  {
  }

  /** The token an accepted code yields opens the reset form for ten minutes. */
  lemma AcceptedTokenOpensForm(s: Stores, email: string, entered: string, now: int, token: string, later: int)
    requires VerifyStep(s, email, entered, now, token).0.OtpAccepted?
    requires later <= now + TokenLifetime
    ensures ResetStep(VerifyStep(s, email, entered, now, token).1, token, later, ShowResetForm).0 == ResetForm(email)
  {
  }

  /** A token is good for one reset: once spent, it is unknown. */
  lemma TokenSingleUse(s: Stores, token: string, now: int, req: ResetRequest, later: int, req2: ResetRequest)
    requires WellDrawnRequest(req) && WellDrawnRequest(req2)
    requires ResetStep(s, token, now, req).0.PasswordReset?
    ensures ResetStep(ResetStep(s, token, now, req).1, token, later, req2).0 == InvalidToken
  {
  }

  /** The application's four module-level stores, with the users table standing in for MySQL. */
  class Server {
    var users: seq<Account>
    var loginAttempts: map<string, int>
    var otpStore: map<string, OtpEntry>
    var resetTokens: map<string, TokenEntry>

    ghost function State(): Stores
      reads this
    {
      Stores(users, loginAttempts, otpStore, resetTokens)
    }

    ghost predicate Valid()
      reads this
    {
      StoresValid(State())
    }

    /** Application start: an empty table and empty dictionaries. */
    constructor()
      ensures Valid()
      ensures State() == Stores([], map[], map[], map[])
    {
      users := [];
      loginAttempts := map[];
      otpStore := map[];
      resetTokens := map[];
    }

    method SignUp(name: string, aadhar: string, phone: string, email: string,
                  choice: PasswordChoice, emojiPick: nat) returns (r: SignupOutcome)
      requires Valid() && WellDrawn(choice)
      modifies this`users
      ensures Valid()
      ensures (r, State()) == SignupStep(old(State()), name, aadhar, phone, email, choice, emojiPick)
    {
      r := Signup(name, aadhar, phone, email, choice, emojiPick);
      if r.Registered? {
        users := users + [r.account];
      }
      assert (r, State()) == SignupStep(old(State()), name, aadhar, phone, email, choice, emojiPick);
    }

    method Login(name: string, password: string) returns (r: LoginOutcome)
      requires Valid()
      modifies this`loginAttempts
      ensures Valid()
      ensures (r, State()) == LoginStep(old(State()), name, password)
    {
      var row := FirstWhere(users, NameColumn, name);
      if row.None? {
        return UserNotFound;
      }
      var account := users[row.value];
      if name !in loginAttempts {
        loginAttempts := loginAttempts[name := 0];
      }
      if loginAttempts[name] >= MaxAttempts {
        return TooManyAttempts;
      }
      if password == account.secret {
        loginAttempts := loginAttempts[name := 0];
        assert loginAttempts == old(loginAttempts)[name := 0];
        return LoggedIn(account.emoji);
      }
      loginAttempts := loginAttempts[name := loginAttempts[name] + 1];
      assert loginAttempts == old(loginAttempts)[name := Attempts(old(loginAttempts), name) + 1];
      r := WrongPassword(MaxAttempts - loginAttempts[name]);
    }

    method ForgotPassword(email: string, draw: nat, now: int) returns (r: ForgotOutcome)
      requires Valid()
      modifies this`otpStore
      ensures Valid()
      ensures (r, State()) == ForgotStep(old(State()), email, draw, now)
    {
      var row := FirstWhere(users, EmailColumn, email);
      if row.None? {
        return EmailNotFound;
      }
      var code := OtpCode(draw);
      otpStore := otpStore[email := OtpEntry(code, now + OtpLifetime)];
      r := OtpSent(users[row.value].name, code);
    }

    method VerifyOtp(email: string, entered: string, now: int, token: string) returns (r: VerifyOutcome)
      requires Valid()
      modifies this`otpStore, this`resetTokens
      ensures Valid()
      ensures (r, State()) == VerifyStep(old(State()), email, entered, now, token)
    {
      if email !in otpStore {
        return NoOtp;
      }
      var entry := otpStore[email];
      if now > entry.expiry {
        otpStore := otpStore - {email};
        return OtpExpired;
      }
      if entered != entry.code {
        return WrongOtp;
      }
      resetTokens := resetTokens[token := TokenEntry(email, now + TokenLifetime)];
      otpStore := otpStore - {email};
      r := OtpAccepted(token);
    }

    method ResetPassword(token: string, now: int, req: ResetRequest) returns (r: ResetOutcome)
      requires Valid() && WellDrawnRequest(req)
      modifies this`users, this`resetTokens
      ensures Valid()
      ensures (r, State()) == ResetStep(old(State()), token, now, req)
    {
      if token !in resetTokens {
        return InvalidToken;
      }
      var entry := resetTokens[token];
      if now > entry.expiry {
        resetTokens := resetTokens - {token};
        return TokenExpired;
      }
      if req.ShowResetForm? {
        return ResetForm(entry.email);
      }
      r := Submit(token, entry.email, req.choice);
    }

    /** The POST half of the reset handler, for a live token naming `email`. */
    method Submit(token: string, email: string, choice: PasswordChoice) returns (r: ResetOutcome)
      requires Valid() && WellDrawn(choice)
      modifies this`users, this`resetTokens
      ensures Valid()
      ensures (r, State()) == SubmitStep(old(State()), token, email, choice)
    {
      var row := FirstWhere(users, EmailColumn, email);
      if row.None? {
        return ServerError;
      }
      var account := users[row.value];
      var lastName := LastWord(account.name);
      if lastName.None? {
        return ServerError;
      }
      var password: string;
      var generated: bool;
      match choice {
        case AutoPassword(capPick, extra, picks) =>
          password := AutoGeneratePassword(lastName.value, account.aadhar, account.phone, capPick, extra, picks);
          generated := true;
        case ManualPassword(typed) =>
          password := typed;
          generated := false;
          var verdict := ValidatePassword(password, lastName.value, account.aadhar, account.phone);
          if verdict != Accepted {
            return ResetRejected(VerdictMessage(verdict));
          }
      }
      users := SetSecretByEmail(users, email, password);
      resetTokens := resetTokens - {token};
      r := PasswordReset(email, password, generated);
    }
  }
}
