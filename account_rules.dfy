/**
 * The account rules of app.py that do not touch server state: the
 * password policy (`validate_password`), the generated password
 * (`auto_generate_password`) and the signup field checks and outcome.
 *
 * Random choices are parameters: `capPick` for `random.choice`, `extra`
 * for the four `random.choices` characters, `picks` for the draws of
 * `random.shuffle` and `emojiPick` for the reward emoji; a pick is reduced
 * modulo the number of options, so every option is reachable.
 */
module AccountRules {
  import opened Wrappers
  import opened Text

  /** The user record signup inserts; `secret` is the password the stored hash was made from. */
  datatype Account = Account(name: string, aadhar: string, phone: string, email: string, secret: string, emoji: nat)

  /** Number of reward emojis signup chooses from. */
  const EmojiCount := 7

  /** `last_name[-3:].lower()`. */
  function Last3(lastName: string): (r: string)
    ensures |r| <= 3 && (|lastName| >= 1 ==> |r| >= 1)
  {
    LowerStr(Suffix(lastName, 3))
  }

  /** `[c.upper() for c in last3]`: the capitals a password may use. */
  function RequiredCaps(lastName: string): string {
    UpperStr(Last3(lastName))
  }

  /** `any(c.upper() in password for c in last3)`. */
  predicate HasRequiredCapital(password: string, lastName: string) {
    exists i :: 0 <= i < |RequiredCaps(lastName)| && RequiredCaps(lastName)[i] in password
  }

  /** `p` occurs somewhere in `s` as a contiguous piece. */
  ghost predicate Occurs(s: string, p: string) {
    exists i: nat :: OccursAt(s, p, i)
  }

  datatype Verdict =
    | Accepted
    | MissingCapital(choices: string)
    | MissingAadharDigits(digits: string)
    | MissingPhoneDigits(digits: string)

  /**
   * `validate_password`: accepted exactly when the password holds one of the
   * capitals and both last-two-digit groups; otherwise the first failing
   * check, in the order capital, Aadhar, phone, names the reason.
   */
  function ValidatePassword(password: string, lastName: string, aadhar: string, phone: string): (v: Verdict)
    ensures v == Accepted <==>
      HasRequiredCapital(password, lastName) && Occurs(password, Suffix(aadhar, 2)) && Occurs(password, Suffix(phone, 2))
    ensures v.MissingCapital? <==> !HasRequiredCapital(password, lastName)
    ensures v.MissingAadharDigits? <==> HasRequiredCapital(password, lastName) && !Occurs(password, Suffix(aadhar, 2))
    ensures v.MissingPhoneDigits? <==>
      HasRequiredCapital(password, lastName) && Occurs(password, Suffix(aadhar, 2)) && !Occurs(password, Suffix(phone, 2))
    ensures v.MissingCapital? ==> v.choices == RequiredCaps(lastName)
    ensures v.MissingAadharDigits? ==> v.digits == Suffix(aadhar, 2)
    ensures v.MissingPhoneDigits? ==> v.digits == Suffix(phone, 2)
  {
    var caps := RequiredCaps(lastName);
    var aadharLast2 := Suffix(aadhar, 2);
    var phoneLast2 := Suffix(phone, 2);
    ContainsIffOccurs(password, aadharLast2);
    ContainsIffOccurs(password, phoneLast2);
    if !HasRequiredCapital(password, lastName) then MissingCapital(caps)
    else if !Contains(password, aadharLast2) then MissingAadharDigits(aadharLast2)
    else if !Contains(password, phoneLast2) then MissingPhoneDigits(phoneLast2)
    else Accepted
  }

  /** The message `validate_password` returns beside its verdict; "OK" only on acceptance. */
  function VerdictMessage(v: Verdict): (msg: string)
    ensures msg == "OK" <==> v == Accepted
  {
    match v
    case Accepted => "OK"
    case MissingCapital(caps) => "Password must include one uppercase letter from: " + JoinChars(caps, ", ")
    case MissingAadharDigits(d) => "Password must include last 2 digits of Aadhar: " + d
    case MissingPhoneDigits(d) => "Password must include last 2 digits of Phone: " + d
  }

  /**
   * `random.shuffle` as CPython runs it: for `i` from the last index down
   * to 1, swap position `i` with a position `j <= i` drawn at random.
   */
  function Shuffle(s: string, picks: seq<nat>): string
    requires |picks| + 1 >= |s|
    decreases |s|
  {
    if |s| <= 1 then s
    else
      var i := |s| - 1;
      var t := Swap(s, i, Below(picks[0], i + 1));
      Shuffle(t[..i], picks[1..]) + [t[i]]
  }

  /** A draw reduced into `0..n-1`, standing for `randbelow(n)`; a draw already in range is kept. */
  function Below(pick: nat, n: nat): (r: nat)
    requires n >= 1
    ensures r < n
    ensures pick < n ==> r == pick
  {
    pick % n
  }

  function Swap(s: string, i: nat, j: nat): string
    requires i < |s| && j < |s|
  {
    s[i := s[j]][j := s[i]]
  }

  lemma SwapPermutes(s: string, i: nat, j: nat)
    requires i < |s| && j < |s|
    ensures |Swap(s, i, j)| == |s| && multiset(Swap(s, i, j)) == multiset(s)
  {
  }

  /** The shuffle only reorders: same length, same characters with the same counts. */
  lemma {:induction false} ShufflePermutes(s: string, picks: seq<nat>)
    requires |picks| + 1 >= |s|
    ensures |Shuffle(s, picks)| == |s| && multiset(Shuffle(s, picks)) == multiset(s)
    decreases |s|
  {
    if |s| > 1 {
      var i := |s| - 1;
      var j := Below(picks[0], i + 1);
      var t := Swap(s, i, j);
      var rest := Shuffle(t[..i], picks[1..]);
      SwapPermutes(s, i, j);
      ShufflePermutes(t[..i], picks[1..]);
      assert Shuffle(s, picks) == rest + [t[i]];
      assert t == t[..i] + [t[i]];
      assert multiset(rest + [t[i]]) == multiset(rest) + multiset([t[i]]);
    }
  }

  /** The unshuffled characters of a generated password. */
  function PasswordBase(cap: char, aadhar: string, phone: string, extra: string): string {
    [cap] + Suffix(aadhar, 2) + Suffix(phone, 2) + extra
  }

  /** What `random.choices(string.ascii_letters + string.digits, k=4)` can return. */
  predicate IsRandomPart(extra: string) {
    |extra| == 4 && forall i :: 0 <= i < 4 ==> IsAlnum(extra[i])
  }

  /**
   * `auto_generate_password`: a shuffle of one capital from the last three
   * letters of the last name, the last two Aadhar digits, the last two
   * phone digits and four random letters or digits.
   */
  function AutoGeneratePassword(lastName: string, aadhar: string, phone: string,
                                capPick: nat, extra: string, picks: seq<nat>): (r: string)
    requires |lastName| >= 1 && IsRandomPart(extra) && |picks| >= 8
    ensures exists i :: 0 <= i < |RequiredCaps(lastName)| &&
      multiset(r) == multiset(PasswordBase(RequiredCaps(lastName)[i], aadhar, phone, extra))
    ensures |aadhar| >= 2 && |phone| >= 2 ==> |r| == 9
  {
    var caps := RequiredCaps(lastName);
    var k := Below(capPick, |caps|);
    ShufflePermutes(PasswordBase(caps[k], aadhar, phone, extra), picks);
    Shuffle(PasswordBase(caps[k], aadhar, phone, extra), picks)
  }

  /** A generated password always carries one of the capitals the policy asks for. */
  lemma GeneratedHasCapital(lastName: string, aadhar: string, phone: string,
                            capPick: nat, extra: string, picks: seq<nat>)
    requires |lastName| >= 1 && IsRandomPart(extra) && |picks| >= 8
    ensures HasRequiredCapital(AutoGeneratePassword(lastName, aadhar, phone, capPick, extra, picks), lastName)
  {
    var r := AutoGeneratePassword(lastName, aadhar, phone, capPick, extra, picks);
    var caps := RequiredCaps(lastName);
    var i :| 0 <= i < |caps| && multiset(r) == multiset(PasswordBase(caps[i], aadhar, phone, extra));
    assert caps[i] in multiset(PasswordBase(caps[i], aadhar, phone, extra));
    assert caps[i] in r;
  }

  lemma ExampleCaps()
    ensures RequiredCaps("Rao") == "RAO"
  {
    assert Suffix("Rao", 3) == "Rao";
    assert LowerStr("Rao") == "rao";
    assert UpperStr("rao") == "RAO";
  }

  lemma ExampleBase()
    ensures PasswordBase('R', "000000000012", "9876543210", "abcd") == "R1210abcd"
  {
    assert Suffix("000000000012", 2) == "12";
    assert Suffix("9876543210", 2) == "10";
  }

  /**
   * Draws that pick the last position at every level but the final one,
   * which picks 0, swap the first two characters and nothing else.
   */
  lemma {:induction false} ShuffleSwapsFront(s: string, picks: seq<nat>)
    requires |s| >= 2 && |picks| + 1 >= |s|
    requires forall k :: 0 <= k < |s| - 2 ==> picks[k] == |s| - 1 - k
    requires picks[|s| - 2] == 0
    ensures Shuffle(s, picks) == [s[1], s[0]] + s[2..]
    decreases |s|
  {
    var i := |s| - 1;
    if |s| == 2 {
      assert Swap(s, 1, 0) == [s[1], s[0]];
    } else {
      assert Swap(s, i, i) == s;
      ShuffleSwapsFront(s[..i], picks[1..]);
      assert s[2..] == s[..i][2..] + [s[i]];
    }
  }

  lemma ExampleShuffle()
    ensures Shuffle("R1210abcd", [8, 7, 6, 5, 4, 3, 2, 0]) == "1R210abcd"
  {
    ShuffleSwapsFront("R1210abcd", [8, 7, 6, 5, 4, 3, 2, 0]);
    assert "R1210abcd"[2..] == "210abcd";
  }

  /** With the draws `[8, 7, 6, 5, 4, 3, 2, 0]` only the first two characters trade places. */
  lemma GeneratedExample()
    ensures AutoGeneratePassword("Rao", "000000000012", "9876543210", 0, "abcd", [8, 7, 6, 5, 4, 3, 2, 0]) == "1R210abcd"
  {
    ExampleCaps();
    ExampleBase();
    ExampleShuffle();
  }

  /** A string in which `a` is never directly followed by `b` does not contain `[a, b]`. */
  lemma {:induction false} NoAdjacentPair(s: string, a: char, b: char)
    requires forall i :: 0 <= i < |s| - 1 ==> s[i] != a || s[i + 1] != b
    ensures !Contains(s, [a, b])
    decreases |s|
  {
    if |s| >= 1 {
      if |s| >= 2 {
        assert s[0] != a || s[1] != b;
      }
      NoAdjacentPair(s[1..], a, b);
    }
  }

  /** "1R210abcd" keeps the capital and the phone digits "10" but splits the Aadhar digits "12". */
  lemma ExampleMissesAadharDigits()
    ensures ValidatePassword("1R210abcd", "Rao", "000000000012", "9876543210") == MissingAadharDigits("12")
  {
    var r := "1R210abcd";
    ExampleCaps();
    assert r[1] == 'R';
    assert HasRequiredCapital(r, "Rao");
    assert Suffix("000000000012", 2) == "12";
    NoAdjacentPair(r, '1', '2');
    ContainsIffOccurs(r, "12");
  }

  /**
   * The shuffle may pull the Aadhar digits apart, so a generated password
   * need not pass `validate_password`.
   */
  lemma GeneratedMayFailPolicy()
    ensures AllDigits("000000000012") && AllDigits("9876543210")
    ensures ValidatePassword(AutoGeneratePassword("Rao", "000000000012", "9876543210", 0, "abcd", [8, 7, 6, 5, 4, 3, 2, 0]),
                             "Rao", "000000000012", "9876543210")
      == MissingAadharDigits(Suffix("000000000012", 2))
  {
    GeneratedExample();
    ExampleMissesAadharDigits();
    ExampleFields();
  }

  lemma ExampleFields()
    ensures IsRandomPart("abcd") && AllDigits("000000000012") && AllDigits("9876543210")
    ensures Suffix("000000000012", 2) == "12"
  {
  }

  datatype SignupError = NameIncomplete | BadAadhar | BadPhone

  /** The flash message of each signup refusal. */
  function SignupErrorMessage(e: SignupError): string {
    match e
    case NameIncomplete => "Enter full name: first + last."
    case BadAadhar => "Aadhar must be exactly 12 digits."
    case BadPhone => "Phone must be exactly 10 digits."
  }

  /**
   * The field checks of `signup`, in order: a name of at least two words,
   * a 12-digit Aadhar, a 10-digit phone. On success the last word is the
   * last name, which is never empty.
   */
  function CheckSignupFields(name: string, aadhar: string, phone: string): (r: Result<string, SignupError>)
    ensures r.Ok? <==> |Words(name)| >= 2 && |aadhar| == 12 && AllDigits(aadhar) && |phone| == 10 && AllDigits(phone)
    ensures r == Err(NameIncomplete) <==> |Words(name)| < 2
    ensures r == Err(BadAadhar) <==> |Words(name)| >= 2 && !(|aadhar| == 12 && AllDigits(aadhar))
    ensures r.Ok? ==> r.value == Words(name)[|Words(name)| - 1] && |r.value| >= 1
    ensures r.Ok? ==> forall i :: 0 <= i < |r.value| ==> !IsSpace(r.value[i])
  {
    var parts := Words(name);
    WordsSpec(name);
    if |parts| < 2 then Err(NameIncomplete)
    else
      var lastName := parts[|parts| - 1];
      if |aadhar| != 12 || !AllDigits(aadhar) then Err(BadAadhar)
      else if |phone| != 10 || !AllDigits(phone) then Err(BadPhone)
      else Ok(lastName)
  }

  /** The form's password field: generated (with its random draws) or typed in. */
  datatype PasswordChoice =
    | AutoPassword(capPick: nat, extra: string, picks: seq<nat>)
    | ManualPassword(password: string)

  predicate WellDrawn(choice: PasswordChoice) {
    choice.AutoPassword? ==> IsRandomPart(choice.extra) && |choice.picks| >= 8
  }

  datatype SignupOutcome =
    | SignupRejected(message: string)
    | Registered(account: Account, generated: bool)

  /**
   * `signup`: the row it inserts, or the message it flashes instead. Nothing
   * is inserted unless the fields pass, and a typed password must also pass
   * the policy; a generated one is not checked against it.
   */
  function Signup(name: string, aadhar: string, phone: string, email: string,
                  choice: PasswordChoice, emojiPick: nat): (r: SignupOutcome)
    requires WellDrawn(choice)
    ensures r.Registered? ==> CheckSignupFields(name, aadhar, phone).Ok?
    ensures CheckSignupFields(name, aadhar, phone).Err? ==>
      r == SignupRejected(SignupErrorMessage(CheckSignupFields(name, aadhar, phone).error))
    ensures r.Registered? ==>
      && r.account.name == name && r.account.aadhar == aadhar && r.account.phone == phone
      && r.account.email == email && r.account.emoji < EmojiCount
      && r.generated == choice.AutoPassword?
    ensures r.Registered? && choice.ManualPassword? ==>
      r.account.secret == choice.password &&
      ValidatePassword(choice.password, CheckSignupFields(name, aadhar, phone).value, aadhar, phone) == Accepted
    ensures r.Registered? && choice.AutoPassword? ==>
      |r.account.secret| == 9 && HasRequiredCapital(r.account.secret, CheckSignupFields(name, aadhar, phone).value)
    ensures CheckSignupFields(name, aadhar, phone).Ok? && choice.AutoPassword? ==>
      && r.Registered?
      && r.account.secret == AutoGeneratePassword(CheckSignupFields(name, aadhar, phone).value, aadhar, phone,
                                                  choice.capPick, choice.extra, choice.picks)
    ensures CheckSignupFields(name, aadhar, phone).Ok? && choice.ManualPassword? ==>
      var verdict := ValidatePassword(choice.password, CheckSignupFields(name, aadhar, phone).value, aadhar, phone);
      && (r.Registered? <==> verdict == Accepted)
      && (verdict != Accepted ==> r == SignupRejected(VerdictMessage(verdict)))
  {
    match CheckSignupFields(name, aadhar, phone)
    case Err(e) => SignupRejected(SignupErrorMessage(e))
    case Ok(lastName) =>
      match choice
      case AutoPassword(capPick, extra, picks) =>
        var password := AutoGeneratePassword(lastName, aadhar, phone, capPick, extra, picks);
        GeneratedHasCapital(lastName, aadhar, phone, capPick, extra, picks);
        Registered(Account(name, aadhar, phone, email, password, emojiPick % EmojiCount), true)
      case ManualPassword(password) =>
        var verdict := ValidatePassword(password, lastName, aadhar, phone);
        if verdict != Accepted then SignupRejected(VerdictMessage(verdict))
        else Registered(Account(name, aadhar, phone, email, password, emojiPick % EmojiCount), false)
  }
}
