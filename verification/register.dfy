/**
 * The registration form: the password-strength label and the match flag kept up
 * to date by the change handler, the submit gate in front of the request, and
 * the `pattern` constraints on the username and Telegram ID fields.
 */
module Register {
  import opened Text

  /** JavaScript's `.length`: UTF-16 code units, two for a character beyond U+FFFF. */
  function Utf16Length(s: string): (n: nat)
    ensures |s| <= n <= 2 * |s|
  {
    if |s| == 0 then 0 else (if s[0] as int >= 0x10000 then 2 else 1) + Utf16Length(s[1..])
  }

  predicate HasLetter(s: string) {
    exists i :: 0 <= i < |s| && IsAsciiLetter(s[i])
  }

  predicate HasDigit(s: string) {
    exists i :: 0 <= i < |s| && IsDigit(s[i])
  }

  /** `/[a-zA-Z]/.test(s)`, scanning left to right. */
  function TestLetter(s: string): (found: bool)
    ensures found <==> HasLetter(s)
  {
    if |s| == 0 then false
    else if IsAsciiLetter(s[0]) then true
    else
      var r := TestLetter(s[1..]);
      assert HasLetter(s[1..]) ==> HasLetter(s) by {
        if HasLetter(s[1..]) {
          var i :| 0 <= i < |s[1..]| && IsAsciiLetter(s[1..][i]);
          assert s[i + 1] == s[1..][i];
        }
      }
      assert HasLetter(s) ==> HasLetter(s[1..]) by {
        if HasLetter(s) {
          var i :| 0 <= i < |s| && IsAsciiLetter(s[i]);
          assert i > 0 && s[1..][i - 1] == s[i];
        }
      }
      r
  }

  /** `/\d/.test(s)`, scanning left to right (`\d` is ASCII 0-9). */
  function TestDigit(s: string): (found: bool)
    ensures found <==> HasDigit(s)
  {
    if |s| == 0 then false
    else if IsDigit(s[0]) then true
    else
      var r := TestDigit(s[1..]);
      assert HasDigit(s[1..]) ==> HasDigit(s) by {
        if HasDigit(s[1..]) {
          var i :| 0 <= i < |s[1..]| && IsDigit(s[1..][i]);
          assert s[i + 1] == s[1..][i];
        }
      }
      assert HasDigit(s) ==> HasDigit(s[1..]) by {
        if HasDigit(s) {
          var i :| 0 <= i < |s| && IsDigit(s[i]);
          assert i > 0 && s[1..][i - 1] == s[i];
        }
      }
      r
  }

  datatype Strength = Unrated | Weak | Medium | Strong

  /** The text the form shows and keeps in its state for each strength. */
  function Label(s: Strength): string {
    match s
    case Unrated => ""
    case Weak => "Débil: Mínimo 6 caracteres"
    case Medium => "Media: Necesita al menos 1 letra y 1 número"
    case Strong => "Fuerte"
  }

  /** Distinct strengths have distinct labels, so comparing labels compares strengths. */
  lemma LabelInjective(a: Strength, b: Strength)
    ensures Label(a) == Label(b) <==> a == b
  {
  }

  /** The password branch of `handleChange`: exactly one strength for every password. */
  function PasswordStrength(value: string): (r: Strength)
    ensures r == Unrated <==> value == ""
    ensures r == Weak <==> value != "" && Utf16Length(value) < 6
    ensures r == Medium <==> Utf16Length(value) >= 6 && !(HasLetter(value) && HasDigit(value))
    ensures r == Strong <==> Utf16Length(value) >= 6 && HasLetter(value) && HasDigit(value)
  {
    if Utf16Length(value) == 0 then Unrated
    else if Utf16Length(value) < 6 then Weak
    else if !TestLetter(value) || !TestDigit(value) then Medium
    else Strong
  }

  /** The match flag: equal passwords, and not both empty. */
  predicate PasswordsMatch(password: string, confirmation: string) {
    password == confirmation && password != ""
  }

  datatype Form = Form(username: string, email: string, password: string, confirmPassword: string, telegramId: string)

  datatype Field = Username | Email | Password | ConfirmPassword | TelegramId

  /** The form's state: the fields, the strength label and the match flag. */
  datatype RegisterState = RegisterState(form: Form, strength: string, passwordMatch: bool)

  /** The state when the page opens: all fields empty, no label, the match flag set. */
  const Initial: RegisterState := RegisterState(Form("", "", "", "", ""), "", true)

  function SetField(f: Form, field: Field, value: string): Form {
    match field
    case Username => f.(username := value)
    case Email => f.(email := value)
    case Password => f.(password := value)
    case ConfirmPassword => f.(confirmPassword := value)
    case TelegramId => f.(telegramId := value)
  }

  /**
   * `handleChange`: store the field; a change to either password recomputes the match
   * flag, and a change to the password alone recomputes the strength label.
   */
  function HandleChange(st: RegisterState, field: Field, value: string): (r: RegisterState)
    ensures r.form == SetField(st.form, field, value)
    ensures field != Password && field != ConfirmPassword ==> r.strength == st.strength && r.passwordMatch == st.passwordMatch
    ensures field == Password ==> r.strength == Label(PasswordStrength(value))
    ensures field == ConfirmPassword ==> r.strength == st.strength
    ensures field == Password || field == ConfirmPassword ==>
              r.passwordMatch == PasswordsMatch(r.form.password, r.form.confirmPassword)
  {
    var form := SetField(st.form, field, value);
    if field == Password || field == ConfirmPassword then
      var pass := if field == Password then value else st.form.password;
      var confirm := if field == ConfirmPassword then value else st.form.confirmPassword;
      var strength := if field == Password then Label(PasswordStrength(value)) else st.strength;
      RegisterState(form, strength, pass == confirm && pass != "")
    else
      RegisterState(form, st.strength, st.passwordMatch)
  }

  /**
   * What the state says agrees with the fields: the label is the password's strength, and
   * the match flag is the match of the two passwords, except while both are still empty
   * and the flag keeps its initial value.
   */
  predicate Consistent(st: RegisterState) {
    && st.strength == Label(PasswordStrength(st.form.password))
    && (st.passwordMatch == PasswordsMatch(st.form.password, st.form.confirmPassword)
        || (st.form.password == "" && st.form.confirmPassword == "" && st.passwordMatch))
  }

  lemma InitialConsistent()
    ensures Consistent(Initial)
  {
  }

  /** Every change keeps the state consistent with the fields. */
  lemma ChangeKeepsConsistent(st: RegisterState, field: Field, value: string)
    requires Consistent(st)
    ensures Consistent(HandleChange(st, field, value))
  {
  }

  datatype SubmitOutcome = NotStrong | Mismatch | SendRegistration(body: Form)

  /** `handleSubmit`: the strength check first, then the match check, then the request. */
  function HandleSubmit(st: RegisterState): (r: SubmitOutcome)
    ensures r == NotStrong <==> st.strength != Label(Strong)
    ensures r == Mismatch <==> st.strength == Label(Strong) && !st.passwordMatch
    ensures r.SendRegistration? ==> r.body == st.form
  {
    if st.strength != "Fuerte" then NotStrong
    else if !st.passwordMatch then Mismatch
    else SendRegistration(st.form)
  }

  /** On a consistent state the request is sent exactly for a strong password typed twice. */
  lemma SubmitSendsIffStrongAndMatching(st: RegisterState)
    requires Consistent(st)
    ensures HandleSubmit(st).SendRegistration? <==>
              PasswordStrength(st.form.password) == Strong && st.form.password == st.form.confirmPassword
  {
    LabelInjective(PasswordStrength(st.form.password), Strong);
  }

  predicate IsAsciiAlnum(c: char) {
    IsAsciiLetter(c) || IsDigit(c)
  }

  /** Matches `[a-zA-Z0-9]{lo,hi}$` against the whole of `t`, one character at a time. */
  function MatchAlnumRun(t: string, lo: nat, hi: nat): (ok: bool)
    ensures ok <==> lo <= |t| <= hi && forall i :: 0 <= i < |t| ==> IsAsciiAlnum(t[i])
  {
    if |t| == 0 then lo == 0
    else if hi == 0 || !IsAsciiAlnum(t[0]) then false
    else
      var ok := MatchAlnumRun(t[1..], if lo == 0 then 0 else lo - 1, hi - 1);
      assert (forall i :: 0 <= i < |t| ==> IsAsciiAlnum(t[i])) <==>
             (forall i :: 0 <= i < |t[1..]| ==> IsAsciiAlnum(t[1..][i])) by {
        if forall i :: 0 <= i < |t[1..]| ==> IsAsciiAlnum(t[1..][i]) {
          forall i | 0 <= i < |t| ensures IsAsciiAlnum(t[i]) {
            if i > 0 { assert t[i] == t[1..][i - 1]; }
          }
        }
      }
      ok
  }

  /** The username pattern `^[a-zA-Z][a-zA-Z0-9]{3,19}$`. */
  function UsernameValid(s: string): (ok: bool)
    ensures ok <==> 4 <= |s| <= 20 && IsAsciiLetter(s[0]) && forall i :: 1 <= i < |s| ==> IsAsciiAlnum(s[i])
  {
    if |s| == 0 || !IsAsciiLetter(s[0]) then false
    else
      var ok := MatchAlnumRun(s[1..], 3, 19);
      assert (forall i :: 1 <= i < |s| ==> IsAsciiAlnum(s[i])) <==>
             (forall i :: 0 <= i < |s[1..]| ==> IsAsciiAlnum(s[1..][i])) by {
        if forall i :: 0 <= i < |s[1..]| ==> IsAsciiAlnum(s[1..][i]) {
          forall i | 1 <= i < |s| ensures IsAsciiAlnum(s[i]) {
            assert s[i] == s[1..][i - 1];
          }
        }
      }
      ok
  }

  /** Matches `\d{lo,}$` against the whole of `t`. */
  function MatchDigitRun(t: string, lo: nat): (ok: bool)
    ensures ok <==> lo <= |t| && IsDigits(t)
  {
    if |t| == 0 then lo == 0
    else if !IsDigit(t[0]) then false
    else
      var ok := MatchDigitRun(t[1..], if lo == 0 then 0 else lo - 1);
      assert IsDigits(t) <==> IsDigits(t[1..]) by {
        if IsDigits(t[1..]) {
          forall i | 0 <= i < |t| ensures IsDigit(t[i]) {
            if i > 0 { assert t[i] == t[1..][i - 1]; }
          }
        }
      }
      ok
  }

  /** The Telegram ID pattern `^\d{8,}$`. */
  function TelegramIdValid(s: string): (ok: bool)
    ensures ok <==> |s| >= 8 && IsDigits(s)
  {
    MatchDigitRun(s, 8)
  }

  /**
   * The browser's constraint check before the submit handler runs: required fields,
   * the username's length limits and pattern, and the Telegram ID's pattern.
   */
  predicate BrowserAccepts(f: Form) {
    && f.username != "" && 4 <= Utf16Length(f.username) <= 20 && UsernameValid(f.username)
    && f.email != ""
    && f.password != ""
    && f.confirmPassword != ""
    && f.telegramId != "" && TelegramIdValid(f.telegramId)
  }

  datatype FormOutcome = Blocked | Submitted(outcome: SubmitOutcome)

  /**
   * Pressing the submit button: the browser's checks, then `handleSubmit`. The browser
   * blocks the form when a field is empty or the username or Telegram ID does not match
   * its pattern; a form it lets through is sent as entered.
   */
  function Submit(st: RegisterState): (r: FormOutcome)
    ensures r == Blocked <==>
              st.form.username == "" || st.form.email == "" || st.form.password == ""
              || st.form.confirmPassword == "" || st.form.telegramId == ""
              || !(4 <= Utf16Length(st.form.username) <= 20) || !UsernameValid(st.form.username)
              || !TelegramIdValid(st.form.telegramId)
    ensures r.Submitted? && r.outcome.SendRegistration? ==>
              r.outcome.body == st.form && UsernameValid(st.form.username) && TelegramIdValid(st.form.telegramId)
  {
    if BrowserAccepts(st.form) then Submitted(HandleSubmit(st)) else Blocked
  }

  /**
   * Whatever sequence of edits led to the state, a registration request carries a
   * well-formed username and Telegram ID and a strong password typed twice.
   */
  lemma SentRegistrationIsValid(st: RegisterState)
    requires Consistent(st)
    requires Submit(st).Submitted? && Submit(st).outcome.SendRegistration?
    ensures UsernameValid(st.form.username) && TelegramIdValid(st.form.telegramId)
    ensures PasswordStrength(st.form.password) == Strong
    ensures st.form.password == st.form.confirmPassword
  {
    SubmitSendsIffStrongAndMatching(st);
  }

  /**
   * After a successful registration the fields are cleared but the label and the match
   * flag keep their values, so the state may no longer be `Consistent`; the empty
   * required fields block any submit until they are typed again.
   */
  function ClearAfterSuccess(st: RegisterState): (r: RegisterState)
    ensures r.form == Form("", "", "", "", "")
    ensures r.strength == st.strength && r.passwordMatch == st.passwordMatch
    ensures Submit(r) == Blocked
  {
    RegisterState(Form("", "", "", "", ""), st.strength, st.passwordMatch)
  }
}
