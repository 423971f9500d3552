/**
 * The two user requests whose validation contexts the controller tests fix:
 * registration (`POST /api/user/register`) and password change
 * (`PUT /api/user/password`). Their struct declarations are not part of this
 * model; the shapes below are written from the rule keywords and the field
 * keys those tests expect. Both share one password rule set.
 */
module UserRequests {
  import opened Wrappers
  import opened Validation
  import opened RequestRules
  import opened ValidatorRegistrar

  const Lowercase := "abcdefghijklmnopqrstuvwxyz"
  const Uppercase := "ABCDEFGHIJKLMNOPQRSTUVWXYZ"
  const Digits := "0123456789"

  /** The password rule set: `required,gte=8` and one `containsany` per character class. */
  const PasswordRules: seq<Rule> := [Required, Gte(8), ContainsAny(Lowercase), ContainsAny(Uppercase), ContainsAny(Digits)]

  /** Some character of `s` lies in the range `lo..hi`. */
  predicate HasIn(s: string, lo: char, hi: char) {
    s != [] && (lo <= s[0] <= hi || HasIn(s[1..], lo, hi))
  }

  predicate HasLower(s: string) { HasIn(s, 'a', 'z') }
  predicate HasUpper(s: string) { HasIn(s, 'A', 'Z') }
  predicate HasDigit(s: string) { HasIn(s, '0', '9') }

  /** A password the rule set accepts: at least 8 characters, with a lowercase and an uppercase letter and a digit. */
  predicate StrongPassword(p: string) {
    |p| >= 8 && HasLower(p) && HasUpper(p) && HasDigit(p)
  }

  /**
   * The rule a password is rejected by, read off the rule set's intent rather
   * than its encoding: missing, too short, then the first missing class.
   */
  function PasswordFailure(p: string): (r: Option<Rule>)
    ensures r.None? <==> StrongPassword(p)
  {
    if p == "" then Some(Required)
    else if |p| < 8 then Some(Gte(8))
    else if !HasLower(p) then Some(ContainsAny(Lowercase))
    else if !HasUpper(p) then Some(ContainsAny(Uppercase))
    else if !HasDigit(p) then Some(ContainsAny(Digits))
    else None
  }

  lemma CharClasses(c: char)
    ensures c in Lowercase <==> 'a' <= c <= 'z'
    ensures c in Uppercase <==> 'A' <= c <= 'Z'
    ensures c in Digits <==> '0' <= c <= '9'
  {
  }

  /** `containsany` with a string that holds exactly one range of characters asks for a character of that range. */
  lemma {:induction false} ContainsAnyRange(s: string, chars: string, lo: char, hi: char)
    requires forall c :: c in chars <==> lo <= c <= hi
    ensures GoStrings.ContainsAny(s, chars) <==> HasIn(s, lo, hi)
  {
    if s != [] {
      ContainsAnyRange(s[1..], chars, lo, hi);
      if GoStrings.ContainsAny(s, chars) {
        var c :| c in s && c in chars;
        if c != s[0] {
          assert c in s[1..];
        }
      }
      if HasIn(s, lo, hi) {
        if lo <= s[0] <= hi {
          assert s[0] in s;
        } else {
          var c :| c in s[1..] && c in chars;
          assert c in s;
        }
      }
    }
  }

  /** `containsany` with one of the three class strings asks for a character of that class. */
  lemma ContainsAnyClass(s: string)
    ensures GoStrings.ContainsAny(s, Lowercase) <==> HasLower(s)
    ensures GoStrings.ContainsAny(s, Uppercase) <==> HasUpper(s)
    ensures GoStrings.ContainsAny(s, Digits) <==> HasDigit(s)
  {
    forall c: char {
      CharClasses(c);
    }
    ContainsAnyRange(s, Lowercase, 'a', 'z');
    ContainsAnyRange(s, Uppercase, 'A', 'Z');
    ContainsAnyRange(s, Digits, '0', '9');
  }

  /** The validator's first failing password rule is the one `PasswordFailure` names. */
  lemma PasswordFirstFailing(p: string, req: Request, isEmail: string -> bool)
    ensures FirstFailing(PasswordRules, p, req, isEmail) == PasswordFailure(p)
  {
    ContainsAnyClass(p);
    var t0 := PasswordRules;
    var t1, t2, t3, t4 := t0[1..], t0[2..], t0[3..], t0[4..];
    assert t1 == [Gte(8), ContainsAny(Lowercase), ContainsAny(Uppercase), ContainsAny(Digits)] && t1[1..] == t2;
    assert t2 == [ContainsAny(Lowercase), ContainsAny(Uppercase), ContainsAny(Digits)] && t2[1..] == t3;
    assert t3 == [ContainsAny(Uppercase), ContainsAny(Digits)] && t3[1..] == t4;
    assert t4 == [ContainsAny(Digits)] && t4[1..] == [];
    assert FirstFailing(t4, p, req, isEmail) == if !HasDigit(p) then Some(ContainsAny(Digits)) else None;
    assert FirstFailing(t3, p, req, isEmail)
        == if !HasUpper(p) then Some(ContainsAny(Uppercase)) else FirstFailing(t4, p, req, isEmail);
    assert FirstFailing(t2, p, req, isEmail)
        == if !HasLower(p) then Some(ContainsAny(Lowercase)) else FirstFailing(t3, p, req, isEmail);
    assert FirstFailing(t1, p, req, isEmail) == if |p| < 8 then Some(Gte(8)) else FirstFailing(t2, p, req, isEmail);
  }

  /** How a field whose only rule is `required` fails. */
  function RequiredFailure(value: string): Option<Rule> {
    if value == "" then Some(Required) else None
  }

  /** How `email`, with rules `required,email`, fails. */
  function EmailFailure(email: string, isEmail: string -> bool): Option<Rule> {
    if email == "" then Some(Required)
    else if !isEmail(email) then Some(Email)
    else None
  }

  /** How `confirm_password`, with rules `required,eqfield=Password`, fails: missing, or different from `password`. */
  function ConfirmFailure(password: string, confirm: string): Option<Rule> {
    if confirm == "" then Some(Required)
    else if confirm != password then Some(EqField("Password"))
    else None
  }

  /** The registration request. */
  const RegisterShape: seq<FieldSpec> := [
    JsonField("Name", "name", [Required]),
    JsonField("Email", "email", [Required, Email]),
    JsonField("Password", "password", PasswordRules)
  ]

  /** The password-change request. */
  const UpdatePasswordShape: seq<FieldSpec> := [
    JsonField("CurrentPassword", "current_password", [Required]),
    JsonField("Password", "password", PasswordRules),
    JsonField("ConfirmPassword", "confirm_password", [Required, EqField("Password")])
  ]

  /** The registration fields are named by plain JSON keys, which are the names the tag-name function gives them. */
  lemma RegisterShapeIsJsonKeyed()
    ensures JsonKeyed(RegisterShape)
    ensures NamesCached(RegisterShape)
  {
    JsonFieldKeyed("Name", "name", [Required]);
    JsonFieldKeyed("Email", "email", [Required, Email]);
    JsonFieldKeyed("Password", "password", PasswordRules);
    JsonKeyedThree(RegisterShape);
    JsonKeyNames(RegisterShape);
  }

  /** The same for the password-change fields. */
  lemma UpdatePasswordShapeIsJsonKeyed()
    ensures JsonKeyed(UpdatePasswordShape)
    ensures NamesCached(UpdatePasswordShape)
  {
    JsonFieldKeyed("CurrentPassword", "current_password", [Required]);
    JsonFieldKeyed("Password", "password", PasswordRules);
    JsonFieldKeyed("ConfirmPassword", "confirm_password", [Required, EqField("Password")]);
    JsonKeyedThree(UpdatePasswordShape);
    JsonKeyNames(UpdatePasswordShape);
  }

  /** No two registration fields share a reported name, so `ContextOfFailingField` applies. */
  lemma RegisterShapeHasDistinctNames()
    ensures DistinctNames(RegisterShape)
  {
  }

  /** No two password-change fields share a reported name. */
  lemma UpdatePasswordShapeHasDistinctNames()
    ensures DistinctNames(UpdatePasswordShape)
  {
  }

  /**
   * For any body, each registration field is reported under the name the
   * tag-name function gives it, exactly as its first failing rule says.
   */
  lemma RegisterFieldReported(isEmail: string -> bool, body: map<string, string>, i: int)
    requires 0 <= i < |RegisterShape|
    ensures RegisterShape[i].name == TagName(RegisterShape[i].field)
    ensures Reports(ContextOf(Validate(Request(RegisterShape, body), isEmail)), RegisterShape[i], Request(RegisterShape, body), isEmail)
  {
    RegisterShapeIsJsonKeyed();
    RegisterShapeHasDistinctNames();
    ContextOfFailingField(Request(RegisterShape, body), isEmail, i);
  }

  /** The same for the password-change fields. */
  lemma UpdatePasswordFieldReported(isEmail: string -> bool, body: map<string, string>, i: int)
    requires 0 <= i < |UpdatePasswordShape|
    ensures UpdatePasswordShape[i].name == TagName(UpdatePasswordShape[i].field)
    ensures Reports(ContextOf(Validate(Request(UpdatePasswordShape, body), isEmail)), UpdatePasswordShape[i],
                    Request(UpdatePasswordShape, body), isEmail)
  {
    UpdatePasswordShapeIsJsonKeyed();
    UpdatePasswordShapeHasDistinctNames();
    ContextOfFailingField(Request(UpdatePasswordShape, body), isEmail, i);
  }

  /** A registration body that sets all three fields. */
  function RegisterRequest(name: string, email: string, password: string): Request {
    Request(RegisterShape, map["name" := name, "email" := email, "password" := password])
  }

  /** A password-change body that sets all three fields. */
  function UpdatePasswordRequest(current: string, password: string, confirm: string): Request {
    Request(UpdatePasswordShape, map["current_password" := current, "password" := password, "confirm_password" := confirm])
  }

  /** For any body, each registration field fails as its reference definition says. */
  lemma RegisterFailures(isEmail: string -> bool, body: map<string, string>)
    ensures var req := Request(RegisterShape, body);
            && Failure(RegisterShape[0], req, isEmail) == RequiredFailure(Value(body, "name"))
            && Failure(RegisterShape[1], req, isEmail) == EmailFailure(Value(body, "email"), isEmail)
            && Failure(RegisterShape[2], req, isEmail) == PasswordFailure(Value(body, "password"))
  {
    var req := Request(RegisterShape, body);
    var shape := RegisterShape;
    var email := Value(body, "email");
    assert Value(req.body, shape[1].name) == email;
    var rules := shape[1].rules;
    assert rules[1..] == [Email] && rules[1..][1..] == [];
    if email != "" {
      assert FirstFailing(rules, email, req, isEmail) == FirstFailing(rules[1..], email, req, isEmail);
    }
    PasswordFirstFailing(Value(body, "password"), req, isEmail);
  }

  /**
   * The context of any registration body, whichever keys it sets: one entry
   * per failing field, and no other key.
   */
  lemma RegisterContext(isEmail: string -> bool, body: map<string, string>)
    ensures ContextOf(Validate(Request(RegisterShape, body), isEmail))
         == Entry("name", RequiredFailure(Value(body, "name")))
          + Entry("email", EmailFailure(Value(body, "email"), isEmail))
          + Entry("password", PasswordFailure(Value(body, "password")))
  {
    ContextOfThree(Request(RegisterShape, body), isEmail);
    RegisterFailures(isEmail, body);
  }

  /** For any body, each password-change field fails as its reference definition says. */
  lemma UpdatePasswordFailures(isEmail: string -> bool, body: map<string, string>)
    ensures var req := Request(UpdatePasswordShape, body);
            && Failure(UpdatePasswordShape[0], req, isEmail) == RequiredFailure(Value(body, "current_password"))
            && Failure(UpdatePasswordShape[1], req, isEmail) == PasswordFailure(Value(body, "password"))
            && Failure(UpdatePasswordShape[2], req, isEmail)
               == ConfirmFailure(Value(body, "password"), Value(body, "confirm_password"))
  {
    var req := Request(UpdatePasswordShape, body);
    var shape := UpdatePasswordShape;
    var password, confirm := Value(body, "password"), Value(body, "confirm_password");
    assert Value(req.body, shape[1].name) == password && Value(req.body, shape[2].name) == confirm;
    PasswordFirstFailing(password, req, isEmail);
    var rules := shape[2].rules;
    assert rules[1..] == [EqField("Password")] && rules[1..][1..] == [];
    assert shape[0].field.name != "Password";
    assert shape[1..][0] == shape[1];
    assert Sibling(shape, req, "Password") == Some(password);
    if confirm != "" {
      assert FirstFailing(rules, confirm, req, isEmail) == FirstFailing(rules[1..], confirm, req, isEmail);
    }
  }

  /**
   * The context of any password-change body, whichever keys it sets: one
   * entry per failing field, and no other key.
   */
  lemma UpdatePasswordContext(isEmail: string -> bool, body: map<string, string>)
    ensures ContextOf(Validate(Request(UpdatePasswordShape, body), isEmail))
         == Entry("current_password", RequiredFailure(Value(body, "current_password")))
          + Entry("password", PasswordFailure(Value(body, "password")))
          + Entry("confirm_password", ConfirmFailure(Value(body, "password"), Value(body, "confirm_password")))
  {
    ContextOfThree(Request(UpdatePasswordShape, body), isEmail);
    UpdatePasswordFailures(isEmail, body);
  }

  /** The keyword a password that is not strong is reported with. */
  function WeakPasswordKeyword(p: string): string {
    if p == "" then "required" else if |p| < 8 then "gte" else "containsany"
  }

  /** The keyword of a rejected password is `required`, then `gte`, then `containsany`. */
  lemma PasswordKeyword(p: string)
    requires !StrongPassword(p)
    ensures PasswordFailure(p).Some? && Keyword(PasswordFailure(p).value) == WeakPasswordKeyword(p)
  {
  }

  /** With a name and a strong password, an address the e-mail check rejects is the only error. */
  lemma RegisterRejectsEmail(isEmail: string -> bool, name: string, email: string, password: string)
    requires name != "" && email != "" && !isEmail(email) && StrongPassword(password)
    ensures ContextOf(Validate(RegisterRequest(name, email, password), isEmail)) == map["email" := "email"]
  {
    RegisterContext(isEmail, RegisterRequest(name, email, password).body);
  }

  /** With a name and an accepted address, a password that is not strong is the only error. */
  lemma RegisterRejectsPassword(isEmail: string -> bool, name: string, email: string, password: string)
    requires name != "" && email != "" && isEmail(email) && !StrongPassword(password)
    ensures ContextOf(Validate(RegisterRequest(name, email, password), isEmail))
         == map["password" := WeakPasswordKeyword(password)]
  {
    RegisterContext(isEmail, RegisterRequest(name, email, password).body);
    PasswordKeyword(password);
  }

  /** A name, an accepted address and a strong password pass validation. */
  lemma RegisterAccepts(isEmail: string -> bool, name: string, email: string, password: string)
    requires name != "" && email != "" && isEmail(email) && StrongPassword(password)
    ensures ContextOf(Validate(RegisterRequest(name, email, password), isEmail)) == map[]
  {
    RegisterContext(isEmail, RegisterRequest(name, email, password).body);
  }

  /**
   * With the current password given, a confirmed new password that is not
   * strong is the only error (an empty one also leaves the confirmation empty,
   * which is reported as well).
   */
  lemma UpdatePasswordRejectsPassword(isEmail: string -> bool, current: string, password: string)
    requires current != "" && password != "" && !StrongPassword(password)
    ensures ContextOf(Validate(UpdatePasswordRequest(current, password, password), isEmail))
         == map["password" := WeakPasswordKeyword(password)]
  {
    UpdatePasswordContext(isEmail, UpdatePasswordRequest(current, password, password).body);
    PasswordKeyword(password);
  }

  /** With the current password and a strong new password, a different confirmation is the only error. */
  lemma UpdatePasswordRejectsConfirmation(isEmail: string -> bool, current: string, password: string, confirm: string)
    requires current != "" && StrongPassword(password) && confirm != "" && confirm != password
    ensures ContextOf(Validate(UpdatePasswordRequest(current, password, confirm), isEmail))
         == map["confirm_password" := "eqfield"]
  {
    UpdatePasswordContext(isEmail, UpdatePasswordRequest(current, password, confirm).body);
  }

  /** The current password and a strong, confirmed new password pass validation. */
  lemma UpdatePasswordAccepts(isEmail: string -> bool, current: string, password: string)
    requires current != "" && StrongPassword(password)
    ensures ContextOf(Validate(UpdatePasswordRequest(current, password, password), isEmail)) == map[]
  {
    UpdatePasswordContext(isEmail, UpdatePasswordRequest(current, password, password).body);
  }

  /** `Abc12` is too short. */
  lemma ShortTestPassword()
    ensures PasswordFailure("Abc12") == Some(Gte(8))
  {
  }

  /** `ABCDEFG1` has no lowercase letter. */
  lemma NoLowercaseTestPassword()
    ensures PasswordFailure("ABCDEFG1") == Some(ContainsAny(Lowercase))
  {
  }

  /** `abcdefg1` has no uppercase letter. */
  lemma NoUppercaseTestPassword()
    ensures PasswordFailure("abcdefg1") == Some(ContainsAny(Uppercase))
  {
  }

  /** `abcABCdef` has no digit. */
  lemma NoDigitTestPassword()
    ensures PasswordFailure("abcABCdef") == Some(ContainsAny(Digits))
  {
  }

  /** `abcABC123`, the registered password, is strong. */
  lemma RegisteredTestPassword()
    ensures StrongPassword("abcABC123")
  {
  }

  /** `abcABC000`, the new password of the successful change, is strong. */
  lemma ChangedTestPassword()
    ensures StrongPassword("abcABC000")
  {
  }

  /** An empty registration body `{}` reports every field as `required`. */
  lemma RegisterTestEmptyBody(isEmail: string -> bool)
    ensures ContextOf(Validate(Request(RegisterShape, map[]), isEmail))
         == map["name" := "required", "email" := "required", "password" := "required"]
  {
    RegisterContext(isEmail, map[]);
  }

  /** An address the e-mail check rejects is reported as `email`. */
  lemma RegisterTestInvalidEmail(isEmail: string -> bool)
    requires !isEmail("not-an-email")
    ensures ContextOf(Validate(RegisterRequest("bob", "not-an-email", "abcABC123"), isEmail)) == map["email" := "email"]
  {
    RegisteredTestPassword();
    RegisterRejectsEmail(isEmail, "bob", "not-an-email", "abcABC123");
  }

  /** `Abc12` is reported as `gte`. */
  lemma RegisterTestShortPassword(isEmail: string -> bool)
    requires isEmail("bob@test.com")
    ensures ContextOf(Validate(RegisterRequest("bob", "bob@test.com", "Abc12"), isEmail)) == map["password" := "gte"]
  {
    ShortTestPassword();
    RegisterRejectsPassword(isEmail, "bob", "bob@test.com", "Abc12");
  }

  /** `ABCDEFG1` is reported as `containsany`. */
  lemma RegisterTestNoLowercase(isEmail: string -> bool)
    requires isEmail("bob@test.com")
    ensures ContextOf(Validate(RegisterRequest("bob", "bob@test.com", "ABCDEFG1"), isEmail)) == map["password" := "containsany"]
  {
    NoLowercaseTestPassword();
    RegisterRejectsPassword(isEmail, "bob", "bob@test.com", "ABCDEFG1");
  }

  /** `abcdefg1` is reported as `containsany`. */
  lemma RegisterTestNoUppercase(isEmail: string -> bool)
    requires isEmail("bob@test.com")
    ensures ContextOf(Validate(RegisterRequest("bob", "bob@test.com", "abcdefg1"), isEmail)) == map["password" := "containsany"]
  {
    NoUppercaseTestPassword();
    RegisterRejectsPassword(isEmail, "bob", "bob@test.com", "abcdefg1");
  }

  /** `abcABCdef` is reported as `containsany`. */
  lemma RegisterTestNoDigit(isEmail: string -> bool)
    requires isEmail("bob@test.com")
    ensures ContextOf(Validate(RegisterRequest("bob", "bob@test.com", "abcABCdef"), isEmail)) == map["password" := "containsany"]
  {
    NoDigitTestPassword();
    RegisterRejectsPassword(isEmail, "bob", "bob@test.com", "abcABCdef");
  }

  /** The registration the test completes passes validation. */
  lemma RegisterTestAccepted(isEmail: string -> bool)
    requires isEmail("bob@test.com")
    ensures ContextOf(Validate(RegisterRequest("bob", "bob@test.com", "abcABC123"), isEmail)) == map[]
  {
    RegisteredTestPassword();
    RegisterAccepts(isEmail, "bob", "bob@test.com", "abcABC123");
  }

  /** An empty password-change body `{}` reports every field as `required`. */
  lemma UpdatePasswordTestEmptyBody(isEmail: string -> bool)
    ensures ContextOf(Validate(Request(UpdatePasswordShape, map[]), isEmail))
         == map["current_password" := "required", "password" := "required", "confirm_password" := "required"]
  {
    UpdatePasswordContext(isEmail, map[]);
  }

  /** A short new password, confirmed, is reported as `gte`. */
  lemma UpdatePasswordTestShortPassword(isEmail: string -> bool)
    ensures ContextOf(Validate(UpdatePasswordRequest("abcABC123", "Abc12", "Abc12"), isEmail)) == map["password" := "gte"]
  {
    ShortTestPassword();
    UpdatePasswordRejectsPassword(isEmail, "abcABC123", "Abc12");
  }

  /** `ABCDEFG1`, confirmed, is reported as `containsany`. */
  lemma UpdatePasswordTestNoLowercase(isEmail: string -> bool)
    ensures ContextOf(Validate(UpdatePasswordRequest("abcABC123", "ABCDEFG1", "ABCDEFG1"), isEmail)) == map["password" := "containsany"]
  {
    NoLowercaseTestPassword();
    UpdatePasswordRejectsPassword(isEmail, "abcABC123", "ABCDEFG1");
  }

  /** `abcdefg1`, confirmed, is reported as `containsany`. */
  lemma UpdatePasswordTestNoUppercase(isEmail: string -> bool)
    ensures ContextOf(Validate(UpdatePasswordRequest("abcABC123", "abcdefg1", "abcdefg1"), isEmail)) == map["password" := "containsany"]
  {
    NoUppercaseTestPassword();
    UpdatePasswordRejectsPassword(isEmail, "abcABC123", "abcdefg1");
  }

  /** `abcABCdef`, confirmed, is reported as `containsany`. */
  lemma UpdatePasswordTestNoDigit(isEmail: string -> bool)
    ensures ContextOf(Validate(UpdatePasswordRequest("abcABC123", "abcABCdef", "abcABCdef"), isEmail)) == map["password" := "containsany"]
  {
    NoDigitTestPassword();
    UpdatePasswordRejectsPassword(isEmail, "abcABC123", "abcABCdef");
  }

  /** A confirmation that differs from a good new password is reported as `eqfield`. */
  lemma UpdatePasswordTestMismatch(isEmail: string -> bool)
    ensures ContextOf(Validate(UpdatePasswordRequest("abcABC123", "abcABC123", "abcABC124"), isEmail)) == map["confirm_password" := "eqfield"]
  {
    RegisteredTestPassword();
    assert "abcABC124"[8] != "abcABC123"[8];
    UpdatePasswordRejectsConfirmation(isEmail, "abcABC123", "abcABC123", "abcABC124");
  }

  /** The password change the test completes passes validation. */
  lemma UpdatePasswordTestAccepted(isEmail: string -> bool)
    ensures ContextOf(Validate(UpdatePasswordRequest("abcABC123", "abcABC000", "abcABC000"), isEmail)) == map[]
  {
    ChangedTestPassword();
    UpdatePasswordAccepts(isEmail, "abcABC123", "abcABC000");
  }
}
