# Validation-error contexts of go-backend-framework, in Dafny

A request that fails validation gets a 400 `RequestValidationFailed` response.
Its `context` maps each offending field to the keyword of the rule it broke.
This project models the two pieces of the framework that decide that map, and
proves what clients can rely on:

- **Field-name resolution** (`internal/registrar/validator_registrar.go`).
  - `pickTagName` reduces a struct-tag value to a name. An empty tag or `-`
    gives nothing. Any other tag gives its first comma-separated segment,
    with whitespace trimmed.
  - The tag-name function that `Register` installs in the validator prefers
    the JSON name, then the form name, then the Go field name.
  - Both are pure functions: `ValidatorRegistrar.PickTagName` and
    `ValidatorRegistrar.TagName`. They use the Go string functions modelled
    in `GoStrings`.
- **Context building** (`internal/http/response/validation.go`).
  - `MakeValidationErrorContext` is modelled as a method with the source's
    loop.
  - It is proved against the fold `Validation.ContextOf`: key set, origin of
    every value, last write wins, size bound, nil for anything that is not a
    validation-error list.
- **The contexts the controller tests expect.**
  - `RequestRules` models "the first failing rule of each field, reported
    under the field's name", for the rule keywords `required`, `email`, `gte`,
    `containsany` and `eqfield`.
  - `UserRequests` builds the registration and password-change requests from
    those rules, with their shared password rule set.
  - It proves the context of every body of those two shapes, in closed form.
    A body may set or omit any key; an omitted key decodes to `""`. Every
    literal case of the tests follows as a corollary.

Files:
- `wrappers.dfy`: `Option`.
- `go_strings.dfy`: `strings.Split(s, ",")[0]`, `strings.TrimSpace`,
  `strings.ContainsAny`.
- `validator_registrar.dfy`: `pickTagName` and the tag-name function.
- `validation.dfy`: `MakeValidationErrorContext`.
- `request_rules.dfy`: rules, first failing rule, the error list and its
  context.
- `user_requests.dfy`: the two user request shapes and the test cases.

## Model

| member | source | states |
|---|---|---|
| GoStrings.FirstField | internal/registrar/validator_registrar.go:38 | the result is the prefix of the tag up to, not including, its first comma, or the whole tag when it has none (`Split(..)[0]`, also `""` for `""`) |
| GoStrings.FirstFieldUnique | internal/registrar/validator_registrar.go:38 | no other comma-free prefix that ends at a comma or at the end exists, so the first field is uniquely determined |
| GoStrings.TrimSpace | internal/registrar/validator_registrar.go:39 | the result is a slice of the input that cuts only `unicode.IsSpace` runes on each side and neither starts nor ends with whitespace |
| GoStrings.TrimSpaceCharacterized | internal/registrar/validator_registrar.go:39 | a string is a trimming of `s` if and only if it equals `TrimSpace(s)` |
| GoStrings.TrimSpaceOfBlank | internal/registrar/validator_registrar.go:39 | a string of whitespace only trims to `""` |
| GoStrings.ContainsAny | internal/http/controller/user/user_register_test.go:95-112 | `strings.ContainsAny`: some rune of the value occurs in the class string (a definition without a contract of its own; `ContainsAnyAt` characterizes it) |
| GoStrings.ContainsAnyAt | internal/http/controller/user/user_register_test.go:95-112 | `ContainsAny` holds if and only if some position of the value holds a rune found at some position of the class string |
| GoStrings.IsSpace | internal/registrar/validator_registrar.go:39 | `unicode.IsSpace`, which `strings.TrimSpace` cuts: the Latin-1 spaces `\t \n \v \f \r`, space, U+0085, U+00A0, and the other White_Space runes U+1680, U+2000-U+200A, U+2028, U+2029, U+202F, U+205F, U+3000 (a definition without a contract of its own) |
| ValidatorRegistrar.PickTagName | internal/registrar/validator_registrar.go:34-40 | `""` for an empty tag or `-`; the result never contains a comma, has no surrounding whitespace, and is the trimmed first segment the tag declares |
| ValidatorRegistrar.PickTagNameCharacterized | internal/registrar/validator_registrar.go:35-39 | a name is the one a tag declares (nothing for `""`/`-`, else the trimmed first segment) if and only if it is what `pickTagName` returns |
| ValidatorRegistrar.BlankFirstSegment | internal/registrar/validator_registrar.go:38-39 | a tag whose first segment is blank, such as `,omitempty`, yields `""` |
| ValidatorRegistrar.PlainTag | internal/registrar/validator_registrar.go:35-39 | a tag without comma or surrounding whitespace, other than `""` and `-`, is returned unchanged |
| ValidatorRegistrar.OptionsIgnored | internal/registrar/validator_registrar.go:38-39 | options after the first comma never change the name: `key,options` yields `key` |
| ValidatorRegistrar.PaddingTrimmed | internal/registrar/validator_registrar.go:38-39 | whitespace around the first segment is removed: `  key  ,options` yields `key` |
| ValidatorRegistrar.TagName | internal/registrar/validator_registrar.go:23-31 | the reported name is always one of the JSON name, the form name or the Go field name; unless it is the field name, it is non-empty, comma-free and trimmed |
| ValidatorRegistrar.TagNamePrecedence | internal/registrar/validator_registrar.go:24-30 | a declared JSON name wins over everything; with no JSON name, a declared form name wins; with neither, the Go field name is reported |
| ValidatorRegistrar.BlankJsonNameFallsToForm | internal/registrar/validator_registrar.go:24-29 | a JSON tag with a blank first segment, such as `,omitempty`, hands the decision to the form tag, then to the field name |
| ValidatorRegistrar.DashTagFallsToFieldName | internal/registrar/validator_registrar.go:24-30 | a field tagged `json:"-"` with no form tag is reported under its Go name |
| ValidatorRegistrar.RegistrarTestEmailName | internal/registrar/registrar_test.go:98-99 | the test's field tagged `json:"email"` is reported as `email` |
| ValidatorRegistrar.RegistrarTestPageName | internal/registrar/registrar_test.go:98-100 | the test's field tagged only `form:"page"` is reported as `page` |
| Validation.ContextKeys | internal/http/response/validation.go:13-16 | the keys of the context are exactly the field names in the error list |
| Validation.ContextSize | internal/http/response/validation.go:13-16 | the context has at most as many entries as the list has errors |
| Validation.ContextLastWins | internal/http/response/validation.go:14-16 | the last error about a field decides its value |
| Validation.ContextValueOrigin | internal/http/response/validation.go:14-16 | every value is the tag of the last error in the list that carries its key |
| Validation.MakeValidationErrorContext | internal/http/response/validation.go:10-20 | nil exactly when the error is no validation-error list; otherwise the fold of the list, whose keys are its field names and whose size is at most its length; an empty list gives an empty, non-nil map |
| RequestRules.Keyword | internal/http/response/validation.go:15 | the keyword `fe.Tag()` reports for a failed rule; it is always one of `required`, `email`, `gte`, `containsany`, `eqfield` |
| RequestRules.Value | internal/http/controller/user/user_register_test.go:75-82 | the decoded value of a field: the string stored under its key, or Go's zero value `""` when the body omits the key (a definition without a contract of its own) |
| RequestRules.Holds | internal/http/controller/user/user_register_test.go:75-112 | the five rule keywords: `required` rejects the empty string, `email` defers to the e-mail check, `gte=n` counts runes, `containsany` asks for a character of its class, `eqfield=F` compares with the field whose Go name is `F` (no contract of its own; its meaning is used by `FirstFailing` and `ContainsAnyClass`) |
| RequestRules.FirstFailing | internal/http/controller/user/user_register_test.go:89-112 | `None` if and only if the value passes every rule; otherwise a rule the value fails, with every earlier rule passed |
| RequestRules.ErrorsOf | internal/http/controller/user/user_register_test.go:75-82 | the list has at most as many errors as there are fields |
| RequestRules.Validate | internal/registrar/registrar_test.go:109-116 | `engine.Struct` on a request: its error list, with at most as many errors as the shape has fields (order and one error per field: `ErrorsOfOrdered`) |
| RequestRules.ErrorsOfOrigin | internal/http/controller/user/user_register_test.go:75-112 | every error in the list is the error of some field |
| RequestRules.ErrorsOfOrdered | internal/http/controller/user/user_register_test.go:75-82 | errors come in declaration order: a later error in the list belongs to a strictly later field, so no field contributes two errors |
| RequestRules.ErrorsOfComplete | internal/http/controller/user/user_register_test.go:75-82 | the error of every failing field is in the list |
| RequestRules.FailingFieldReported | internal/http/controller/user/user_register_test.go:75-112 | with distinct reported names, the context holds a failing field's keyword under its name |
| RequestRules.PassingFieldNotReported | internal/http/controller/user/user_register_test.go:83-112 | with distinct reported names, a field that passes all its rules is absent from the context |
| RequestRules.ContextOfFailingField | internal/http/controller/user/user_register_test.go:75-112 | with distinct reported names, the context reports each field exactly as its first failing rule says, or not at all |
| RequestRules.ContextKeysAreFailingFields | internal/http/controller/user/user_register_test.go:83-112 | every key of the context is the name of a field that fails a rule |
| RequestRules.ContextOfThree | internal/http/controller/user/user_register_test.go:75-112 | the context of a three-field request is the union of each field's entry (its keyword under its name, or nothing) |
| RequestRules.JsonKeyNames | internal/registrar/validator_registrar.go:24-26 | fields that carry only a plain JSON tag are reported under that tag by the tag-name function |
| RequestRules.RegistrarDummy | internal/registrar/registrar_test.go:98-101 | the test's `dummy` struct: `Email` tagged `json:"email"` with `required,email`, `Page` tagged `form:"page"` with `required` (a constant; `gt=0` is under "Left out") |
| RequestRules.RegistrarDummyNames | internal/registrar/registrar_test.go:98-100 | the `dummy` struct's fields are reported under `email` and `page`, the names the tag-name function gives `json:"email"` and `form:"page"` |
| RequestRules.RegistrarTestContext | internal/registrar/registrar_test.go:98-126 | validating the zero `dummy`, then folding its errors, gives exactly `{"email": "required", "page": "required"}`, whatever the e-mail check is |
| UserRequests.PasswordFailure | internal/http/controller/user/user_register_test.go:89-112 | a password is rejected if and only if it is not strong: at least 8 characters with a lowercase letter, an uppercase letter and a digit |
| UserRequests.ContainsAnyClass | internal/http/controller/user/user_register_test.go:95-112 | `containsany` with the lowercase, uppercase or digit class holds exactly when the value has a character of that class |
| UserRequests.PasswordFirstFailing | internal/http/controller/user/user_register_test.go:89-112 | the first failing rule of the password rule set is the one `PasswordFailure` names: `required`, then `gte=8`, then the first missing class |
| UserRequests.RegisterShape | internal/http/controller/user/user_register_test.go:26-30 | `UserRegisterRequest`: `Name` with `required`, `Email` with `required,email`, `Password` with the password rule set, keyed `name`, `email`, `password` (a constant, rebuilt from the fields the test sets and the keys its contexts report) |
| UserRequests.UpdatePasswordShape | internal/http/controller/user/user_update_password_test.go:27-31 | `UserUpdatePasswordRequest`: `CurrentPassword` with `required`, `Password` with the password rule set, `ConfirmPassword` with `required,eqfield=Password`, keyed `current_password`, `password`, `confirm_password` (a constant, rebuilt likewise) |
| UserRequests.RegisterShapeIsJsonKeyed | internal/http/controller/user/user_register_test.go:76-82 | the registration fields are named by their plain JSON keys `name`, `email`, `password`, which are the names the tag-name function gives them |
| UserRequests.UpdatePasswordShapeIsJsonKeyed | internal/http/controller/user/user_update_password_test.go:84-90 | the password-change fields are named by their plain JSON keys `current_password`, `password`, `confirm_password`, which are the names the tag-name function gives them |
| UserRequests.RegisterShapeHasDistinctNames | internal/http/controller/user/user_register_test.go:76-81 | no two registration fields share a reported name |
| UserRequests.UpdatePasswordShapeHasDistinctNames | internal/http/controller/user/user_update_password_test.go:84-89 | no two password-change fields share a reported name |
| UserRequests.RegisterFieldReported | internal/http/controller/user/user_register_test.go:75-112 | for any body, each registration field is reported under the name the tag-name function gives it, with the keyword of its first failing rule, or not at all |
| UserRequests.UpdatePasswordFieldReported | internal/http/controller/user/user_update_password_test.go:83-120 | for any body, each password-change field is reported under the name the tag-name function gives it, with the keyword of its first failing rule, or not at all |
| UserRequests.RegisterFailures | internal/http/controller/user/user_register_test.go:75-112 | for any body, `name` fails only when missing or empty, `email` when missing or empty then when not an address, `password` as `PasswordFailure` says of its value |
| UserRequests.RegisterContext | internal/http/controller/user/user_register_test.go:75-112 | for any body, whichever keys it sets or omits, the context is the union of the three fields' entries and holds no other key |
| UserRequests.UpdatePasswordFailures | internal/http/controller/user/user_update_password_test.go:83-120 | for any body, `current_password` fails only when missing or empty, `password` as `PasswordFailure` says, `confirm_password` when missing or empty then when it differs from `password` |
| UserRequests.UpdatePasswordContext | internal/http/controller/user/user_update_password_test.go:83-120 | for any body, whichever keys it sets or omits, the context is the union of the three fields' entries and holds no other key |
| UserRequests.PasswordKeyword | internal/http/controller/user/user_register_test.go:89-112 | a rejected password is reported as `required` when empty, `gte` when shorter than 8, and `containsany` otherwise |
| UserRequests.RegisterRejectsEmail | internal/http/controller/user/user_register_test.go:83-88 | with a name and a strong password, an address the e-mail check rejects gives exactly `{"email":"email"}` |
| UserRequests.RegisterRejectsPassword | internal/http/controller/user/user_register_test.go:89-112 | with a name and an accepted address, a password that is not strong gives exactly one entry, under `password` |
| UserRequests.RegisterAccepts | internal/http/controller/user/user_register_test.go:25-30 | a name, an accepted address and a strong password give an empty context |
| UserRequests.UpdatePasswordRejectsPassword | internal/http/controller/user/user_update_password_test.go:91-114 | with the current password given, a non-empty, confirmed password that is not strong gives exactly one entry, under `password` |
| UserRequests.UpdatePasswordRejectsConfirmation | internal/http/controller/user/user_update_password_test.go:115-120 | with the current password and a strong new one, a different non-empty confirmation gives exactly `{"confirm_password":"eqfield"}` |
| UserRequests.UpdatePasswordAccepts | internal/http/controller/user/user_update_password_test.go:25-31 | the current password and a strong, confirmed new password give an empty context |
| UserRequests.ShortTestPassword | internal/http/controller/user/user_register_test.go:89-94 | `Abc12` fails `gte=8` |
| UserRequests.NoLowercaseTestPassword | internal/http/controller/user/user_register_test.go:95-100 | `ABCDEFG1` fails the lowercase `containsany` |
| UserRequests.NoUppercaseTestPassword | internal/http/controller/user/user_register_test.go:101-106 | `abcdefg1` fails the uppercase `containsany` |
| UserRequests.NoDigitTestPassword | internal/http/controller/user/user_register_test.go:107-112 | `abcABCdef` fails the digit `containsany` |
| UserRequests.RegisteredTestPassword | internal/http/controller/user/user_register_test.go:26-30 | `abcABC123`, the password the successful registration sends, is strong |
| UserRequests.ChangedTestPassword | internal/http/controller/user/user_update_password_test.go:27-31 | `abcABC000`, the new password of the successful change, is strong |
| UserRequests.RegisterTestEmptyBody | internal/http/controller/user/user_register_test.go:75-82 | `{}` gives `{"name","email","password"}` all `required`, and no other key |
| UserRequests.RegisterTestInvalidEmail | internal/http/controller/user/user_register_test.go:83-88 | `not-an-email` gives `{"email":"email"}` |
| UserRequests.RegisterTestShortPassword | internal/http/controller/user/user_register_test.go:89-94 | `Abc12` gives `{"password":"gte"}` |
| UserRequests.RegisterTestNoLowercase | internal/http/controller/user/user_register_test.go:95-100 | `ABCDEFG1` gives `{"password":"containsany"}` |
| UserRequests.RegisterTestNoUppercase | internal/http/controller/user/user_register_test.go:101-106 | `abcdefg1` gives `{"password":"containsany"}` |
| UserRequests.RegisterTestNoDigit | internal/http/controller/user/user_register_test.go:107-112 | `abcABCdef` gives `{"password":"containsany"}` |
| UserRequests.RegisterTestAccepted | internal/http/controller/user/user_register_test.go:25-30 | the body the successful registration sends passes validation |
| UserRequests.UpdatePasswordTestEmptyBody | internal/http/controller/user/user_update_password_test.go:83-90 | `{}` gives `{"current_password","password","confirm_password"}` all `required`, and no other key |
| UserRequests.UpdatePasswordTestShortPassword | internal/http/controller/user/user_update_password_test.go:91-96 | `Abc12`, confirmed, gives `{"password":"gte"}` |
| UserRequests.UpdatePasswordTestNoLowercase | internal/http/controller/user/user_update_password_test.go:97-102 | `ABCDEFG1`, confirmed, gives `{"password":"containsany"}` |
| UserRequests.UpdatePasswordTestNoUppercase | internal/http/controller/user/user_update_password_test.go:103-108 | `abcdefg1`, confirmed, gives `{"password":"containsany"}` |
| UserRequests.UpdatePasswordTestNoDigit | internal/http/controller/user/user_update_password_test.go:109-114 | `abcABCdef`, confirmed, gives `{"password":"containsany"}` |
| UserRequests.UpdatePasswordTestMismatch | internal/http/controller/user/user_update_password_test.go:115-120 | `abcABC123` confirmed as `abcABC124` gives `{"confirm_password":"eqfield"}` |
| UserRequests.UpdatePasswordTestAccepted | internal/http/controller/user/user_update_password_test.go:25-31 | the body the successful password change sends passes validation |

## Left out

- The engine lookup and registration in `Register` (internal/registrar/validator_registrar.go:18-23) are left out. They are a foreign library call on global state. Only the registered function's body is modelled.
- Reflection is left out. A `reflect.StructField` is the record `StructField(name, jsonTag, formTag)`, holding what `field.Tag.Get` returns. Tag-syntax parsing inside `Tag.Get` is not modelled.
- `errors.As` unwrapping is left out. The input of `MakeValidationErrorContext` is `Some(list)` when a `validator.ValidationErrors` is found and `None` otherwise, including a nil error.
- The map value type `any` is left out. Values are the rule keyword strings that `fe.Tag()` returns.
- The go-playground validator itself is not part of this model. `RequestRules` describes its observable behaviour as the tests fix it:
  - each field is checked in declaration order;
  - a field reports at most one error, for its first failing rule;
  - the error carries the name the tag-name function gave the field;
  - that name is computed once per struct type and cached, which is modelled as `FieldSpec.name`; `JsonKeyNames` relates it to `TagName`.
- The e-mail format check is a parameter `isEmail`, because its definition lives in the validator library.
- `gte` is modelled on string length for string fields only. Other rule parameters and rules on non-string fields are not modelled. This includes `gt=0` on the registrar test's `Page int` field: that field is modelled as a string that is always empty, because an absent integer is its zero value, which fails `required` first.
- The UTF-8 byte encoding of strings is left out, and so is invalid UTF-8. A Go string is read as its sequence of runes: `gte` counts them as go-playground's `utf8.RuneCountInString` does, and `TrimSpace` and `ContainsAny` work on them.
- JSON decoding of the body is left out. The body is a map from JSON key to string, and an absent key is Go's zero value `""`.
- The request struct declarations (`UserRegisterRequest`, `UserUpdatePasswordRequest`) are not part of this model. Their shapes are reconstructed from the field keys and keywords the controller tests expect, and from the shared password rule set `required,gte=8,containsany=<lowercase>,containsany=<uppercase>,containsany=<digits>`:
  - `current_password` carries only `required`;
  - `confirm_password` carries `required,eqfield=Password`;
  - the `eqfield` parameter is `Password`, the Go field name go-playground's `eqfield` looks up (not the JSON key `password`).
- `RequestRules.ErrorsOf` states only its size bound in its own contract. Its content and order are stated by the lemmas `ErrorsOfOrigin`, `ErrorsOfComplete` and `ErrorsOfOrdered`.
- `RequestRules.Validate` likewise states only the size bound; the same three lemmas apply to it, since it is `ErrorsOf` on the request's shape.
- `UserRequests.UpdatePasswordRejectsPassword` requires a non-empty password. An empty password also leaves its confirmation empty, and that case is covered by `UpdatePasswordContext`.
- The HTTP handler, status codes, response envelope, CSRF and bearer-token middleware, the database and the registrar executor around the tests are left out. They are I/O and wiring, with no stateable logic in the modelled files.
