/**
 * The validation rules behind a `RequestValidationFailed` context: the rule
 * keywords the request shapes use, the first failing rule of a field, the
 * error list the validator hands to `MakeValidationErrorContext`, and the
 * dummy struct of the registrar test.
 */
module RequestRules {
  import opened Wrappers
  import GoStrings
  import opened ValidatorRegistrar
  import opened Validation

  /** A rule of a `binding` tag, with its parameter. */
  datatype Rule = Required | Email | Gte(min: nat) | ContainsAny(chars: string) | EqField(other: string)

  /** The keyword `fe.Tag()` reports for a failed rule. */
  function Keyword(rule: Rule): (k: string)
    ensures k in {"required", "email", "gte", "containsany", "eqfield"}
  {
    match rule
    case Required => "required"
    case Email => "email"
    case Gte(_) => "gte"
    case ContainsAny(_) => "containsany"
    case EqField(_) => "eqfield"
  }

  /**
   * A struct field of a request, the name the validator reports it under,
   * and the rules of its `binding` tag in declaration order. The validator
   * computes the name once per struct type with the registered tag-name
   * function and caches it; `NamesCached` says a shape's names are those.
   */
  datatype FieldSpec = FieldSpec(field: StructField, name: string, rules: seq<Rule>)

  /**
   * A decoded request: its fields in declaration order and the body, which
   * holds each field's string value under the field's reported name. A field
   * missing from the body has Go's zero value, the empty string.
   */
  datatype Request = Request(shape: seq<FieldSpec>, body: map<string, string>)

  /** What decoding leaves in the field stored under `key`: its value, or `""` when the key is absent. */
  function Value(body: map<string, string>, key: string): string {
    if key in body then body[key] else ""
  }

  /** The value of the field whose Go name is `name`, which `eqfield` compares against. */
  function Sibling(fields: seq<FieldSpec>, req: Request, name: string): Option<string> {
    if fields == [] then None
    else if fields[0].field.name == name then Some(Value(req.body, fields[0].name))
    else Sibling(fields[1..], req, name)
  }

  /**
   * Whether `value` passes `rule`. `isEmail` is the validator library's
   * e-mail format check, which this model leaves abstract.
   */
  predicate Holds(rule: Rule, value: string, req: Request, isEmail: string -> bool) {
    match rule
    case Required => value != ""
    case Email => isEmail(value)
    case Gte(n) => |value| >= n
    case ContainsAny(chars) => GoStrings.ContainsAny(value, chars)
    case EqField(other) => Sibling(req.shape, req, other) == Some(value)
  }

  /** The first rule, in declaration order, that `value` fails; `None` when it passes all of them. */
  function FirstFailing(rules: seq<Rule>, value: string, req: Request, isEmail: string -> bool): (r: Option<Rule>)
    ensures r.None? <==> forall k :: 0 <= k < |rules| ==> Holds(rules[k], value, req, isEmail)
    ensures r.Some? ==> exists k :: 0 <= k < |rules| && rules[k] == r.value
                          && !Holds(rules[k], value, req, isEmail)
                          && forall j :: 0 <= j < k ==> Holds(rules[j], value, req, isEmail)
  {
    if rules == [] then None
    else if !Holds(rules[0], value, req, isEmail) then Some(rules[0])
    else
      var r := FirstFailing(rules[1..], value, req, isEmail);
      assert forall k :: 1 <= k < |rules| ==> rules[k] == rules[1..][k - 1];
      r
  }

  /** The first failing rule of a field of `req`. */
  function Failure(spec: FieldSpec, req: Request, isEmail: string -> bool): Option<Rule> {
    FirstFailing(spec.rules, Value(req.body, spec.name), req, isEmail)
  }

  /** The error of one field, if it fails: its reported name and the keyword of its first failing rule. */
  function ErrorOf(spec: FieldSpec, req: Request, isEmail: string -> bool): Option<FieldError> {
    match Failure(spec, req, isEmail)
    case None => None
    case Some(rule) => Some(FieldError(spec.name, Keyword(rule)))
  }

  /** The validation errors of `fields`, one per failing field, in declaration order. */
  function ErrorsOf(fields: seq<FieldSpec>, req: Request, isEmail: string -> bool): (r: seq<FieldError>)
    ensures |r| <= |fields|
  {
    if fields == [] then []
    else
      var n := |fields| - 1;
      var before := ErrorsOf(fields[..n], req, isEmail);
      match ErrorOf(fields[n], req, isEmail)
      case None => before
      case Some(e) => before + [e]
  }

  /** The position of the field whose error is the `j`-th of the list. */
  ghost function Origin(fields: seq<FieldSpec>, req: Request, isEmail: string -> bool, j: int): (k: int)
    requires 0 <= j < |ErrorsOf(fields, req, isEmail)|
    ensures 0 <= k < |fields| && ErrorOf(fields[k], req, isEmail) == Some(ErrorsOf(fields, req, isEmail)[j])
    decreases |fields|
  {
    var n := |fields| - 1;
    if j < |ErrorsOf(fields[..n], req, isEmail)| then
      var k := Origin(fields[..n], req, isEmail, j);
      assert fields[..n][k] == fields[k];
      k
    else
      n
  }

  /** Every error in the list is the error of one of the fields. */
  lemma ErrorsOfOrigin(fields: seq<FieldSpec>, req: Request, isEmail: string -> bool, j: int) returns (k: int)
    requires 0 <= j < |ErrorsOf(fields, req, isEmail)|
    ensures 0 <= k < |fields| && ErrorOf(fields[k], req, isEmail) == Some(ErrorsOf(fields, req, isEmail)[j])
  {
    k := Origin(fields, req, isEmail, j);
  }

  /**
   * The errors come in declaration order, one per field: a later error
   * belongs to a strictly later field, so no field is reported twice.
   */
  lemma {:induction false} ErrorsOfOrdered(fields: seq<FieldSpec>, req: Request, isEmail: string -> bool, j1: int, j2: int)
    requires 0 <= j1 < j2 < |ErrorsOf(fields, req, isEmail)|
    ensures Origin(fields, req, isEmail, j1) < Origin(fields, req, isEmail, j2)
  {
    var n := |fields| - 1;
    if j2 < |ErrorsOf(fields[..n], req, isEmail)| {
      ErrorsOfOrdered(fields[..n], req, isEmail, j1, j2);
    }
  }

  /** The error of every failing field is in the list. */
  lemma {:induction false} ErrorsOfComplete(fields: seq<FieldSpec>, req: Request, isEmail: string -> bool, k: int) returns (j: int)
    requires 0 <= k < |fields| && ErrorOf(fields[k], req, isEmail).Some?
    ensures 0 <= j < |ErrorsOf(fields, req, isEmail)|
    ensures ErrorsOf(fields, req, isEmail)[j] == ErrorOf(fields[k], req, isEmail).value
  {
    var n := |fields| - 1;
    var before := ErrorsOf(fields[..n], req, isEmail);
    if k < n {
      assert fields[..n][k] == fields[k];
      j := ErrorsOfComplete(fields[..n], req, isEmail, k);
    } else {
      j := |before|;
    }
  }

  /** The error list the validator returns for a request. */
  function Validate(req: Request, isEmail: string -> bool): (errs: seq<FieldError>)
    ensures |errs| <= |req.shape|
  {
    ErrorsOf(req.shape, req, isEmail)
  }

  /** Different fields of a shape are reported under different names. */
  ghost predicate DistinctNames(fields: seq<FieldSpec>) {
    forall a, b :: 0 <= a < b < |fields| ==> fields[a].name != fields[b].name
  }

  /**
   * `ctx` reports `spec` as the validator does: under its reported name with
   * the keyword of its first failing rule, or not at all when it passes.
   */
  ghost predicate Reports(ctx: Context, spec: FieldSpec, req: Request, isEmail: string -> bool) {
    var name := spec.name;
    match Failure(spec, req, isEmail)
    case None => name !in ctx
    case Some(rule) => name in ctx && ctx[name] == Keyword(rule)
  }

  /** The error of a failing field is what the context holds under its name. */
  lemma FailingFieldReported(req: Request, isEmail: string -> bool, i: int, e: FieldError)
    requires DistinctNames(req.shape) && 0 <= i < |req.shape|
    requires ErrorOf(req.shape[i], req, isEmail) == Some(e)
    ensures e.field in ContextOf(Validate(req, isEmail))
    ensures ContextOf(Validate(req, isEmail))[e.field] == e.tag
  {
    var errs := Validate(req, isEmail);
    ContextKeys(errs);
    var j := ErrorsOfComplete(req.shape, req, isEmail, i);
    assert e.field in FieldsOf(errs);
    ContextValueOrigin(errs, e.field);
    var last :| IsLastFor(errs, last) && errs[last].field == e.field && errs[last].tag == ContextOf(errs)[e.field];
    var k := ErrorsOfOrigin(req.shape, req, isEmail, last);
    assert k == i;
  }

  /** A field that passes all its rules does not appear in the context. */
  lemma PassingFieldNotReported(req: Request, isEmail: string -> bool, i: int)
    requires DistinctNames(req.shape) && 0 <= i < |req.shape|
    requires Failure(req.shape[i], req, isEmail).None?
    ensures req.shape[i].name !in ContextOf(Validate(req, isEmail))
  {
    if req.shape[i].name in ContextOf(Validate(req, isEmail)) {
      var k := ContextKeysAreFailingFields(req, isEmail, req.shape[i].name);
    }
  }

  /**
   * When the fields of a request have distinct reported names, its context
   * reports each field exactly as that field's first failing rule says.
   */
  lemma ContextOfFailingField(req: Request, isEmail: string -> bool, i: int)
    requires DistinctNames(req.shape) && 0 <= i < |req.shape|
    ensures Reports(ContextOf(Validate(req, isEmail)), req.shape[i], req, isEmail)
  {
    if ErrorOf(req.shape[i], req, isEmail).Some? {
      FailingFieldReported(req, isEmail, i, ErrorOf(req.shape[i], req, isEmail).value);
    } else {
      PassingFieldNotReported(req, isEmail, i);
    }
  }

  /** Every key of a request's context is the reported name of a field that fails a rule. */
  lemma ContextKeysAreFailingFields(req: Request, isEmail: string -> bool, key: string) returns (k: int)
    requires key in ContextOf(Validate(req, isEmail))
    ensures 0 <= k < |req.shape| && req.shape[k].name == key
    ensures Failure(req.shape[k], req, isEmail).Some?
  {
    var errs := Validate(req, isEmail);
    ContextKeys(errs);
    var i :| 0 <= i < |errs| && errs[i].field == key;
    k := ErrorsOfOrigin(req.shape, req, isEmail, i);
  }

  /** The error list of a field that fails, or of one that passes. */
  function Listed(e: Option<FieldError>): seq<FieldError> {
    match e
    case None => []
    case Some(x) => [x]
  }

  /** The context entry a field contributes: its keyword under its name, or nothing. */
  function Entry(name: string, failure: Option<Rule>): Context {
    match failure
    case None => map[]
    case Some(rule) => map[name := Keyword(rule)]
  }

  /** Appending at most one error adds its entry, overriding an earlier one. */
  lemma ContextOfAppend(x: seq<FieldError>, y: seq<FieldError>)
    requires |y| <= 1
    ensures ContextOf(x + y) == ContextOf(x) + ContextOf(y)
  {
    if y == [] {
      assert x + y == x;
    } else {
      var e := y[0];
      assert y == [e] && y[..0] == [];
      assert (x + y)[..|x|] == x;
      assert ContextOf(y) == map[e.field := e.tag];
    }
  }

  /** The context of one field's error list is the field's entry. */
  lemma ListedEntry(spec: FieldSpec, req: Request, isEmail: string -> bool)
    ensures ContextOf(Listed(ErrorOf(spec, req, isEmail))) == Entry(spec.name, Failure(spec, req, isEmail))
  {
    if ErrorOf(spec, req, isEmail).Some? {
      assert Listed(ErrorOf(spec, req, isEmail))[..0] == [];
    }
  }

  /** The last field's entry is added on top of the context of the fields before it. */
  lemma ContextOfSnoc(fields: seq<FieldSpec>, req: Request, isEmail: string -> bool)
    requires fields != []
    ensures ContextOf(ErrorsOf(fields, req, isEmail))
         == ContextOf(ErrorsOf(fields[..|fields| - 1], req, isEmail))
          + Entry(fields[|fields| - 1].name, Failure(fields[|fields| - 1], req, isEmail))
  {
    var n := |fields| - 1;
    var before := ErrorsOf(fields[..n], req, isEmail);
    var last := Listed(ErrorOf(fields[n], req, isEmail));
    assert ErrorsOf(fields, req, isEmail) == before + last;
    ContextOfAppend(before, last);
    ListedEntry(fields[n], req, isEmail);
  }

  /**
   * The context of a three-field request is the union of the fields' entries:
   * each failing field contributes its name and the keyword of its first
   * failing rule, a passing field contributes nothing.
   */
  lemma ContextOfThree(req: Request, isEmail: string -> bool)
    requires |req.shape| == 3
    ensures ContextOf(Validate(req, isEmail))
         == Entry(req.shape[0].name, Failure(req.shape[0], req, isEmail))
          + Entry(req.shape[1].name, Failure(req.shape[1], req, isEmail))
          + Entry(req.shape[2].name, Failure(req.shape[2], req, isEmail))
  {
    var s3 := req.shape;
    var s2 := s3[..2];
    var s1 := s2[..1];
    var e0 := Entry(s3[0].name, Failure(s3[0], req, isEmail));
    var e1 := Entry(s3[1].name, Failure(s3[1], req, isEmail));
    var e2 := Entry(s3[2].name, Failure(s3[2], req, isEmail));
    assert s2[1] == s3[1] && s1[0] == s3[0] && s1[..0] == [];
    assert ContextOf(ErrorsOf(s1, req, isEmail)) == e0 by {
      assert ErrorsOf(s1, req, isEmail) == [] + Listed(ErrorOf(s3[0], req, isEmail));
      assert [] + Listed(ErrorOf(s3[0], req, isEmail)) == Listed(ErrorOf(s3[0], req, isEmail));
      ListedEntry(s3[0], req, isEmail);
    }
    assert ContextOf(ErrorsOf(s2, req, isEmail)) == e0 + e1 by {
      ContextOfSnoc(s2, req, isEmail);
    }
    ContextOfSnoc(s3, req, isEmail);
  }

  /** A JSON tag that is used verbatim as the name: no options, no surrounding whitespace. */
  predicate PlainKey(key: string) {
    key != "" && key != "-" && ',' !in key && GoStrings.Trimmed(key)
  }

  /** A shape's cached names are what the tag-name function gives for its fields. */
  ghost predicate NamesCached(shape: seq<FieldSpec>) {
    forall k :: 0 <= k < |shape| ==> shape[k].name == TagName(shape[k].field)
  }

  /** The field carries only a plain JSON tag, and its cached name is that tag. */
  ghost predicate JsonKeyedField(spec: FieldSpec) {
    PlainKey(spec.field.jsonTag) && spec.field.formTag == "" && spec.name == spec.field.jsonTag
  }

  /** Every field of the shape is JSON-keyed. */
  ghost predicate JsonKeyed(shape: seq<FieldSpec>) {
    forall k :: 0 <= k < |shape| ==> JsonKeyedField(shape[k])
  }

  /** A field declared with only `json:"<key>"`, named by that key. */
  function JsonField(goName: string, key: string, rules: seq<Rule>): FieldSpec {
    FieldSpec(StructField(goName, key, ""), key, rules)
  }

  /** A field declared with a plain JSON key is JSON-keyed. */
  lemma JsonFieldKeyed(goName: string, key: string, rules: seq<Rule>)
    requires PlainKey(key)
    ensures JsonKeyedField(JsonField(goName, key, rules))
  {
  }

  lemma JsonKeyedThree(shape: seq<FieldSpec>)
    requires |shape| == 3 && JsonKeyedField(shape[0]) && JsonKeyedField(shape[1]) && JsonKeyedField(shape[2])
    ensures JsonKeyed(shape)
  {
    forall k | 0 <= k < 3 ensures JsonKeyedField(shape[k]) {
    }
  }

  /** Fields that only carry a plain JSON tag are reported under that tag. */
  lemma JsonKeyNames(shape: seq<FieldSpec>)
    requires JsonKeyed(shape)
    ensures NamesCached(shape)
  {
    forall k | 0 <= k < |shape|
      ensures shape[k].name == TagName(shape[k].field)
    {
      PlainTag(shape[k].field.jsonTag);
    }
  }

  /**
   * The registrar test's `dummy` struct: `Email` tagged `json:"email"` with
   * `required,email`, and `Page` tagged only `form:"page"` with
   * `required,gt=0`. `gt=0` is left out: it concerns the integer `Page`,
   * whose zero value already fails `required`, so that rule reports first.
   */
  const RegistrarDummy: seq<FieldSpec> := [
    FieldSpec(StructField("Email", "email", ""), "email", [Required, Email]),
    FieldSpec(StructField("Page", "", "page"), "page", [Required])
  ]

  /** The dummy's fields are cached under the names the tag-name function resolves. */
  lemma RegistrarDummyNames()
    ensures NamesCached(RegistrarDummy)
  {
    forall k | 0 <= k < |RegistrarDummy|
      ensures RegistrarDummy[k].name == TagName(RegistrarDummy[k].field)
    {
      if k == 0 {
        RegistrarTestEmailName();
      } else {
        RegistrarTestPageName();
      }
    }
  }

  /** Validating the zero `dummy` reports both fields as `required`, whatever the e-mail check is. */
  lemma RegistrarTestContext(isEmail: string -> bool)
    ensures ContextOf(Validate(Request(RegistrarDummy, map[]), isEmail))
         == map["email" := "required", "page" := "required"]
  {
    var req := Request(RegistrarDummy, map[]);
    var fields := RegistrarDummy;
    assert fields[..1][..0] == [];
    assert ErrorOf(fields[0], req, isEmail) == Some(FieldError("email", "required"));
    assert ErrorOf(fields[1], req, isEmail) == Some(FieldError("page", "required"));
    var errs := [FieldError("email", "required"), FieldError("page", "required")];
    assert Validate(req, isEmail) == errs;
    assert errs[..1][..0] == [];
  }
}
