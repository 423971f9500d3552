/**
 * The `context` of a 400 `RequestValidationFailed` response
 * (internal/http/response/validation.go). `MakeValidationErrorContext` turns a
 * validator error list into a map from reported field name to the keyword of
 * the rule that failed; any other error gives a nil context.
 */
module Validation {
  import opened Wrappers

  /** One entry of `validator.ValidationErrors`: what `fe.Field()` and `fe.Tag()` return. */
  datatype FieldError = FieldError(field: string, tag: string)

  /** The response context: field name to rule keyword. */
  type Context = map<string, string>

  /** The field names that occur in `errs`. */
  ghost function FieldsOf(errs: seq<FieldError>): set<string> {
    set i | 0 <= i < |errs| :: errs[i].field
  }

  /** No error after position `i` is about the same field as `errs[i]`. */
  ghost predicate IsLastFor(errs: seq<FieldError>, i: int) {
    0 <= i < |errs| && forall j :: i < j < |errs| ==> errs[j].field != errs[i].field
  }

  /** The map that storing every error of `errs`, in order, into an empty map leaves behind. */
  function ContextOf(errs: seq<FieldError>): Context {
    if errs == [] then map[]
    else
      var last := errs[|errs| - 1];
      ContextOf(errs[..|errs| - 1])[last.field := last.tag]
  }

  /** The keys of the context are exactly the field names in the list. */
  lemma {:induction false} ContextKeys(errs: seq<FieldError>)
    ensures ContextOf(errs).Keys == FieldsOf(errs)
  {
    if errs != [] {
      var init := errs[..|errs| - 1];
      ContextKeys(init);
      assert FieldsOf(errs) == FieldsOf(init) + {errs[|errs| - 1].field} by {
        forall i | 0 <= i < |init| ensures init[i] == errs[i] { }
      }
    }
  }

  /** The context never has more entries than the list has errors. */
  lemma {:induction false} ContextSize(errs: seq<FieldError>)
    ensures |ContextOf(errs)| <= |errs|
  {
    if errs != [] {
      ContextSize(errs[..|errs| - 1]);
    }
  }

  /** The last error about a field decides the value stored under that field. */
  lemma {:induction false} ContextLastWins(errs: seq<FieldError>, i: int)
    requires IsLastFor(errs, i)
    ensures errs[i].field in ContextOf(errs)
    ensures ContextOf(errs)[errs[i].field] == errs[i].tag
  {
    var n := |errs| - 1;
    if i < n {
      var init := errs[..n];
      assert IsLastFor(init, i) by {
        forall j | i < j < |init| ensures init[j].field != init[i].field {
          assert init[j] == errs[j];
        }
      }
      ContextLastWins(init, i);
    }
  }

  /** Every value in the context is the tag of the last error about its key. */
  lemma {:induction false} ContextValueOrigin(errs: seq<FieldError>, k: string)
    requires k in ContextOf(errs)
    ensures exists i :: IsLastFor(errs, i) && errs[i].field == k && errs[i].tag == ContextOf(errs)[k]
  {
    var n := |errs| - 1;
    if errs[n].field == k {
      assert IsLastFor(errs, n);
    } else {
      var init := errs[..n];
      ContextValueOrigin(init, k);
      var i :| IsLastFor(init, i) && init[i].field == k && init[i].tag == ContextOf(init)[k];
      assert init[i] == errs[i];
      assert IsLastFor(errs, i);
    }
  }

  /**
   * `MakeValidationErrorContext`. `err` is `Some(list)` when `errors.As` finds
   * a `validator.ValidationErrors` in the error, and `None` otherwise (also for
   * a nil error); the result `None` is the nil map.
   */
  method MakeValidationErrorContext(err: Option<seq<FieldError>>) returns (ctx: Option<Context>)
    ensures ctx.None? <==> err.None?
    ensures err.Some? ==> ctx == Some(ContextOf(err.value))
    ensures err.Some? ==> ctx.value.Keys == FieldsOf(err.value) && |ctx.value| <= |err.value|
    ensures err == Some([]) ==> ctx == Some(map[])
  {
    match err {
      case None =>
        ctx := None;
      case Some(ve) =>
        var out: Context := map[];
        for i := 0 to |ve|
          invariant out == ContextOf(ve[..i])
        {
          assert ve[..i + 1][..i] == ve[..i];
          out := out[ve[i].field := ve[i].tag];
        }
        assert ve[..|ve|] == ve;
        ContextKeys(ve);
        ContextSize(ve);
        ctx := Some(out);
    }
  }
}
