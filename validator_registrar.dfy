/**
 * The name under which a validation error reports a struct field
 * (internal/registrar/validator_registrar.go). `Register` installs a tag-name
 * function in the validator engine; that function prefers the field's `json`
 * tag, then its `form` tag, then the field's Go name. Each tag value is reduced
 * to a name by `pickTagName`.
 */
module ValidatorRegistrar {
  import opened GoStrings

  /**
   * The parts of a `reflect.StructField` the tag-name function reads: the Go
   * field name and what `field.Tag.Get` returns for the `json` and `form` keys
   * ("" when the key is absent).
   */
  datatype StructField = StructField(name: string, jsonTag: string, formTag: string)

  /**
   * What a tag value declares as the external name: nothing for an empty tag
   * or for `-`; otherwise the part before the first comma with surrounding
   * whitespace removed.
   */
  ghost predicate IsTagName(tag: string, name: string) {
    if tag == "" || tag == "-" then name == ""
    else exists seg :: IsFirstField(tag, ',', seg) && TrimsTo(seg, name)
  }

  /** `pickTagName`. */
  function PickTagName(tag: string): (r: string)
    ensures tag == "" || tag == "-" ==> r == ""
    ensures ',' !in r
    ensures Trimmed(r)
    ensures IsTagName(tag, r)
  {
    if tag == "" || tag == "-" then
      ""
    else
      var seg := FirstField(tag, ',');
      var name := TrimSpace(seg);
      SliceOfCommaFree(seg, name);
      name
  }

  lemma SliceOfCommaFree(seg: string, name: string)
    requires ',' !in seg && TrimsTo(seg, name)
    ensures ',' !in name
  {
    var i, j :| IsTrimmedSlice(seg, i, j) && name == seg[i..j];
  }

  /** `pickTagName` returns the name its tag declares, and a tag declares no other name. */
  lemma PickTagNameCharacterized(tag: string, name: string)
    ensures IsTagName(tag, name) <==> name == PickTagName(tag)
  {
    if IsTagName(tag, name) && tag != "" && tag != "-" {
      var seg :| IsFirstField(tag, ',', seg) && TrimsTo(seg, name);
      FirstFieldUnique(tag, ',', seg);
      TrimSpaceCharacterized(seg, name);
    }
  }

  /**
   * A tag whose first segment is blank, such as `,omitempty`, declares no
   * name; the tag-name function then falls through to the next source.
   */
  lemma BlankFirstSegment(tag: string)
    requires AllSpace(FirstField(tag, ','))
    ensures PickTagName(tag) == ""
  {
    if tag != "" && tag != "-" {
      TrimSpaceOfBlank(FirstField(tag, ','));
    }
  }

  /** A plain tag, with no comma and no surrounding whitespace, is its own name. */
  lemma PlainTag(tag: string)
    requires tag != "" && tag != "-" && ',' !in tag && Trimmed(tag)
    ensures PickTagName(tag) == tag
  {
    FirstFieldUnique(tag, ',', tag);
    assert IsTrimmedSlice(tag, 0, |tag|);
    assert tag[0..|tag|] == tag;
    TrimSpaceCharacterized(tag, tag);
  }

  /** The function `Register` installs with `RegisterTagNameFunc`. */
  function TagName(field: StructField): (r: string)
    ensures r == PickTagName(field.jsonTag) || r == PickTagName(field.formTag) || r == field.name
    ensures r == field.name || (r != "" && ',' !in r && Trimmed(r))
  {
    var jsonName := PickTagName(field.jsonTag);
    if jsonName != "" then jsonName
    else
      var formName := PickTagName(field.formTag);
      if formName != "" then formName else field.name
  }

  /**
   * The precedence of the tag-name function, stated on the names the tags
   * declare: a JSON name wins over everything, a form name over the Go name.
   */
  lemma TagNamePrecedence(field: StructField, jsonName: string, formName: string)
    requires IsTagName(field.jsonTag, jsonName) && IsTagName(field.formTag, formName)
    ensures jsonName != "" ==> TagName(field) == jsonName
    ensures jsonName == "" && formName != "" ==> TagName(field) == formName
    ensures jsonName == "" && formName == "" ==> TagName(field) == field.name
  {
    PickTagNameCharacterized(field.jsonTag, jsonName);
    PickTagNameCharacterized(field.formTag, formName);
  }

  /** The registrar test's field `Email`, tagged `json:"email"`, is reported as `email`. */
  lemma RegistrarTestEmailName()
    ensures TagName(StructField("Email", "email", "")) == "email"
  {
    PlainTag("email");
  }

  /** The registrar test's field `Page`, tagged only `form:"page"`, is reported as `page`. */
  lemma RegistrarTestPageName()
    ensures TagName(StructField("Page", "", "page")) == "page"
  {
    PlainTag("page");
  }

  /** Options after the comma, such as `omitempty`, do not change the name. */
  lemma OptionsIgnored(key: string, options: string)
    requires key != "" && ',' !in key && Trimmed(key)
    ensures PickTagName(key + "," + options) == key
  {
    var tag := key + "," + options;
    assert tag[|key|] == ',';
    assert key <= tag;
    FirstFieldUnique(tag, ',', key);
    TrimSpaceCharacterized(key, key) by {
      assert IsTrimmedSlice(key, 0, |key|);
      assert key[0..|key|] == key;
    }
  }

  /** Whitespace around the first segment is trimmed away. */
  lemma PaddingTrimmed(left: string, key: string, right: string, options: string)
    requires AllSpace(left) && AllSpace(right)
    requires key != "" && ',' !in key && Trimmed(key)
    requires ',' !in left && ',' !in right
    ensures PickTagName(left + key + right + "," + options) == key
  {
    var seg := left + key + right;
    var tag := seg + "," + options;
    assert tag != "" && tag != "-" by {
      assert tag[|seg|] == ',' && |tag| > 1;
    }
    assert seg <= tag && tag[|seg|] == ',';
    assert ',' !in seg by {
      forall k | 0 <= k < |seg| ensures seg[k] != ',' {
        if k < |left| { assert seg[k] == left[k]; }
        else if k < |left| + |key| { assert seg[k] == key[k - |left|]; }
        else { assert seg[k] == right[k - |left| - |key|]; }
      }
    }
    FirstFieldUnique(tag, ',', seg);
    var i, j := |left|, |left| + |key|;
    assert IsTrimmedSlice(seg, i, j) by {
      forall k | 0 <= k < i ensures IsSpace(seg[k]) { assert seg[k] == left[k]; }
      forall k | j <= k < |seg| ensures IsSpace(seg[k]) { assert seg[k] == right[k - j]; }
      assert seg[i] == key[0] && seg[j - 1] == key[|key| - 1];
    }
    assert seg[i..j] == key;
    TrimSpaceCharacterized(seg, key);
  }

  /** A JSON tag whose first segment is blank, such as `,omitempty`, hands the decision to the form tag. */
  lemma BlankJsonNameFallsToForm(field: StructField, blank: string, options: string)
    requires AllSpace(blank) && ',' !in blank && field.jsonTag == blank + "," + options
    ensures TagName(field) == if PickTagName(field.formTag) != "" then PickTagName(field.formTag) else field.name
  {
    var tag := field.jsonTag;
    assert blank <= tag && tag[|blank|] == ',';
    FirstFieldUnique(tag, ',', blank);
    BlankFirstSegment(tag);
  }

  /** A field tagged `json:"-"` without a form tag is reported under its Go name. */
  lemma DashTagFallsToFieldName(field: StructField)
    requires field.jsonTag == "-" && field.formTag == ""
    ensures TagName(field) == field.name
  {
  }
}
