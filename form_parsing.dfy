/** Schema-driven form parsing of shared/src/form.ts. A `URLSearchParams` is the sequence of
    its decoded name/value pairs, in order, a name possibly repeated; a schema contributes
    only its key list. */
module FormParsing {

  import opened Wrappers
  import opened JsObjects

  type FormData = seq<(string, string)>

  predicate NoPairBefore(form: FormData, key: string, n: int)
    requires n <= |form|
  {
    forall j :: 0 <= j < n ==> form[j].0 != key
  }

  /** `formData.get(key)`: the value of the first pair with that name, `None` for null. */
  function FormGet(form: FormData, key: string): (r: Option<string>)
    ensures r.None? <==> NoPairBefore(form, key, |form|)
    ensures r.Some? ==> exists i :: 0 <= i < |form| && form[i] == (key, r.value) && NoPairBefore(form, key, i)
  {
    if form == [] then None
    else if form[0].0 == key then
      assert NoPairBefore(form, key, 0);
      Some(form[0].1)
    else
      var r := FormGet(form[1..], key);
      if r.Some? then
        var i :| 0 <= i < |form[1..]| && form[1..][i] == (key, r.value) && NoPairBefore(form[1..], key, i);
        assert form[i + 1] == (key, r.value) && NoPairBefore(form, key, i + 1);
        r
      else
        assert NoPairBefore(form, key, |form|) by {
          forall j | 0 <= j < |form|
            ensures form[j].0 != key
          {
            if j > 0 {
              assert form[j] == form[1..][j - 1];
            }
          }
        }
        r
  }

  /** `value || ""`: a missing or empty value becomes "". */
  function FieldValue(form: FormData, key: string): string {
    match FormGet(form, key)
    case Some(v) => if v == "" then "" else v
    case None => ""
  }

  /** `parseSchemaFields`: one string per schema key, in key order. */
  function ParseSchemaFields(form: FormData, schemaKeys: seq<string>): (r: Object<string>)
    ensures Keys(r) == schemaKeys
  {
    if schemaKeys == [] then []
    else [(schemaKeys[0], FieldValue(form, schemaKeys[0]))] + ParseSchemaFields(form, schemaKeys[1..])
  }

  /** `parseNotificationPreferences`: one flag per schema key, in key order. */
  function ParseNotificationPreferences(form: FormData, schemaKeys: seq<string>): (r: Object<bool>)
    ensures Keys(r) == schemaKeys
  {
    if schemaKeys == [] then []
    else [(schemaKeys[0], FormGet(form, schemaKeys[0]) == Some("true"))]
         + ParseNotificationPreferences(form, schemaKeys[1..])
  }

  /** The parsed value of a schema key is the value of the first pair with that name, and
      "" when there is none. */
  lemma {:induction false} SchemaFieldValue(form: FormData, schemaKeys: seq<string>, i: int)
    requires 0 <= i < |schemaKeys|
    ensures var v := ParseSchemaFields(form, schemaKeys)[i].1;
            (v == "" <==> NoPairBefore(form, schemaKeys[i], |form|)
                          || exists k :: 0 <= k < |form| && form[k] == (schemaKeys[i], "")
                                          && NoPairBefore(form, schemaKeys[i], k))
            && (v != "" ==> exists k :: 0 <= k < |form| && form[k] == (schemaKeys[i], v)
                                        && NoPairBefore(form, schemaKeys[i], k))
  {
    if i > 0 {
      SchemaFieldValue(form, schemaKeys[1..], i - 1);
    } else {
      var key := schemaKeys[0];
      var r := FormGet(form, key);
      if r.Some? {
        var k :| 0 <= k < |form| && form[k] == (key, r.value) && NoPairBefore(form, key, k);
        forall k' | 0 <= k' < |form| && form[k'] == (key, "") && NoPairBefore(form, key, k')
          ensures r.value == ""
        {
          assert k' == k;
        }
      }
    }
  }

  /** Pairs whose names are not schema keys are ignored. */
  lemma {:induction false} SchemaFieldsIgnoreOthers(before: FormData, after: FormData, name: string,
                                                    value: string, schemaKeys: seq<string>)
    requires name !in schemaKeys
    ensures ParseSchemaFields(before + [(name, value)] + after, schemaKeys)
            == ParseSchemaFields(before + after, schemaKeys)
    ensures ParseNotificationPreferences(before + [(name, value)] + after, schemaKeys)
            == ParseNotificationPreferences(before + after, schemaKeys)
  {
    if schemaKeys != [] {
      FormGetIgnores(before, after, name, value, schemaKeys[0]);
      SchemaFieldsIgnoreOthers(before, after, name, value, schemaKeys[1..]);
    }
  }

  /** A pair with another name does not change what `get` returns. */
  lemma {:induction false} FormGetIgnores(before: FormData, after: FormData, name: string,
                                          value: string, key: string)
    requires name != key
    ensures FormGet(before + [(name, value)] + after, key) == FormGet(before + after, key)
    decreases |before|
  {
    if before == [] {
      assert before + [(name, value)] + after == [(name, value)] + after;
      assert ([(name, value)] + after)[1..] == after;
      assert before + after == after;
    } else {
      var form := before + [(name, value)] + after;
      assert form[0] == before[0] && (before + after)[0] == before[0];
      assert form[1..] == before[1..] + [(name, value)] + after;
      assert (before + after)[1..] == before[1..] + after;
      FormGetIgnores(before[1..], after, name, value, key);
    }
  }

  /** A flag is set iff the first pair with its name has exactly the value "true". */
  lemma {:induction false} PreferenceFlag(form: FormData, schemaKeys: seq<string>, i: int)
    requires 0 <= i < |schemaKeys|
    ensures ParseNotificationPreferences(form, schemaKeys)[i].1
            <==> exists k :: 0 <= k < |form| && form[k] == (schemaKeys[i], "true")
                             && NoPairBefore(form, schemaKeys[i], k)
  {
    if i > 0 {
      PreferenceFlag(form, schemaKeys[1..], i - 1);
    } else {
      var key := schemaKeys[0];
      var r := FormGet(form, key);
      if r.Some? {
        var k :| 0 <= k < |form| && form[k] == (key, r.value) && NoPairBefore(form, key, k);
        forall k' | 0 <= k' < |form| && form[k'] == (key, "true") && NoPairBefore(form, key, k')
          ensures r.value == "true"
        {
          assert k' == k;
        }
      }
    }
  }
}
