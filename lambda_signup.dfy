/** `lambdaHandler` of functions/signup-processor/index.ts: form fields copied into the
    sign-up structure and echoed back as JSON. The form is the decoded name/value pairs of
    the body; decoding it is done outside and may fail (`None`), which the handler's
    `catch` turns into a 500. */
module LambdaSignup {

  import opened Wrappers
  import opened FormParsing

  /** `formData.getAll(key)`: every value given for the name, in order. */
  function GetAll(form: FormData, key: string): (vs: seq<string>)
    ensures forall v :: v in vs <==> exists i :: 0 <= i < |form| && form[i] == (key, v)
  {
    if form == [] then []
    else
      var rest := GetAll(form[1..], key);
      assert forall v :: (exists i :: 1 <= i < |form| && form[i] == (key, v))
                         <==> (exists i :: 0 <= i < |form[1..]| && form[1..][i] == (key, v)) by {
        forall v | exists i :: 0 <= i < |form[1..]| && form[1..][i] == (key, v)
          ensures exists i :: 1 <= i < |form| && form[i] == (key, v)
        {
          var i :| 0 <= i < |form[1..]| && form[1..][i] == (key, v);
          assert form[i + 1] == (key, v);
        }
        forall v | exists i :: 1 <= i < |form| && form[i] == (key, v)
          ensures exists i :: 0 <= i < |form[1..]| && form[1..][i] == (key, v)
        {
          var i :| 1 <= i < |form| && form[i] == (key, v);
          assert form[1..][i - 1] == (key, v);
        }
      }
      if form[0].0 == key then [form[0].1] + rest else rest
  }

  datatype ContactInfo = ContactInfo(phoneNumber: Option<string>, cityId: Option<string>)

  datatype Preferences = Preferences(preferredLanguage: Option<string>, unitPreference: Option<string>,
                                     timeFormat: Option<string>)

  datatype Notifications = Notifications(dailyFullmoon: bool, dailyNasa: bool, dailyWeatherOutfit: bool,
                                         dailyRecipe: bool, instantSunset: bool,
                                         dailyNotificationTime: Option<string>)

  datatype UserData = UserData(contactInfo: ContactInfo, preferences: Preferences, notifications: Notifications)

  /** The `userData` literal; a missing field is `null` (`None`). */
  function MapFields(form: FormData): UserData {
    var selected := GetAll(form, "notifications");
    UserData(
      ContactInfo(FormGet(form, "phone-number"), FormGet(form, "city")),
      Preferences(FormGet(form, "preferredLanguage"), FormGet(form, "unitPreference"), FormGet(form, "timeFormat")),
      Notifications("fullmoon" in selected, "nasa" in selected, "weatherOutfit" in selected,
                    "recipe" in selected, "sunset" in selected, FormGet(form, "notificationTime")))
  }

  /** The JSON body: the echoed data on success, the fixed error object otherwise. */
  datatype Body = Success(message: string, data: UserData) | Failure(error: string, message: string)

  datatype Response = Response(statusCode: int, headers: seq<(string, string)>, body: Body)

  function LambdaHandler(form: Option<FormData>): (r: Response)
    ensures r.headers == [("Content-Type", "application/json")]
    ensures form.Some? ==> r.statusCode == 200 && r.body == Success("Sign-up successful", MapFields(form.value))
    ensures form.None? ==> r == Response(500, [("Content-Type", "application/json")],
                                         Failure("Internal server error", "Failed to process signup request"))
  {
    match form
    case Some(f) => Response(200, [("Content-Type", "application/json")], Success("Sign-up successful", MapFields(f)))
    case None => Response(500, [("Content-Type", "application/json")],
                          Failure("Internal server error", "Failed to process signup request"))
  }

  /** A flag is set iff its token is among the `notifications` values, wherever it occurs. */
  lemma FlagsFromTokens(form: FormData)
    ensures var n := MapFields(form).notifications;
            (n.dailyFullmoon <==> exists i :: 0 <= i < |form| && form[i] == ("notifications", "fullmoon"))
            && (n.dailyNasa <==> exists i :: 0 <= i < |form| && form[i] == ("notifications", "nasa"))
            && (n.dailyWeatherOutfit <==> exists i :: 0 <= i < |form| && form[i] == ("notifications", "weatherOutfit"))
            && (n.dailyRecipe <==> exists i :: 0 <= i < |form| && form[i] == ("notifications", "recipe"))
            && (n.instantSunset <==> exists i :: 0 <= i < |form| && form[i] == ("notifications", "sunset"))
  {
  }

  /** The contact, preference and time fields are the first values of their own names and
      of no other: a pair under any other name changes none of them. */
  lemma FieldsFromNames(before: FormData, after: FormData, name: string, value: string)
    requires name !in ["phone-number", "city", "preferredLanguage", "unitPreference", "timeFormat",
                       "notificationTime", "notifications"]
    ensures MapFields(before + [(name, value)] + after) == MapFields(before + after)
  {
    FormGetIgnores(before, after, name, value, "phone-number");
    FormGetIgnores(before, after, name, value, "city");
    FormGetIgnores(before, after, name, value, "preferredLanguage");
    FormGetIgnores(before, after, name, value, "unitPreference");
    FormGetIgnores(before, after, name, value, "timeFormat");
    FormGetIgnores(before, after, name, value, "notificationTime");
    GetAllIgnores(before, after, name, value, "notifications");
  }

  lemma {:induction false} GetAllIgnores(before: FormData, after: FormData, name: string, value: string, key: string)
    requires name != key
    ensures GetAll(before + [(name, value)] + after, key) == GetAll(before + after, key)
    decreases |before|
  {
    if before == [] {
      assert before + [(name, value)] + after == [(name, value)] + after;
      assert ([(name, value)] + after)[1..] == after;
      assert before + after == after;
    } else {
      var form := before + [(name, value)] + after;
      assert form[0] == before[0] && (before + after)[0] == before[0];
      assert form[1..] == before[1..] + [(name, value)] + after;
      assert (before + after)[1..] == before[1..] + after;
      GetAllIgnores(before[1..], after, name, value, key);
    }
  }
}
