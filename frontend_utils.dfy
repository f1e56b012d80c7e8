/** The frontend's small helpers: the form rules for passwords, the flags and base paths read
  * from the build environment, and the choice of the message shown for an API error. Build
  * variables are strings or absent; form values and error bodies are JSON values. */
module FrontendUtils {
  import opened Wrappers
  import opened JsValues

  /** A `boolean` parameter with the default `true`, as an absent argument takes it. */
  function WithDefaultTrue(v: JsValue): JsValue
  {
    if v.Undefined? then Bool(true) else v
  }

  const MinLengthRule: JsValue :=
    Obj([("value", NumberValue(8.0)), ("message", Str("Password must be at least 8 characters"))])

  /** `passwordRules(isRequired)`: the rules object, with `required` added to it when asked. */
  function PasswordRules(isRequired: JsValue): Props
  {
    var rules := [("minLength", MinLengthRule)];
    if Truthy(WithDefaultTrue(isRequired)) then Assign(rules, "required", Str("Password is required"))
    else rules
  }

  /** `minLength` is always 8 characters; `required` is present exactly when the rules are
    * required, which they are by default. */
  lemma PasswordRulesShape(isRequired: JsValue)
    ensures Lookup(PasswordRules(isRequired), "minLength") == MinLengthRule
    ensures Truthy(WithDefaultTrue(isRequired)) ==>
      Keys(PasswordRules(isRequired)) == ["minLength", "required"] &&
      Lookup(PasswordRules(isRequired), "required") == Str("Password is required")
    ensures !Truthy(WithDefaultTrue(isRequired)) ==>
      Keys(PasswordRules(isRequired)) == ["minLength"] && Lookup(PasswordRules(isRequired), "required") == Undefined
    ensures isRequired.Undefined? ==> Lookup(PasswordRules(isRequired), "required") == Str("Password is required")
  {
    assert "minLength" != "required";
  }

  /** The `required` member of `confirmPasswordRules(getValues, isRequired)`; its other member is
    * `validate`, modelled by `Validate`. */
  function ConfirmRequired(isRequired: JsValue): Option<string>
  {
    if Truthy(WithDefaultTrue(isRequired)) then Some("Password confirmation is required") else None
  }

  const Mismatch: string := "The passwords do not match"

  /** What reading `.password` of an undefined or null form value throws. */
  const TypeErrorReason: string := "TypeError"

  /** `validate(value)`: `getValues()` gives the form's values; the confirmation must be the
    * `password`, or `new_password` when `password` is falsy. */
  function Validate(values: JsValue, value: string): Result<JsValue>
  {
    if values.Undefined? || values.Null? then Err(TypeErrorReason)
    else
      var password := Or(Member(values, "password"), Member(values, "new_password"));
      Ok(if Str(value) == password then Bool(true) else Str(Mismatch))
  }

  /** The confirmation is accepted exactly when it equals the password (the new password when
    * there is none), and otherwise answered with the mismatch message, never anything else. */
  lemma ValidateSpec(values: JsValue, value: string)
    requires values.Obj?
    ensures Validate(values, value) == Ok(Bool(true)) <==>
      (if Truthy(Member(values, "password")) then Member(values, "password") == Str(value)
       else Member(values, "new_password") == Str(value))
    ensures Validate(values, value).Ok? &&
            (Validate(values, value).value == Bool(true) || Validate(values, value).value == Str(Mismatch))
  {
  }

  /** An empty password with no new password never confirms, not even an empty confirmation:
    * the falsy `""` gives way to the absent `new_password`. */
  lemma EmptyPasswordNeverConfirms(value: string)
    ensures Validate(Obj([("password", Str(""))]), value) == Ok(Str(Mismatch))
  {
    var values := Obj([("password", Str(""))]);
    assert Member(values, "new_password") == Undefined by {
      assert "password" != "new_password";
    }
  }

  /** `` `${v}` `` of a build variable: its text, or `undefined` when it is not set. */
  function EnvText(v: Option<string>): string
  {
    if v.Some? then v.value else "undefined"
  }

  /** `hideUserSections()` */
  predicate HideUserSections(enableUsersManagement: Option<string>)
  {
    EnvText(enableUsersManagement) == "False"
  }

  /** `enableHashHistory()` */
  predicate EnableHashHistory(enableHashHistory: Option<string>)
  {
    EnvText(enableHashHistory) == "True"
  }

  /** User sections are hidden only when the variable is exactly `False`, hash history is on
    * only when its variable is exactly `True`: an unset variable, `false` or `TRUE` count as
    * neither. */
  lemma EnvFlags(v: Option<string>)
    ensures HideUserSections(v) <==> v == Some("False")
    ensures EnableHashHistory(v) <==> v == Some("True")
    ensures !(HideUserSections(v) && EnableHashHistory(v))
  {
    assert "undefined" != "False" by {
      assert |"undefined"| != |"False"|;
    }
    assert "undefined" != "True" by {
      assert |"undefined"| != |"True"|;
    }
  }

  /** `PUBLIC_BASE_PATH || '/'`, and likewise the router's base path. */
  function BasePath(v: Option<string>): (path: string)
  {
    if v.Some? && v.value != "" then v.value else "/"
  }

  /** The base path is never empty: the variable when it is set to something, else `/`. */
  lemma BasePathDefault(v: Option<string>)
    ensures BasePath(v) != ""
    ensures BasePath(v) == "/" <==> v.None? || v.value == "" || v.value == "/"
    ensures v.Some? && v.value != "" ==> BasePath(v) == v.value
  {
  }

  const GenericError: string := "Something went wrong."

  /** The toast `showToast("Error", errorMessage, "error")` shows. */
  datatype Toast = Toast(title: string, message: JsValue, status: string)

  /** `handleError(err, showToast)`, given the error's body; reading `msg` of a first detail
    * item that is undefined or null throws instead of showing a toast. */
  function HandleError(body: JsValue): Result<Toast>
  {
    var detail := Member(body, "detail");
    if detail.Arr? && |detail.elems| > 0 then
      var first := detail.elems[0];
      if first.Undefined? || first.Null? then Err(TypeErrorReason)
      else Ok(Toast("Error", Member(first, "msg"), "error"))
    else Ok(Toast("Error", Or(detail, Str(GenericError)), "error"))
  }

  /** A non-empty list of details shows its first item's `msg`; any other truthy detail (an empty
    * list included) is shown as it is; without one the generic message is shown. */
  lemma HandleErrorMessage(body: JsValue)
    ensures var d := Member(body, "detail");
      (d.Arr? && |d.elems| > 0 && d.elems[0].Obj? ==> HandleError(body) == Ok(Toast("Error", Lookup(d.elems[0].fields, "msg"), "error"))) &&
      (!(d.Arr? && |d.elems| > 0) && Truthy(d) ==> HandleError(body) == Ok(Toast("Error", d, "error"))) &&
      (!Truthy(d) ==> HandleError(body) == Ok(Toast("Error", Str(GenericError), "error"))) &&
      (d == Arr([]) ==> HandleError(body) == Ok(Toast("Error", Arr([]), "error"))) &&
      (HandleError(body).Err? <==> d.Arr? && |d.elems| > 0 && (d.elems[0].Undefined? || d.elems[0].Null?))
  {
  }
}
