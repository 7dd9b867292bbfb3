/** The admin settings page (src/pages/admin/Settings.jsx): the site
    settings form, saved by updating the existing row or inserting the
    first one, and the account form, which checks a new email and password
    before sending them to the auth service. The page's messages are kept
    as the texts it shows. */
module Settings {
  import opened Remote
  import opened Content

  /** The settings shown before (or without) a stored row. */
  const DefaultSettings := SiteSettings(None, "المنصة التعليمية", "")

  /** The error code the service returns for a single-row query that found no row. */
  const NoRowsCode := "PGRST116"

  const MinPasswordLength := 6

  const MismatchMessage := "كلمات المرور غير متطابقة"
  const TooShortMessage := "يجب أن تكون كلمة المرور 6 أحرف على الأقل"
  const BothUpdatedMessage := "تم تحديث البريد وكلمة المرور بنجاح (راجع بريدك لتأكيد التغيير إذا لزم الأمر)"
  const EmailUpdatedMessage := "تم تحديث البريد بنجاح (راجع بريدك الجديد لتأكيد التغيير)"
  const PasswordUpdatedMessage := "تم تغيير كلمة المرور بنجاح"
  const UpdateFallbackMessage := "خطأ أثناء التحديث"

  /** The `updates` object handed to the auth service: each field present or absent. */
  datatype UserUpdate = UserUpdate(email: Option<string>, password: Option<string>)

  predicate IsEmpty(u: UserUpdate) {
    u.email.None? && u.password.None?
  }

  /** Why the account form was refused before anything was sent. */
  datatype AuthError = PasswordMismatch | PasswordTooShort

  datatype Validation = Accepted(update: UserUpdate) | Refused(error: AuthError)

  /** The account form's checks: the email is sent when given; a given
      password must first equal its confirmation and then be at least six
      characters long, and is sent only then. */
  function BuildUpdate(newEmail: string, newPassword: string, confirmPassword: string): (r: Validation)
    ensures r == Refused(PasswordMismatch) <==> newPassword != "" && newPassword != confirmPassword
    ensures r == Refused(PasswordTooShort) <==>
      newPassword != "" && newPassword == confirmPassword && |newPassword| < MinPasswordLength
    ensures r.Accepted? ==> (r.update.email.Some? <==> newEmail != "")
    ensures r.Accepted? && r.update.email.Some? ==> r.update.email.value == newEmail
    ensures r.Accepted? ==> (r.update.password.Some? <==> newPassword != "")
    ensures r.Accepted? && r.update.password.Some? ==>
      r.update.password.value == newPassword && newPassword == confirmPassword && |newPassword| >= MinPasswordLength
    ensures r == Accepted(UserUpdate(None, None)) <==> newEmail == "" && newPassword == ""
  {
    var email := if newEmail != "" then Some(newEmail) else None;
    if newPassword == "" then Accepted(UserUpdate(email, None))
    else if newPassword != confirmPassword then Refused(PasswordMismatch)
    else if |newPassword| < MinPasswordLength then Refused(PasswordTooShort)
    else Accepted(UserUpdate(email, Some(newPassword)))
  }

  /** The text shown for a refusal. */
  function ErrorText(e: AuthError): (text: string)
    ensures text != ""
  {
    match e
    case PasswordMismatch => MismatchMessage
    case PasswordTooShort => TooShortMessage
  }

  /** The success message, chosen by which fields were sent. */
  function SuccessMessage(u: UserUpdate): (text: string)
    requires !IsEmpty(u)
    ensures text == BothUpdatedMessage <==> u.email.Some? && u.password.Some?
    ensures text == EmailUpdatedMessage <==> u.email.Some? && u.password.None?
    ensures text == PasswordUpdatedMessage <==> u.email.None? && u.password.Some?
  {
    if u.email.Some? && u.password.Some? then BothUpdatedMessage
    else if u.email.Some? then EmailUpdatedMessage
    else PasswordUpdatedMessage
  }

  /** The columns a save writes: the title and the timetable URL, nothing else. */
  datatype SettingsWrite = SettingsWrite(siteTitle: string, timetableUrl: string)

  function WriteOf(s: SiteSettings): SettingsWrite {
    SettingsWrite(s.siteTitle, s.timetableUrl)
  }

  /** What the page asks of the hosted service. */
  datatype Request =
    | UpdateSettings(id: string, write: SettingsWrite)
    | InsertSettings(write: SettingsWrite)
    | FetchSettings
    | UpdateUser(update: UserUpdate)

  /** The alerts of the settings form. */
  datatype Notice = SettingsSaved | SaveFailed

  /** Whether a fetch result replaces the shown settings: only a returned row
      does, and only when the query reported no error or just "no row". */
  predicate FetchApplies(data: Option<SiteSettings>, errorCode: Option<string>) {
    (errorCode.None? || errorCode.value == NoRowsCode) && data.Some?
  }

  class SettingsPage {
    var settings: SiteSettings
    var loading: bool
    var saving: bool
    var newEmail: string
    var newPassword: string
    var confirmPassword: string
    var authSaving: bool
    var authError: string
    var authSuccess: string

    constructor ()
      ensures settings == DefaultSettings && loading && !saving && !authSaving
      ensures newEmail == "" && newPassword == "" && confirmPassword == ""
      ensures authError == "" && authSuccess == ""
    {
      settings := DefaultSettings;
      loading, saving, authSaving := true, false, false;
      newEmail, newPassword, confirmPassword := "", "", "";
      authError, authSuccess := "", "";
    }

    /** `fetchSettings` once the query answers: `errorCode` is the code of
        the error it reported, if any. A "no row" error is not an error, and
        without a row the settings shown stay as they were; the page leaves
        loading in every case. */
    method OnSettingsFetched(data: Option<SiteSettings>, errorCode: Option<string>)
      modifies this`settings, this`loading
      ensures settings == if FetchApplies(data, errorCode) then data.value else old(settings)
      ensures !loading
    {
      if errorCode.None? || errorCode.value == NoRowsCode {
        if data.Some? {
          settings := data.value;
        }
      }
      loading := false;
    }

    /** The signed-in user's email fills the email field, when there is a user. */
    method OnUserFetched(email: Option<string>)
      modifies this`newEmail
      ensures newEmail == if email.Some? then email.value else old(newEmail)
    {
      if email.Some? {
        newEmail := email.value;
      }
    }

    /** `handleSubmit` of the settings form: an update of the row by its id
        when the shown settings have one, an insert otherwise; on success the
        settings are fetched again. `saving` is off again afterwards. */
    method HandleSubmit(save: Status) returns (requests: seq<Request>, notice: Notice)
      modifies this`saving
      ensures |requests| >= 1
      ensures settings.id.Some? ==> requests[0] == UpdateSettings(settings.id.value, WriteOf(settings))
      ensures settings.id.None? ==> requests[0] == InsertSettings(WriteOf(settings))
      ensures save.Done? ==> |requests| == 2 && requests[1] == FetchSettings && notice == SettingsSaved
      ensures save.Failed? ==> |requests| == 1 && notice == SaveFailed
      ensures !saving
    {
      saving := true;
      if settings.id.Some? {
        requests := [UpdateSettings(settings.id.value, SettingsWrite(settings.siteTitle, settings.timetableUrl))];
      } else {
        requests := [InsertSettings(SettingsWrite(settings.siteTitle, settings.timetableUrl))];
      }
      if save.Failed? {
        notice := SaveFailed;
      } else {
        notice := SettingsSaved;
        requests := requests + [FetchSettings];
      }
      saving := false;
    }

    /** `handleAuthUpdate`. `result` is the outcome of the auth update,
        consulted only when it is sent. Both messages are cleared first; a
        refused form shows its error; an empty update sends nothing; after a
        send, success shows the message for the fields sent and clears the
        two password fields (the email stays), failure shows the service's
        message or the fallback. */
    method HandleAuthUpdate(result: Status) returns (requests: seq<Request>)
      modifies this`authError, this`authSuccess, this`authSaving, this`newPassword, this`confirmPassword
      ensures var v := BuildUpdate(old(newEmail), old(newPassword), old(confirmPassword));
        && (v.Refused? ==>
              requests == [] && authError == ErrorText(v.error) && authSuccess == ""
              && authSaving == old(authSaving) && newPassword == old(newPassword) && confirmPassword == old(confirmPassword))
        && (v.Accepted? && IsEmpty(v.update) ==>
              requests == [] && authError == "" && authSuccess == ""
              && authSaving == old(authSaving) && newPassword == old(newPassword) && confirmPassword == old(confirmPassword))
        && (v.Accepted? && !IsEmpty(v.update) ==>
              requests == [UpdateUser(v.update)] && !authSaving
              && (result.Done? ==>
                    authError == "" && authSuccess == SuccessMessage(v.update)
                    && newPassword == "" && confirmPassword == "")
              && (result.Failed? ==>
                    authError == OrElse(result.message, UpdateFallbackMessage) && authSuccess == ""
                    && newPassword == old(newPassword) && confirmPassword == old(confirmPassword)))
    {
      authError := "";
      authSuccess := "";
      requests := [];
      var email: Option<string> := None;
      var password: Option<string> := None;
      if newEmail != "" {
        email := Some(newEmail);
      }
      if newPassword != "" {
        if newPassword != confirmPassword {
          authError := MismatchMessage;
          return;
        }
        if |newPassword| < MinPasswordLength {
          authError := TooShortMessage;
          return;
        }
        password := Some(newPassword);
      }
      var updates := UserUpdate(email, password);
      if IsEmpty(updates) {
        return;
      }
      authSaving := true;
      requests := [UpdateUser(updates)];
      if result.Failed? {
        authError := if result.message != "" then result.message else UpdateFallbackMessage;
      } else {
        if email.Some? && password.Some? {
          authSuccess := BothUpdatedMessage;
        } else if email.Some? {
          authSuccess := EmailUpdatedMessage;
        } else {
          authSuccess := PasswordUpdatedMessage;
        }
        newPassword := "";
        confirmPassword := "";
      }
      authSaving := false;
    }
  }

  /** A client of the page: a matching password of six characters with the
      email left as it is goes out together with the email, and a second
      submit after success sends only the email. */
  method ChangePasswordTwice(page: SettingsPage, email: string, password: string)
    returns (first: seq<Request>, second: seq<Request>)
    requires email != "" && |password| >= MinPasswordLength
    modifies page
    ensures first == [UpdateUser(UserUpdate(Some(email), Some(password)))]
    ensures second == [UpdateUser(UserUpdate(Some(email), None))]
    ensures page.authSuccess == EmailUpdatedMessage
  {
    page.newEmail := email;
    page.newPassword := password;
    page.confirmPassword := password;
    first := page.HandleAuthUpdate(Done);
    second := page.HandleAuthUpdate(Done);
  }
}
