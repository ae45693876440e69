/**
 * The settings form of the dashboard: the state behind its inputs, the
 * personal-access-token (PAT) check whose latest request wins, the list
 * handlers of its multiselects, the submit conversion of the stale time and
 * the message that disables the submit button.
 *
 * The component form (`components/settings.js`) and the older form
 * (`settings.js`) share this logic; they differ only in the time text shown
 * when nothing is saved, which is the `defaultTime` of the class.
 */
module SettingsForm {
  import opened Wrappers
  import opened Seqs
  import opened JsNumber
  import opened InputParsing

  // ---------------------------------------------------------------------------
  // Values.

  /**
   * `patStatus`: `{}` before any check, `{ testing: true }` while one runs,
   * `{ valid: true, userName, repoOptions }` after a good answer and
   * `{ valid: false, message }` after a bad one.
   */
  datatype PatStatus =
    | Unchecked
    | Testing
    | Valid(userName: Option<string>, repoOptions: Option<seq<string>>)
    | Invalid(message: string)

  /** How a user-information query ends: the viewer's data, or an error with its HTTP status if it has one. */
  datatype Outcome =
    | Success(login: Option<string>, repoNames: Option<seq<string>>)
    | Failure(statusCode: Option<int>)

  /** What storage returned for the saved settings; every field may be missing. */
  datatype SavedSettings = SavedSettings(
    repos: Option<seq<string>>,
    labels: Option<seq<string>>,
    users: Option<seq<string>>,
    staleTime: Option<JsNum>)

  /** What the submit button writes: the token to the vault, the rest to user storage. */
  datatype Submission = Submission(
    token: string,
    repos: seq<string>,
    users: seq<string>,
    labels: seq<string>,
    staleTime: JsNum)

  const MinTokenLength: nat := 20
  const ShortTokenMessage: string := "Token is less than 20 characters in length"
  const AuthorizationMessage: string := "Token returned authorization error"
  const UnknownErrorMessage: string := "Unknown GitHub API error"

  const InvalidPatError: string := "Please enter a valid PAT"
  const NoRepositoryError: string := "Please select at least one repository"
  const StaleTimeError: string := "Please enter a valid stale time"

  /** The time text the component form starts with and restores when nothing is saved. */
  const ComponentsDefaultTime: string := "20160"

  /** The PAT status a finished query leads to. */
  function OutcomeStatus(o: Outcome): (p: PatStatus)
    ensures p.Valid? <==> o.Success?
    ensures o.Success? ==> p.userName == o.login && p.repoOptions == o.repoNames
    ensures o.Failure? && o.statusCode == Some(401) ==> p == Invalid(AuthorizationMessage)
    ensures o.Failure? && o.statusCode != Some(401) ==> p == Invalid(UnknownErrorMessage)
  {
    match o
    case Success(login, names) => Valid(login, names)
    case Failure(code) =>
      if code == Some(401) then Invalid(AuthorizationMessage) else Invalid(UnknownErrorMessage)
  }

  /** Whether the time text is missing or not a number: `!timeValue || isNaN(parseFloat(timeValue))`. */
  predicate BadTime(timeValue: string) {
    timeValue == "" || IsNaN(ParseFloat(timeValue))
  }

  /**
   * `getFormError()`: the first problem that keeps the form from being
   * submitted, checked in the order PAT, repositories, stale time; `None`
   * when there is none.
   */
  function FormError(patStatus: PatStatus, repoValue: seq<string>, timeValue: string): (r: Option<string>)
    ensures r == None <==> patStatus.Valid? && |repoValue| > 0 && !BadTime(timeValue)
    ensures !patStatus.Valid? ==> r == Some(InvalidPatError)
    ensures patStatus.Valid? && |repoValue| == 0 ==> r == Some(NoRepositoryError)
    ensures patStatus.Valid? && |repoValue| > 0 && BadTime(timeValue) ==> r == Some(StaleTimeError)
  {
    if !patStatus.Valid? then Some(InvalidPatError)
    else if |repoValue| == 0 then Some(NoRepositoryError)
    else if BadTime(timeValue) then Some(StaleTimeError)
    else None
  }

  /** The older form starts with no time text, so once PAT and repositories are fine the time is what it reports. */
  lemma EmptyTimeReported(p: PatStatus, repos: seq<string>)
    requires p.Valid? && repos != []
    ensures FormError(p, repos, "") == Some(StaleTimeError)
    ensures FormError(p, repos, ComponentsDefaultTime) == None
  {
    ParseFloatOfNonNumber("");
    DefaultStaleTimeIsTwoWeeks();
    assert !BadTime(ComponentsDefaultTime);
  }

  /** `x || fallback` for a stored list: a missing list reads as empty. */
  function OrEmpty(xs: Option<seq<string>>): (r: seq<string>)
    ensures xs.Some? ==> r == xs.value
    ensures xs.None? ==> r == []
  {
    if xs.Some? then xs.value else []
  }

  /**
   * The time text a saved stale time is restored as: its minutes when it is
   * truthy, the form's default otherwise (a missing, zero or NaN value).
   */
  function RestoredTime(staleTime: Option<JsNum>, defaultTime: string): string {
    if staleTime.Some? && JsNumber.Truthy(staleTime.value) then MinutesText(staleTime.value) else defaultTime
  }

  /** Restoring a whole number of minutes and submitting it in minutes writes the saved value back. */
  lemma RestoreThenSubmit(k: int, defaultTime: string)
    requires k != 0
    ensures var saved := Finite((k * Minute) as real);
      StaleTimeMillis(RestoredTime(Some(saved), defaultTime), Minute) == saved
  {
    var saved := Finite((k * Minute) as real);
    assert JsNumber.Truthy(saved);
    assert RestoredTime(Some(saved), defaultTime) == MinutesText(saved);
    MinutesRoundTrip(k);
  }

  /**
   * Submitting k minutes and restoring shows the text of k again: k as typed
   * below 1e21 in magnitude, its exponent form from there. A zero time is
   * not restored at all and shows the default instead.
   */
  lemma SubmitThenRestore(k: int, defaultTime: string)
    ensures var written := StaleTimeMillis(IntToString(k), Minute);
      RestoredTime(Some(written), defaultTime) == (if k == 0 then defaultTime else IntegerText(k))
    ensures var written := StaleTimeMillis(IntToString(k), Minute);
      k != 0 && -ExponentFrom < k < ExponentFrom ==> RestoredTime(Some(written), defaultTime) == IntToString(k)
  {
    WrittenMillis(k, Minute);
    RestoreOfMinutes(k, defaultTime);
  }

  /** The text of an integer k submitted with a unit writes k units. */
  lemma WrittenMillis(k: int, unit: int)
    ensures StaleTimeMillis(IntToString(k), unit) == Finite((k * unit) as real)
  {
    IntTextParses(k);
    StaleTimeOfParsed(IntToString(k), k as real, unit);
    MulOfInts(k, unit);
  }

  /** A saved whole number of minutes is shown as the text of that number, and zero as the default. */
  lemma RestoreOfMinutes(n: int, defaultTime: string)
    ensures RestoredTime(Some(Finite((n * Minute) as real)), defaultTime) == (if n == 0 then defaultTime else IntegerText(n))
  {
    var x := Finite((n * Minute) as real);
    if n != 0 {
      assert x.value != 0.0;
      var shown := DivPositive(x, Minute as real);
      assert shown.value * (Minute as real) == n as real * (Minute as real);
      assert shown == Finite(n as real);
      ToStringOfInteger(n);
    }
  }

  // ---------------------------------------------------------------------------
  // The form.

  class Form {
    var repoValue: seq<string>
    var labelValue: seq<string>
    var userValue: seq<string>
    /** The unit of the time box in milliseconds. */
    var timeUnit: int
    var timeValue: string
    var token: string
    var patStatus: PatStatus
    /** Whether a submission is being written. */
    var submitting: bool
    /** The number of the latest token check started. */
    var curFetchIndex: nat
    /** The time text shown when nothing is saved. */
    const defaultTime: string

    /** The component form: two weeks in minutes. */
    constructor Components()
      ensures repoValue == [] && labelValue == [] && userValue == []
      ensures timeUnit == Minute && timeValue == ComponentsDefaultTime && defaultTime == ComponentsDefaultTime
      ensures token == "" && patStatus == Unchecked && !submitting && curFetchIndex == 0
    {
      repoValue, labelValue, userValue := [], [], [];
      timeUnit, timeValue := Minute, ComponentsDefaultTime;
      token, patStatus, submitting := "", Unchecked, false;
      curFetchIndex := 0;
      defaultTime := ComponentsDefaultTime;
    }

    /** The older form: minutes, with an empty time box. */
    constructor Legacy()
      ensures repoValue == [] && labelValue == [] && userValue == []
      ensures timeUnit == Minute && timeValue == "" && defaultTime == ""
      ensures token == "" && patStatus == Unchecked && !submitting && curFetchIndex == 0
    {
      repoValue, labelValue, userValue := [], [], [];
      timeUnit, timeValue := Minute, "";
      token, patStatus, submitting := "", Unchecked, false;
      curFetchIndex := 0;
      defaultTime := "";
    }

    /**
     * `updateUserInfo(token)` up to the query: the status shows the check is
     * running and the returned tag is the new latest request number.
     */
    method StartCheck() returns (tag: nat)
      modifies this
      ensures curFetchIndex == old(curFetchIndex) + 1 && tag == curFetchIndex
      ensures patStatus == Testing
      ensures repoValue == old(repoValue) && labelValue == old(labelValue) && userValue == old(userValue)
      ensures timeUnit == old(timeUnit) && timeValue == old(timeValue) && token == old(token)
      ensures submitting == old(submitting)
    {
      patStatus := Testing;
      curFetchIndex := curFetchIndex + 1;
      tag := curFetchIndex;
    }

    /**
     * The answer to the check tagged `tag`: applied only if no later check
     * was started since, otherwise dropped.
     */
    method Complete(tag: nat, outcome: Outcome)
      modifies this
      ensures patStatus == (if tag == old(curFetchIndex) then OutcomeStatus(outcome) else old(patStatus))
      ensures curFetchIndex == old(curFetchIndex)
      ensures repoValue == old(repoValue) && labelValue == old(labelValue) && userValue == old(userValue)
      ensures timeUnit == old(timeUnit) && timeValue == old(timeValue) && token == old(token)
      ensures submitting == old(submitting)
    {
      if tag == curFetchIndex {
        patStatus := OutcomeStatus(outcome);
      }
    }

    /**
     * `componentDidMount`: put saved settings back into the form; a truthy
     * saved token is re-checked, and the tag of that check is returned. The
     * token box is filled only when settings were saved too.
     */
    method Restore(prevToken: Option<string>, prevSettings: Option<SavedSettings>) returns (tag: Option<nat>)
      modifies this
      ensures prevSettings.Some? ==>
        && repoValue == OrEmpty(prevSettings.value.repos)
        && labelValue == OrEmpty(prevSettings.value.labels)
        && userValue == OrEmpty(prevSettings.value.users)
        && timeValue == RestoredTime(prevSettings.value.staleTime, defaultTime)
        && token == (if Wrappers.Truthy(prevToken) then prevToken.value else "")
      ensures prevSettings.None? ==>
        && repoValue == old(repoValue) && labelValue == old(labelValue) && userValue == old(userValue)
        && timeValue == old(timeValue) && token == old(token)
      ensures Wrappers.Truthy(prevToken) ==>
        tag == Some(old(curFetchIndex) + 1) && curFetchIndex == old(curFetchIndex) + 1 && patStatus == Testing
      ensures !Wrappers.Truthy(prevToken) ==>
        && tag == None && curFetchIndex == old(curFetchIndex)
        && patStatus == (if prevSettings.Some? then Unchecked else old(patStatus))
      ensures timeUnit == old(timeUnit) && submitting == old(submitting)
    {
      if prevSettings.Some? {
        var saved := prevSettings.value;
        repoValue := OrEmpty(saved.repos);
        labelValue := OrEmpty(saved.labels);
        userValue := OrEmpty(saved.users);
        timeValue := RestoredTime(saved.staleTime, defaultTime);
        patStatus := if Wrappers.Truthy(prevToken) then Valid(None, None) else Unchecked;
        token := if Wrappers.Truthy(prevToken) then prevToken.value else "";
      }
      if Wrappers.Truthy(prevToken) {
        var t := StartCheck();
        tag := Some(t);
      } else {
        tag := None;
      }
    }

    /**
     * `handlePATToken`: the box takes the new text; a text shorter than 20
     * characters is marked invalid and not checked, a longer one starts a
     * check whose tag is returned.
     */
    method HandlePatToken(t: string) returns (tag: Option<nat>)
      modifies this
      ensures token == t
      ensures |t| < MinTokenLength ==>
        tag == None && patStatus == Invalid(ShortTokenMessage) && curFetchIndex == old(curFetchIndex)
      ensures |t| >= MinTokenLength ==>
        tag == Some(old(curFetchIndex) + 1) && curFetchIndex == old(curFetchIndex) + 1 && patStatus == Testing
      ensures repoValue == old(repoValue) && labelValue == old(labelValue) && userValue == old(userValue)
      ensures timeUnit == old(timeUnit) && timeValue == old(timeValue) && submitting == old(submitting)
    {
      token := t;
      if |t| < MinTokenLength {
        patStatus := Invalid(ShortTokenMessage);
        tag := None;
      } else {
        var n := StartCheck();
        tag := Some(n);
      }
    }

    /**
     * The token handler as evidently intended: a short token also outdates
     * every check still running, so none of them can mark it valid later.
     */
    method HandlePatTokenGuarded(t: string) returns (tag: Option<nat>)
      modifies this
      ensures token == t && curFetchIndex == old(curFetchIndex) + 1
      ensures |t| < MinTokenLength ==> tag == None && patStatus == Invalid(ShortTokenMessage)
      ensures |t| >= MinTokenLength ==> tag == Some(curFetchIndex) && patStatus == Testing
      ensures repoValue == old(repoValue) && labelValue == old(labelValue) && userValue == old(userValue)
      ensures timeUnit == old(timeUnit) && timeValue == old(timeValue) && submitting == old(submitting)
    {
      token := t;
      if |t| < MinTokenLength {
        patStatus := Invalid(ShortTokenMessage);
        curFetchIndex := curFetchIndex + 1;
        tag := None;
      } else {
        var n := StartCheck();
        tag := Some(n);
      }
    }

    /** `handlePATRemove`: the token box and its status are cleared. */
    method HandlePatRemove()
      modifies this
      ensures token == "" && patStatus == Unchecked
      ensures curFetchIndex == old(curFetchIndex)
      ensures repoValue == old(repoValue) && labelValue == old(labelValue) && userValue == old(userValue)
      ensures timeUnit == old(timeUnit) && timeValue == old(timeValue) && submitting == old(submitting)
    {
      token, patStatus := "", Unchecked;
    }

    /**
     * `handleSubmit`: what is written, with the stale time converted to
     * milliseconds; `submitting` is back to false once the writes are done.
     */
    method HandleSubmit() returns (s: Submission)
      modifies this
      ensures s == Submission(token, repoValue, userValue, labelValue, StaleTimeMillis(timeValue, timeUnit))
      ensures !submitting
      ensures repoValue == old(repoValue) && labelValue == old(labelValue) && userValue == old(userValue)
      ensures timeUnit == old(timeUnit) && timeValue == old(timeValue) && token == old(token)
      ensures patStatus == old(patStatus) && curFetchIndex == old(curFetchIndex)
    {
      submitting := true;
      s := Submission(token, repoValue, userValue, labelValue, StaleTimeMillis(timeValue, timeUnit));
      submitting := false;
    }

    /** The repository box's "create": newly parsed names not selected yet, before the selection. */
    method OnCreateRepo(name: string)
      modifies this
      ensures repoValue == PrependNew(SplitRepositoryNames(name), old(repoValue))
      ensures labelValue == old(labelValue) && userValue == old(userValue) && token == old(token)
      ensures timeUnit == old(timeUnit) && timeValue == old(timeValue)
      ensures patStatus == old(patStatus) && curFetchIndex == old(curFetchIndex) && submitting == old(submitting)
    {
      repoValue := PrependNew(SplitRepositoryNames(name), repoValue);
    }

    /** The label box's "create": the typed name is appended, even if it is already selected. */
    method OnCreateLabel(name: string)
      modifies this
      ensures labelValue == old(labelValue) + [name]
      ensures repoValue == old(repoValue) && userValue == old(userValue) && token == old(token)
      ensures timeUnit == old(timeUnit) && timeValue == old(timeValue)
      ensures patStatus == old(patStatus) && curFetchIndex == old(curFetchIndex) && submitting == old(submitting)
    {
      labelValue := labelValue + [name];
    }

    /** The label box's "change": the names of the chosen entries, in order. */
    method OnChangeLabels(values: seq<LabelChoice>)
      modifies this
      ensures labelValue == ChoiceNames(values)
      ensures repoValue == old(repoValue) && userValue == old(userValue) && token == old(token)
      ensures timeUnit == old(timeUnit) && timeValue == old(timeValue)
      ensures patStatus == old(patStatus) && curFetchIndex == old(curFetchIndex) && submitting == old(submitting)
    {
      labelValue := ChoiceNames(values);
    }

    /** The user box's "create": newly parsed logins not listed yet, before the list. */
    method OnCreateUser(name: string)
      modifies this
      ensures userValue == PrependNew(SplitLogins(name), old(userValue))
      ensures repoValue == old(repoValue) && labelValue == old(labelValue) && token == old(token)
      ensures timeUnit == old(timeUnit) && timeValue == old(timeValue)
      ensures patStatus == old(patStatus) && curFetchIndex == old(curFetchIndex) && submitting == old(submitting)
    {
      userValue := PrependNew(SplitLogins(name), userValue);
    }

    /** The time box's and the unit selector's "change". */
    method OnTimeChange(value: string, unit: int)
      modifies this
      ensures timeValue == value && timeUnit == unit
      ensures repoValue == old(repoValue) && labelValue == old(labelValue) && userValue == old(userValue)
      ensures token == old(token) && patStatus == old(patStatus)
      ensures curFetchIndex == old(curFetchIndex) && submitting == old(submitting)
    {
      timeValue, timeUnit := value, unit;
    }
  }

  // ---------------------------------------------------------------------------
  // Races between token checks.

  /** Two checks whose answers come back in reverse order: the later check decides the status. */
  method LatestCheckWins(first: Outcome, second: Outcome) returns (s: PatStatus)
    ensures s == OutcomeStatus(second)
  {
    var f := new Form.Components();
    var t1 := f.StartCheck();
    var t2 := f.StartCheck();
    f.Complete(t2, second);
    f.Complete(t1, first);
    s := f.patStatus;
  }

  /**
   * As written: a long token is typed, then shortened before its check
   * answers. The late answer is still applied, so the short token ends up
   * marked valid and the form raises no PAT error.
   */
  method ShortTokenTakesLateAnswer(long: string, short: string, login: Option<string>)
    returns (token: string, s: PatStatus, error: Option<string>)
    requires |long| >= MinTokenLength && |short| < MinTokenLength
    ensures token == short && s == Valid(login, None)
    ensures error != Some(InvalidPatError)
  {
    var f := new Form.Components();
    var tag := f.HandlePatToken(long);
    var _ := f.HandlePatToken(short);
    f.Complete(tag.value, Success(login, None));
    token, s, error := f.token, f.patStatus, FormError(f.patStatus, f.repoValue, f.timeValue);
  }

  /** Corrected: with the guarded handler the late answer is dropped and the short token stays invalid. */
  method GuardedShortTokenStaysInvalid(long: string, short: string, outcome: Outcome)
    returns (token: string, s: PatStatus, error: Option<string>)
    requires |long| >= MinTokenLength && |short| < MinTokenLength
    ensures token == short && s == Invalid(ShortTokenMessage)
    ensures error == Some(InvalidPatError)
  {
    var f := new Form.Components();
    var tag := f.HandlePatTokenGuarded(long);
    var _ := f.HandlePatTokenGuarded(short);
    f.Complete(tag.value, outcome);
    token, s, error := f.token, f.patStatus, FormError(f.patStatus, f.repoValue, f.timeValue);
  }
}
