/**
 * The root component of the dashboard: which screen it shows, what it hands
 * the data view for the selected profile, and how reloading and switching
 * profiles change its state.
 */
module Dashboard {
  import opened Wrappers
  import opened JsNumber
  import opened ProfileEditor

  /** The stored settings: a list of profiles and the index of the selected one; either may be missing. */
  datatype Settings = Settings(profileList: Option<seq<Profile>>, currentProfileIndex: Option<int>)

  /** What the data view receives for the selected profile. */
  datatype DataProps = DataProps(
    key: int,
    companyUsers: seq<string>,
    scanRepos: seq<string>,
    ignoreLabels: seq<string>,
    staleTime: JsNum)

  /** One entry of the profile selector: its value and the text shown. */
  datatype ProfileOption = ProfileOption(value: int, text: string)

  /** The data part of the full dashboard. */
  datatype DataView =
    | LoadingSpinner
    | Data(props: DataProps)
      /** `profileList[currentProfileIndex]` names no profile (no index, or one out of range), so reading its fields throws. */
    | NoProfile

  /** What `getDashboardBody` renders. */
  datatype Screen =
    | Spinner
    | MissingEmployees
    | SettingsOnly
      /** The settings have no `profileList`, so indexing it throws before anything is rendered. */
    | Crashed
    | Full(view: DataView, options: seq<ProfileOption>)

  /** `profileList[currentProfileIndex]`, when that is a profile. */
  function SelectedProfile(s: Settings): (p: Option<Profile>)
    ensures p.Some? <==>
      s.profileList.Some? && s.currentProfileIndex.Some? && 0 <= s.currentProfileIndex.value < |s.profileList.value|
    ensures p.Some? ==> p.value == s.profileList.value[s.currentProfileIndex.value]
  {
    if s.profileList.Some? && s.currentProfileIndex.Some?
       && 0 <= s.currentProfileIndex.value < |s.profileList.value|
    then Some(s.profileList.value[s.currentProfileIndex.value])
    else None
  }

  /** The props of the data view: employees then the profile's users, and the stale time in milliseconds. */
  function PropsOf(index: int, employees: seq<string>, p: Profile): (d: DataProps)
    ensures d.key == index
    ensures |d.companyUsers| == |employees| + |p.users|
    ensures d.companyUsers[..|employees|] == employees && d.companyUsers[|employees|..] == p.users
    ensures d.scanRepos == p.repos && d.ignoreLabels == p.labels
    ensures p.staleTimeValue.Finite? ==> d.staleTime == Finite(p.staleTimeValue.value * p.staleTimeUnit as real)
    ensures p.staleTimeValue.NaN? ==> d.staleTime.NaN?
  {
    DataProps(index, employees + p.users, p.repos, p.labels, Mul(p.staleTimeValue, Finite(p.staleTimeUnit as real)))
  }

  /** The profile selector: one option per profile, valued by its index and showing its name. */
  function ProfileOptions(profiles: seq<Profile>): (r: seq<ProfileOption>)
    ensures |r| == |profiles|
    ensures forall i :: 0 <= i < |r| ==> r[i] == ProfileOption(i, profiles[i].profileName)
  {
    if profiles == [] then []
    else
      var init := ProfileOptions(profiles[..|profiles| - 1]);
      init + [ProfileOption(|profiles| - 1, profiles[|profiles| - 1].profileName)]
  }

  /**
   * `getDashboardBody`: a spinner while the first load runs, an error when no
   * employee list was found, only the settings form while token or settings
   * are missing, a throw when the settings hold no profile list, and the full
   * dashboard otherwise.
   */
  function ScreenOf(loading: bool, settings: Option<Settings>, token: Option<string>, employees: Option<seq<string>>): (s: Screen)
    ensures s == Spinner <==> loading && settings.None?
    ensures s == MissingEmployees <==> !(loading && settings.None?) && employees.None?
    ensures s == SettingsOnly <==> !(loading && settings.None?) && employees.Some? && (!Wrappers.Truthy(token) || settings.None?)
    ensures s == Crashed <==> employees.Some? && Wrappers.Truthy(token) && settings.Some? && settings.value.profileList.None?
    ensures s.Full? <==> employees.Some? && Wrappers.Truthy(token) && settings.Some? && settings.value.profileList.Some?
    ensures s.Full? ==> (s.view == LoadingSpinner <==> loading)
    ensures s.Full? ==> s.options == ProfileOptions(settings.value.profileList.value)
    ensures s.Full? && !loading ==>
      s.view == (match SelectedProfile(settings.value)
                 case Some(p) => Data(PropsOf(settings.value.currentProfileIndex.value, employees.value, p))
                 case None => NoProfile)
  {
    if loading && settings.None? then Spinner
    else if employees.None? then MissingEmployees
    else if !Wrappers.Truthy(token) || settings.None? then SettingsOnly
    else if settings.value.profileList.None? then Crashed
    else
      var st := settings.value;
      var view :=
        if loading then LoadingSpinner
        else match SelectedProfile(st)
          case Some(p) => Data(PropsOf(st.currentProfileIndex.value, employees.value, p))
          case None => NoProfile;
      Full(view, ProfileOptions(st.profileList.value))
  }

  /** What the three storage reads of a reload return, or the error one of them threw. */
  datatype Reads = Reads(token: Option<string>, employees: Option<seq<string>>, settings: Option<Settings>)

  class MaintainerDashboard {
    var settingsHidden: bool
    var currentSettings: Option<Settings>
    var currentToken: Option<string>
    var currentUsers: Option<seq<string>>
    var loading: bool

    constructor ()
      ensures settingsHidden && currentSettings.None? && currentToken.None? && currentUsers.None? && !loading
    {
      settingsHidden := true;
      currentSettings, currentToken, currentUsers := None, None, None;
      loading := false;
    }

    /** What the component renders now. */
    function Body(): Screen
      reads this
    {
      ScreenOf(loading, currentSettings, currentToken, currentUsers)
    }

    /** `updateSettingsIndex`: the selected index changes and every other stored field stays. */
    method UpdateSettingsIndex(index: int)
      modifies this
      ensures currentSettings == Some(Settings(
        (if old(currentSettings).Some? then old(currentSettings).value.profileList else None),
        Some(index)))
      ensures currentToken == old(currentToken) && currentUsers == old(currentUsers)
      ensures loading == old(loading) && settingsHidden == old(settingsHidden)
    {
      var list := if currentSettings.Some? then currentSettings.value.profileList else None;
      currentSettings := Some(Settings(list, Some(index)));
    }

    /** The start of `updateAll`: loading is shown while the reads run. */
    method BeginUpdate()
      modifies this
      ensures loading
      ensures currentSettings == old(currentSettings) && currentToken == old(currentToken)
      ensures currentUsers == old(currentUsers) && settingsHidden == old(settingsHidden)
    {
      loading := true;
    }

    /**
     * The end of `updateAll`: the values read replace the cached ones, a read
     * that threw leaves them as they were, and loading stops either way.
     */
    method FinishUpdate(fetched: Result<Reads, string>)
      modifies this
      ensures !loading
      ensures fetched.Ok? ==>
        && currentSettings == fetched.value.settings
        && currentUsers == fetched.value.employees
        && currentToken == fetched.value.token
      ensures fetched.Err? ==>
        currentSettings == old(currentSettings) && currentUsers == old(currentUsers) && currentToken == old(currentToken)
      ensures settingsHidden == old(settingsHidden)
    {
      if fetched.Ok? {
        currentSettings, currentUsers, currentToken := fetched.value.settings, fetched.value.employees, fetched.value.token;
      }
      loading := false;
    }
  }

  /**
   * The first load of a fresh dashboard: a spinner while it runs; afterwards
   * the employee error if reading failed, and otherwise the screen for what
   * was read, with nothing left loading.
   */
  method FirstLoad(fetched: Result<Reads, string>) returns (during: Screen, after: Screen)
    ensures during == Spinner
    ensures fetched.Err? ==> after == MissingEmployees
    ensures fetched.Ok? ==> after == ScreenOf(false, fetched.value.settings, fetched.value.token, fetched.value.employees)
    ensures after != Spinner && !(after.Full? && after.view == LoadingSpinner)
  {
    var d := new MaintainerDashboard();
    d.BeginUpdate();
    during := d.Body();
    d.FinishUpdate(fetched);
    after := d.Body();
  }

  /** Switching profiles on a full dashboard shows the data of the newly selected profile. */
  lemma SwitchProfile(s: Settings, token: Option<string>, employees: seq<string>, index: int)
    requires Wrappers.Truthy(token) && s.profileList.Some? && 0 <= index < |s.profileList.value|
    ensures ScreenOf(false, Some(s.(currentProfileIndex := Some(index))), token, Some(employees)).view
            == Data(PropsOf(index, employees, s.profileList.value[index]))
  {
  }
}
