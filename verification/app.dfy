/** The application shell: which screen is shown for the signed-in user, and the handlers
    that sign in, sign out, restore a saved session and leave an impersonation. The browser's
    `localStorage` holds two keys; the model keeps their decoded values as the `Storage`
    datatype (an absent key is `None`). */
module App {
  import opened Wrappers
  import opened Strings
  import opened JsValue
  import opened Types
  import Repository

  /** The login form's two fields. */
  datatype AuthInput = AuthInput(username: string, code: string)

  /** `rednote_user_session` and `rednote_remember_auth`. */
  datatype Storage = Storage(session: Option<User>, remembered: Option<AuthInput>)

  const LoginFailed := "账号或密码错误"

  datatype Screen =
    | SetupWizardScreen
    | LoginScreen
    | ImpersonationScreen(target: User)
    | AdminWorkstationScreen(admin: User)
    | AdminPanelScreen
    | WorkstationScreen(user: User)
    | ForcedLogout

  /** The screen rendered for the shell's state. A suspended regular user is signed out
      while rendering; the administrator's views are chosen before that check. */
  function Route(cloudMode: bool, user: Option<User>, isAdminWorking: bool, impersonated: Option<User>): (r: Screen)
    ensures !cloudMode <==> r == SetupWizardScreen
    ensures cloudMode ==> (user.None? <==> r == LoginScreen)
    ensures r.ImpersonationScreen? <==> cloudMode && user.Some? && user.value.role == Admin && impersonated.Some?
    ensures r.ImpersonationScreen? ==> r.target == impersonated.value
    ensures r.AdminWorkstationScreen? <==>
              cloudMode && user.Some? && user.value.role == Admin && impersonated.None? && isAdminWorking
    ensures r == AdminPanelScreen <==>
              cloudMode && user.Some? && user.value.role == Admin && impersonated.None? && !isAdminWorking
    ensures r == ForcedLogout <==> cloudMode && user.Some? && user.value.role != Admin && user.value.isSuspended
    ensures r.WorkstationScreen? <==> cloudMode && user.Some? && user.value.role != Admin && !user.value.isSuspended
    ensures r.AdminWorkstationScreen? || r.WorkstationScreen? ==> user == Some(if r.AdminWorkstationScreen? then r.admin else r.user)
  {
    if !cloudMode then SetupWizardScreen
    else if user.None? then LoginScreen
    else if user.value.role == Admin then
      if impersonated.Some? then ImpersonationScreen(impersonated.value)
      else if isAdminWorking then AdminWorkstationScreen(user.value)
      else AdminPanelScreen
    else if user.value.isSuspended then ForcedLogout
    else WorkstationScreen(user.value)
  }

  /** The suspension flag never changes what an administrator sees, and never signs one out. */
  lemma AdminIgnoresSuspension(cloudMode: bool, admin: User, isAdminWorking: bool, impersonated: Option<User>)
    requires admin.role == Admin
    ensures var flipped := admin.(isSuspended := !admin.isSuspended);
            var r := Route(cloudMode, Some(admin), isAdminWorking, impersonated);
            var q := Route(cloudMode, Some(flipped), isAdminWorking, impersonated);
            && r != ForcedLogout
            && (r.AdminWorkstationScreen? ==> q == AdminWorkstationScreen(flipped))
            && (!r.AdminWorkstationScreen? ==> q == r)
  {
  }

  /** The state of the shell the modelled handlers read and write. */
  datatype Shell = Shell(user: Option<User>, isAdminWorking: bool, impersonatedUser: Option<User>,
                         authInput: AuthInput, error: string, isLoading: bool, rememberMe: bool,
                         storage: Storage)

  class AppShell {
    /** `isCloudMode`: whether a database client was configured. */
    const cloudMode: bool
    var user: Option<User>
    var isAdminWorking: bool
    var impersonatedUser: Option<User>
    var authInput: AuthInput
    var error: string
    var isLoading: bool
    var rememberMe: bool
    var storage: Storage

    function View(): Shell
      reads this
    {
      Shell(user, isAdminWorking, impersonatedUser, authInput, error, isLoading, rememberMe, storage)
    }

    function Screen(): Screen
      reads this
    {
      Route(cloudMode, user, isAdminWorking, impersonatedUser)
    }

    /** The first render, before the session-restore effect has run. */
    constructor(cloudMode: bool, storage: Storage)
      ensures this.cloudMode == cloudMode
      ensures View() == Shell(None, false, None, AuthInput("", ""), "", false, true, storage)
    {
      this.cloudMode := cloudMode;
      user := None;
      isAdminWorking := false;
      impersonatedUser := None;
      authInput := AuthInput("", "");
      error := "";
      isLoading := false;
      rememberMe := true;
      this.storage := storage;
    }

    /** The mount effect: a saved session is resumed unless it is suspended, in which case
        it is discarded; with no saved session the remembered credentials fill the form. */
    method RestoreSession()
      modifies this
      ensures old(storage.session).Some? && !old(storage.session).value.isSuspended ==>
                View() == old(View()).(user := old(storage.session))
      ensures old(storage.session).Some? && old(storage.session).value.isSuspended ==>
                View() == old(View()).(storage := old(storage).(session := None))
      ensures old(storage.session).None? && old(storage.remembered).Some? ==>
                View() == old(View()).(authInput := old(storage.remembered).value)
      ensures old(storage.session).None? && old(storage.remembered).None? ==> View() == old(View())
    {
      match storage.session {
        case Some(saved) =>
          if !saved.isSuspended {
            user := Some(saved);
          } else {
            storage := storage.(session := None);
          }
        case None =>
          if storage.remembered.Some? {
            authInput := storage.remembered.value;
          }
      }
    }

    /** `handleLogin`: on success the user is signed in and the session saved, and the
        credentials are remembered or forgotten as the check box says; on failure the
        message shown is the login's own, or the default one when that is empty. */
    method HandleLogin(rpc: (string, string) -> Repository.RpcAnswer, direct: (string, string) -> Repository.DirectAnswer,
                       stringify: Json -> Option<string>) returns (r: Repository.LoginResult)
      modifies this
      ensures r == Repository.Login(cloudMode, old(authInput).username, old(authInput).code, rpc, direct, stringify)
      ensures r.LoggedIn? ==>
                View() == old(View()).(user := Some(r.user), error := "", isLoading := false,
                                       storage := Storage(Some(r.user), if old(rememberMe) then Some(old(authInput)) else None))
      ensures r.Refused? ==>
                View() == old(View()).(error := if r.message == "" then LoginFailed else r.message, isLoading := false)
      ensures r.LoggedIn? ==> !user.value.isSuspended && Screen() != ForcedLogout && Screen() != LoginScreen
    {
      error := "";
      isLoading := true;
      r := Repository.Login(cloudMode, authInput.username, authInput.code, rpc, direct, stringify);
      Settle(r);
    }

    /** What `handleLogin` does with the login's answer, once it has arrived. */
    method Settle(r: Repository.LoginResult)
      requires r.LoggedIn? ==> cloudMode && !r.user.isSuspended
      modifies this
      ensures r.LoggedIn? ==>
                View() == old(View()).(user := Some(r.user), isLoading := false,
                                       storage := Storage(Some(r.user), if old(rememberMe) then Some(old(authInput)) else None))
      ensures r.Refused? ==>
                View() == old(View()).(error := if r.message == "" then LoginFailed else r.message, isLoading := false)
      ensures r.LoggedIn? ==> Screen() != ForcedLogout && Screen() != LoginScreen
    {
      match r {
        case LoggedIn(found) =>
          user := Some(found);
          storage := storage.(session := Some(found));
          if rememberMe {
            storage := storage.(remembered := Some(authInput));
          } else {
            storage := storage.(remembered := None);
          }
        case Refused(message) =>
          error := if message == "" then LoginFailed else message;
      }
      isLoading := false;
    }

    /** `handleLogout`: back to the login screen, with the saved session removed and the
        remembered credentials kept. */
    method HandleLogout()
      modifies this
      ensures View() == old(View()).(user := None, isAdminWorking := false, impersonatedUser := None,
                                     storage := old(storage).(session := None))
      ensures cloudMode ==> Screen() == LoginScreen
    {
      user := None;
      isAdminWorking := false;
      impersonatedUser := None;
      storage := storage.(session := None);
    }

    /** `exitImpersonation`: an administrator returns from the impersonated account to the
        view they came from. */
    method ExitImpersonation()
      modifies this
      ensures View() == old(View()).(impersonatedUser := None)
      ensures old(Screen()).ImpersonationScreen? ==> Screen() == AdminPanelScreen || Screen().AdminWorkstationScreen?
    {
      impersonatedUser := None;
    }

    /** The administrator panel's two ways out of it: the own workstation, or a user's. */
    method EnterWorkstation()
      modifies this
      ensures View() == old(View()).(isAdminWorking := true)
    {
      isAdminWorking := true;
    }

    method LeaveWorkstation()
      modifies this
      ensures View() == old(View()).(isAdminWorking := false)
    {
      isAdminWorking := false;
    }

    method Impersonate(u: User)
      modifies this
      ensures View() == old(View()).(impersonatedUser := Some(u))
      ensures old(Screen()) == AdminPanelScreen ==> Screen() == ImpersonationScreen(u)
    {
      impersonatedUser := Some(u);
    }

    /** The regular workstation's `onUserUpdate` saves the session as well; the
        administrator's own workstation only replaces the user. */
    method UpdateUser(u: User, persist: bool)
      modifies this
      ensures View() == old(View()).(user := Some(u), storage := if persist then old(storage).(session := Some(u)) else old(storage))
    {
      user := Some(u);
      if persist {
        storage := storage.(session := Some(u));
      }
    }

    /** Rendering: the screen for the current state; a suspended regular user is signed out
        on the way. */
    method Render() returns (s: Screen)
      modifies this
      ensures s == old(Screen())
      ensures s != ForcedLogout ==> View() == old(View())
      ensures s == ForcedLogout ==>
                View() == old(View()).(user := None, isAdminWorking := false, impersonatedUser := None,
                                       storage := old(storage).(session := None))
      ensures s == ForcedLogout ==> Screen() == LoginScreen
    {
      s := Route(cloudMode, user, isAdminWorking, impersonatedUser);
      if s == ForcedLogout {
        HandleLogout();
      }
    }
  }
}
