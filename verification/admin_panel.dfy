/** The administrator's dashboard: duration formatting, the usage metrics over the user list,
    the active and graveyard views, configuration editing, password generation, account
    creation and the deletion bookkeeping. The repository it calls is the `Repository` class;
    the random draws and the clock are inputs. */
module AdminPanel {
  import opened Wrappers
  import opened Strings
  import opened JsValue
  import opened Types
  import opened Seqs
  import Repository

  // ---------------------------------------------------------------- durations

  /** Whole hours, and whole minutes of the hour that is not complete. */
  function DurationParts(seconds: int): (hm: (nat, nat))
    requires seconds >= 60
    ensures hm.1 < 60
    ensures hm.0 * 3600 + hm.1 * 60 <= seconds < hm.0 * 3600 + hm.1 * 60 + 60
    ensures hm.0 == 0 ==> hm.1 >= 1
  {
    (seconds / 3600, (seconds % 3600) / 60)
  }

  /** `formatDuration`: seconds below a minute, then "{h}小时 {m}分" or "{m}分钟". */
  function FormatDuration(seconds: int): (r: string)
    ensures seconds < 60 ==> r == IntToString(seconds) + "秒"
    ensures seconds >= 60 ==>
              var (h, m) := DurationParts(seconds);
              r == if h > 0 then NatToString(h) + "小时 " + NatToString(m) + "分" else NatToString(m) + "分钟"
  {
    if seconds < 60 then IntToString(seconds) + "秒"
    else
      var (hours, mins) := DurationParts(seconds);
      if hours > 0 then NatToString(hours) + "小时 " + NatToString(mins) + "分" else NatToString(mins) + "分钟"
  }

  /** The hour and minute shown identify the duration to within a minute: two durations
      with the same parts differ by less than 60 seconds. */
  lemma SamePartsWithinMinute(a: int, b: int)
    requires a >= 60 && b >= 60 && DurationParts(a) == DurationParts(b)
    ensures -60 < a - b < 60
  {
  }

  // ---------------------------------------------------------------- metrics

  const OneDay := 24 * 60 * 60 * 1000

  /** A user counts as active today with a recorded login less than a day before `now`. */
  predicate ActiveToday(u: User, now: int)
    ensures u.lastLoginAt.None? || u.lastLoginAt == Some(0) ==> !ActiveToday(u, now)
    ensures now != 0 && u.lastLoginAt == Some(now) ==> ActiveToday(u, now)
  {
    u.lastLoginAt.Some? && u.lastLoginAt.value != 0 && now - u.lastLoginAt.value < OneDay
  }

  function IsActiveToday(now: int): User -> bool {
    (u: User) => ActiveToday(u, now)
  }

  /** The summed online time; with no negative entry it bounds every user's own time. */
  function OnlineTotal(us: seq<User>): (r: int)
    ensures (forall i :: 0 <= i < |us| ==> us[i].totalOnlineSeconds >= 0) ==>
              r >= 0 && forall i :: 0 <= i < |us| ==> us[i].totalOnlineSeconds <= r
  {
    if us == [] then 0 else OnlineTotal(us[..|us| - 1]) + us[|us| - 1].totalOnlineSeconds
  }

  /** The summed interaction count; with no negative entry it bounds every user's own count. */
  function InteractionTotal(us: seq<User>): (r: int)
    ensures (forall i :: 0 <= i < |us| ==> us[i].interactionCount >= 0) ==>
              r >= 0 && forall i :: 0 <= i < |us| ==> us[i].interactionCount <= r
  {
    if us == [] then 0 else InteractionTotal(us[..|us| - 1]) + us[|us| - 1].interactionCount
  }

  function ActiveCount(us: seq<User>, now: int): (n: nat)
    ensures n <= |us|
  {
    if us == [] then 0 else ActiveCount(us[..|us| - 1], now) + (if ActiveToday(us[|us| - 1], now) then 1 else 0)
  }

  /** The active count is the number of users the activity test keeps. */
  lemma {:induction false} ActiveCountIsFilter(us: seq<User>, now: int)
    ensures ActiveCount(us, now) == |Filter(us, IsActiveToday(now))|
    decreases |us|
  {
    if us != [] {
      ActiveCountIsFilter(us[..|us| - 1], now);
    }
  }

  /** The totals add up over a list split in two. */
  lemma {:induction false} TotalsAppend(a: seq<User>, b: seq<User>)
    ensures OnlineTotal(a + b) == OnlineTotal(a) + OnlineTotal(b)
    ensures InteractionTotal(a + b) == InteractionTotal(a) + InteractionTotal(b)
    decreases |b|
  {
    if b == [] {
      assert a + b == a;
    } else {
      var front := b[..|b| - 1];
      assert (a + b)[..|a + b| - 1] == a + front;
      assert (a + b)[|a + b| - 1] == b[|b| - 1];
      TotalsAppend(a, front);
    }
  }

  // ---------------------------------------------------------------- views

  datatype ViewMode = ActiveView | Graveyard

  function Shown(mode: ViewMode): User -> bool {
    (u: User) => if mode == ActiveView then !u.isDeleted else u.isDeleted
  }

  /** `displayUsers`. */
  function DisplayUsers(users: seq<User>, mode: ViewMode): (r: seq<User>)
    ensures forall u :: u in r <==> u in users && (mode == ActiveView <==> !u.isDeleted)
  {
    Filter(users, Shown(mode))
  }

  /** The two views partition the list: each user is in exactly one, and the sizes add up. */
  lemma ViewsPartition(users: seq<User>)
    ensures forall u :: u in users ==> (u in DisplayUsers(users, ActiveView) <==> u !in DisplayUsers(users, Graveyard))
    ensures |DisplayUsers(users, ActiveView)| + |DisplayUsers(users, Graveyard)| == |users|
  {
    FilterComplement(users, Shown(ActiveView), Shown(Graveyard));
  }

  // ---------------------------------------------------------------- configuration

  /** `updateConfig`: one field of one section set to a string. A missing section starts empty. */
  function WithField(cfg: Repository.Config, section: string, field: string, value: string): Repository.Config {
    var current := if section in cfg then cfg[section] else map[];
    cfg[section := current[field := JString(value)]]
  }

  /** An edit sets exactly the one field: every other section and every other field of the
      edited section keep their values, and only the edited names may be added. */
  lemma EditChangesOneField(cfg: Repository.Config, section: string, field: string, value: string)
    ensures var r := WithField(cfg, section, field, value);
            && r.Keys == cfg.Keys + {section}
            && r[section].Keys == (if section in cfg then cfg[section].Keys else {}) + {field}
            && r[section][field] == JString(value)
            && (forall s :: s in cfg && s != section ==> r[s] == cfg[s])
            && (section in cfg ==> forall f :: f in cfg[section] && f != field ==> r[section][f] == cfg[section][f])
  {
  }

  /** Edits of two different fields commute. */
  lemma EditsCommute(cfg: Repository.Config, s1: string, f1: string, v1: string, s2: string, f2: string, v2: string)
    requires s1 != s2 || f1 != f2
    ensures WithField(WithField(cfg, s1, f1, v1), s2, f2, v2) == WithField(WithField(cfg, s2, f2, v2), s1, f1, v1)
  {
    if s1 == s2 {
      SameSectionCommute(cfg, s1, f1, v1, f2, v2);
    } else {
      OtherSectionsCommute(cfg, s1, f1, v1, s2, f2, v2);
    }
  }

  lemma SameSectionCommute(cfg: Repository.Config, s: string, f1: string, v1: string, f2: string, v2: string)
    requires f1 != f2
    ensures WithField(WithField(cfg, s, f1, v1), s, f2, v2) == WithField(WithField(cfg, s, f2, v2), s, f1, v1)
  {
    var base := if s in cfg then cfg[s] else map[];
    var m := base[f1 := JString(v1)][f2 := JString(v2)];
    assert m == base[f2 := JString(v2)][f1 := JString(v1)];
    assert WithField(WithField(cfg, s, f1, v1), s, f2, v2) == cfg[s := m];
    assert WithField(WithField(cfg, s, f2, v2), s, f1, v1) == cfg[s := m];
  }

  lemma OtherSectionsCommute(cfg: Repository.Config, s1: string, f1: string, v1: string, s2: string, f2: string, v2: string)
    requires s1 != s2
    ensures WithField(WithField(cfg, s1, f1, v1), s2, f2, v2) == WithField(WithField(cfg, s2, f2, v2), s1, f1, v1)
  {
    var m1 := (if s1 in cfg then cfg[s1] else map[])[f1 := JString(v1)];
    var m2 := (if s2 in cfg then cfg[s2] else map[])[f2 := JString(v2)];
    assert cfg[s1 := m1][s2 := m2] == cfg[s2 := m2][s1 := m1];
  }

  /** A second edit of the same field overrides the first. */
  lemma LastEditWins(cfg: Repository.Config, section: string, field: string, v1: string, v2: string)
    ensures WithField(WithField(cfg, section, field, v1), section, field, v2) == WithField(cfg, section, field, v2)
  {
    var a := WithField(WithField(cfg, section, field, v1), section, field, v2);
    var b := WithField(cfg, section, field, v2);
    assert a[section] == b[section];
  }

  // ---------------------------------------------------------------- passwords

  const PasswordChars := "ABCDEFGHJKLMNPQRSTUVWXYZabcdefghijkmnpqrstuvwxyz23456789!@#$%^&*"
  const PasswordLength := 10

  /** The character a draw of `Math.random()` selects. */
  function CharFor(draw: real): (c: char)
    requires 0.0 <= draw < 1.0
    ensures c in PasswordChars
  {
    var k := (draw * |PasswordChars| as real).Floor;
    PasswordChars[k]
  }

  predicate ValidDraws(draws: seq<real>) {
    forall i :: 0 <= i < |draws| ==> 0.0 <= draws[i] < 1.0
  }

  function PasswordFrom(draws: seq<real>): (p: string)
    requires ValidDraws(draws)
    ensures |p| == |draws|
    ensures forall i :: 0 <= i < |draws| ==> p[i] == CharFor(draws[i])
  {
    if draws == [] then [] else PasswordFrom(draws[..|draws| - 1]) + [CharFor(draws[|draws| - 1])]
  }

  /** A generated password has ten characters, all from the alphabet. */
  lemma GeneratedPasswordShape(draws: seq<real>)
    requires |draws| == PasswordLength && ValidDraws(draws)
    ensures |PasswordFrom(draws)| == PasswordLength
    ensures forall c :: c in PasswordFrom(draws) ==> c in PasswordChars
  {
    var p := PasswordFrom(draws);
    forall c | c in p ensures c in PasswordChars {
      var i :| 0 <= i < |p| && p[i] == c;
      assert c == CharFor(draws[i]);
    }
  }

  // ---------------------------------------------------------------- the panel

  /** The state the modelled handlers read and write. */
  /** The configuration shown before the stored one is loaded: the four sections, every field
      empty. */
  const InitialConfig: Repository.Config := map[
    "gemini" := map["apiKey" := JString(""), "baseUrl" := JString(""), "model" := JString("")],
    "xhs" := map["apiKey" := JString(""), "apiUrl" := JString("")],
    "cos" := map["secretId" := JString(""), "secretKey" := JString(""), "bucket" := JString(""),
                 "region" := JString("")],
    "publish" := map["apiKey" := JString("")]
  ]

  datatype Panel = Panel(users: seq<User>, viewMode: ViewMode, totalOnlineTime: int, totalInteractions: int,
                         activeUsersToday: nat, sysConfig: Repository.Config, newUsername: string,
                         newPassword: string, deletingIds: set<string>)

  class AdminPanel {
    var users: seq<User>
    var viewMode: ViewMode
    var totalOnlineTime: int
    var totalInteractions: int
    var activeUsersToday: nat
    var sysConfig: Repository.Config
    var newUsername: string
    var newPassword: string
    var deletingIds: set<string>

    function View(): Panel
      reads this
    {
      Panel(users, viewMode, totalOnlineTime, totalInteractions, activeUsersToday, sysConfig,
            newUsername, newPassword, deletingIds)
    }

    constructor()
      ensures View() == Panel([], ActiveView, 0, 0, 0, InitialConfig, "", "", {})
    {
      users := [];
      viewMode := ActiveView;
      totalOnlineTime := 0;
      totalInteractions := 0;
      activeUsersToday := 0;
      sysConfig := InitialConfig;
      newUsername := "";
      newPassword := "";
      deletingIds := {};
    }

    /** `refreshUserList`: stores the list and accumulates the metrics over it. */
    method RefreshUserList(list: seq<User>, now: int)
      modifies this
      ensures View() == old(View()).(users := list, totalOnlineTime := OnlineTotal(list),
                                     totalInteractions := InteractionTotal(list),
                                     activeUsersToday := ActiveCount(list, now))
      ensures activeUsersToday <= |users|
    {
      users := list;
      var totalTime, interactions, activeToday := 0, 0, 0;
      for i := 0 to |list|
        invariant totalTime == OnlineTotal(list[..i])
        invariant interactions == InteractionTotal(list[..i])
        invariant activeToday == ActiveCount(list[..i], now)
      {
        var u := list[i];
        assert list[..i + 1][..i] == list[..i];
        totalTime := totalTime + u.totalOnlineSeconds;
        interactions := interactions + u.interactionCount;
        if u.lastLoginAt.Some? && u.lastLoginAt.value != 0 && now - u.lastLoginAt.value < OneDay {
          activeToday := activeToday + 1;
        }
      }
      assert list[..|list|] == list;
      totalOnlineTime := totalTime;
      totalInteractions := interactions;
      activeUsersToday := activeToday;
    }

    /** `updateConfig`. */
    method UpdateConfig(section: string, field: string, value: string)
      modifies this
      ensures View() == old(View()).(sysConfig := WithField(old(sysConfig), section, field, value))
    {
      sysConfig := WithField(sysConfig, section, field, value);
    }

    /** `generateRandomPassword`: ten draws, one character each. */
    method GenerateRandomPassword(draws: seq<real>)
      requires |draws| == PasswordLength && ValidDraws(draws)
      modifies this
      ensures View() == old(View()).(newPassword := PasswordFrom(draws))
    {
      var pass := "";
      for i := 0 to PasswordLength
        invariant pass == PasswordFrom(draws[..i])
      {
        assert draws[..i + 1][..i] == draws[..i];
        var k := (draws[i] * |PasswordChars| as real).Floor;
        pass := pass + [PasswordChars[k]];
      }
      assert draws[..PasswordLength] == draws;
      newPassword := pass;
    }

    /** `generateAccount`: with a blank name or password nothing happens; otherwise the
        account is created and, on success, the form is cleared. `lookupOk` is the outcome of
        the repository's lookup by name. */
    method GenerateAccount(repo: Repository.Repository, freshId: string, lookupOk: bool, writeError: Option<Json>,
                           stringify: Json -> Option<string>) returns (r: Option<Result<(), string>>)
      requires freshId !in repo.profiles
      modifies this, repo
      ensures old(repo.Valid()) && (lookupOk || !Repository.HasUsername(old(repo.profiles), Trim(old(newUsername)))) ==>
                repo.Valid()
      ensures r.None? <==> Trim(old(newUsername)) == [] || Trim(old(newPassword)) == []
      ensures r.None? ==> View() == old(View()) && repo.profiles == old(repo.profiles)
      ensures repo.projects == old(repo.projects)
      ensures r.Some? && r.value.Ok? ==>
                View() == old(View()).(newUsername := "", newPassword := "") &&
                Repository.HasUsername(repo.profiles, Trim(old(newUsername)))
      ensures r.Some? && r.value.Err? ==> View() == old(View()) && repo.profiles == old(repo.profiles)
      ensures r.Some? && repo.connected &&
              !(lookupOk && |Repository.Holders(old(repo.profiles), Trim(old(newUsername)))| == 1) &&
              writeError.None? ==>
                r.value.Ok? &&
                repo.profiles == old(repo.profiles)[freshId := Repository.NewProfile(Trim(old(newUsername)),
                                                                                     Trim(old(newPassword)))]
      ensures forall id :: r.Some? && repo.connected && lookupOk && id in old(repo.profiles) &&
                           old(repo.profiles)[id].username == Trim(old(newUsername)) &&
                           |Repository.Holders(old(repo.profiles), Trim(old(newUsername)))| == 1 ==>
                if !TruthyOpt(Repository.Field(old(repo.profiles)[id].data, "isDeleted"))
                then r.value == Err(Repository.DuplicateName)
                else writeError.None? ==>
                       r.value.Ok? &&
                       repo.profiles == old(repo.profiles)[id := old(repo.profiles)[id].(
                                          password := Trim(old(newPassword)),
                                          data := Repository.Revived(old(repo.profiles)[id].data))]
    {
      if Trim(newUsername) == [] || Trim(newPassword) == [] {
        return None;
      }
      var res := repo.CreateUser(newUsername, newPassword, freshId, lookupOk, writeError, stringify);
      if res.Ok? {
        newUsername, newPassword := "", "";
      }
      r := Some(res);
    }

    /** `toggleSuspend`: writes the opposite of the flag the listed user shows. */
    method ToggleSuspend(u: User, repo: Repository.Repository, readOk: bool, written: bool)
      modifies repo
      ensures old(repo.Valid()) ==> repo.Valid()
      ensures repo.projects == old(repo.projects)
      ensures repo.connected && written && u.id in old(repo.profiles) ==>
                repo.profiles == Repository.WithData(old(repo.profiles), u.id,
                                   Repository.ReadData(old(repo.profiles), u.id, readOk)["isSuspended" := JBool(!u.isSuspended)])
      ensures !(repo.connected && written && u.id in old(repo.profiles)) ==> repo.profiles == old(repo.profiles)
    {
      repo.ToggleUserSuspension(u.id, !u.isSuspended, readOk, written);
    }

    /** `executeDeleteUser`: the id is marked while the deletion runs and unmarked afterwards,
        whatever the outcome. */
    method ExecuteDeleteUser(id: string, repo: Repository.Repository, now: int, readOk: bool, writeError: Option<Json>,
                             stringify: Json -> Option<string>) returns (r: Result<string, string>)
      modifies this, repo
      ensures old(repo.Valid()) ==> repo.Valid()
      ensures View() == old(View()).(deletingIds := old(deletingIds) - {id})
      ensures r.Ok? <==> repo.connected && !Repository.IsProtected(id) && writeError.None?
      ensures r.Err? ==> repo.profiles == old(repo.profiles)
      ensures repo.projects == old(repo.projects)
      ensures r.Ok? && id in old(repo.profiles) ==>
                repo.profiles == Repository.WithData(old(repo.profiles), id,
                                                     Repository.SoftDeleted(Repository.ReadData(old(repo.profiles), id, readOk), now))
      ensures id !in old(repo.profiles) ==> repo.profiles == old(repo.profiles)
    {
      deletingIds := deletingIds + {id};
      r := repo.DeleteUser(id, now, readOk, writeError, stringify);
      deletingIds := deletingIds - {id};
    }
  }
}
