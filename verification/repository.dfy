/** The data layer: error-message extraction, the system configuration merge, the user
    operations on the `profiles` table and the project operations on the `projects` table.
    The tables are maps updated in place by the methods of `Repository`; what the database
    answers (a failed write, the reply of the login procedure, the rows of a query) is an
    input, and so are the clock and the id generator. */
module Repository {
  import opened Wrappers
  import opened Strings
  import opened JsValue
  import opened Types
  import Seqs

  // ---------------------------------------------------------------- error messages

  const UnknownError := "Unknown error"

  /** The properties an error object is searched for a message, in priority order. */
  const DetailKeys := ["message", "error_description", "details", "hint"]

  /** The first truthy property of `e` among `keys`. */
  function FirstTruthy(e: Json, keys: seq<string>): (r: Option<Json>)
    ensures r.Some? ==> Truthy(r.value)
  {
    if keys == [] then None
    else if TruthyOpt(Get(e, keys[0])) then Get(e, keys[0])
    else FirstTruthy(e, keys[1..])
  }

  /** The search yields the first key, in the given order, whose property is truthy, and
      nothing exactly when no key has a truthy property. */
  lemma {:induction false} FirstTruthyPriority(e: Json, keys: seq<string>)
    ensures FirstTruthy(e, keys).None? <==> forall i :: 0 <= i < |keys| ==> !TruthyOpt(Get(e, keys[i]))
    ensures FirstTruthy(e, keys).Some? ==>
              exists i :: 0 <= i < |keys| && Get(e, keys[i]) == FirstTruthy(e, keys) &&
                          forall j :: 0 <= j < i ==> !TruthyOpt(Get(e, keys[j]))
  {
    if keys != [] && !TruthyOpt(Get(e, keys[0])) {
      var tail := keys[1..];
      FirstTruthyPriority(e, tail);
      if FirstTruthy(e, tail).Some? {
        var i :| 0 <= i < |tail| && Get(e, tail[i]) == FirstTruthy(e, tail) &&
                 forall j :: 0 <= j < i ==> !TruthyOpt(Get(e, tail[j]));
        assert Get(e, keys[i + 1]) == FirstTruthy(e, keys);
        forall j | 0 < j < i + 1 ensures !TruthyOpt(Get(e, keys[j])) {
          assert keys[j] == tail[j - 1];
        }
      } else {
        forall i | 1 <= i < |keys| ensures !TruthyOpt(Get(e, keys[i])) {
          assert keys[i] == tail[i - 1];
        }
      }
    } else if keys != [] {
      assert Get(e, keys[0]) == FirstTruthy(e, keys);
    }
  }

  /** `getErrorMessage(error)`: "Unknown error" for a falsy error, a string error itself, the
      first truthy detail property, else the serialisation (or `String(error)` when the
      serialiser throws, which `stringify` reports as None). */
  function GetErrorMessage(error: Option<Json>, stringify: Json -> Option<string>): (r: Json)
    ensures !TruthyOpt(error) ==> r == JString(UnknownError)
    ensures TruthyOpt(error) && error.value.JString? ==> r == error.value
    ensures TruthyOpt(error) && !error.value.JString? && FirstTruthy(error.value, DetailKeys).Some? ==>
              r == FirstTruthy(error.value, DetailKeys).value
    ensures TruthyOpt(error) && !error.value.JString? && FirstTruthy(error.value, DetailKeys).None? ==>
              r.JString? && (r.s == ToJsString(error.value) || stringify(error.value) == Some(r.s))
    ensures Truthy(r) || r == JString("")
  {
    if !TruthyOpt(error) then JString(UnknownError)
    else if error.value.JString? then error.value
    else match FirstTruthy(error.value, DetailKeys)
      case Some(m) => m
      case None =>
        match stringify(error.value)
        case Some(t) => JString(t)
        case None => JString(ToJsString(error.value))
  }

  /** The message text as it is shown or put into a template string. */
  function MessageOf(e: Json, stringify: Json -> Option<string>): (r: string)
    ensures !Truthy(e) ==> r == UnknownError
    ensures e.JString? && e.s != [] ==> r == e.s
  {
    ToJsString(GetErrorMessage(Some(e), stringify))
  }

  // ---------------------------------------------------------------- system configuration

  /** A configuration: section name to its fields. */
  type Config = map<string, map<string, Json>>

  const DefaultConfig: Config := map[
    "gemini" := map["apiKey" := JString(""), "baseUrl" := JString("https://api.vectorengine.ai"),
                    "model" := JString("gemini-3-flash-preview")],
    "xhs" := map["apiKey" := JString(""), "apiUrl" := JString("https://xiaohongshu.day/api/v1/note")],
    "cos" := map["secretId" := JString(""), "secretKey" := JString(""), "bucket" := JString(""),
                 "region" := JString("")],
    "publish" := map["apiKey" := JString(""), "targetUrl" := JString("https://www.myaibot.vip/api/rednote/publish")]
  ]

  /** The fields the stored value gives a section: `loaded.section || {}`, spread. */
  function StoredSection(loaded: Json, section: string): map<string, Json> {
    Spread(Or(Get(loaded, section), JObject(map[])))
  }

  /** The stored value the merge uses: none without a database, after a failed query, or when
      the `value` column is missing or falsy. */
  function Loaded(connected: bool, stored: Result<Option<Json>, string>): (r: Option<Json>)
    ensures r.Some? ==> connected && stored == Ok(r) && Truthy(r.value)
  {
    if connected && stored.Ok? && TruthyOpt(stored.value) then stored.value else None
  }

  /** `getSystemConfig`: each section is the default section overridden field by field by the
      stored section. */
  function GetSystemConfig(connected: bool, stored: Result<Option<Json>, string>): (r: Config)
    ensures r.Keys == DefaultConfig.Keys
    ensures Loaded(connected, stored).None? ==> r == DefaultConfig
  {
    match Loaded(connected, stored)
    case None => DefaultConfig
    case Some(loaded) =>
      map section | section in DefaultConfig :: DefaultConfig[section] + StoredSection(loaded, section)
  }

  /** Every field of a merged section comes from the stored section when it has the field and
      from the default otherwise; no other field appears. */
  lemma ConfigFieldOrigin(connected: bool, stored: Result<Option<Json>, string>, section: string, field: string)
    requires section in DefaultConfig && Loaded(connected, stored).Some?
    ensures var r := GetSystemConfig(connected, stored);
            var s := StoredSection(Loaded(connected, stored).value, section);
            (field in r[section] <==> field in DefaultConfig[section] || field in s) &&
            (field in s ==> r[section][field] == s[field]) &&
            (field !in s && field in DefaultConfig[section] ==> r[section][field] == DefaultConfig[section][field])
  {
  }

  /** A stored value without a given section leaves that section at its default. */
  lemma MissingSectionIsDefault(connected: bool, stored: Result<Option<Json>, string>, section: string)
    requires section in DefaultConfig && Loaded(connected, stored).Some?
    requires !TruthyOpt(Get(Loaded(connected, stored).value, section))
    ensures GetSystemConfig(connected, stored)[section] == DefaultConfig[section]
  {
    assert StoredSection(Loaded(connected, stored).value, section) == map[];
  }

  // ---------------------------------------------------------------- profiles

  /** A row of the `profiles` table, keyed by its id; `data` holds the free-form fields. */
  datatype Profile = Profile(username: string, password: string, role: string, quotaRemaining: int,
                             data: map<string, Json>)

  /** Accounts that are never written by the counters and never deleted: the built-in
      administrator and the reserved ids. */
  predicate IsProtected(userId: string) {
    userId == "admin_user_001" || StartsWith(userId, "00000000")
  }

  /** A field of the `data` object. */
  function Field(d: map<string, Json>, key: string): Option<Json> {
    Get(JObject(d), key)
  }

  /** A counter stored in `data` reads as its number, and as 0 when it is missing. */
  predicate IsCounter(d: map<string, Json>, key: string) {
    key !in d || d[key].JNumber?
  }

  function CounterValue(d: map<string, Json>, key: string): int {
    NumberOr0(Field(d, key))
  }

  /** The data written when a login is recorded. */
  function LoginStamp(d: map<string, Json>, ip: string, location: string, now: int): (r: map<string, Json>)
    ensures r.Keys == d.Keys + {"lastIp", "location", "lastLoginAt"}
    ensures Field(r, "lastIp") == Some(JString(ip)) && Field(r, "location") == Some(JString(location))
    ensures Field(r, "lastLoginAt") == Some(JNumber(now))
    ensures forall k :: k in d && k != "lastIp" && k != "location" && k != "lastLoginAt" ==> r[k] == d[k]
  {
    d + map["lastIp" := JString(ip), "location" := JString(location), "lastLoginAt" := JNumber(now)]
  }

  /** The data written by a heartbeat. */
  function Heartbeat(d: map<string, Json>, seconds: int, now: int): (r: map<string, Json>)
    ensures r.Keys == d.Keys + {"totalOnlineSeconds", "lastActiveAt"}
    ensures IsCounter(d, "totalOnlineSeconds") ==>
              IsCounter(r, "totalOnlineSeconds") &&
              CounterValue(r, "totalOnlineSeconds") == CounterValue(d, "totalOnlineSeconds") + seconds
    ensures Field(r, "lastActiveAt") == Some(JNumber(now))
    ensures forall k :: k in d && k != "totalOnlineSeconds" && k != "lastActiveAt" ==> r[k] == d[k]
  {
    d + map["totalOnlineSeconds" := AddNumber(Field(d, "totalOnlineSeconds"), seconds),
            "lastActiveAt" := JNumber(now)]
  }

  /** The data written when an interaction is counted. */
  function Bump(d: map<string, Json>): (r: map<string, Json>)
    ensures r.Keys == d.Keys + {"interactionCount"}
    ensures IsCounter(d, "interactionCount") ==>
              IsCounter(r, "interactionCount") &&
              CounterValue(r, "interactionCount") == CounterValue(d, "interactionCount") + 1
    ensures forall k :: k in d && k != "interactionCount" ==> r[k] == d[k]
  {
    d["interactionCount" := AddNumber(Field(d, "interactionCount"), 1)]
  }

  /** Two heartbeats add up: the online time grows by the sum of the seconds reported. */
  lemma HeartbeatsAccumulate(d: map<string, Json>, a: int, b: int, t1: int, t2: int)
    requires IsCounter(d, "totalOnlineSeconds")
    ensures CounterValue(Heartbeat(Heartbeat(d, a, t1), b, t2), "totalOnlineSeconds") ==
            CounterValue(d, "totalOnlineSeconds") + a + b
  {
    var d1 := Heartbeat(d, a, t1);
    assert IsCounter(d1, "totalOnlineSeconds");
  }

  /** `n` counted interactions raise the counter by `n`. */
  function BumpTimes(d: map<string, Json>, n: nat): map<string, Json> {
    if n == 0 then d else Bump(BumpTimes(d, n - 1))
  }

  lemma {:induction false} BumpTimesCounts(d: map<string, Json>, n: nat)
    requires IsCounter(d, "interactionCount")
    ensures IsCounter(BumpTimes(d, n), "interactionCount")
    ensures CounterValue(BumpTimes(d, n), "interactionCount") == CounterValue(d, "interactionCount") + n
  {
    if n > 0 {
      BumpTimesCounts(d, n - 1);
    }
  }

  /** The data of an account put back into use. */
  function Revived(d: map<string, Json>): (r: map<string, Json>)
    ensures Field(r, "isDeleted") == Some(JBool(false)) && Field(r, "isSuspended") == Some(JBool(false))
    ensures forall k :: k in d && k != "isDeleted" && k != "isSuspended" ==> k in r && r[k] == d[k]
  {
    d + map["isDeleted" := JBool(false), "isSuspended" := JBool(false)]
  }

  /** The data of a soft-deleted account. */
  function SoftDeleted(d: map<string, Json>, now: int): (r: map<string, Json>)
    ensures Field(r, "isDeleted") == Some(JBool(true)) && Field(r, "deletedAt") == Some(JNumber(now))
    ensures forall k :: k in d && k != "isDeleted" && k != "deletedAt" ==> k in r && r[k] == d[k]
  {
    d + map["isDeleted" := JBool(true), "deletedAt" := JNumber(now)]
  }

  /** The row inserted for a new account: a user with the full quota and zeroed counters. */
  function NewProfile(username: string, password: string): (p: Profile)
    ensures p.role == "user" && p.quotaRemaining == 100
    ensures !TruthyOpt(Field(p.data, "isDeleted")) && !TruthyOpt(Field(p.data, "isSuspended"))
    ensures IsCounter(p.data, "interactionCount") && CounterValue(p.data, "interactionCount") == 0
    ensures IsCounter(p.data, "totalOnlineSeconds") && CounterValue(p.data, "totalOnlineSeconds") == 0
  {
    Profile(username, password, "user", 100,
            map["isDeleted" := JBool(false), "isSuspended" := JBool(false),
                "interactionCount" := JNumber(0), "totalOnlineSeconds" := JNumber(0)])
  }

  /** No two rows share a username. */
  ghost predicate UniqueNames(ps: map<string, Profile>) {
    forall a, b :: a in ps && b in ps && ps[a].username == ps[b].username ==> a == b
  }

  ghost predicate HasUsername(ps: map<string, Profile>, name: string) {
    exists id :: id in ps && ps[id].username == name
  }

  /** Inserting a row under an unused id and an unused name keeps names unique. */
  lemma InsertKeepsUnique(ps: map<string, Profile>, id: string, p: Profile)
    requires UniqueNames(ps) && id !in ps && !HasUsername(ps, p.username)
    ensures UniqueNames(ps[id := p])
  {
  }

  /** Replacing a row by one with the same name keeps names unique. */
  lemma ReplaceKeepsUnique(ps: map<string, Profile>, id: string, p: Profile)
    requires UniqueNames(ps) && id in ps && p.username == ps[id].username
    ensures UniqueNames(ps[id := p])
  {
  }

  /** The table with the `data` of one row replaced. */
  function WithData(ps: map<string, Profile>, id: string, d: map<string, Json>): (r: map<string, Profile>)
    requires id in ps
    ensures r.Keys == ps.Keys
    ensures forall k :: k in ps ==> r[k].username == ps[k].username
  {
    ps[id := ps[id].(data := d)]
  }

  /** `data?.data || {}`: the row's data when the read before a write returned the row, and the
      empty object when that read failed. */
  function ReadData(ps: map<string, Profile>, id: string, readOk: bool): map<string, Json>
    requires id in ps
  {
    if readOk then ps[id].data else map[]
  }

  /** A write after a failed read replaces the whole `data` object by the new fields alone: the
      deletion mark, the suspension and the counters are gone, whatever the row held. */
  lemma FailedReadForgetsFlags(ps: map<string, Profile>, id: string, ip: string, location: string,
                               seconds: int, now: int)
    requires id in ps
    ensures var d := ReadData(ps, id, false);
            LoginStamp(d, ip, location, now).Keys == {"lastIp", "location", "lastLoginAt"} &&
            Heartbeat(d, seconds, now).Keys == {"totalOnlineSeconds", "lastActiveAt"} &&
            Bump(d).Keys == {"interactionCount"}
    ensures var d := ReadData(ps, id, false);
            Field(Heartbeat(d, seconds, now), "isSuspended").None? &&
            Field(Heartbeat(d, seconds, now), "isDeleted").None? &&
            Field(Bump(d), "totalOnlineSeconds").None?
  {
  }

  /** The ids of the rows holding a username. */
  function Holders(ps: map<string, Profile>, name: string): (r: set<string>)
    ensures forall id :: id in r <==> id in ps && ps[id].username == name
  {
    set id | id in ps && ps[id].username == name
  }

  /** With unique names, a name is held by exactly the row that holds it. */
  lemma SingleHolder(ps: map<string, Profile>, name: string, id: string)
    requires UniqueNames(ps) && id in ps && ps[id].username == name
    ensures Holders(ps, name) == {id}
  {
  }

  /** Inserting under a name that is already taken breaks the uniqueness of names: this is what
      `createUser` does when its lookup fails. */
  lemma BlindInsertDuplicates(ps: map<string, Profile>, freshId: string, name: string, code: string)
    requires HasUsername(ps, name) && freshId !in ps
    ensures !UniqueNames(ps[freshId := NewProfile(name, code)])
  {
    var id :| id in ps && ps[id].username == name;
    var qs := ps[freshId := NewProfile(name, code)];
    assert id in qs && freshId in qs && qs[id].username == qs[freshId].username && id != freshId;
  }

  // ---------------------------------------------------------------- login

  const Uninitialised := "系统未初始化 (Missing DB Key)"
  const WrongCredentials := "账号或密码错误"
  const NoAccount := "账号不存在"
  const AccountSuspended := "账号已停用"
  const FallbackPrefix := "登录服务异常 (Fallback): "
  const RequestFailed := "请求失败: "
  const SchemaCodes := ["42883", "42P13", "42804"]

  /** What the `login_user` procedure answers. */
  datatype RpcAnswer = RpcData(data: Option<Json>) | RpcFailed(error: Json) | RpcThrew(thrown: Json)

  /** What the direct query on `profiles` answers. */
  datatype DirectAnswer = DirectRow(row: Option<Json>) | DirectFailed(error: Json) | DirectThrew(thrown: Json)

  datatype LoginResult = LoggedIn(user: User) | Refused(message: string)

  /** `e.key?.includes(pat)` for a string property; other values never match. */
  predicate PropertyIncludes(e: Json, key: string, pat: string) {
    var v := Get(e, key);
    v.Some? && v.value.JString? && Contains(v.value.s, pat)
  }

  /** An RPC error that says the procedure's signature does not fit the database. */
  predicate IsSchemaError(e: Json)
    ensures Get(e, "code") == Some(JString("42883")) ==> IsSchemaError(e)
    ensures Get(e, "code").None? && Get(e, "message").None? && Get(e, "details").None? ==> !IsSchemaError(e)
  {
    (var c := Get(e, "code"); c.Some? && c.value.JString? && c.value.s in SchemaCodes)
    || PropertyIncludes(e, "message", "structure of query does not match")
    || PropertyIncludes(e, "details", "does not match expected type")
  }

  /** The row in a successful RPC answer: the answer itself, or the first element of an array. */
  function RpcRow(data: Option<Json>): (r: Option<Json>)
    ensures r.Some? ==> TruthyOpt(data) && (r == data || (data.value.JArray? && r.value in data.value.items))
    ensures data.Some? && data.value == JArray([]) ==> r.None?
    ensures TruthyOpt(data) && data.value.JObject? ==> r == data
  {
    if !TruthyOpt(data) then None
    else match data.value
      case JArray(items) => if items != [] then Some(items[0]) else None
      case _ => data
  }

  /** The raw account row for trimmed credentials, or the message that ends the login early.
      The direct query is only consulted after a schema error of the procedure. */
  function FetchRow(username: string, code: string, rpc: (string, string) -> RpcAnswer,
                    direct: (string, string) -> DirectAnswer, stringify: Json -> Option<string>): (r: Result<Option<Json>, string>)
    ensures rpc(username, code).RpcData? ==> r == Ok(RpcRow(rpc(username, code).data))
    ensures rpc(username, code).RpcFailed? && !IsSchemaError(rpc(username, code).error) ==>
              r == Err(MessageOf(rpc(username, code).error, stringify))
    ensures rpc(username, code).RpcThrew? ==> r.Err? && StartsWith(r.error, RequestFailed)
    ensures rpc(username, code).RpcFailed? && IsSchemaError(rpc(username, code).error) ==>
              match direct(username, code)
              case DirectFailed(_) => r.Err? && StartsWith(r.error, FallbackPrefix)
              case DirectRow(row) => if TruthyOpt(row) then r == Ok(row) else r == Err(WrongCredentials)
              case DirectThrew(_) => r.Err? && StartsWith(r.error, RequestFailed)
  {
    match rpc(username, code)
    case RpcThrew(e) => Err(RequestFailed + MessageOf(e, stringify))
    case RpcData(d) => Ok(RpcRow(d))
    case RpcFailed(e) =>
      if !IsSchemaError(e) then Err(MessageOf(e, stringify))
      else match direct(username, code)
        case DirectThrew(x) => Err(RequestFailed + MessageOf(x, stringify))
        case DirectFailed(de) => Err(FallbackPrefix + MessageOf(de, stringify))
        case DirectRow(row) => if TruthyOpt(row) then Ok(row) else Err(WrongCredentials)
  }

  /** A string property, or "" for any other value. */
  function StringField(o: Option<Json>): string {
    if o.Some? && o.value.JString? then o.value.s else ""
  }

  function NumberField(o: Option<Json>): Option<int> {
    if o.Some? && o.value.JNumber? then Some(o.value.n) else None
  }

  /** `rawData.data || {}`. */
  function Extra(raw: Json): Json {
    Or(Get(raw, "data"), JObject(map[]))
  }

  predicate FlagSet(raw: Json, flag: string) {
    TruthyOpt(Get(Extra(raw), flag))
  }

  /** The session user built from an admitted row. */
  function SessionUser(raw: Json, code: string): (u: User)
    ensures u.inviteCode == code && u.totalQuota == 100 && !u.isSuspended && !u.isDeleted
    ensures u.role == Admin <==> Get(raw, "role") == Some(JString("admin"))
    ensures Get(raw, "quota_remaining").Some? && Get(raw, "quota_remaining").value.JNumber? ==>
              u.quotaRemaining == Get(raw, "quota_remaining").value.n
  {
    var extra := Extra(raw);
    User(StringField(Get(raw, "id")), StringField(Get(raw, "username")),
         if Get(raw, "role") == Some(JString("admin")) then Admin else RegularUser,
         code, 100, NumberOr0(Get(raw, "quota_remaining")), false, false,
         NumberField(Get(extra, "lastLoginAt")),
         NumberOr0(Get(extra, "totalOnlineSeconds")), NumberOr0(Get(extra, "interactionCount")))
  }

  /** The checks on a fetched row: no row, then deleted, then suspended. */
  function Admit(raw: Option<Json>, code: string): (r: LoginResult)
    ensures !TruthyOpt(raw) ==> r == Refused(WrongCredentials)
    ensures TruthyOpt(raw) && FlagSet(raw.value, "isDeleted") ==> r == Refused(NoAccount)
    ensures TruthyOpt(raw) && !FlagSet(raw.value, "isDeleted") && FlagSet(raw.value, "isSuspended") ==>
              r == Refused(AccountSuspended)
    ensures r.LoggedIn? <==>
              TruthyOpt(raw) && !FlagSet(raw.value, "isDeleted") && !FlagSet(raw.value, "isSuspended")
    ensures r.LoggedIn? ==>
              (r.user.role == Admin <==> Get(raw.value, "role") == Some(JString("admin"))) &&
              r.user.inviteCode == code && r.user.totalQuota == 100 &&
              !r.user.isSuspended && !r.user.isDeleted
  {
    if !TruthyOpt(raw) then Refused(WrongCredentials)
    else if FlagSet(raw.value, "isDeleted") then Refused(NoAccount)
    else if FlagSet(raw.value, "isSuspended") then Refused(AccountSuspended)
    else LoggedIn(SessionUser(raw.value, code))
  }

  /** The login on trimmed credentials: the row is fetched, then admitted or refused. */
  function Authenticate(cleanUsername: string, cleanCode: string, rpc: (string, string) -> RpcAnswer,
                        direct: (string, string) -> DirectAnswer, stringify: Json -> Option<string>): (r: LoginResult)
    ensures r.LoggedIn? ==> r.user.inviteCode == cleanCode && !r.user.isSuspended
    ensures rpc(cleanUsername, cleanCode) == RpcData(None) ==> r == Refused(WrongCredentials)
  {
    match FetchRow(cleanUsername, cleanCode, rpc, direct, stringify)
    case Err(m) => Refused(m)
    case Ok(raw) => Admit(raw, cleanCode)
  }

  /** `userRepo.login`. */
  function Login(connected: bool, username: string, code: string, rpc: (string, string) -> RpcAnswer,
                 direct: (string, string) -> DirectAnswer, stringify: Json -> Option<string>): (r: LoginResult)
    ensures !connected ==> r == Refused(Uninitialised)
    ensures r.LoggedIn? ==> connected && r.user.inviteCode == Trim(code) && !r.user.isSuspended
    ensures connected && rpc(Trim(username), Trim(code)) == RpcData(None) ==> r == Refused(WrongCredentials)
  {
    if !connected then Refused(Uninitialised)
    else Authenticate(Trim(username), Trim(code), rpc, direct, stringify)
  }

  /** The credentials are trimmed before anything else: padding them changes nothing. */
  lemma LoginTrims(connected: bool, username: string, code: string, rpc: (string, string) -> RpcAnswer,
                   direct: (string, string) -> DirectAnswer, stringify: Json -> Option<string>)
    ensures Login(connected, username, code, rpc, direct, stringify) ==
            Login(connected, Trim(username), Trim(code), rpc, direct, stringify)
  {
    TrimIdempotent(username);
    TrimIdempotent(code);
  }

  /** The direct query is consulted only when the procedure reports a schema error. */
  lemma DirectOnlyOnSchemaError(username: string, code: string, rpc: (string, string) -> RpcAnswer,
                                d1: (string, string) -> DirectAnswer, d2: (string, string) -> DirectAnswer,
                                stringify: Json -> Option<string>)
    requires !(rpc(username, code).RpcFailed? && IsSchemaError(rpc(username, code).error))
    ensures FetchRow(username, code, rpc, d1, stringify) == FetchRow(username, code, rpc, d2, stringify)
  {
  }

  /** A deleted account is reported as missing even when it is also suspended. */
  lemma DeletedBeforeSuspended(raw: Json, code: string)
    requires Truthy(raw) && FlagSet(raw, "isDeleted") && FlagSet(raw, "isSuspended")
    ensures Admit(Some(raw), code) == Refused(NoAccount)
  {
  }

  // ---------------------------------------------------------------- projects

  /** A row of the `projects` table, keyed by the project id. */
  datatype ProjectRow = ProjectRow(userId: string, project: Project)

  /** The id a saved project gets: a fresh id for a temporary one, its own id otherwise. */
  function FinalProjectId(id: string, freshId: string): (r: string)
    ensures r == id || r == freshId
    ensures !StartsWith(freshId, "temp-") ==> !StartsWith(r, "temp-")
    ensures !StartsWith(id, "temp-") ==> r == id
  {
    if StartsWith(id, "temp-") then freshId else id
  }

  /** Saving again under the id returned by a save keeps that id. */
  lemma FinalProjectIdStable(id: string, fresh1: string, fresh2: string)
    requires !StartsWith(fresh1, "temp-")
    ensures FinalProjectId(FinalProjectId(id, fresh1), fresh2) == FinalProjectId(id, fresh1)
  {
  }

  /** `listProjects`: the user's rows in the order the query returns them, without the deleted
      ones unless they are asked for. */
  function ListProjects(rows: seq<ProjectRow>, userId: string, includeDeleted: bool): (r: seq<Project>)
    ensures forall p :: p in r <==>
              exists row :: row in rows && row.userId == userId && row.project == p &&
                            (includeDeleted || !p.isDeleted)
    ensures |r| <= |rows|
  {
    if rows == [] then []
    else
      var rest := ListProjects(rows[..|rows| - 1], userId, includeDeleted);
      var row := rows[|rows| - 1];
      assert forall x :: x in rows <==> x in rows[..|rows| - 1] || x == row;
      if row.userId == userId && (includeDeleted || !row.project.isDeleted) then rest + [row.project] else rest
  }

  /** `listProjects` with its query: no client, or a failed query, gives no projects. */
  function ListProjectsQuery(connected: bool, query: Result<seq<ProjectRow>, string>, userId: string,
                             includeDeleted: bool): (r: seq<Project>)
    ensures !connected || query.Err? ==> r == []
    ensures connected && query.Ok? ==>
              forall p :: p in r <==>
                exists row :: row in query.value && row.userId == userId && row.project == p &&
                              (includeDeleted || !p.isDeleted)
  {
    if !connected then []
    else match query
      case Err(_) => []
      case Ok(rows) => ListProjects(rows, userId, includeDeleted)
  }

  // ---------------------------------------------------------------- asset aggregation

  datatype PersonaEntry = PersonaEntry(persona: Persona, sourceProject: string, projectId: string)

  datatype Asset =
    | NoteAsset(note: SocialNote, sourceProject: string, projectId: string)
    | ImageAsset(file: AttachedFile, sourceProject: string, projectId: string)

  datatype Finished =
    | DraftEntry(draft: NoteDraft, sourceProject: string, projectId: string)
    | PublishedEntry(record: PublishedRecord, sourceProject: string, projectId: string)

  datatype Assets = Assets(personas: seq<PersonaEntry>, assets: seq<Asset>, finished: seq<Finished>)

  /** A project with a persona that has a tone contributes that persona. */
  predicate HasTonedPersona(p: Project) {
    p.persona.Some? && p.persona.value.tone != ""
  }

  function Personas(ps: seq<Project>): (r: seq<PersonaEntry>)
    ensures forall e :: e in r <==>
              exists p :: p in ps && HasTonedPersona(p) && e == PersonaEntry(p.persona.value, p.name, p.id)
  {
    if ps == [] then []
    else
      var p := ps[|ps| - 1];
      assert forall x :: x in ps <==> x in ps[..|ps| - 1] || x == p;
      Personas(ps[..|ps| - 1]) + (if HasTonedPersona(p) then [PersonaEntry(p.persona.value, p.name, p.id)] else [])
  }

  function Notes(ns: seq<SocialNote>, p: Project, includeDeleted: bool): (r: seq<Asset>)
    ensures forall a :: a in r <==>
              a.NoteAsset? && a.note in ns && (includeDeleted || !a.note.isDeleted) &&
              a.sourceProject == p.name && a.projectId == p.id
  {
    if ns == [] then []
    else
      var n := ns[|ns| - 1];
      assert forall x :: x in ns <==> x in ns[..|ns| - 1] || x == n;
      Notes(ns[..|ns| - 1], p, includeDeleted) +
      (if includeDeleted || !n.isDeleted then [NoteAsset(n, p.name, p.id)] else [])
  }

  function Images(fs: seq<AttachedFile>, p: Project, includeDeleted: bool): (r: seq<Asset>)
    ensures forall a :: a in r <==>
              a.ImageAsset? && a.file in fs && a.file.kind == ImageFile &&
              (includeDeleted || !a.file.isDeleted) && a.sourceProject == p.name && a.projectId == p.id
  {
    if fs == [] then []
    else
      var f := fs[|fs| - 1];
      assert forall x :: x in fs <==> x in fs[..|fs| - 1] || x == f;
      Images(fs[..|fs| - 1], p, includeDeleted) +
      (if f.kind == ImageFile && (includeDeleted || !f.isDeleted) then [ImageAsset(f, p.name, p.id)] else [])
  }

  function Drafts(ds: seq<NoteDraft>, p: Project, includeDeleted: bool): (r: seq<Finished>)
    ensures forall x :: x in r <==>
              x.DraftEntry? && x.draft in ds && (includeDeleted || !x.draft.isDeleted) &&
              x.sourceProject == p.name && x.projectId == p.id
  {
    if ds == [] then []
    else
      var d := ds[|ds| - 1];
      assert forall x :: x in ds <==> x in ds[..|ds| - 1] || x == d;
      Drafts(ds[..|ds| - 1], p, includeDeleted) +
      (if includeDeleted || !d.isDeleted then [DraftEntry(d, p.name, p.id)] else [])
  }

  function Published(rs: seq<PublishedRecord>, p: Project, includeDeleted: bool): (r: seq<Finished>)
    ensures forall x :: x in r <==>
              x.PublishedEntry? && x.record in rs && (includeDeleted || !x.record.isDeleted) &&
              x.sourceProject == p.name && x.projectId == p.id
  {
    if rs == [] then []
    else
      var q := rs[|rs| - 1];
      assert forall x :: x in rs <==> x in rs[..|rs| - 1] || x == q;
      Published(rs[..|rs| - 1], p, includeDeleted) +
      (if includeDeleted || !q.isDeleted then [PublishedEntry(q, p.name, p.id)] else [])
  }

  /** One project's assets: its notes, then its images. */
  function ProjectAssets(p: Project, includeDeleted: bool): seq<Asset> {
    Notes(p.socialNotes, p, includeDeleted) + Images(p.attachedFiles, p, includeDeleted)
  }

  /** One project's finished work: its drafts, then its published records. */
  function ProjectFinished(p: Project, includeDeleted: bool): seq<Finished> {
    Drafts(p.drafts, p, includeDeleted) + Published(p.publishedHistory, p, includeDeleted)
  }

  function AllAssets(ps: seq<Project>, includeDeleted: bool): seq<Asset> {
    if ps == [] then []
    else AllAssets(ps[..|ps| - 1], includeDeleted) + ProjectAssets(ps[|ps| - 1], includeDeleted)
  }

  function AllFinished(ps: seq<Project>, includeDeleted: bool): seq<Finished> {
    if ps == [] then []
    else AllFinished(ps[..|ps| - 1], includeDeleted) + ProjectFinished(ps[|ps| - 1], includeDeleted)
  }

  /** `assets` holds exactly the assets of the listed projects. */
  lemma {:induction false} AllAssetsMembers(ps: seq<Project>, includeDeleted: bool)
    ensures forall a :: a in AllAssets(ps, includeDeleted) <==> exists p :: p in ps && a in ProjectAssets(p, includeDeleted)
  {
    if ps != [] {
      var p := ps[|ps| - 1];
      assert forall x :: x in ps <==> x in ps[..|ps| - 1] || x == p;
      AllAssetsMembers(ps[..|ps| - 1], includeDeleted);
    }
  }

  /** `finished` holds exactly the drafts and published records of the listed projects. */
  lemma {:induction false} AllFinishedMembers(ps: seq<Project>, includeDeleted: bool)
    ensures forall x :: x in AllFinished(ps, includeDeleted) <==> exists p :: p in ps && x in ProjectFinished(p, includeDeleted)
  {
    if ps != [] {
      var p := ps[|ps| - 1];
      assert forall x :: x in ps <==> x in ps[..|ps| - 1] || x == p;
      AllFinishedMembers(ps[..|ps| - 1], includeDeleted);
    }
  }

  /** `finished` is laid out project by project: the entries of a list of projects followed by
      another are the entries of the first list followed by those of the second. */
  lemma {:induction false} AllFinishedAppend(ps: seq<Project>, qs: seq<Project>, includeDeleted: bool)
    ensures AllFinished(ps + qs, includeDeleted) == AllFinished(ps, includeDeleted) + AllFinished(qs, includeDeleted)
    decreases |qs|
  {
    if qs == [] {
      assert ps + qs == ps;
    } else {
      var front, last := qs[..|qs| - 1], qs[|qs| - 1];
      var whole := ps + qs;
      var a, f, l := AllFinished(ps, includeDeleted), AllFinished(front, includeDeleted), ProjectFinished(last, includeDeleted);
      var pf := AllFinished(ps + front, includeDeleted);
      assert AllFinished(whole, includeDeleted) == pf + l by {
        assert whole[..|whole| - 1] == ps + front && whole[|whole| - 1] == last;
      }
      assert AllFinished(qs, includeDeleted) == f + l;
      assert pf == a + f by {
        AllFinishedAppend(ps, front, includeDeleted);
      }
      Seqs.Regroup(AllFinished(whole, includeDeleted), pf, a, f, l, AllFinished(qs, includeDeleted));
    }
  }

  /** A deleted item reaches `assets` or `finished` only when deleted items are asked for. */
  predicate AssetDeleted(a: Asset) {
    if a.NoteAsset? then a.note.isDeleted else a.file.isDeleted
  }

  predicate FinishedDeleted(x: Finished) {
    if x.DraftEntry? then x.draft.isDeleted else x.record.isDeleted
  }

  /** `aggregateUserAssets` over the rows of the `projects` table. */
  function AggregateUserAssets(rows: seq<ProjectRow>, userId: string, includeDeleted: bool): (r: Assets)
    ensures forall e :: e in r.personas ==>
              exists row :: (row in rows && row.userId == userId && HasTonedPersona(row.project) &&
                             e.persona == row.project.persona.value && e.projectId == row.project.id)
    ensures !includeDeleted ==> forall a :: a in r.assets ==> !AssetDeleted(a)
    ensures !includeDeleted ==> forall x :: x in r.finished ==> !FinishedDeleted(x)
    ensures forall a :: a in r.assets ==> a.ImageAsset? ==> a.file.kind == ImageFile
  {
    var projects := ListProjects(rows, userId, includeDeleted);
    var r := Assets(Personas(projects), AllAssets(projects, includeDeleted), AllFinished(projects, includeDeleted));
    AllAssetsMembers(projects, includeDeleted);
    AllFinishedMembers(projects, includeDeleted);
    r
  }

  /** Every kept draft and published record of a listed project appears in `finished`. */
  lemma FinishedComplete(ps: seq<Project>, p: Project, includeDeleted: bool)
    requires p in ps
    ensures forall d :: d in p.drafts && (includeDeleted || !d.isDeleted) ==>
              DraftEntry(d, p.name, p.id) in AllFinished(ps, includeDeleted)
    ensures forall q :: q in p.publishedHistory && (includeDeleted || !q.isDeleted) ==>
              PublishedEntry(q, p.name, p.id) in AllFinished(ps, includeDeleted)
  {
    AllFinishedMembers(ps, includeDeleted);
  }

  // ---------------------------------------------------------------- the repository

  const Disconnected := "数据库未连接"
  const ProtectedAccount := "无法删除超级管理员"
  const UserRemoved := "用户已移除"
  const DuplicateName := "用户名已存在"
  const NoDatabase := "DB Disconnected"

  /** The two tables and whether a database client exists. */
  class Repository {
    const connected: bool
    var profiles: map<string, Profile>
    var projects: map<string, ProjectRow>

    /** No two rows share a username. The database does not enforce it: `createUser` keeps it
        only when its lookup succeeds. */
    ghost predicate Valid()
      reads this
    {
      UniqueNames(profiles)
    }

    constructor(connected: bool, profiles: map<string, Profile>, projects: map<string, ProjectRow>)
      ensures UniqueNames(profiles) ==> Valid()
      ensures this.connected == connected && this.profiles == profiles && this.projects == projects
    {
      this.connected := connected;
      this.profiles := profiles;
      this.projects := projects;
    }

    /** Whether a counter update reaches the row: a client exists, the account is not protected
        and the row exists. `written` says whether the database applied the update. */
    predicate Touches(userId: string, written: bool)
      reads this
    {
      connected && !IsProtected(userId) && written && userId in profiles
    }

    /** `recordLogin`: stamps the login into the row's data. `readOk` says whether the read
        before the write returned the row; after a failed read the stamp replaces the data. */
    method RecordLogin(userId: string, ip: string, location: string, now: int, readOk: bool, written: bool)
      modifies this
      ensures old(Valid()) ==> Valid()
      ensures projects == old(projects)
      ensures old(Touches(userId, written)) ==>
                profiles == WithData(old(profiles), userId,
                                     LoginStamp(ReadData(old(profiles), userId, readOk), ip, location, now))
      ensures !old(Touches(userId, written)) ==> profiles == old(profiles)
    {
      if !connected || userId == "admin_user_001" || StartsWith(userId, "00000000") {
        return;
      }
      if userId in profiles && written {
        var current := if readOk then profiles[userId].data else map[];
        profiles := WithData(profiles, userId, LoginStamp(current, ip, location, now));
      }
    }

    /** `updateHeartbeat`: adds the seconds to the online time; after a failed read the counter
        restarts from 0 and the other fields are lost. */
    method UpdateHeartbeat(userId: string, seconds: int, now: int, readOk: bool, written: bool)
      modifies this
      ensures old(Valid()) ==> Valid()
      ensures projects == old(projects)
      ensures old(Touches(userId, written)) ==>
                profiles == WithData(old(profiles), userId,
                                     Heartbeat(ReadData(old(profiles), userId, readOk), seconds, now))
      ensures !old(Touches(userId, written)) ==> profiles == old(profiles)
    {
      if !connected || userId == "admin_user_001" || StartsWith(userId, "00000000") {
        return;
      }
      if userId in profiles && written {
        var current := if readOk then profiles[userId].data else map[];
        profiles := WithData(profiles, userId, Heartbeat(current, seconds, now));
      }
    }

    /** `incrementInteraction`: counts one interaction; after a failed read the data becomes a
        count of 1 alone. */
    method IncrementInteraction(userId: string, readOk: bool, written: bool)
      modifies this
      ensures old(Valid()) ==> Valid()
      ensures projects == old(projects)
      ensures old(Touches(userId, written)) ==>
                profiles == WithData(old(profiles), userId, Bump(ReadData(old(profiles), userId, readOk)))
      ensures !old(Touches(userId, written)) ==> profiles == old(profiles)
    {
      if !connected || userId == "admin_user_001" || StartsWith(userId, "00000000") {
        return;
      }
      if userId in profiles && written {
        var current := if readOk then profiles[userId].data else map[];
        profiles := WithData(profiles, userId, Bump(current));
      }
    }

    /** `createUser`: revives a deleted account of that name, refuses a live one, and inserts a
        new row otherwise. `lookupOk` says whether the lookup by name succeeded: `maybeSingle`
        fails on a database error and when several rows hold the name, and a failed lookup goes
        on to the insert. `freshId` is the generated id, `writeError` the database's error. */
    method CreateUser(username: string, code: string, freshId: string, lookupOk: bool, writeError: Option<Json>,
                      stringify: Json -> Option<string>) returns (r: Result<(), string>)
      requires freshId !in profiles
      modifies this
      ensures old(Valid()) && (lookupOk || !HasUsername(old(profiles), Trim(username))) ==> Valid()
      ensures projects == old(projects)
      ensures !connected ==> r == Err(NoDatabase) && profiles == old(profiles)
      ensures r.Err? ==> profiles == old(profiles)
      ensures writeError.Some? ==> r.Err?
      ensures r.Ok? ==> HasUsername(profiles, Trim(username))
      ensures connected && !(lookupOk && |Holders(old(profiles), Trim(username))| == 1) && writeError.None? ==>
                r.Ok? && profiles == old(profiles)[freshId := NewProfile(Trim(username), Trim(code))]
      ensures forall id :: connected && lookupOk && id in old(profiles) && old(profiles)[id].username == Trim(username) &&
                           |Holders(old(profiles), Trim(username))| == 1 ==>
                if !TruthyOpt(Field(old(profiles)[id].data, "isDeleted")) then r == Err(DuplicateName)
                else writeError.None? ==>
                       r.Ok? &&
                       profiles == old(profiles)[id := old(profiles)[id].(password := Trim(code),
                                                                          data := Revived(old(profiles)[id].data))]
    {
      if !connected {
        return Err(NoDatabase);
      }
      var cleanUsername := Trim(username);
      var cleanCode := Trim(code);
      var holders := Holders(profiles, cleanUsername);
      if lookupOk && |holders| == 1 {
        var id :| id in holders;
        assert holders == {id} by {
          assert |holders - {id}| == 0;
        }
        var existing := profiles[id];
        if TruthyOpt(Field(existing.data, "isDeleted")) {
          if writeError.Some? {
            return Err(MessageOf(writeError.value, stringify));
          }
          if UniqueNames(profiles) {
            ReplaceKeepsUnique(profiles, id, existing.(password := cleanCode, data := Revived(existing.data)));
          }
          profiles := profiles[id := existing.(password := cleanCode, data := Revived(existing.data))];
          assert id in profiles && profiles[id].username == cleanUsername;
          return Ok(());
        }
        return Err(DuplicateName);
      }
      if writeError.Some? {
        return Err(MessageOf(writeError.value, stringify));
      }
      if UniqueNames(profiles) && (lookupOk || !HasUsername(profiles, cleanUsername)) {
        if lookupOk && HasUsername(profiles, cleanUsername) {
          var id :| id in profiles && profiles[id].username == cleanUsername;
          SingleHolder(profiles, cleanUsername, id);
          assert false;
        }
        InsertKeepsUnique(profiles, freshId, NewProfile(cleanUsername, cleanCode));
      }
      profiles := profiles[freshId := NewProfile(cleanUsername, cleanCode)];
      assert freshId in profiles && profiles[freshId].username == cleanUsername;
      r := Ok(());
    }

    /** `toggleUserSuspension`: sets the suspension flag, keeping the other data fields when the
        read before the write returned the row, and writing the flag alone otherwise. */
    method ToggleUserSuspension(userId: string, suspend: bool, readOk: bool, written: bool)
      modifies this
      ensures old(Valid()) ==> Valid()
      ensures projects == old(projects)
      ensures connected && written && userId in old(profiles) ==>
                profiles == WithData(old(profiles), userId,
                                     ReadData(old(profiles), userId, readOk)["isSuspended" := JBool(suspend)])
      ensures !(connected && written && userId in old(profiles)) ==> profiles == old(profiles)
    {
      if !connected {
        return;
      }
      if userId in profiles && written {
        var current := if readOk then profiles[userId].data else map[];
        profiles := WithData(profiles, userId, current["isSuspended" := JBool(suspend)]);
      }
    }

    /** `deleteUser`: marks the account deleted; protected accounts are refused. A missing row
        reports success without changing anything, and after a failed read the mark and its
        time replace the data. */
    method DeleteUser(userId: string, now: int, readOk: bool, writeError: Option<Json>, stringify: Json -> Option<string>)
      returns (r: Result<string, string>)
      modifies this
      ensures old(Valid()) ==> Valid()
      ensures projects == old(projects)
      ensures !connected ==> r == Err(Disconnected)
      ensures connected && IsProtected(userId) ==> r == Err(ProtectedAccount)
      ensures r.Err? ==> profiles == old(profiles)
      ensures r.Ok? <==> connected && !IsProtected(userId) && writeError.None?
      ensures r.Ok? ==> r.value == UserRemoved
      ensures r.Ok? && userId in old(profiles) ==>
                profiles == WithData(old(profiles), userId, SoftDeleted(ReadData(old(profiles), userId, readOk), now))
      ensures userId !in old(profiles) ==> profiles == old(profiles)
    {
      if !connected {
        return Err(Disconnected);
      }
      if userId == "admin_user_001" || StartsWith(userId, "00000000") {
        return Err(ProtectedAccount);
      }
      if writeError.Some? {
        return Err(MessageOf(writeError.value, stringify));
      }
      if userId in profiles {
        var current := if readOk then profiles[userId].data else map[];
        profiles := WithData(profiles, userId, SoftDeleted(current, now));
      }
      r := Ok(UserRemoved);
    }

    /** `updateQuota`: sets the remaining quota; only the literal id "admin" is skipped. */
    method UpdateQuota(userId: string, newQuota: int, written: bool)
      modifies this
      ensures old(Valid()) ==> Valid()
      ensures projects == old(projects)
      ensures connected && userId != "admin" && written && userId in old(profiles) ==>
                profiles == old(profiles)[userId := old(profiles)[userId].(quotaRemaining := newQuota)]
      ensures !(connected && userId != "admin" && written && userId in old(profiles)) ==> profiles == old(profiles)
    {
      if !connected || userId == "admin" {
        return;
      }
      if userId in profiles && written {
        profiles := profiles[userId := profiles[userId].(quotaRemaining := newQuota)];
      }
    }

    /** `saveProject`: upserts the project under its final id and returns that id; None when
        there is no client, Err with the message when the write fails. */
    method SaveProject(userId: string, project: Project, freshId: string, writeError: Option<Json>,
                       stringify: Json -> Option<string>) returns (r: Result<Option<string>, string>)
      modifies this
      ensures profiles == old(profiles)
      ensures !connected ==> r == Ok(None) && projects == old(projects)
      ensures connected && writeError.Some? ==> r.Err? && projects == old(projects)
      ensures connected && writeError.None? ==>
                var id := FinalProjectId(project.id, freshId);
                r == Ok(Some(id)) && projects == old(projects)[id := ProjectRow(userId, project.(id := id))]
    {
      if !connected {
        return Ok(None);
      }
      var finalId := FinalProjectId(project.id, freshId);
      if writeError.Some? {
        return Err(MessageOf(writeError.value, stringify));
      }
      projects := projects[finalId := ProjectRow(userId, project.(id := finalId))];
      r := Ok(Some(finalId));
    }

    /** `deleteProject`: marks an existing project deleted, keeping everything else. */
    method DeleteProject(projectId: string, written: bool) returns (r: Result<(), string>)
      modifies this
      ensures profiles == old(profiles)
      ensures r.Err? <==> !connected
      ensures r.Err? ==> r.error == Disconnected
      ensures connected && written && projectId in old(projects) ==>
                projects == old(projects)[projectId := old(projects)[projectId].(project :=
                              old(projects)[projectId].project.(isDeleted := true))]
      ensures !(connected && written && projectId in old(projects)) ==> projects == old(projects)
    {
      if !connected {
        return Err(Disconnected);
      }
      if projectId in projects && written {
        var row := projects[projectId];
        projects := projects[projectId := row.(project := row.project.(isDeleted := true))];
      }
      r := Ok(());
    }
  }
}
