/** Start-up configuration (`app/config.py`), read from a given environment
    instead of the process environment and the `.env.dev` file. */
module Config {
  import opened Wrappers
  import opened Strings

  /** The process environment: variable name to value. */
  type Env = map<string, string>

  /** `os.getenv(name, default)`. */
  function Getenv(env: Env, name: string, default: string): string {
    if name in env then env[name] else default
  }

  /** Why start-up stops: the empty-token exit, or the `ValueError` of an `int()` conversion. */
  datatype ConfigError = EmptyBotToken | NotAnInteger(variable: string)

  /** The module-level settings of `config.py`. */
  datatype Settings = Settings(
    botToken: string,
    supportChatId: int,
    adminIds: seq<int>,
    idPrefix: string,
    exportLookback: int,
    bitrixBase: string,
    responsibleId: int,
    mode: string,
    smartEntityId: string,
    smartCategoryId: string,
    smartStageId: string,
    smartStageWork: string,
    smartStageClosed: string)

  /** The mode in which submissions become CRM smart-process items. */
  predicate CrmMode(cfg: Settings) {
    cfg.mode == "CRM" && cfg.smartEntityId != ""
  }

  // ---------------------------------------------------------------------------
  // ADMIN_IDS

  /** The entries that are not blank once stripped (`if x.strip()`), in order. */
  function NonBlank(parts: seq<string>): (r: seq<string>)
    ensures |r| <= |parts|
    ensures forall i :: 0 <= i < |r| ==> Strip(r[i]) != ""
    ensures forall i :: 0 <= i < |parts| && Strip(parts[i]) != "" ==> parts[i] in r
    ensures forall x :: x in r ==> x in parts
  {
    if |parts| == 0 then []
    else if Strip(parts[0]) != "" then [parts[0]] + NonBlank(parts[1..])
    else NonBlank(parts[1..])
  }

  /** Filtering distributes over concatenation, so the kept entries stay in
      their order and keep their repetitions. */
  lemma {:induction false} NonBlankAppend(a: seq<string>, b: seq<string>)
    ensures NonBlank(a + b) == NonBlank(a) + NonBlank(b)
  {
    if |a| > 0 {
      assert (a + b)[1..] == a[1..] + b;
      NonBlankAppend(a[1..], b);
    } else {
      assert a + b == b;
    }
  }

  /** A single entry is kept exactly when it is not blank. */
  lemma NonBlankOne(x: string)
    ensures NonBlank([x]) == (if Strip(x) != "" then [x] else [])
  {
    assert [x][1..] == [];
  }

  /** `[int(x.strip()) for x in parts]`: every entry converted, or the `ValueError`
      of the first one that is not an integer. */
  function ParseEach(parts: seq<string>): (r: Option<seq<int>>)
    ensures r.Some? ==> |r.value| == |parts|
  {
    if |parts| == 0 then Some([])
    else
      var head := ParseInt(parts[0]);
      var tail := ParseEach(parts[1..]);
      if head.None? || tail.None? then None
      else Some([head.value] + tail.value)
  }

  /** A converted list holds, position by position, the value of each entry. */
  lemma {:induction false} ParseEachValues(parts: seq<string>)
    ensures ParseEach(parts).Some? ==>
              forall i :: 0 <= i < |parts| ==> ParseInt(parts[i]) == Some(ParseEach(parts).value[i])
  {
    if |parts| > 0 && ParseEach(parts).Some? {
      ParseEachValues(parts[1..]);
      assert forall i :: 1 <= i < |parts| ==> parts[i] == parts[1..][i - 1];
    }
  }

  /** The conversion fails exactly when some entry is not an integer. */
  lemma {:induction false} ParseEachFails(parts: seq<string>)
    ensures ParseEach(parts).None? <==> exists i :: 0 <= i < |parts| && ParseInt(parts[i]).None?
  {
    if |parts| > 0 {
      ParseEachFails(parts[1..]);
      if ParseInt(parts[0]).None? {
        assert ParseInt(parts[0]).None?;
      } else if ParseEach(parts[1..]).None? {
        var j :| 0 <= j < |parts| - 1 && ParseInt(parts[1..][j]).None?;
        assert parts[j + 1] == parts[1..][j];
      } else {
        assert forall i :: 1 <= i < |parts| ==> parts[i] == parts[1..][i - 1];
      }
    }
  }

  /** `ADMIN_IDS`: the comma-separated list, blanks dropped, each entry an integer. */
  function ParseAdminIds(raw: string): Option<seq<int>> {
    ParseEach(NonBlank(SplitOn(raw, ',')))
  }

  /** The comma-separated text of a list of ids, as an operator would write it. */
  function AdminIdsText(ids: seq<int>): string {
    Join(seq(|ids|, i requires 0 <= i < |ids| => IntToString(ids[i])), ',')
  }

  /** An unset or empty `ADMIN_IDS` gives the empty list, so nobody is an admin. */
  lemma EmptyAdminIds()
    ensures ParseAdminIds("") == Some([])
  {
    assert SplitOn("", ',') == [""];
    assert Strip("") == "";
  }

  /** Reading back a written list of ids gives the list, in order. */
  lemma AdminIdsRoundTrip(ids: seq<int>)
    ensures ParseAdminIds(AdminIdsText(ids)) == Some(ids)
  {
    var parts := seq(|ids|, i requires 0 <= i < |ids| => IntToString(ids[i]));
    if |ids| == 0 {
      assert AdminIdsText(ids) == "";
      EmptyAdminIds();
    } else {
      forall i | 0 <= i < |parts|
        ensures ',' !in parts[i] && Strip(parts[i]) != "" && ParseInt(parts[i]) == Some(ids[i])
      {
        IntTextShape(ids[i]);
        ParseIntRoundTrip(ids[i]);
      }
      SplitJoin(parts, ',');
      NonBlankKeeps(parts);
      ParseEachRoundTrip(parts, ids);
    }
  }

  /** The decimal text of an integer holds no comma and is not blank. */
  lemma IntTextShape(n: int)
    ensures ',' !in IntToString(n) && Strip(IntToString(n)) != ""
  {
    var m: nat := if n < 0 then -n else n;
    var digits := NatToString(m);
    assert forall k :: 0 <= k < |digits| ==> IsDigit(digits[k]);
    if n < 0 {
      var s := "-" + digits;
      assert Stripped(s);
      assert forall k :: 0 <= k < |s| ==> s[k] != ',';
    } else {
      assert Stripped(digits);
    }
  }

  /** Nothing is dropped from a list without blank entries. */
  lemma {:induction false} NonBlankKeeps(parts: seq<string>)
    requires forall i :: 0 <= i < |parts| ==> Strip(parts[i]) != ""
    ensures NonBlank(parts) == parts
  {
    if |parts| > 0 {
      NonBlankKeeps(parts[1..]);
      assert [parts[0]] + parts[1..] == parts;
    }
  }

  /** Converting entries that are the texts of `ids` gives `ids`. */
  lemma {:induction false} ParseEachRoundTrip(parts: seq<string>, ids: seq<int>)
    requires |parts| == |ids|
    requires forall i :: 0 <= i < |parts| ==> ParseInt(parts[i]) == Some(ids[i])
    ensures ParseEach(parts) == Some(ids)
  {
    if |parts| > 0 {
      ParseEachRoundTrip(parts[1..], ids[1..]);
      assert [ids[0]] + ids[1..] == ids;
    }
  }

  // ---------------------------------------------------------------------------
  // BITRIX_WEBHOOK_BASE

  /** `s.rstrip("/")`. */
  function TrimSlashes(s: string): (r: string)
    ensures |r| <= |s| && r == s[..|r|]
    ensures |r| == 0 || r[|r| - 1] != '/'
    ensures forall i :: |r| <= i < |s| ==> s[i] == '/'
  {
    if |s| > 0 && s[|s| - 1] == '/' then TrimSlashes(s[..|s| - 1]) else s
  }

  /** `BITRIX_BASE`: the webhook base with its trailing slashes replaced by exactly one. */
  function NormalizeBase(raw: string): (r: string)
    ensures |r| >= 1 && r[|r| - 1] == '/'
    ensures |r| == 1 || r[|r| - 2] != '/'
    ensures r[..|r| - 1] <= raw
    ensures forall i :: |r| - 1 <= i < |raw| ==> raw[i] == '/'
  {
    TrimSlashes(raw) + "/"
  }

  /** Normalising twice changes nothing. */
  lemma NormalizeBaseIdempotent(raw: string)
    ensures NormalizeBase(NormalizeBase(raw)) == NormalizeBase(raw)
  {
    var r := NormalizeBase(raw);
    var core := TrimSlashes(raw);
    assert r[..|r| - 1] == core;
    TrimmedFixed(core);
    assert TrimSlashes(r) == core by {
      assert r[..|r| - 1] == core;
    }
  }

  /** A string that does not end in `/` loses nothing to `rstrip("/")`. */
  lemma TrimmedFixed(s: string)
    requires |s| == 0 || s[|s| - 1] != '/'
    ensures TrimSlashes(s) == s
  {
  }

  /** However many slashes the base ends with, the result is the same. */
  lemma {:induction false} NormalizeBaseSlashes(raw: string, k: nat)
    ensures NormalizeBase(raw + Slashes(k)) == NormalizeBase(raw)
    decreases k
  {
    if k > 0 {
      var s := raw + Slashes(k);
      assert s[..|s| - 1] == raw + Slashes(k - 1);
      NormalizeBaseSlashes(raw, k - 1);
    } else {
      assert raw + Slashes(0) == raw;
    }
  }

  function Slashes(k: nat): (z: string)
    ensures |z| == k
  {
    if k == 0 then [] else Slashes(k - 1) + "/"
  }

  // ---------------------------------------------------------------------------
  // the settings

  /** `BOT_TOKEN`, stripped. */
  function TokenOf(env: Env): (tok: string)
    ensures Stripped(tok)
    ensures "BOT_TOKEN" !in env ==> tok == ""
  {
    Strip(Getenv(env, "BOT_TOKEN", ""))
  }

  /** `ID_PREFIX`: stripped, `HR` when unset (but empty when set to blanks). */
  function IdPrefixOf(env: Env): (p: string)
    ensures Stripped(p)
    ensures "ID_PREFIX" !in env ==> p == "HR"
    ensures "ID_PREFIX" in env ==> p == Strip(env["ID_PREFIX"])
  {
    var v := Getenv(env, "ID_PREFIX", "HR");
    if "ID_PREFIX" in env then Strip(v)
    else
      HrStripped(v);
      Strip(v)
  }

  lemma HrStripped(v: string)
    requires v == "HR"
    ensures Strip(v) == "HR"
  {
    assert Stripped(v);
  }

  /** `BITRIX_MODE`: upper-cased, `TASKS` when unset. */
  function ModeOf(env: Env): (m: string)
    ensures "BITRIX_MODE" !in env ==> m == "TASKS"
    ensures "BITRIX_MODE" in env ==> m == Upper(env["BITRIX_MODE"])
  {
    var v := Getenv(env, "BITRIX_MODE", "TASKS");
    if "BITRIX_MODE" in env then Upper(v)
    else
      TasksUpper(v);
      Upper(v)
  }

  lemma TasksUpper(v: string)
    requires v == "TASKS"
    ensures Upper(v) == "TASKS"
  {
    assert forall i :: 0 <= i < |v| ==> UpperChar(v[i]) == v[i];
  }

  /** `BITRIX_BASE`: `/` when unset. */
  function BaseOf(env: Env): (b: string)
    ensures |b| >= 1 && b[|b| - 1] == '/' && (|b| == 1 || b[|b| - 2] != '/')
    ensures "BITRIX_WEBHOOK_BASE" !in env ==> b == "/"
  {
    NormalizeBase(Getenv(env, "BITRIX_WEBHOOK_BASE", ""))
  }

  /** `ADMIN_IDS`: nobody when unset. */
  function AdminIdsOf(env: Env): (ids: Option<seq<int>>)
    ensures "ADMIN_IDS" !in env ==> ids == Some([])
  {
    EmptyAdminIds();
    ParseAdminIds(Getenv(env, "ADMIN_IDS", ""))
  }

  /** `int(os.getenv(name, str(default)))`: the default is the number itself. */
  function ReadInt(env: Env, name: string, default: int): Option<int> {
    if name in env then ParseInt(env[name]) else Some(default)
  }

  /** `os.getenv(name, default).strip()`. */
  function ReadStripped(env: Env, name: string, default: string): string {
    Strip(Getenv(env, name, default))
  }

  /** The settings whose admin list, id prefix, mode and webhook base were read from `env`. */
  predicate ReadFrom(env: Env, cfg: Settings) {
    && TokenOf(env) == cfg.botToken
    && AdminIdsOf(env) == Some(cfg.adminIds)
    && IdPrefixOf(env) == cfg.idPrefix
    && ModeOf(env) == cfg.mode
    && BaseOf(env) == cfg.bitrixBase
  }

  /** The settings module: each variable read in order, with its default; the
      first failing step decides the error. */
  function LoadSettings(env: Env): Result<Settings, ConfigError>
  {
    var token := TokenOf(env);
    if token == "" then Failure(EmptyBotToken) else LoadAfterToken(env, token)
  }

  /** The variables read after the token. */
  function LoadAfterToken(env: Env, token: string): (r: Result<Settings, ConfigError>)
    ensures r.Failure? ==> r.error.NotAnInteger?
  {
    match ReadInt(env, "SUPPORT_CHAT_ID", -1000000000000)
    case None => Failure(NotAnInteger("SUPPORT_CHAT_ID"))
    case Some(chat) =>
      match AdminIdsOf(env)
      case None => Failure(NotAnInteger("ADMIN_IDS"))
      case Some(admins) =>
        match ReadInt(env, "EXPORT_LOOKBACK", 200)
        case None => Failure(NotAnInteger("EXPORT_LOOKBACK"))
        case Some(lookback) =>
          match ReadInt(env, "BITRIX_RESPONSIBLE_ID", 1)
          case None => Failure(NotAnInteger("BITRIX_RESPONSIBLE_ID"))
          case Some(responsible) =>
            Success(Settings(
              token, chat, admins, IdPrefixOf(env), lookback, BaseOf(env), responsible,
              ModeOf(env),
              ReadStripped(env, "BITRIX_SMART_ENTITY_ID", ""),
              ReadStripped(env, "BITRIX_SMART_CATEGORY_ID", "0"),
              ReadStripped(env, "BITRIX_SMART_STAGE_ID", ""),
              ReadStripped(env, "BITRIX_SMART_STAGE_WORK", ""),
              ReadStripped(env, "BITRIX_SMART_STAGE_CLOSED", "")))
  }

  /** A blank or missing token, and only that, stops start-up with the empty-token error. */
  lemma TokenRequired(env: Env)
    ensures TokenOf(env) == "" <==> LoadSettings(env) == Failure(EmptyBotToken)
  {
    var token := TokenOf(env);
    if token != "" {
      assert LoadSettings(env) == LoadAfterToken(env, token);
    }
  }

  /** Loaded settings carry the admin list, id prefix, mode and webhook base
      read from the environment; an unreadable admin list stops start-up. */
  lemma SettingsRead(env: Env)
    ensures LoadSettings(env).Success? ==> ReadFrom(env, LoadSettings(env).value)
    ensures AdminIdsOf(env).None? ==> LoadSettings(env).Failure?
  {
  }

  /** Upper-casing is idempotent, so the mode test does not depend on the
      spelling: `crm`, `Crm` and `CRM` all select the CRM mode. */
  lemma ModeSpelling(v: string)
    ensures Upper(Upper(v)) == Upper(v)
    ensures Upper("crm") == "CRM" && Upper("Crm") == "CRM" && Upper("CRM") == "CRM"
  {
  }
}
