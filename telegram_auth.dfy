// telegram-auth.js: whether the page runs inside a real Telegram Web App,
// how enforceInstanceTelegramAuth classifies a refusal, and the headers and
// user the rest of the client takes from that decision.
module TelegramAuth {
  import opened Js

  /** `initDataUnsafe.user`; an object, so truthy whenever present. */
  datatype TgUser = TgUser(id: Option<int>)

  /**
   * `window.Telegram.WebApp` as read here: whether `ready` is a function,
   * `initData`, `version`, and `initDataUnsafe?.user`.
   */
  datatype WebApp = WebApp(hasReady: bool, initData: Option<string>, version: Option<string>, user: Option<TgUser>)

  /** `window.Telegram`; the environment is None when it is undefined or null. */
  datatype Telegram = Telegram(webApp: Option<WebApp>)

  /** getCurrentUrlPrefix. */
  function UrlPrefix(devMode: bool): (p: string)
    ensures devMode <==> p == "/dev"
    ensures !devMode <==> p == ""
  {
    if devMode then "/dev" else ""
  }

  /** The version a browser mock reports, or none at all. */
  predicate MockVersion(version: Option<string>)
  {
    !Truthy(version) || version.value == "7.0"
  }

  /** The user is present with a truthy id. */
  predicate HasUserId(user: Option<TgUser>)
  {
    user.Some? && user.value.id.Some? && user.value.id.value != 0
  }

  /** isInTelegramWebApp. */
  predicate IsInTelegramWebApp(env: Option<Telegram>)
  {
    if env.None? || env.value.webApp.None? || !env.value.webApp.value.hasReady then false
    else
      var w := env.value.webApp.value;
      if !Truthy(w.initData) then false
      else if MockVersion(w.version) && |w.initData.value| < 50 then false
      else HasUserId(w.user)
  }

  /** isTelegramWebAppAvailable: `!!window.Telegram?.WebApp?.initData`. */
  predicate IsTelegramWebAppAvailable(env: Option<Telegram>)
  {
    env.Some? && env.value.webApp.Some? && Truthy(env.value.webApp.value.initData)
  }

  // ---------------------------------------------------------------------
  // enforceInstanceTelegramAuth.

  datatype Access = Browser | BrowserWithScript | TelegramEmptyInitData | TelegramNoUser | UnknownIssue
  datatype Level = Warning | Error

  /** The check passes, or the page is sent to `redirect` after a log of `access` at `level`. */
  datatype Enforced = Passed | Refused(access: Access, level: Level, redirect: string)

  /** `initDataLength`: the length of a truthy initData, else 0. */
  function InitDataLength(env: Option<Telegram>): (n: nat)
    ensures n > 0 <==> env.Some? && env.value.webApp.Some? && Truthy(env.value.webApp.value.initData)
  {
    if env.Some? && env.value.webApp.Some? && Truthy(env.value.webApp.value.initData) then |env.value.webApp.value.initData.value|
    else 0
  }

  /** `userId`: the user's id when the WebApp and its user exist. */
  function UserIdOf(env: Option<Telegram>): Option<int>
  {
    if env.Some? && env.value.webApp.Some? && env.value.webApp.value.user.Some? then env.value.webApp.value.user.value.id
    else None
  }

  /** `isRealTelegram`: `ready` is a function and initData is non-empty. */
  predicate IsRealTelegram(env: Option<Telegram>)
  {
    env.Some? && env.value.webApp.Some? && env.value.webApp.value.hasReady && InitDataLength(env) > 0
  }

  function Enforce(env: Option<Telegram>, devMode: bool): Enforced
  {
    if IsInTelegramWebApp(env) then Passed
    else
      var redirect := UrlPrefix(devMode) + "/auth_error";
      if env.None? then Refused(Browser, Warning, redirect)
      else if !IsRealTelegram(env) then Refused(BrowserWithScript, Warning, redirect)
      else if InitDataLength(env) == 0 then Refused(TelegramEmptyInitData, Error, redirect)
      else if UserIdOf(env).None? || UserIdOf(env).value == 0 then Refused(TelegramNoUser, Error, redirect)
      else Refused(UnknownIssue, Error, redirect)
  }

  // ---------------------------------------------------------------------
  // createTelegramHeaders and getTelegramUser.

  const ContentType := "Content-Type"
  const InitDataHeader := "X-Telegram-Init-Data"

  function CreateTelegramHeaders(env: Option<Telegram>): (h: map<string, string>)
    ensures ContentType in h && h[ContentType] == "application/json"
    ensures InitDataHeader in h <==> IsInTelegramWebApp(env)
    ensures InitDataHeader in h ==> h[InitDataHeader] == env.value.webApp.value.initData.value
    ensures forall k :: k in h ==> k == ContentType || k == InitDataHeader
  {
    var base := map[ContentType := "application/json"];
    if IsInTelegramWebApp(env) then base[InitDataHeader := env.value.webApp.value.initData.value] else base
  }

  function GetTelegramUser(env: Option<Telegram>): (u: Option<TgUser>)
    ensures u.Some? <==> IsInTelegramWebApp(env)
    ensures u.Some? ==> u == env.value.webApp.value.user && u.value.id.Some? && u.value.id.value != 0
  {
    if IsInTelegramWebApp(env) then env.value.webApp.value.user else None
  }

  // ---------------------------------------------------------------------
  // Properties.

  /** The page passes the enforcement exactly when it is in the Web App; otherwise it goes to the auth error page. */
  lemma EnforceAgrees(env: Option<Telegram>, devMode: bool)
    ensures Enforce(env, devMode).Passed? <==> IsInTelegramWebApp(env)
    ensures Enforce(env, devMode).Refused? ==> Enforce(env, devMode).redirect == UrlPrefix(devMode) + "/auth_error"
  {
  }

  /** A real Telegram always has initData, so the empty-initData classification never occurs. */
  lemma EmptyInitDataUnreachable(env: Option<Telegram>, devMode: bool)
    ensures Enforce(env, devMode) != Refused(TelegramEmptyInitData, Error, UrlPrefix(devMode) + "/auth_error")
    ensures Enforce(env, devMode).Refused? ==> Enforce(env, devMode).access != TelegramEmptyInitData
  {
  }

  /** Browser-side refusals are warnings, Telegram-side ones errors. */
  lemma RefusalLevels(env: Option<Telegram>, devMode: bool)
    ensures var e := Enforce(env, devMode);
      e.Refused? ==> (e.level == Warning <==> e.access == Browser || e.access == BrowserWithScript)
  {
  }

  /** Which refusal a page gets. */
  lemma RefusalCauses(env: Option<Telegram>, devMode: bool)
    ensures Enforce(env, devMode).Refused? && Enforce(env, devMode).access == Browser <==> env.None?
    ensures Enforce(env, devMode).Refused? && Enforce(env, devMode).access == BrowserWithScript
      <==> env.Some? && !IsRealTelegram(env)
    ensures Enforce(env, devMode).Refused? && Enforce(env, devMode).access == TelegramNoUser
      <==> IsRealTelegram(env) && !HasUserId(env.value.webApp.value.user)
  {
  }

  /**
   * The unknown issue is a real Telegram with a user whose initData is
   * shorter than 50 while the version is missing or the mock "7.0".
   */
  lemma UnknownIssueExplained(env: Option<Telegram>, devMode: bool)
    ensures Enforce(env, devMode).Refused? && Enforce(env, devMode).access == UnknownIssue
      <==> IsRealTelegram(env) && HasUserId(env.value.webApp.value.user)
           && MockVersion(env.value.webApp.value.version) && |env.value.webApp.value.initData.value| < 50
  {
  }

  /** Being in the Web App implies the Web App is reported available; the converse fails without `ready`. */
  lemma AvailableWhenInside(env: Option<Telegram>)
    ensures IsInTelegramWebApp(env) ==> IsTelegramWebAppAvailable(env)
    ensures var w := WebApp(false, Some("query_id=1"), Some("8.0"), Some(TgUser(Some(7))));
      IsTelegramWebAppAvailable(Some(Telegram(Some(w)))) && !IsInTelegramWebApp(Some(Telegram(Some(w))))
  {
  }

  /** A long initData makes the version irrelevant; a short one needs a version other than the mock. */
  lemma VersionGate(w: WebApp)
    requires w.hasReady && Truthy(w.initData) && HasUserId(w.user)
    ensures IsInTelegramWebApp(Some(Telegram(Some(w)))) <==> |w.initData.value| >= 50 || !MockVersion(w.version)
  {
  }
}
