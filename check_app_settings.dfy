/**
 * The request gate (app/Http/Middleware/CheckAppSettings.php): maintenance
 * mode lets only an allow-list through, and the `allow_register` flag,
 * read as written, closes registration when it is true.
 *
 * Paths are Laravel's decoded request path (no leading slash). Each `is()`
 * pattern used here has one `*`: a leading `*` followed by text is an
 * ends-with test, and `*admin/*` is a contains test.
 */
module CheckAppSettings {
  import opened Common
  import opened Schema

  datatype HttpMethod = Get | Post | OtherMethod

  /** What the middleware does with a request. */
  datatype Decision = PassOn | Unavailable503 | RegistrationClosed403

  predicate IsAdminRoute(path: string) {
    Contains(path, "admin/")
  }

  /** The allow-list that stays reachable during maintenance. */
  predicate MaintenanceAllows(m: HttpMethod, path: string) {
    || IsAdminRoute(path)
    || (EndsWith(path, "admin/auth/login") && m == Post)
    || (EndsWith(path, "admin/auth/register") && m == Post)
    || (EndsWith(path, "app-settings") && m == Get)
    || (EndsWith(path, "app-settings") && m == Post)
    || (EndsWith(path, "wishlist") && m == Get)
    || (EndsWith(path, "cart") && m == Get)
    || (EndsWith(path, "/auth/user") && m == Get)
  }

  predicate IsRegistration(path: string) {
    EndsWith(path, "auth/register")
  }

  /** handle(): the maintenance check first, then the registration check, else pass on. */
  function Handle(settings: Option<AppSettings>, m: HttpMethod, path: string): (d: Decision)
    ensures d == Unavailable503 ==> settings.Some? && settings.value.maintenanceMode
    ensures d == RegistrationClosed403 ==> settings.Some? && settings.value.allowRegister && IsRegistration(path)
  {
    if settings.Some? && settings.value.maintenanceMode && !MaintenanceAllows(m, path) then Unavailable503
    else if settings.Some? && settings.value.allowRegister && IsRegistration(path) then RegistrationClosed403
    else PassOn
  }

  /** With no settings row, or with both flags off, every request is passed on. */
  lemma NoFlagsPassEverything(settings: Option<AppSettings>, m: HttpMethod, path: string)
    requires settings.None? || (!settings.value.maintenanceMode && !settings.value.allowRegister)
    ensures Handle(settings, m, path) == PassOn
  {
  }

  /**
   * In maintenance a request outside the allow-list gets 503 whatever the
   * registration flag says; one on the list is never refused with 503.
   */
  lemma MaintenanceWins(s: AppSettings, m: HttpMethod, path: string)
    requires s.maintenanceMode
    ensures !MaintenanceAllows(m, path) ==> Handle(Some(s), m, path) == Unavailable503
    ensures MaintenanceAllows(m, path) ==> Handle(Some(s), m, path) != Unavailable503
  {
  }

  /**
   * When allow_register is true, every path ending in auth/register that
   * gets past maintenance is refused, the admin one included.
   */
  lemma RegistrationBlockedWhenFlagTrue(s: AppSettings, m: HttpMethod, path: string)
    requires s.allowRegister && IsRegistration(path)
    requires !s.maintenanceMode || MaintenanceAllows(m, path)
    ensures Handle(Some(s), m, path) == RegistrationClosed403
  {
  }

  /** When allow_register is false, this middleware never refuses a registration. */
  lemma RegistrationOpenWhenFlagFalse(s: AppSettings, m: HttpMethod, path: string)
    requires !s.allowRegister
    ensures Handle(Some(s), m, path) != RegistrationClosed403
    ensures !s.maintenanceMode ==> Handle(Some(s), m, path) == PassOn
  {
  }

  /**
   * The explicit admin login and register exceptions add nothing: any
   * path ending in admin/auth/… already contains admin/.
   */
  lemma AdminAuthExceptionsRedundant(m: HttpMethod, path: string)
    ensures EndsWith(path, "admin/auth/login") ==> IsAdminRoute(path)
    ensures EndsWith(path, "admin/auth/register") ==> IsAdminRoute(path)
  {
    if EndsWith(path, "admin/auth/login") {
      EndsWithContainsPrefix(path, "admin/", "auth/login");
    }
    if EndsWith(path, "admin/auth/register") {
      EndsWithContainsPrefix(path, "admin/", "auth/register");
    }
  }

  /** During maintenance with registration closed, POST api/admin/auth/register passes the first check and fails the second. */
  lemma AdminRegisterDuringMaintenance()
    ensures Handle(Some(AppSettings(true, true)), Post, "api/admin/auth/register") == RegistrationClosed403
    ensures Handle(Some(AppSettings(true, false)), Post, "api/admin/auth/register") == PassOn
    ensures Handle(Some(AppSettings(true, false)), Post, "api/auth/register") == Unavailable503
  {
    AdminAuthExceptionsRedundant(Post, "api/admin/auth/register");
    var p := "api/auth/register";
    assert !Contains(p, "admin/") by {
      forall i | 0 <= i <= |p| - 6 ensures !OccursAt(p, "admin/", i) {
        assert p[i + 5] != '/' || p[i] != 'a' || p[i + 1] != 'd';
      }
    }
  }
}
