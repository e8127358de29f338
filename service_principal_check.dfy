/**
 * `ServicePrincipalCheckFunctions.Run`: for every configured tenant, the
 * applications owned by the tenant's own service principal (the client the
 * scan signs in as) and not ignored by name are checked, and each one with
 * a credential due gets its own Slack message. Certificates and secrets
 * share the secret threshold.
 */
module ServicePrincipalCheckFunctions {
  import opened Wrappers
  import opened Errors
  import opened Text
  import opened Seqs
  import opened Graph
  import Configuration
  import AppRegistrationExpiryChecker

  const SecretThresholdKey: string := "SECRET_WARNING_THRESHOLD"
  const IgnoredAppsKey: string := "IGNORED_APPS"

  /** A configured `TenantAccessor` and the applications the Graph listing returns for it. */
  datatype Tenant = Tenant(tenantId: string, clientId: string, applications: seq<Application>)

  /** `app.Owners.Any(o => o is ServicePrincipal sp && sp.AppId == servicePrincipalApplicationId)`. */
  predicate IsServicePrincipalAppOwner(app: Application, servicePrincipalApplicationId: string)
  {
    exists i :: 0 <= i < |app.owners| && app.owners[i] == ServicePrincipal(servicePrincipalApplicationId)
  }

  /** The `Any` as the loop it runs: owners are looked at in order until a match. */
  method FindServicePrincipalOwner(app: Application, servicePrincipalApplicationId: string) returns (r: bool)
    ensures r <==> IsServicePrincipalAppOwner(app, servicePrincipalApplicationId)
  {
    for i := 0 to |app.owners|
      invariant forall j :: 0 <= j < i ==> app.owners[j] != ServicePrincipal(servicePrincipalApplicationId)
    {
      match app.owners[i]
      case ServicePrincipal(appId) =>
        if appId == servicePrincipalApplicationId {
          return true;
        }
      case OtherDirectoryObject =>
    }
    return false;
  }

  /** `EndDateTime < DateTime.Now.AddDays(days)`: strictly before the end of the window; a missing end date never is. */
  function DueBy(now: int, days: int): Credential -> bool
  {
    (c: Credential) => c.endDateTime.Some? && c.endDateTime.value < AddDays(now, days)
  }

  /** `EndDateTime < DateTime.UtcNow`. */
  function ExpiredBy(now: int): Credential -> bool
  {
    (c: Credential) => c.endDateTime.Some? && c.endDateTime.value < now
  }

  function Header(app: Application, tenant: Tenant): string
  {
    "Application " + app.displayName + " in Tenant " + tenant.tenantId + " has credentials about to expire:"
  }

  /** `expiringCertificates`: the certificates ending before the end of the window, in listing order. */
  function DueCertificates(app: Application, now: int, days: int): (r: seq<Credential>)
    ensures forall c :: c in r <==>
      c in app.keyCredentials && c.endDateTime.Some? && c.endDateTime.value < now + days * SecondsPerDay
  {
    Filter(app.keyCredentials, DueBy(now, days))
  }

  /** `expiringSecrets`: the secrets ending before the end of the window, in listing order. */
  function DueSecrets(app: Application, now: int, days: int): (r: seq<Credential>)
    ensures forall c :: c in r <==>
      c in app.passwordCredentials && c.endDateTime.Some? && c.endDateTime.value < now + days * SecondsPerDay
  {
    Filter(app.passwordCredentials, DueBy(now, days))
  }

  /** Is the application owned by the tenant's client and not ignored by name? */
  predicate Considered(app: Application, tenant: Tenant, ignoreFilter: seq<string>)
  {
    IsServicePrincipalAppOwner(app, tenant.clientId) && app.displayName !in ignoreFilter
  }

  /**
   * What the loop body sends about one application: nothing, one message, or
   * the exception it throws. An application gets a message or throws exactly
   * when it is considered and one of its credentials is due.
   */
  function AppMessage(app: Application, tenant: Tenant, ignoreFilter: seq<string>, now: int, days: int, fmt: Formats)
    : (r: Result<Option<string>, Exception>)
    ensures r != Success(None) <==>
      Considered(app, tenant, ignoreFilter)
      && exists c :: (c in app.keyCredentials || c in app.passwordCredentials)
                     && c.endDateTime.Some? && c.endDateTime.value < now + days * SecondsPerDay
  {
    if !Considered(app, tenant, ignoreFilter) then Success(None)
    else
      var certificates := DueCertificates(app, now, days);
      var secrets := DueSecrets(app, now, days);
      if certificates == [] && secrets == [] then Success(None)
      else
        assert certificates != [] ==> certificates[0] in certificates;
        assert secrets != [] ==> secrets[0] in secrets;
        match CertificateLines(certificates, ExpiredBy(now), fmt)
        case Failure(e) => Failure(e)
        case Success(certificateLines) =>
          Success(Some(Lines([Header(app, tenant)] + certificateLines + SecretLines(secrets, ExpiredBy(now), fmt))))
  }

  /** The step `AppMessage` takes for a considered application with a due credential. */
  lemma AppMessageUnfolds(app: Application, tenant: Tenant, ignoreFilter: seq<string>, now: int, days: int, fmt: Formats)
    requires Considered(app, tenant, ignoreFilter)
    requires DueCertificates(app, now, days) != [] || DueSecrets(app, now, days) != []
    ensures AppMessage(app, tenant, ignoreFilter, now, days, fmt) ==
      match CertificateLines(DueCertificates(app, now, days), ExpiredBy(now), fmt)
      case Failure(e) => Failure(e)
      case Success(cl) => Success(Some(Lines([Header(app, tenant)] + cl + SecretLines(DueSecrets(app, now, days), ExpiredBy(now), fmt))))
  {
  }

  /** A considered application with a due credential throws ArgumentNull exactly when a due certificate has no identifier. */
  lemma AppMessageThrows(app: Application, tenant: Tenant, ignoreFilter: seq<string>, now: int, days: int, fmt: Formats)
    requires Considered(app, tenant, ignoreFilter)
    requires DueCertificates(app, now, days) != [] || DueSecrets(app, now, days) != []
    ensures var certs := DueCertificates(app, now, days);
      var r := AppMessage(app, tenant, ignoreFilter, now, days, fmt);
      && (r.Failure? <==> exists i :: 0 <= i < |certs| && certs[i].customKeyIdentifier.None?)
      && (r.Failure? ==> r.error.ArgumentNull?)
  {
    AppMessageUnfolds(app, tenant, ignoreFilter, now, days, fmt);
    CertificateLinesShape(DueCertificates(app, now, days), ExpiredBy(now), fmt);
  }

  /**
   * Otherwise the message is the header naming the application and the
   * tenant, then the due certificates' lines, then the due secrets' lines,
   * one line each and in listing order (`CertificateLinesShape` and
   * `SecretLinesShape` give each line).
   */
  lemma AppMessageShape(app: Application, tenant: Tenant, ignoreFilter: seq<string>, now: int, days: int, fmt: Formats)
    requires Considered(app, tenant, ignoreFilter)
    requires DueCertificates(app, now, days) != [] || DueSecrets(app, now, days) != []
    requires forall i :: 0 <= i < |DueCertificates(app, now, days)| ==> DueCertificates(app, now, days)[i].customKeyIdentifier.Some?
    ensures CertificateLines(DueCertificates(app, now, days), ExpiredBy(now), fmt).Success?
    ensures var certs := DueCertificates(app, now, days);
      var secrets := DueSecrets(app, now, days);
      var ls := [Header(app, tenant)] + CertificateLines(certs, ExpiredBy(now), fmt).value + SecretLines(secrets, ExpiredBy(now), fmt);
      && AppMessage(app, tenant, ignoreFilter, now, days, fmt) == Success(Some(Lines(ls)))
      && |ls| == 1 + |certs| + |secrets|
  {
    var certs := DueCertificates(app, now, days);
    var secrets := DueSecrets(app, now, days);
    AppMessageUnfolds(app, tenant, ignoreFilter, now, days, fmt);
    CertificateLinesShape(certs, ExpiredBy(now), fmt);
    SecretLinesShape(secrets, ExpiredBy(now), fmt);
  }

  /** A due certificate's line carries the EXPIRED marker exactly when its end date is before `now`. */
  lemma DueCertificateMarker(app: Application, now: int, days: int, fmt: Formats, i: nat)
    requires var certs := DueCertificates(app, now, days);
      i < |certs| && CertificateLines(certs, ExpiredBy(now), fmt).Success?
    ensures var certs := DueCertificates(app, now, days);
      var ls := CertificateLines(certs, ExpiredBy(now), fmt).value;
      |ls| == |certs| && |ls[i]| > |LinePrefix("Certificate")| &&
      (ls[i][|LinePrefix("Certificate")|] == ExpiredMarker[0] <==> certs[i].endDateTime.value < now)
  {
    var certs := DueCertificates(app, now, days);
    CertificateLinesShape(certs, ExpiredBy(now), fmt);
    assert certs[i] in certs;
    MarkerSlot("Certificate", ExpiredBy(now)(certs[i]), fmt.base64(certs[i].customKeyIdentifier.value), certs[i], fmt);
  }

  /** A due secret's line carries the EXPIRED marker exactly when its end date is before `now`. */
  lemma DueSecretMarker(app: Application, now: int, days: int, fmt: Formats, i: nat)
    requires i < |DueSecrets(app, now, days)|
    ensures var secrets := DueSecrets(app, now, days);
      var ls := SecretLines(secrets, ExpiredBy(now), fmt);
      |ls| == |secrets| && |ls[i]| > |LinePrefix("Secret")| &&
      (ls[i][|LinePrefix("Secret")|] == ExpiredMarker[0] <==> secrets[i].endDateTime.value < now)
  {
    var secrets := DueSecrets(app, now, days);
    SecretLinesShape(secrets, ExpiredBy(now), fmt);
    assert secrets[i] in secrets;
    MarkerSlot("Secret", ExpiredBy(now)(secrets[i]), SecretDescription(secrets[i], fmt), secrets[i], fmt);
  }

  /** The run so far: the messages sent, and the exception that ended it, if one did. */
  datatype RunState = RunState(sent: seq<string>, failure: Option<Exception>)

  const Start: RunState := RunState([], None)

  function AppStep(st: RunState, app: Application, tenant: Tenant, ignoreFilter: seq<string>, now: int, days: int, fmt: Formats): RunState
  {
    if st.failure.Some? then st
    else
      match AppMessage(app, tenant, ignoreFilter, now, days, fmt)
      case Failure(e) => RunState(st.sent, Some(e))
      case Success(None) => st
      case Success(Some(m)) => RunState(st.sent + [m], None)
  }

  /** The inner loop: the applications of one tenant. */
  function AppsFrom(st: RunState, apps: seq<Application>, tenant: Tenant, ignoreFilter: seq<string>, now: int, days: int, fmt: Formats): RunState
  {
    if apps == [] then st
    else AppStep(AppsFrom(st, apps[..|apps| - 1], tenant, ignoreFilter, now, days, fmt), apps[|apps| - 1], tenant, ignoreFilter, now, days, fmt)
  }

  /** The outer loop: the tenants in configuration order. */
  function TenantsFrom(st: RunState, tenants: seq<Tenant>, ignoreFilter: seq<string>, now: int, days: int, fmt: Formats): RunState
  {
    if tenants == [] then st
    else
      var last := tenants[|tenants| - 1];
      AppsFrom(TenantsFrom(st, tenants[..|tenants| - 1], ignoreFilter, now, days, fmt), last.applications, last, ignoreFilter, now, days, fmt)
  }

  lemma {:induction false} AppsFailureIsFinal(st: RunState, apps: seq<Application>, tenant: Tenant, ignoreFilter: seq<string>, now: int, days: int, fmt: Formats)
    requires st.failure.Some?
    ensures AppsFrom(st, apps, tenant, ignoreFilter, now, days, fmt) == st
  {
    if apps != [] {
      AppsFailureIsFinal(st, apps[..|apps| - 1], tenant, ignoreFilter, now, days, fmt);
    }
  }

  /** Once an exception has escaped, no later tenant or application is looked at. */
  lemma {:induction false} TenantsFailureIsFinal(st: RunState, tenants: seq<Tenant>, ignoreFilter: seq<string>, now: int, days: int, fmt: Formats)
    requires st.failure.Some?
    ensures TenantsFrom(st, tenants, ignoreFilter, now, days, fmt) == st
  {
    if tenants != [] {
      var last := tenants[|tenants| - 1];
      TenantsFailureIsFinal(st, tenants[..|tenants| - 1], ignoreFilter, now, days, fmt);
      AppsFailureIsFinal(st, last.applications, last, ignoreFilter, now, days, fmt);
    }
  }

  lemma {:induction false} AppsFromAppend(st: RunState, a: seq<Application>, b: seq<Application>, tenant: Tenant,
                                          ignoreFilter: seq<string>, now: int, days: int, fmt: Formats)
    ensures AppsFrom(st, a + b, tenant, ignoreFilter, now, days, fmt)
         == AppsFrom(AppsFrom(st, a, tenant, ignoreFilter, now, days, fmt), b, tenant, ignoreFilter, now, days, fmt)
    decreases |b|
  {
    if b == [] {
      assert a + b == a;
    } else {
      assert (a + b)[..|a + b| - 1] == a + b[..|b| - 1];
      assert (a + b)[|a + b| - 1] == b[|b| - 1];
      AppsFromAppend(st, a, b[..|b| - 1], tenant, ignoreFilter, now, days, fmt);
    }
  }

  /**
   * An application the tenant's service principal does not own, or one
   * whose name is ignored, changes nothing: neither a message nor an
   * exception.
   */
  lemma PassedOverAppChangesNothing(st: RunState, apps: seq<Application>, k: nat, tenant: Tenant,
                                    ignoreFilter: seq<string>, now: int, days: int, fmt: Formats)
    requires k < |apps|
    requires !IsServicePrincipalAppOwner(apps[k], tenant.clientId) || apps[k].displayName in ignoreFilter
    ensures AppsFrom(st, apps, tenant, ignoreFilter, now, days, fmt)
         == AppsFrom(st, apps[..k] + apps[k + 1..], tenant, ignoreFilter, now, days, fmt)
  {
    var a, x, b := apps[..k], [apps[k]], apps[k + 1..];
    assert apps == (a + x) + b;
    AppsFromAppend(st, a + x, b, tenant, ignoreFilter, now, days, fmt);
    AppsFromAppend(st, a, x, tenant, ignoreFilter, now, days, fmt);
    AppsFromAppend(st, a, b, tenant, ignoreFilter, now, days, fmt);
    assert x[..0] == [];
  }

  /** Each message is about one application: never more messages than applications looked at. */
  lemma {:induction false} AtMostOneMessagePerApp(st: RunState, apps: seq<Application>, tenant: Tenant,
                                                  ignoreFilter: seq<string>, now: int, days: int, fmt: Formats)
    ensures |st.sent| <= |AppsFrom(st, apps, tenant, ignoreFilter, now, days, fmt).sent| <= |st.sent| + |apps|
  {
    if apps != [] {
      AtMostOneMessagePerApp(st, apps[..|apps| - 1], tenant, ignoreFilter, now, days, fmt);
    }
  }

  /**
   * This scan's window is open at its end while the app-registration
   * scan's is closed: a credential ending exactly `days` days from now is
   * reported there and not here.
   */
  lemma WindowEndExcluded(c: Credential, now: int, days: int)
    requires c.endDateTime == Some(AddDays(now, days))
    ensures !DueBy(now, days)(c)
    ensures AppRegistrationExpiryChecker.FlaggedBy(now, days)(c)
  {
  }

  lemma AppsStep(st: RunState, apps: seq<Application>, i: nat, tenant: Tenant, ignoreFilter: seq<string>, now: int, days: int, fmt: Formats)
    requires i < |apps|
    ensures AppsFrom(st, apps[..i + 1], tenant, ignoreFilter, now, days, fmt)
         == AppStep(AppsFrom(st, apps[..i], tenant, ignoreFilter, now, days, fmt), apps[i], tenant, ignoreFilter, now, days, fmt)
  {
    assert apps[..i + 1][..i] == apps[..i];
  }

  /** Once the inner loop has thrown on a prefix, the rest of the tenant's applications change nothing. */
  lemma AppsStopAt(st: RunState, apps: seq<Application>, n: nat, tenant: Tenant, ignoreFilter: seq<string>, now: int, days: int, fmt: Formats)
    requires n <= |apps| && AppsFrom(st, apps[..n], tenant, ignoreFilter, now, days, fmt).failure.Some?
    ensures AppsFrom(st, apps, tenant, ignoreFilter, now, days, fmt) == AppsFrom(st, apps[..n], tenant, ignoreFilter, now, days, fmt)
  {
    assert apps[..n] + apps[n..] == apps;
    AppsFromAppend(st, apps[..n], apps[n..], tenant, ignoreFilter, now, days, fmt);
    AppsFailureIsFinal(AppsFrom(st, apps[..n], tenant, ignoreFilter, now, days, fmt), apps[n..], tenant, ignoreFilter, now, days, fmt);
  }

  /** The body of the inner loop for one application: the message it sends, if any, or the exception it throws. */
  method CheckApp(app: Application, tenant: Tenant, ignoreFilter: seq<string>, now: int, days: int, fmt: Formats)
    returns (message: Option<string>, thrown: Option<Exception>)
    ensures match AppMessage(app, tenant, ignoreFilter, now, days, fmt)
      case Failure(e) => thrown == Some(e)
      case Success(m) => thrown.None? && message == m
  {
    var owned := FindServicePrincipalOwner(app, tenant.clientId);
    if !owned || app.displayName in ignoreFilter {
      return None, None;
    }
    var expiringCertificates := DueCertificates(app, now, days);
    var expiringSecrets := DueSecrets(app, now, days);
    if expiringCertificates == [] && expiringSecrets == [] {
      return None, None;
    }
    var certificateLines;
    certificateLines, thrown := RenderCertificates(expiringCertificates, ExpiredBy(now), fmt);
    if thrown.Some? {
      return None, thrown;
    }
    var secretLines := RenderSecrets(expiringSecrets, ExpiredBy(now), fmt);
    message := Some(Lines([Header(app, tenant)] + certificateLines + secretLines));
  }

  /** The inner `await foreach` over one tenant's applications, continuing the messages `sent0`. */
  method ScanTenant(sent0: seq<string>, tenant: Tenant, ignoreFilter: seq<string>, now: int, days: int, fmt: Formats)
    returns (sent: seq<string>, failure: Option<Exception>)
    ensures AppsFrom(RunState(sent0, None), tenant.applications, tenant, ignoreFilter, now, days, fmt) == RunState(sent, failure)
  {
    var before := RunState(sent0, None);
    var apps := tenant.applications;
    sent := sent0;
    var i := 0;
    while i < |apps|
      invariant 0 <= i <= |apps|
      invariant AppsFrom(before, apps[..i], tenant, ignoreFilter, now, days, fmt) == RunState(sent, None)
    {
      AppsStep(before, apps, i, tenant, ignoreFilter, now, days, fmt);
      var message, thrown := CheckApp(apps[i], tenant, ignoreFilter, now, days, fmt);
      if thrown.Some? {
        AppsStopAt(before, apps, i + 1, tenant, ignoreFilter, now, days, fmt);
        return sent, thrown;
      }
      if message.Some? {
        sent := sent + [message.value];
      }
      i := i + 1;
    }
    assert apps[..i] == apps;
    failure := None;
  }

  /**
   * The run. `tenants` is the configured tenant list (`None` when it is
   * null); `sent` are the Slack messages in order, and `warned` says
   * whether the "no tenants configured" warning was logged.
   */
  method Run(config: Configuration.Configuration, tenants: Option<seq<Tenant>>, now: int, fmt: Formats)
    returns (sent: seq<string>, failure: Option<Exception>, warned: bool)
    ensures Configuration.Threshold(config, SecretThresholdKey).Failure? ==>
      sent == [] && failure == Some(Configuration.Threshold(config, SecretThresholdKey).error) && !warned
    ensures Configuration.Threshold(config, SecretThresholdKey).Success? ==>
      && (warned <==> tenants.None? || tenants.value == [])
      && (tenants.None? ==> sent == [] && failure == Some(NullReference))
      && (tenants.Some? ==>
            TenantsFrom(Start, tenants.value, Configuration.NameList(config, IgnoredAppsKey), now,
                        Configuration.Threshold(config, SecretThresholdKey).value, fmt)
            == RunState(sent, failure))
  {
    sent, failure, warned := [], None, false;
    var threshold := Configuration.Threshold(config, SecretThresholdKey);
    if threshold.Failure? {
      return [], Some(threshold.error), false;
    }
    var days := threshold.value;
    var ignoreFilter := Configuration.NameList(config, IgnoredAppsKey);
    if tenants.None? || |tenants.value| == 0 {
      warned := true;
    }
    if tenants.None? {
      return [], Some(NullReference), warned;
    }
    sent, failure := ScanTenants(tenants.value, ignoreFilter, now, days, fmt);
  }

  /** The outer `foreach` over the configured tenants. */
  method ScanTenants(tenants: seq<Tenant>, ignoreFilter: seq<string>, now: int, days: int, fmt: Formats)
    returns (sent: seq<string>, failure: Option<Exception>)
    ensures TenantsFrom(Start, tenants, ignoreFilter, now, days, fmt) == RunState(sent, failure)
  {
    sent, failure := [], None;
    var t := 0;
    while t < |tenants|
      invariant 0 <= t <= |tenants|
      invariant TenantsFrom(Start, tenants[..t], ignoreFilter, now, days, fmt) == RunState(sent, None)
      invariant failure.None?
    {
      TenantsStep(tenants, t, ignoreFilter, now, days, fmt);
      sent, failure := ScanTenant(sent, tenants[t], ignoreFilter, now, days, fmt);
      if failure.Some? {
        assert tenants[..t + 1] + tenants[t + 1..] == tenants;
        TenantsFromAppend(Start, tenants[..t + 1], tenants[t + 1..], ignoreFilter, now, days, fmt);
        TenantsFailureIsFinal(RunState(sent, failure), tenants[t + 1..], ignoreFilter, now, days, fmt);
        return;
      }
      t := t + 1;
    }
    assert tenants[..t] == tenants;
  }

  lemma TenantsStep(tenants: seq<Tenant>, t: nat, ignoreFilter: seq<string>, now: int, days: int, fmt: Formats)
    requires t < |tenants|
    ensures TenantsFrom(Start, tenants[..t + 1], ignoreFilter, now, days, fmt)
         == AppsFrom(TenantsFrom(Start, tenants[..t], ignoreFilter, now, days, fmt), tenants[t].applications, tenants[t],
                     ignoreFilter, now, days, fmt)
  {
    assert tenants[..t + 1][..t] == tenants[..t];
  }

  lemma {:induction false} TenantsFromAppend(st: RunState, a: seq<Tenant>, b: seq<Tenant>,
                                             ignoreFilter: seq<string>, now: int, days: int, fmt: Formats)
    ensures TenantsFrom(st, a + b, ignoreFilter, now, days, fmt)
         == TenantsFrom(TenantsFrom(st, a, ignoreFilter, now, days, fmt), b, ignoreFilter, now, days, fmt)
    decreases |b|
  {
    if b == [] {
      assert a + b == a;
    } else {
      assert (a + b)[..|a + b| - 1] == a + b[..|b| - 1];
      assert (a + b)[|a + b| - 1] == b[|b| - 1];
      TenantsFromAppend(st, a, b[..|b| - 1], ignoreFilter, now, days, fmt);
    }
  }
}
