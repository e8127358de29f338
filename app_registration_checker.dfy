/**
 * `AppRegistrationExpiryChecker.CheckAsync`: walks the tenant's application
 * registrations, keeps those whose display name the allow-list accepts, and
 * writes one block per application with a flagged credential into a single
 * text, which is broadcast once at the end when it is not empty.
 */
module AppRegistrationExpiryChecker {
  import opened Wrappers
  import opened Errors
  import opened Text
  import opened Seqs
  import opened Graph
  import WhitelistHelper

  /** `EndDateTime <= now.AddDays(days)`: credentials already expired are flagged too. */
  function FlaggedBy(now: int, days: int): Credential -> bool
  {
    (c: Credential) => c.endDateTime.Some? && c.endDateTime.value <= AddDays(now, days)
  }

  /** `EndDateTime <= now`, with the single `now` read before the loop. */
  function ExpiredBy(now: int): Credential -> bool
  {
    (c: Credential) => c.endDateTime.Some? && c.endDateTime.value <= now
  }

  function ExpiringSecrets(app: Application, now: int, secretDays: int): (r: seq<Credential>)
    ensures forall c :: c in r <==>
      c in app.passwordCredentials && c.endDateTime.Some? && c.endDateTime.value <= now + secretDays * SecondsPerDay
  {
    Filter(app.passwordCredentials, FlaggedBy(now, secretDays))
  }

  function ExpiringCertificates(app: Application, now: int, certificateDays: int): (r: seq<Credential>)
    ensures forall c :: c in r <==>
      c in app.keyCredentials && c.endDateTime.Some? && c.endDateTime.value <= now + certificateDays * SecondsPerDay
  {
    Filter(app.keyCredentials, FlaggedBy(now, certificateDays))
  }

  predicate HasFlagged(app: Application, now: int, certificateDays: int, secretDays: int)
  {
    ExpiringCertificates(app, now, certificateDays) != [] || ExpiringSecrets(app, now, secretDays) != []
  }

  function Header(app: Application, tenantId: string): string
  {
    "Application " + app.displayName + " in tenant " + tenantId + " has credentials about to expire:"
  }

  /** The lines one pass of the loop appends for `app`. */
  function AppBlock(app: Application, appFilter: seq<string>, tenantId: string, now: int,
                    certificateDays: int, secretDays: int, fmt: Formats): Result<seq<string>, Exception>
  {
    if !WhitelistHelper.Matches(app.displayName, appFilter, false) then Success([])
    else if !HasFlagged(app, now, certificateDays, secretDays) then Success([])
    else
      match CertificateLines(ExpiringCertificates(app, now, certificateDays), ExpiredBy(now), fmt)
      case Failure(e) => Failure(e)
      case Success(certificateLines) =>
        Success([Header(app, tenantId)] + certificateLines
          + SecretLines(ExpiringSecrets(app, now, secretDays), ExpiredBy(now), fmt))
  }

  /** Processing one part then another: the first exception wins, otherwise the lines concatenate. */
  function Then(x: Result<seq<string>, Exception>, y: Result<seq<string>, Exception>): Result<seq<string>, Exception>
  {
    match x
    case Failure(e) => Failure(e)
    case Success(xs) =>
      match y
      case Failure(e) => Failure(e)
      case Success(ys) => Success(xs + ys)
  }

  lemma ThenAssociative(x: Result<seq<string>, Exception>, y: Result<seq<string>, Exception>, z: Result<seq<string>, Exception>)
    ensures Then(Then(x, y), z) == Then(x, Then(y, z))
  {
    if x.Success? && y.Success? && z.Success? {
      assert x.value + y.value + z.value == x.value + (y.value + z.value);
    }
  }

  lemma ThenEmpty(x: Result<seq<string>, Exception>)
    ensures Then(x, Success([])) == x && Then(Success([]), x) == x
  {
    if x.Success? {
      assert x.value + [] == x.value;
      assert [] + x.value == x.value;
    }
  }

  /** The builder's lines once the loop has processed `apps`, or the exception that escaped. */
  function Report(apps: seq<Application>, appFilter: seq<string>, tenantId: string, now: int,
                  certificateDays: int, secretDays: int, fmt: Formats): Result<seq<string>, Exception>
  {
    if apps == [] then Success([])
    else Then(Report(apps[..|apps| - 1], appFilter, tenantId, now, certificateDays, secretDays, fmt),
              AppBlock(apps[|apps| - 1], appFilter, tenantId, now, certificateDays, secretDays, fmt))
  }

  lemma ReportStep(apps: seq<Application>, i: nat, appFilter: seq<string>, tenantId: string, now: int,
                   certificateDays: int, secretDays: int, fmt: Formats)
    requires i < |apps|
    ensures Report(apps[..i + 1], appFilter, tenantId, now, certificateDays, secretDays, fmt)
      == Then(Report(apps[..i], appFilter, tenantId, now, certificateDays, secretDays, fmt),
              AppBlock(apps[i], appFilter, tenantId, now, certificateDays, secretDays, fmt))
  {
    assert apps[..i + 1][..i] == apps[..i];
  }

  /** Applications are processed independently: the report of a concatenation is the reports run one after the other. */
  lemma {:induction false} ReportAppend(a: seq<Application>, b: seq<Application>, appFilter: seq<string>, tenantId: string,
                                        now: int, certificateDays: int, secretDays: int, fmt: Formats)
    ensures Report(a + b, appFilter, tenantId, now, certificateDays, secretDays, fmt)
      == Then(Report(a, appFilter, tenantId, now, certificateDays, secretDays, fmt),
              Report(b, appFilter, tenantId, now, certificateDays, secretDays, fmt))
    decreases |b|
  {
    var ra := Report(a, appFilter, tenantId, now, certificateDays, secretDays, fmt);
    if b == [] {
      assert a + b == a;
      ThenEmpty(ra);
    } else {
      var b' := b[..|b| - 1];
      var block := AppBlock(b[|b| - 1], appFilter, tenantId, now, certificateDays, secretDays, fmt);
      assert (a + b)[..|a + b| - 1] == a + b';
      assert (a + b)[|a + b| - 1] == b[|b| - 1];
      ReportAppend(a, b', appFilter, tenantId, now, certificateDays, secretDays, fmt);
      ThenAssociative(ra, Report(b', appFilter, tenantId, now, certificateDays, secretDays, fmt), block);
    }
  }

  /** An application the allow-list rejects leaves the report exactly as if it were not listed. */
  lemma RejectedAppAddsNothing(apps: seq<Application>, k: nat, appFilter: seq<string>, tenantId: string,
                               now: int, certificateDays: int, secretDays: int, fmt: Formats)
    requires k < |apps| && !WhitelistHelper.Matches(apps[k].displayName, appFilter, false)
    ensures Report(apps, appFilter, tenantId, now, certificateDays, secretDays, fmt)
      == Report(apps[..k] + apps[k + 1..], appFilter, tenantId, now, certificateDays, secretDays, fmt)
  {
    var a, x, b := apps[..k], [apps[k]], apps[k + 1..];
    assert apps == (a + x) + b;
    var ra := Report(a, appFilter, tenantId, now, certificateDays, secretDays, fmt);
    assert x[..0] == [];
    ThenEmpty(Success([]));
    assert Report(x, appFilter, tenantId, now, certificateDays, secretDays, fmt) == Success([]);
    ReportAppend(a + x, b, appFilter, tenantId, now, certificateDays, secretDays, fmt);
    ReportAppend(a, x, appFilter, tenantId, now, certificateDays, secretDays, fmt);
    ReportAppend(a, b, appFilter, tenantId, now, certificateDays, secretDays, fmt);
    ThenEmpty(ra);
  }

  lemma ThenIsEmpty(x: Result<seq<string>, Exception>, y: Result<seq<string>, Exception>)
    ensures Then(x, y) == Success([]) <==> x == Success([]) && y == Success([])
  {
    if x.Success? && y.Success? && x.value + y.value == [] {
      assert |x.value + y.value| == |x.value| + |y.value|;
    }
  }

  /** The block of an application is empty exactly when the allow-list rejects it or it has nothing flagged. */
  lemma BlockEmpty(app: Application, appFilter: seq<string>, tenantId: string, now: int,
                   certificateDays: int, secretDays: int, fmt: Formats)
    ensures AppBlock(app, appFilter, tenantId, now, certificateDays, secretDays, fmt) == Success([]) <==>
      !WhitelistHelper.Matches(app.displayName, appFilter, false) || !HasFlagged(app, now, certificateDays, secretDays)
  {
  }

  /** The report is empty exactly when no accepted application has a flagged credential. */
  lemma {:induction false} ReportEmptyIffNothingFlagged(apps: seq<Application>, appFilter: seq<string>, tenantId: string,
                                                        now: int, certificateDays: int, secretDays: int, fmt: Formats)
    ensures Report(apps, appFilter, tenantId, now, certificateDays, secretDays, fmt) == Success([]) <==>
      forall i :: 0 <= i < |apps| && WhitelistHelper.Matches(apps[i].displayName, appFilter, false) ==>
        !HasFlagged(apps[i], now, certificateDays, secretDays)
  {
    if apps != [] {
      var init, last := apps[..|apps| - 1], apps[|apps| - 1];
      ReportEmptyIffNothingFlagged(init, appFilter, tenantId, now, certificateDays, secretDays, fmt);
      assert forall i :: 0 <= i < |init| ==> init[i] == apps[i];
      var block := AppBlock(last, appFilter, tenantId, now, certificateDays, secretDays, fmt);
      ThenIsEmpty(Report(init, appFilter, tenantId, now, certificateDays, secretDays, fmt), block);
      BlockEmpty(last, appFilter, tenantId, now, certificateDays, secretDays, fmt);
    }
  }

  /** A block, when written, is the header line, then one line per flagged certificate, then one per flagged secret. */
  lemma BlockShape(app: Application, appFilter: seq<string>, tenantId: string, now: int,
                   certificateDays: int, secretDays: int, fmt: Formats)
    requires AppBlock(app, appFilter, tenantId, now, certificateDays, secretDays, fmt).Success?
    ensures var block := AppBlock(app, appFilter, tenantId, now, certificateDays, secretDays, fmt).value;
      && (block != [] <==> WhitelistHelper.Matches(app.displayName, appFilter, false) && HasFlagged(app, now, certificateDays, secretDays))
      && (block != [] ==>
           && CertificateLines(ExpiringCertificates(app, now, certificateDays), ExpiredBy(now), fmt).Success?
           && block == [Header(app, tenantId)]
                       + CertificateLines(ExpiringCertificates(app, now, certificateDays), ExpiredBy(now), fmt).value
                       + SecretLines(ExpiringSecrets(app, now, secretDays), ExpiredBy(now), fmt)
           && block[0] == Header(app, tenantId)
           && |block| == 1 + |ExpiringCertificates(app, now, certificateDays)| + |ExpiringSecrets(app, now, secretDays)|)
  {
    CertificateLinesShape(ExpiringCertificates(app, now, certificateDays), ExpiredBy(now), fmt);
    SecretLinesShape(ExpiringSecrets(app, now, secretDays), ExpiredBy(now), fmt);
  }

  /** A flagged certificate's line carries the EXPIRED marker exactly when its end date is not after `now`. */
  lemma CertificateMarker(app: Application, now: int, certificateDays: int, fmt: Formats, i: nat)
    requires var certs := ExpiringCertificates(app, now, certificateDays);
      i < |certs| && CertificateLines(certs, ExpiredBy(now), fmt).Success?
    ensures var certs := ExpiringCertificates(app, now, certificateDays);
      var ls := CertificateLines(certs, ExpiredBy(now), fmt).value;
      |ls| == |certs| && |ls[i]| > |LinePrefix("Certificate")| &&
      (ls[i][|LinePrefix("Certificate")|] == ExpiredMarker[0] <==> certs[i].endDateTime.value <= now)
  {
    var certs := ExpiringCertificates(app, now, certificateDays);
    CertificateLinesShape(certs, ExpiredBy(now), fmt);
    assert certs[i] in certs;
    MarkerSlot("Certificate", ExpiredBy(now)(certs[i]), fmt.base64(certs[i].customKeyIdentifier.value), certs[i], fmt);
  }

  /** A flagged secret's line carries the EXPIRED marker exactly when its end date is not after `now`. */
  lemma SecretMarker(app: Application, now: int, secretDays: int, fmt: Formats, i: nat)
    requires i < |ExpiringSecrets(app, now, secretDays)|
    ensures var secrets := ExpiringSecrets(app, now, secretDays);
      var ls := SecretLines(secrets, ExpiredBy(now), fmt);
      |ls| == |secrets| && |ls[i]| > |LinePrefix("Secret")| &&
      (ls[i][|LinePrefix("Secret")|] == ExpiredMarker[0] <==> secrets[i].endDateTime.value <= now)
  {
    var secrets := ExpiringSecrets(app, now, secretDays);
    SecretLinesShape(secrets, ExpiredBy(now), fmt);
    assert secrets[i] in secrets;
    MarkerSlot("Secret", ExpiredBy(now)(secrets[i]), SecretDescription(secrets[i], fmt), secrets[i], fmt);
  }

  /** Once an exception has escaped on a prefix, the rest of the applications change nothing. */
  lemma ReportStopsAt(apps: seq<Application>, n: nat, appFilter: seq<string>, tenantId: string, now: int,
                      certificateDays: int, secretDays: int, fmt: Formats)
    requires n <= |apps| && Report(apps[..n], appFilter, tenantId, now, certificateDays, secretDays, fmt).Failure?
    ensures Report(apps, appFilter, tenantId, now, certificateDays, secretDays, fmt)
         == Report(apps[..n], appFilter, tenantId, now, certificateDays, secretDays, fmt)
  {
    assert apps[..n] + apps[n..] == apps;
    ReportAppend(apps[..n], apps[n..], appFilter, tenantId, now, certificateDays, secretDays, fmt);
  }

  /** The body of the loop for one application: the lines it appends, or the exception it throws. */
  method CheckApp(app: Application, appFilter: seq<string>, tenantId: string, now: int,
                  certificateDays: int, secretDays: int, fmt: Formats)
    returns (block: seq<string>, thrown: Option<Exception>)
    ensures match AppBlock(app, appFilter, tenantId, now, certificateDays, secretDays, fmt)
      case Success(ls) => thrown.None? && block == ls
      case Failure(e) => thrown == Some(e)
  {
    if !WhitelistHelper.Matches(app.displayName, appFilter, false) {
      return [], None;
    }
    var expiringSecrets := ExpiringSecrets(app, now, secretDays);
    var expiringCertificates := ExpiringCertificates(app, now, certificateDays);
    if expiringCertificates == [] && expiringSecrets == [] {
      return [], None;
    }
    var certificateLines;
    certificateLines, thrown := RenderCertificates(expiringCertificates, ExpiredBy(now), fmt);
    if thrown.Some? {
      return [], thrown;
    }
    var secretLines := RenderSecrets(expiringSecrets, ExpiredBy(now), fmt);
    block := [Header(app, tenantId)] + certificateLines + secretLines;
  }

  /**
   * The scan. `tenant` is the outcome of `GetTenantIdAsync`, looked up
   * first; `apps` is the enumeration of the tenant's applications and `now`
   * the clock read once. `sent` is what is handed to the notification
   * strategy.
   */
  method CheckAsync(apps: seq<Application>, appFilter: seq<string>, certificateExpiryWaringInDays: int,
                    secretExpiryWaringInDays: int, tenant: Result<string, Exception>, now: int, fmt: Formats)
    returns (sent: seq<string>, failure: Option<Exception>)
    ensures |sent| <= 1
    ensures tenant.Failure? ==> sent == [] && failure == Some(tenant.error)
    ensures tenant.Success? ==>
      match Report(apps, appFilter, tenant.value, now, certificateExpiryWaringInDays, secretExpiryWaringInDays, fmt)
      case Success(ls) => failure.None? && sent == (if ls == [] then [] else [Lines(ls)])
      case Failure(e) => failure == Some(e) && sent == []
  {
    if tenant.Failure? {
      return [], Some(tenant.error);
    }
    var tenantId := tenant.value;
    var lines: seq<string> := [];
    var i := 0;
    while i < |apps|
      invariant 0 <= i <= |apps|
      invariant Report(apps[..i], appFilter, tenantId, now, certificateExpiryWaringInDays, secretExpiryWaringInDays, fmt) == Success(lines)
    {
      ReportStep(apps, i, appFilter, tenantId, now, certificateExpiryWaringInDays, secretExpiryWaringInDays, fmt);
      var block, thrown := CheckApp(apps[i], appFilter, tenantId, now, certificateExpiryWaringInDays, secretExpiryWaringInDays, fmt);
      if thrown.Some? {
        ReportStopsAt(apps, i + 1, appFilter, tenantId, now, certificateExpiryWaringInDays, secretExpiryWaringInDays, fmt);
        return [], thrown;
      }
      lines := lines + block;
      i := i + 1;
    }
    assert apps[..i] == apps;
    LinesEmpty(lines);
    var text := Lines(lines);
    if |text| > 0 {
      sent := [text];
    } else {
      sent := [];
    }
    failure := None;
  }
}
