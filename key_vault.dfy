/**
 * The Key Vault scan. `KeyVaultExpiryChecker.CheckAsync` and
 * `KeyVaultCheckFunctions.Run` run the same loop body over the
 * subscription's vaults and differ only in which vaults they skip, in the
 * sink of their messages and in how they report the collected access
 * errors; this module holds the shared part.
 *
 * For each vault that is not skipped: the first page of certificates is
 * read (a Key Vault error is recorded as an access error), the remaining
 * pages are fetched and dropped, then the same for secrets. The items of
 * the first pages are sorted into three buckets, and when any bucket is
 * non-empty one message is written about the vault.
 */
module KeyVault {
  import opened Wrappers
  import opened Errors
  import opened Text
  import opened Seqs
  import Graph

  /** The attributes of a `CertificateItem` the scan reads. */
  datatype CertificateItem = CertificateItem(name: string, created: Option<int>, expires: Option<int>)

  /** The attributes of a `SecretItem` the scan reads. */
  datatype SecretItem = SecretItem(
    name: string,
    contentType: Option<string>,
    managed: Option<bool>,
    created: Option<int>,
    expires: Option<int>)

  /**
   * One paged listing. Either the first call throws a Key Vault error
   * (with its message), or it returns the first page and the loop then
   * follows the next-page links: `later` are the pages it fetches, and
   * `laterFailure` the exception one of those fetches throws, if any.
   */
  datatype Listing<T> =
    | AccessDenied(message: string)
    | Pages(first: seq<T>, later: seq<seq<T>>, laterFailure: Option<Exception>)

  datatype Vault = Vault(name: string, certificates: Listing<CertificateItem>, secrets: Listing<SecretItem>)

  /**
   * What one run is given: which vault names it skips, the single clock
   * reading standing for every `DateTime.UtcNow`, the two thresholds in
   * days and the text formats.
   */
  datatype Settings = Settings(
    skip: string -> bool,
    now: int,
    certificateDays: int,
    secretDays: int,
    fmt: Formats)

  const Pkcs12: string := "application/x-pkcs12"

  predicate Unmanaged(s: SecretItem)
  {
    s.managed != Some(true)
  }

  predicate IsPkcs12(s: SecretItem)
  {
    s.contentType == Some(Pkcs12)
  }

  /** `Expires < UtcNow.AddDays(-certificateExpiryWarningInDays)`: the window lies in the past. */
  function CertificateDue(now: int, certificateDays: int): CertificateItem -> bool
  {
    (c: CertificateItem) => c.expires.Some? && c.expires.value < Graph.AddDays(now, -certificateDays)
  }

  /** An unmanaged secret that is not a PKCS#12 blob, expiring before `UtcNow.AddDays(secretExpiryWarningInDays)`. */
  function SecretDue(now: int, secretDays: int): SecretItem -> bool
  {
    (s: SecretItem) => Unmanaged(s) && !IsPkcs12(s) && s.expires.Some? && s.expires.value < Graph.AddDays(now, secretDays)
  }

  /** An unmanaged PKCS#12 secret (a certificate stored the old way), expiring before `UtcNow.AddDays(certificateExpiryWarningInDays)`. */
  function LegacyDue(now: int, certificateDays: int): SecretItem -> bool
  {
    (s: SecretItem) => Unmanaged(s) && IsPkcs12(s) && s.expires.Some? && s.expires.value < Graph.AddDays(now, certificateDays)
  }

  /** `KeyVaultWarning`: the three buckets of one vault. */
  datatype Warning = Warning(
    vaultName: string,
    expiringCertificates: seq<CertificateItem>,
    expiringLegacyCertificates: seq<SecretItem>,
    expiringSecrets: seq<SecretItem>)

  /** Sorts the items read from a vault into the three buckets. */
  function Classify(vaultName: string, certificates: seq<CertificateItem>, secrets: seq<SecretItem>,
                    now: int, certificateDays: int, secretDays: int): (w: Warning)
    ensures forall c :: c in w.expiringCertificates <==>
      c in certificates && c.expires.Some? && c.expires.value < now - certificateDays * Graph.SecondsPerDay
    ensures forall s :: s in w.expiringSecrets <==>
      s in secrets && s.managed != Some(true) && s.contentType != Some(Pkcs12)
      && s.expires.Some? && s.expires.value < now + secretDays * Graph.SecondsPerDay
    ensures forall s :: s in w.expiringLegacyCertificates <==>
      s in secrets && s.managed != Some(true) && s.contentType == Some(Pkcs12)
      && s.expires.Some? && s.expires.value < now + certificateDays * Graph.SecondsPerDay
    ensures forall s :: s in w.expiringSecrets ==> s !in w.expiringLegacyCertificates
  {
    Warning(vaultName,
      Filter(certificates, CertificateDue(now, certificateDays)),
      Filter(secrets, LegacyDue(now, certificateDays)),
      Filter(secrets, SecretDue(now, secretDays)))
  }

  predicate HasEntries(w: Warning)
  {
    w.expiringCertificates != [] || w.expiringLegacyCertificates != [] || w.expiringSecrets != []
  }

  // ---------------------------------------------------------------------------
  // The message about one vault

  const ExpiredMark: string := " ⚠️ EXPIRED ⚠️"
  const CertificatesHeading: string := "Certificates:"
  const SecretsHeading: string := "Secrets:"

  function Header(vaultName: string): string
  {
    "🔑 KeyVault " + vaultName + " has entries about to expire"
  }

  /** The marker, written when the entry's expiry lies before `now`. */
  function Marker(expires: Option<int>, now: int): string
  {
    if expires.Some? && expires.value < now then ExpiredMark else ""
  }

  /** The bullet line of a certificate, or of a legacy certificate kept as a secret. */
  function CertificateEntry(name: string, created: Option<int>, expires: Option<int>, now: int, fmt: Formats): string
  {
    "\t•" + (Marker(expires, now) + " " + name + " - Created: " + OptionalTime(fmt.standard, created)
      + "\tExpires: " + OptionalTime(fmt.standard, expires))
  }

  /** The bullet line of a secret: its content type in parentheses unless that is null or blank. */
  function SecretEntry(s: SecretItem, now: int, fmt: Formats): string
  {
    "\t•" + (Marker(s.expires, now) + " " + s.name + " "
      + (if !IsNullOrWhiteSpace(s.contentType) then "(" + s.contentType.value + ")" else "")
      + " - Created: " + OptionalTime(fmt.standard, s.created) + ", Expires: " + OptionalTime(fmt.standard, s.expires))
  }

  /** A content type that is null or blank is left out of the line altogether. */
  lemma BlankContentTypeIsOmitted(s: SecretItem, now: int, fmt: Formats)
    ensures IsNullOrWhiteSpace(s.contentType) ==> SecretEntry(s, now, fmt) == SecretEntry(s.(contentType := None), now, fmt)
  {
  }

  function CertificateEntries(items: seq<CertificateItem>, now: int, fmt: Formats): seq<string>
  {
    seq(|items|, k requires 0 <= k < |items| => CertificateEntry(items[k].name, items[k].created, items[k].expires, now, fmt))
  }

  function LegacyEntries(items: seq<SecretItem>, now: int, fmt: Formats): seq<string>
  {
    seq(|items|, k requires 0 <= k < |items| => CertificateEntry(items[k].name, items[k].created, items[k].expires, now, fmt))
  }

  function SecretEntries(items: seq<SecretItem>, now: int, fmt: Formats): seq<string>
  {
    seq(|items|, k requires 0 <= k < |items| => SecretEntry(items[k], now, fmt))
  }

  /** The lines appended to the vault's builder. */
  function MessageLines(w: Warning, now: int, fmt: Formats): seq<string>
  {
    [Header(w.vaultName)]
      + (if w.expiringCertificates != [] || w.expiringLegacyCertificates != [] then
           [CertificatesHeading] + CertificateEntries(w.expiringCertificates, now, fmt)
             + LegacyEntries(w.expiringLegacyCertificates, now, fmt)
         else [])
      + (if w.expiringSecrets != [] then [SecretsHeading] + SecretEntries(w.expiringSecrets, now, fmt) else [])
  }

  /** Every bullet line starts with a tab, so none is mistaken for a heading. */
  lemma EntriesStartWithTab(w: Warning, now: int, fmt: Formats)
    ensures forall l :: l in CertificateEntries(w.expiringCertificates, now, fmt) ==> |l| > 0 && l[0] == '\t'
    ensures forall l :: l in LegacyEntries(w.expiringLegacyCertificates, now, fmt) ==> |l| > 0 && l[0] == '\t'
    ensures forall l :: l in SecretEntries(w.expiringSecrets, now, fmt) ==> |l| > 0 && l[0] == '\t'
  {
  }

  lemma HeaderIsNoHeading(vaultName: string)
    ensures Header(vaultName) != CertificatesHeading && Header(vaultName) != SecretsHeading
  {
    var h := Header(vaultName);
    assert h == "🔑 KeyVault " + (vaultName + " has entries about to expire");
    assert h[0] == '🔑';
  }

  lemma HeadingsAreNotEntries(w: Warning, now: int, fmt: Formats)
    ensures var entries := CertificateEntries(w.expiringCertificates, now, fmt)
      + LegacyEntries(w.expiringLegacyCertificates, now, fmt) + SecretEntries(w.expiringSecrets, now, fmt);
      CertificatesHeading !in entries && SecretsHeading !in entries
  {
    EntriesStartWithTab(w, now, fmt);
    var entries := CertificateEntries(w.expiringCertificates, now, fmt)
      + LegacyEntries(w.expiringLegacyCertificates, now, fmt) + SecretEntries(w.expiringSecrets, now, fmt);
    assert forall l :: l in entries ==> |l| > 0 && l[0] == '\t';
    assert CertificatesHeading[0] == 'C' && SecretsHeading[0] == 'S';
  }

  /**
   * The message opens with the vault's header, carries the certificates
   * section exactly when a certificate or legacy certificate is due and the
   * secrets section exactly when a secret is due, with one line per entry.
   */
  lemma MessageShape(w: Warning, now: int, fmt: Formats)
    ensures var ls := MessageLines(w, now, fmt);
      var certificates := w.expiringCertificates != [] || w.expiringLegacyCertificates != [];
      && |ls| == 1 + (if certificates then 1 + |w.expiringCertificates| + |w.expiringLegacyCertificates| else 0)
                   + (if w.expiringSecrets != [] then 1 + |w.expiringSecrets| else 0)
      && ls[0] == Header(w.vaultName)
      && (CertificatesHeading in ls <==> certificates)
      && (SecretsHeading in ls <==> w.expiringSecrets != [])
  {
    var certificates := w.expiringCertificates != [] || w.expiringLegacyCertificates != [];
    var ce := CertificateEntries(w.expiringCertificates, now, fmt);
    var le := LegacyEntries(w.expiringLegacyCertificates, now, fmt);
    var se := SecretEntries(w.expiringSecrets, now, fmt);
    var a := if certificates then [CertificatesHeading] + ce + le else [];
    var b := if w.expiringSecrets != [] then [SecretsHeading] + se else [];
    var ls := MessageLines(w, now, fmt);
    assert ls == [Header(w.vaultName)] + a + b;
    HeadingsAreNotEntries(w, now, fmt);
    HeaderIsNoHeading(w.vaultName);
    assert forall l :: l in ce || l in le || l in se ==> l in ce + le + se;
    assert forall l :: l in a ==> l == CertificatesHeading || l in ce || l in le;
    assert forall l :: l in b ==> l == SecretsHeading || l in se;
    if certificates {
      assert ls[1] == CertificatesHeading;
    }
    if w.expiringSecrets != [] {
      assert ls[1 + |a|] == SecretsHeading;
    }
  }

  // ---------------------------------------------------------------------------
  // One vault

  /** The items the scan keeps from a listing: the first page, or nothing when access was denied. */
  function FirstPage<T>(l: Listing<T>): seq<T>
  {
    if l.Pages? then l.first else []
  }

  function AccessError(kind: string, vaultName: string, message: string): string
  {
    "Error: Could Not Access Vault " + kind + " " + vaultName + " - " + message
  }

  /** The access error a listing adds to the run's error list. */
  function AccessErrors<T>(kind: string, vaultName: string, l: Listing<T>): (r: seq<string>)
    ensures |r| == (if l.AccessDenied? then 1 else 0)
  {
    if l.AccessDenied? then [AccessError(kind, vaultName, l.message)] else []
  }

  /** An exception escaping from the page-following loop. */
  function Escaping<T>(l: Listing<T>): Option<Exception>
  {
    if l.Pages? then l.laterFailure else None
  }

  /** Either an exception escapes (after the errors recorded before it), or the vault was read to the end. */
  datatype VaultOutcome =
    | Aborted(errors: seq<string>, failure: Exception)
    | Scanned(errors: seq<string>, message: Option<string>)

  /** What the loop body does with one vault that is not skipped. */
  function Evaluate(v: Vault, s: Settings): VaultOutcome
  {
    if Escaping(v.certificates).Some? then Aborted([], Escaping(v.certificates).value)
    else if Escaping(v.secrets).Some? then Aborted(AccessErrors("Certificates", v.name, v.certificates), Escaping(v.secrets).value)
    else
      var w := Classify(v.name, FirstPage(v.certificates), FirstPage(v.secrets), s.now, s.certificateDays, s.secretDays);
      Scanned(AccessErrors("Certificates", v.name, v.certificates) + AccessErrors("Secrets", v.name, v.secrets),
              if HasEntries(w) then Some(Lines(MessageLines(w, s.now, s.fmt))) else None)
  }

  /**
   * Only the first page of each listing is classified: the items of the
   * pages fetched after it change nothing.
   */
  lemma LaterPagesDiscarded(v: Vault, s: Settings, laterCertificates: seq<seq<CertificateItem>>, laterSecrets: seq<seq<SecretItem>>)
    requires v.certificates.Pages? && v.secrets.Pages?
    ensures Evaluate(v.(certificates := v.certificates.(later := laterCertificates),
                        secrets := v.secrets.(later := laterSecrets)), s)
         == Evaluate(v, s)
  {
  }

  /**
   * A vault whose certificate listing was refused is reported as an error
   * and still has its secrets classified; one whose listings both succeed
   * adds no error.
   */
  lemma EvaluateErrors(v: Vault, s: Settings)
    requires Evaluate(v, s).Scanned?
    ensures var errors := Evaluate(v, s).errors;
      |errors| == (if v.certificates.AccessDenied? then 1 else 0) + (if v.secrets.AccessDenied? then 1 else 0)
    ensures Evaluate(v, s).message.Some? <==>
      HasEntries(Classify(v.name, FirstPage(v.certificates), FirstPage(v.secrets), s.now, s.certificateDays, s.secretDays))
  {
  }

  /**
   * With a non-negative threshold the certificate window lies wholly in the
   * past: a certificate is reported only once it has expired, and then
   * always with the expired marker, while a PKCS#12 secret with the same
   * expiry is reported ahead of time.
   */
  lemma CertificateWindowLooksBack(c: CertificateItem, now: int, certificateDays: int)
    requires certificateDays >= 0
    ensures CertificateDue(now, certificateDays)(c) ==> Marker(c.expires, now) == ExpiredMark
    ensures c.expires == Some(now + 1) ==> !CertificateDue(now, certificateDays)(c)
    ensures c.expires == Some(now + 1) && certificateDays >= 1 ==>
      LegacyDue(now, certificateDays)(SecretItem(c.name, Some(Pkcs12), None, c.created, c.expires))
  {
  }

  // ---------------------------------------------------------------------------
  // The loop over the vaults

  /**
   * The run so far: the vault messages broadcast, the access errors
   * collected, and the exception that ended the loop, if one did.
   */
  datatype ScanState = ScanState(sent: seq<string>, errors: seq<string>, failure: Option<Exception>)

  const Start: ScanState := ScanState([], [], None)

  function Step(st: ScanState, v: Vault, s: Settings): ScanState
  {
    if st.failure.Some? || s.skip(v.name) then st
    else
      match Evaluate(v, s)
      case Aborted(errors, e) => ScanState(st.sent, st.errors + errors, Some(e))
      case Scanned(errors, message) =>
        ScanState(st.sent + (if message.Some? then [message.value] else []), st.errors + errors, None)
  }

  function ScanFrom(st: ScanState, vaults: seq<Vault>, s: Settings): ScanState
  {
    if vaults == [] then st else Step(ScanFrom(st, vaults[..|vaults| - 1], s), vaults[|vaults| - 1], s)
  }

  function Scan(vaults: seq<Vault>, s: Settings): ScanState
  {
    ScanFrom(Start, vaults, s)
  }

  lemma {:induction false} ScanFromAppend(st: ScanState, a: seq<Vault>, b: seq<Vault>, s: Settings)
    ensures ScanFrom(st, a + b, s) == ScanFrom(ScanFrom(st, a, s), b, s)
    decreases |b|
  {
    if b == [] {
      assert a + b == a;
    } else {
      assert (a + b)[..|a + b| - 1] == a + b[..|b| - 1];
      assert (a + b)[|a + b| - 1] == b[|b| - 1];
      ScanFromAppend(st, a, b[..|b| - 1], s);
    }
  }

  /** Once an exception has escaped, no later vault is looked at. */
  lemma {:induction false} FailureIsFinal(st: ScanState, vaults: seq<Vault>, s: Settings)
    requires st.failure.Some?
    ensures ScanFrom(st, vaults, s) == st
  {
    if vaults != [] {
      FailureIsFinal(st, vaults[..|vaults| - 1], s);
    }
  }

  /** A skipped vault leaves the run exactly as if it were not in the subscription. */
  lemma SkippedVaultChangesNothing(vaults: seq<Vault>, k: nat, s: Settings)
    requires k < |vaults| && s.skip(vaults[k].name)
    ensures Scan(vaults, s) == Scan(vaults[..k] + vaults[k + 1..], s)
  {
    var a, x, b := vaults[..k], [vaults[k]], vaults[k + 1..];
    assert vaults == (a + x) + b;
    ScanFromAppend(Start, a + x, b, s);
    ScanFromAppend(Start, a, x, s);
    ScanFromAppend(Start, a, b, s);
    assert x[..0] == [];
  }

  /** Each message broadcast is about one vault: never more messages than vaults. */
  lemma {:induction false} AtMostOneMessagePerVault(st: ScanState, vaults: seq<Vault>, s: Settings)
    ensures |ScanFrom(st, vaults, s).sent| <= |st.sent| + |vaults|
    ensures |st.sent| <= |ScanFrom(st, vaults, s).sent|
  {
    if vaults != [] {
      AtMostOneMessagePerVault(st, vaults[..|vaults| - 1], s);
    }
  }

  // ---------------------------------------------------------------------------
  // The loop as written

  /** The `AppendLine` loop over the expiring certificates. */
  method AppendCertificates(lines: seq<string>, items: seq<CertificateItem>, now: int, fmt: Formats) returns (lines': seq<string>)
    ensures lines' == lines + CertificateEntries(items, now, fmt)
  {
    lines' := lines;
    for k := 0 to |items|
      invariant lines' == lines + CertificateEntries(items[..k], now, fmt)
    {
      var c := items[k];
      assert CertificateEntries(items[..k + 1], now, fmt)
        == CertificateEntries(items[..k], now, fmt) + [CertificateEntry(c.name, c.created, c.expires, now, fmt)];
      lines' := lines' + [CertificateEntry(c.name, c.created, c.expires, now, fmt)];
    }
    assert items[..|items|] == items;
  }

  /** The `AppendLine` loop over the expiring certificates read from the secrets endpoint. */
  method AppendLegacyCertificates(lines: seq<string>, items: seq<SecretItem>, now: int, fmt: Formats) returns (lines': seq<string>)
    ensures lines' == lines + LegacyEntries(items, now, fmt)
  {
    lines' := lines;
    for k := 0 to |items|
      invariant lines' == lines + LegacyEntries(items[..k], now, fmt)
    {
      var c := items[k];
      assert LegacyEntries(items[..k + 1], now, fmt)
        == LegacyEntries(items[..k], now, fmt) + [CertificateEntry(c.name, c.created, c.expires, now, fmt)];
      lines' := lines' + [CertificateEntry(c.name, c.created, c.expires, now, fmt)];
    }
    assert items[..|items|] == items;
  }

  /** The `AppendLine` loop over the expiring secrets. */
  method AppendSecrets(lines: seq<string>, items: seq<SecretItem>, now: int, fmt: Formats) returns (lines': seq<string>)
    ensures lines' == lines + SecretEntries(items, now, fmt)
  {
    lines' := lines;
    for k := 0 to |items|
      invariant lines' == lines + SecretEntries(items[..k], now, fmt)
    {
      var secret := items[k];
      assert SecretEntries(items[..k + 1], now, fmt) == SecretEntries(items[..k], now, fmt) + [SecretEntry(secret, now, fmt)];
      lines' := lines' + [SecretEntry(secret, now, fmt)];
    }
    assert items[..|items|] == items;
  }

  /** The `AppendLine` calls that build one vault's message. */
  method BuildMessage(w: Warning, now: int, fmt: Formats) returns (text: string)
    ensures text == Lines(MessageLines(w, now, fmt))
  {
    var certificateLines: seq<string> := [];
    if w.expiringCertificates != [] || w.expiringLegacyCertificates != [] {
      certificateLines := AppendCertificates([CertificatesHeading], w.expiringCertificates, now, fmt);
      certificateLines := AppendLegacyCertificates(certificateLines, w.expiringLegacyCertificates, now, fmt);
    }
    var secretLines: seq<string> := [];
    if w.expiringSecrets != [] {
      secretLines := AppendSecrets([SecretsHeading], w.expiringSecrets, now, fmt);
    }
    text := Lines([Header(w.vaultName)] + certificateLines + secretLines);
  }

  /** Once an exception has escaped on a prefix, the remaining vaults change nothing. */
  lemma ScanStopsAt(vaults: seq<Vault>, n: nat, s: Settings)
    requires n <= |vaults| && ScanFrom(Start, vaults[..n], s).failure.Some?
    ensures Scan(vaults, s) == ScanFrom(Start, vaults[..n], s)
  {
    assert vaults[..n] + vaults[n..] == vaults;
    ScanFromAppend(Start, vaults[..n], vaults[n..], s);
    FailureIsFinal(ScanFrom(Start, vaults[..n], s), vaults[n..], s);
  }

  /**
   * The body of the loop for a vault that is not skipped: the access errors
   * it records, the message it broadcasts, or the exception that escapes.
   */
  method ReadVault(vault: Vault, s: Settings) returns (errors: seq<string>, message: Option<string>, thrown: Option<Exception>)
    ensures match Evaluate(vault, s)
      case Aborted(es, e) => errors == es && thrown == Some(e)
      case Scanned(es, m) => errors == es && thrown.None? && message == m
  {
    errors, message, thrown := [], None, None;
    var certificates: seq<CertificateItem> := [];
    match vault.certificates {
      case AccessDenied(text) =>
        errors := errors + [AccessError("Certificates", vault.name, text)];
      case Pages(first, _, laterFailure) =>
        certificates := first;
        if laterFailure.Some? {
          return [], None, laterFailure;
        }
    }
    var secrets: seq<SecretItem> := [];
    match vault.secrets {
      case AccessDenied(text) =>
        errors := errors + [AccessError("Secrets", vault.name, text)];
      case Pages(first, _, laterFailure) =>
        secrets := first;
        if laterFailure.Some? {
          return errors, None, laterFailure;
        }
    }
    var warning := Classify(vault.name, certificates, secrets, s.now, s.certificateDays, s.secretDays);
    if HasEntries(warning) {
      var text := BuildMessage(warning, s.now, s.fmt);
      message := Some(text);
    }
  }

  lemma ScanStep(vaults: seq<Vault>, i: nat, s: Settings)
    requires i < |vaults|
    ensures ScanFrom(Start, vaults[..i + 1], s) == Step(ScanFrom(Start, vaults[..i], s), vaults[i], s)
  {
    assert vaults[..i + 1][..i] == vaults[..i];
  }

  /** One pass of the loop body: a skipped vault changes nothing, a read one is recorded. */
  method VisitVault(sent: seq<string>, errors: seq<string>, vault: Vault, s: Settings)
    returns (sent': seq<string>, errors': seq<string>, thrown: Option<Exception>)
    ensures Step(ScanState(sent, errors, None), vault, s) == ScanState(sent', errors', thrown)
  {
    if s.skip(vault.name) {
      return sent, errors, None;
    }
    var vaultErrors, message;
    vaultErrors, message, thrown := ReadVault(vault, s);
    errors' := errors + vaultErrors;
    sent' := if thrown.None? && message.Some? then sent + [message.value] else sent;
  }

  /**
   * The loop over the subscription's vaults. `sent` are the vault messages
   * handed to the sink in order; `failure` is the exception that ended the
   * loop, with the messages already sent before it.
   */
  method ScanVaults(vaults: seq<Vault>, s: Settings) returns (sent: seq<string>, errors: seq<string>, failure: Option<Exception>)
    ensures Scan(vaults, s) == ScanState(sent, errors, failure)
  {
    sent, errors := [], [];
    var i := 0;
    while i < |vaults|
      invariant 0 <= i <= |vaults|
      invariant ScanFrom(Start, vaults[..i], s) == ScanState(sent, errors, None)
    {
      ScanStep(vaults, i, s);
      var thrown;
      sent, errors, thrown := VisitVault(sent, errors, vaults[i], s);
      if thrown.Some? {
        ScanStopsAt(vaults, i + 1, s);
        return sent, errors, thrown;
      }
      i := i + 1;
    }
    assert vaults[..i] == vaults;
    failure := None;
  }
}
