# Expiration scanner: the policy layer in Dafny

This project models the decision logic of the credential-expiration scanner. The scanner walks Azure
application registrations and Key Vaults. It finds secrets and certificates that have expired or
will expire soon, and it broadcasts text messages to the configured notification channels: the
app-registration scan sends one report per run, the Key Vault scans send one message per vault with
findings and then a digest of access errors, and the service-principal endpoint sends one message
per application with findings.
The model covers:

- the allow-list matcher `WhitelistHelper.Matches`: literal entries, and `*` wildcard entries
  searched without anchoring;
- the app-registration scan `AppRegistrationExpiryChecker.CheckAsync`: the name filter, the
  inclusive expiry window, and the single report written into one `StringBuilder`;
- the two Key Vault scans, `KeyVaultExpiryChecker.CheckAsync` and the function-app endpoint
  `KeyVaultCheckFunctions.Run`. They share one loop body. That body reads the first page of each
  listing, records access errors, sorts items into three buckets and writes one message per vault.
  The two scans differ in the skip rule and in how the error digest is sent;
- the service-principal endpoint `ServicePrincipalCheckFunctions.Run` and
  `IsServicePrincipalAppOwner`;
- the notification fan-out `AggregatedNotificationService`: its construction checks, and a
  broadcast that logs the text and hands it to every active channel;
- `AzureHelper`: the required `SubscriptionId` setting, and the tenant id. The tenant id is read
  with the `authorization_uri` pattern from the `WWW-Authenticate` header and memoised per
  subscription.

Remote listings are inputs (`seq` values, or a failure value). The clock is a parameter. Every sink
is an append-only `seq<string>` of the texts sent. An exception that escapes is returned as a
`failure` value next to what was sent before it.

Files, one module each:

| file | module |
|---|---|
| `wrappers.dfy`, `errors.dfy` | `Option`/`Result`, and the .NET exceptions that escape |
| `seqs.dfy`, `text.dfy` | `Where`, ordinal comparison, `Trim`, `Split`/`Join`, `AppendLine`, `int.Parse` |
| `configuration.dfy` | `IConfiguration` lookups, the required-value rule, thresholds and name lists |
| `whitelist.dfy` | `WhitelistHelper` |
| `graph.dfy` | Graph applications and credentials, and the credential lines both app scans write |
| `app_registration_checker.dfy` | `AppRegistrationExpiryChecker` |
| `key_vault.dfy` | the vault loop body, the buckets, the message, and the scan fold shared by both vault scans |
| `key_vault_checker.dfy`, `key_vault_check_functions.dfy` | the two vault scans |
| `service_principal_check.dfy` | `ServicePrincipalCheckFunctions` |
| `notification.dfy` | `AggregatedNotificationService` and the channels |
| `azure_helper.dfy` | `AzureHelper` |

Each scan is an imperative method. Its `ensures` ties its outputs to a left fold over the resources
(`Report`, `Scan`, `TenantsFrom`). Lemmas state what the fold promises: skipped resources change
nothing, one message per resource at most, an escaped exception is final, and the buckets and
message shapes.

## Behaviour as written

The model follows the code in the places where the code departs from what its names or constants
suggest:

- `KeyVaultExpiryChecker` skips the vaults its filter *matches*
  (`ExpirationScanner.Logic/KeyVaultExpiryChecker.cs:71-72`). `AppRegistrationExpiryChecker` skips
  the applications its filter does *not* match (`ExpirationScanner.Logic/AppRegistrationExpiryChecker.cs:41-42`).
  See `KeyVaultExpiryChecker.MatchingVaultIsSkipped` and
  `AppRegistrationExpiryChecker.RejectedAppAddsNothing`.
- In both vault scans a certificate is due when `Expires < now - days`, so the window lies in the
  past. A PKCS#12 secret with the same expiry is tested against `now + days`
  (`KeyVault.CertificateWindowLooksBack`).
- Only the first page of each listing is kept. Later pages are fetched and dropped
  (`KeyVault.LaterPagesDiscarded`). A failure while fetching a later page happens outside the
  `try`, so it ends the whole scan.
- Wildcard entries are searched anywhere in the name: `Foo-*` accepts `XFoo-bar`
  (`WhitelistHelper.SearchFindsInfix`, `WhitelistHelper.UnanchoredCase`). Each `*` takes at least
  one character.
- The endpoints default both thresholds to 30 days (`int.Parse(config[...] ?? "30")`). `Constants.ExpiryWarningThresholdInDays`
  (`ExpirationScanner/Constants.cs:8`) says 60. The endpoints' name lists are ignore lists of
  exact names, and an unset list is `[""]`, not an allow-all `*`.
- `KeyVaultCheckFunctions.Run` sends the joined error digest even when it is empty. The logic
  checker sends it only when there are errors.
- The service-principal endpoint tests certificates against the *secret* threshold, and its window
  is strict (`<`). The app-registration checker's window is inclusive (`<=`)
  (`ServicePrincipalCheckFunctions.WindowEndExcluded`).
- A certificate without `CustomKeyIdentifier` makes `Convert.ToBase64String` throw. That ends the
  run, so classification is not total.
- A null tenant list is reported by the warning and then throws in the `foreach`.

## Model

| member | source | states |
|---|---|---|
| WhitelistHelper.Matches | ExpirationScanner.Logic/WhitelistHelper.cs:12-27 | true iff some entry matches the name; an empty list matches nothing |
| WhitelistHelper.PrefixFits | ExpirationScanner.Logic/WhitelistHelper.cs:17-18 | a match attempt at one start position succeeds iff some prefix of the rest fits the pattern |
| WhitelistHelper.SearchFindsInfix | ExpirationScanner.Logic/WhitelistHelper.cs:17-18 | the unanchored search succeeds iff some contiguous part of the name fits the pattern |
| WhitelistHelper.FitIsNoShorterThanPattern | ExpirationScanner.Logic/WhitelistHelper.cs:17 | every pattern character, `*` included, consumes at least one character |
| WhitelistHelper.StarFreePatternIsLiteral | ExpirationScanner.Logic/WhitelistHelper.cs:17 | escaped characters (`.`, `+`, `?` included) stand for themselves: without `*` a fit is equality |
| WhitelistHelper.StarFitsNonEmptyLine | ExpirationScanner.Logic/WhitelistHelper.cs:17 | a lone `*` (`.+`) fits exactly the non-empty strings without a line feed |
| WhitelistHelper.TrailingStarFits | ExpirationScanner.Logic/WhitelistHelper.cs:17 | `lit*` fits a string iff it starts with `lit` and has at least one more character, none a line feed |
| WhitelistHelper.EntryOrderIrrelevant | ExpirationScanner.Logic/WhitelistHelper.cs:12-27 | the answer depends only on which entries are present, not on their order or repetition |
| WhitelistHelper.LiteralEntry | ExpirationScanner.Logic/WhitelistHelper.cs:21-25 | an entry without `*` accepts exactly the names equal to it, ordinal or ignoring case |
| WhitelistHelper.WildcardEntry | ExpirationScanner.Logic/WhitelistHelper.cs:14-20 | an entry with `*` accepts a name iff some infix of the name fits it |
| WhitelistHelper.SingleEntryCases | ExpirationScanner.Tests/WhitelistHelperTests.cs:9-11 | `Foo` matches `Foo`, `Foo-*` matches `Foo-bar` but not `Foo` |
| WhitelistHelper.TrailingStarCases | ExpirationScanner.Tests/WhitelistHelperTests.cs:12-13 | `Foo*` needs at least one character after `Foo`: it rejects `Foo` and accepts `Foo1` |
| WhitelistHelper.MultipleEntryCases | ExpirationScanner.Tests/WhitelistHelperTests.cs:19-21 | the multi-entry expectations of the tests |
| WhitelistHelper.SuffixEntryCases | ExpirationScanner.Tests/WhitelistHelperTests.cs:22 | `*-DEV` matches `App-DEV` case-sensitively |
| WhitelistHelper.WrongCaseSuffixCase | ExpirationScanner.Tests/WhitelistHelperTests.cs:23 | by default `*-dev` does not match `App-DEV` |
| WhitelistHelper.OtherSuffixCases | ExpirationScanner.Tests/WhitelistHelperTests.cs:54-59 | the case-sensitive multi-entry rejections |
| WhitelistHelper.CaseSensitiveCases | ExpirationScanner.Tests/WhitelistHelperTests.cs:29-35 | by default `foo`, `FOO`, `f*`, `*OO` do not match `Foo` |
| WhitelistHelper.IgnoreCaseCases | ExpirationScanner.Tests/WhitelistHelperTests.cs:38-43 | ignoring case, literal and wildcard entries match `Foo` |
| WhitelistHelper.IgnoreCaseMultipleCases | ExpirationScanner.Tests/WhitelistHelperTests.cs:46 | ignoring case, `Foo` is found by the second, literal entry of a list |
| WhitelistHelper.IgnoreCaseWildcardCase | ExpirationScanner.Tests/WhitelistHelperTests.cs:47 | ignoring case, `*-dev` matches `App-DEV` |
| WhitelistHelper.IgnoreCaseSecondWildcardCase | ExpirationScanner.Tests/WhitelistHelperTests.cs:48 | ignoring case, the second wildcard entry matches `App-PRD` |
| WhitelistHelper.UnanchoredCase | ExpirationScanner.Logic/WhitelistHelper.cs:17-18 | `Foo-*` accepts `XFoo-bar`: the search is not anchored |
| WhitelistHelper.EscapedDotCases | ExpirationScanner.Logic/WhitelistHelper.cs:17 | `.` in a wildcard entry matches only a dot |
| WhitelistHelper.EscapedQuantifierCases | ExpirationScanner.Logic/WhitelistHelper.cs:17 | `+` and `?` in a wildcard entry are literal characters, not quantifiers |
| Text.IgnoreCaseIsUpperEquality | ExpirationScanner.Logic/WhitelistHelper.cs:10 | ordinal ignore-case equality is equality of the upper-cased strings |
| Text.Split | ExpirationScanner/Endpoints/KeyVaultCheck/KeyVaultCheckFunctions.cs:52 | the pieces hold no separator and join back to the input |
| Text.TrimRemovesOnlyOuterWhiteSpace | ExpirationScanner/Endpoints/KeyVaultCheck/KeyVaultCheckFunctions.cs:52 | `Trim` keeps an infix and removes only white space at either end |
| Text.ParseInt32 | ExpirationScanner/Endpoints/KeyVaultCheck/KeyVaultCheckFunctions.cs:54-55 | `int.Parse` yields a 32-bit value, or a format or overflow failure |
| Text.ParseDecimal | ExpirationScanner/Endpoints/KeyVaultCheck/KeyVaultCheckFunctions.cs:54-55 | every non-negative 32-bit value written in decimal parses back to itself |
| Text.LinesEmpty | ExpirationScanner.Logic/AppRegistrationExpiryChecker.cs:96 | the builder is empty iff no line was appended |
| Seqs.Filter | ExpirationScanner.Logic/AppRegistrationExpiryChecker.cs:46-51 | `Where` keeps exactly the items satisfying the predicate, and no more items than it was given |
| Seqs.FilterSnoc | ExpirationScanner.Logic/AppRegistrationExpiryChecker.cs:46-51 | `Where` keeps the order: filtering a list extended by one item extends the result by that item iff it satisfies the predicate |
| Seqs.FilterAppend | ExpirationScanner.Logic/AppRegistrationExpiryChecker.cs:46-51 | filtering a concatenation is the concatenation of the filtered parts |
| Seqs.FilterMultiplicity | ExpirationScanner.Logic/AppRegistrationExpiryChecker.cs:46-51 | every item satisfying the predicate is kept as often as it occurs; the others never |
| Configuration.Configuration.GetRequired | ExpirationScanner.Logic/Extensions/ConfigurationExtensions.cs:8-9 | the configured value, or KeyNotFoundException when it is absent |
| Configuration.ValueOr | ExpirationScanner/Endpoints/KeyVaultCheck/KeyVaultCheckFunctions.cs:52-55 | `config[key] ?? fallback` gives the fallback when the key is absent and the configured value when it is present |
| Configuration.Threshold | ExpirationScanner/Endpoints/KeyVaultCheck/KeyVaultCheckFunctions.cs:54-55 | a parsed threshold lies in the 32-bit range |
| Configuration.NameList | ExpirationScanner/Endpoints/KeyVaultCheck/KeyVaultCheckFunctions.cs:52 | at least one name, each without surrounding white space |
| Configuration.NameListEntries | ExpirationScanner/Endpoints/KeyVaultCheck/KeyVaultCheckFunctions.cs:52 | no name in the list contains a comma |
| Configuration.NameListUnset | ExpirationScanner/Endpoints/KeyVaultCheck/KeyVaultCheckFunctions.cs:52 | an unset list is `[""]` |
| Configuration.ThresholdDefault | ExpirationScanner/Endpoints/KeyVaultCheck/KeyVaultCheckFunctions.cs:54-55 | an unset threshold is 30 |
| Configuration.ThresholdConfigured | ExpirationScanner/Endpoints/KeyVaultCheck/KeyVaultCheckFunctions.cs:54-55 | a threshold configured as a decimal number is that number |
| Configuration.ThresholdBlank | ExpirationScanner/Endpoints/KeyVaultCheck/KeyVaultCheckFunctions.cs:54-55 | a blank threshold makes `int.Parse` fail with a format error |
| Graph.MarkerSlot | ExpirationScanner.Logic/AppRegistrationExpiryChecker.cs:73-79 | the character after a line's prefix starts the EXPIRED marker iff the credential is expired |
| Graph.CertificateDescription | ExpirationScanner.Logic/AppRegistrationExpiryChecker.cs:71 | a certificate without identifier throws ArgumentNullException; otherwise its base64 text |
| Graph.CertificateLinesShape | ExpirationScanner.Logic/AppRegistrationExpiryChecker.cs:69-80 | rendering fails iff some certificate lacks an identifier; otherwise one line per certificate, in order |
| Graph.SecretLinesShape | ExpirationScanner.Logic/AppRegistrationExpiryChecker.cs:82-93 | one line per secret, in order, with its UTF-16 description or "No description" |
| Graph.RenderCertificates | ExpirationScanner.Logic/AppRegistrationExpiryChecker.cs:69-80 | the certificate loop produces the certificate lines, or stops with the exception |
| Graph.CertificateLinesFailurePersists | ExpirationScanner.Logic/AppRegistrationExpiryChecker.cs:71 | once a certificate has thrown, the rest of the list does not change the outcome |
| Graph.RenderSecrets | ExpirationScanner.Logic/AppRegistrationExpiryChecker.cs:82-93 | the secret loop produces the secret lines |
| AppRegistrationExpiryChecker.ExpiringSecrets | ExpirationScanner.Logic/AppRegistrationExpiryChecker.cs:46-48 | a secret is flagged iff it has an end date not after `now + days` |
| AppRegistrationExpiryChecker.ExpiringCertificates | ExpirationScanner.Logic/AppRegistrationExpiryChecker.cs:49-51 | a certificate is flagged iff it has an end date not after `now + days` |
| AppRegistrationExpiryChecker.ReportAppend | ExpirationScanner.Logic/AppRegistrationExpiryChecker.cs:39-95 | the report of a concatenation is the two reports in sequence: applications are independent |
| AppRegistrationExpiryChecker.RejectedAppAddsNothing | ExpirationScanner.Logic/AppRegistrationExpiryChecker.cs:41-42 | an application the allow-list rejects leaves the report as if it were absent |
| AppRegistrationExpiryChecker.BlockEmpty | ExpirationScanner.Logic/AppRegistrationExpiryChecker.cs:41-54 | an application adds no lines iff it is rejected or nothing of it is flagged |
| AppRegistrationExpiryChecker.ReportEmptyIffNothingFlagged | ExpirationScanner.Logic/AppRegistrationExpiryChecker.cs:39-96 | the report is empty iff no accepted application has a flagged credential |
| AppRegistrationExpiryChecker.BlockShape | ExpirationScanner.Logic/AppRegistrationExpiryChecker.cs:53-93 | a non-empty block is exactly the header naming app and tenant, then the certificate lines of the flagged certificates, then the secret lines of the flagged secrets |
| AppRegistrationExpiryChecker.CertificateMarker | ExpirationScanner.Logic/AppRegistrationExpiryChecker.cs:67-80 | a certificate line carries the marker iff its end date is not after the single `now` |
| AppRegistrationExpiryChecker.SecretMarker | ExpirationScanner.Logic/AppRegistrationExpiryChecker.cs:82-93 | a secret line carries the marker iff its end date is not after the single `now` |
| AppRegistrationExpiryChecker.ReportStopsAt | ExpirationScanner.Logic/AppRegistrationExpiryChecker.cs:69-71 | once an exception escapes, later applications change nothing |
| AppRegistrationExpiryChecker.CheckApp | ExpirationScanner.Logic/AppRegistrationExpiryChecker.cs:41-93 | the loop body appends the application's block, or throws |
| AppRegistrationExpiryChecker.CheckAsync | ExpirationScanner.Logic/AppRegistrationExpiryChecker.cs:31-98 | a failed tenant lookup ends the run with that exception and sends nothing; otherwise at most one broadcast: the whole report, sent iff it is non-empty; nothing when an exception escapes |
| KeyVault.Classify | ExpirationScanner.Logic/KeyVaultExpiryChecker.cs:93-121 | the three buckets: certificates before `now - days`; unmanaged non-PKCS#12 secrets; unmanaged PKCS#12 secrets; the secret buckets are disjoint |
| KeyVault.BlankContentTypeIsOmitted | ExpirationScanner.Logic/KeyVaultExpiryChecker.cs:145 | a null or blank content type is left out of a secret's line |
| KeyVault.EntriesStartWithTab | ExpirationScanner.Logic/KeyVaultExpiryChecker.cs:133-145 | every entry line starts with a tab |
| KeyVault.HeaderIsNoHeading | ExpirationScanner.Logic/KeyVaultExpiryChecker.cs:126-142 | the vault header is neither section heading |
| KeyVault.HeadingsAreNotEntries | ExpirationScanner.Logic/KeyVaultExpiryChecker.cs:130-145 | no entry line is a section heading |
| KeyVault.MessageShape | ExpirationScanner.Logic/KeyVaultExpiryChecker.cs:123-147 | header first; the certificates section iff a certificate or legacy certificate is due; the secrets section iff a secret is due; one line per entry |
| KeyVault.AccessErrors | ExpirationScanner.Logic/KeyVaultExpiryChecker.cs:78-107 | exactly one error string per refused listing |
| KeyVault.LaterPagesDiscarded | ExpirationScanner.Logic/KeyVaultExpiryChecker.cs:76-112 | the items of pages after the first change nothing |
| KeyVault.EvaluateErrors | ExpirationScanner.Logic/KeyVaultExpiryChecker.cs:76-123 | a read vault adds one error per refused listing and a message iff some bucket is non-empty |
| KeyVault.CertificateWindowLooksBack | ExpirationScanner.Logic/KeyVaultExpiryChecker.cs:93-133 | with a non-negative threshold a due certificate is always already expired, while a PKCS#12 secret with the same expiry is due ahead of time |
| KeyVault.ScanFromAppend | ExpirationScanner.Logic/KeyVaultExpiryChecker.cs:69-151 | the scan of a concatenation is the two scans in sequence |
| KeyVault.FailureIsFinal | ExpirationScanner.Logic/KeyVaultExpiryChecker.cs:88-112 | once an exception has escaped, no later vault is looked at |
| KeyVault.SkippedVaultChangesNothing | ExpirationScanner.Logic/KeyVaultExpiryChecker.cs:71-72 | a skipped vault adds neither message nor error |
| KeyVault.AtMostOneMessagePerVault | ExpirationScanner.Logic/KeyVaultExpiryChecker.cs:123-150 | never more vault messages than vaults |
| KeyVault.AppendCertificates | ExpirationScanner.Logic/KeyVaultExpiryChecker.cs:131-134 | the loop appends one entry per expiring certificate, in order |
| KeyVault.AppendLegacyCertificates | ExpirationScanner.Logic/KeyVaultExpiryChecker.cs:135-138 | the loop appends one entry per certificate read from the secrets endpoint, in order |
| KeyVault.AppendSecrets | ExpirationScanner.Logic/KeyVaultExpiryChecker.cs:143-146 | the loop appends one entry per expiring secret, in order |
| KeyVault.BuildMessage | ExpirationScanner.Logic/KeyVaultExpiryChecker.cs:125-147 | the `AppendLine` calls build the text of the message lines |
| KeyVault.ScanStopsAt | ExpirationScanner.Logic/KeyVaultExpiryChecker.cs:88-112 | after an escaped exception the remaining vaults change nothing |
| KeyVault.ReadVault | ExpirationScanner.Logic/KeyVaultExpiryChecker.cs:74-150 | the loop body yields the vault's errors and message, or the exception that escapes |
| KeyVault.VisitVault | ExpirationScanner.Logic/KeyVaultExpiryChecker.cs:69-150 | one pass of the loop is one step of the scan: an ignored vault changes nothing, a read one adds its errors and its message or ends the scan |
| KeyVault.ScanVaults | ExpirationScanner.Logic/KeyVaultExpiryChecker.cs:67-151 | the loop yields the messages in vault order, the collected errors and any escaped exception |
| KeyVaultExpiryChecker.CheckAsync | ExpirationScanner.Logic/KeyVaultExpiryChecker.cs:37-155 | vault messages in order, then the joined errors iff there are any; nothing if tenant or subscription lookup fails |
| KeyVaultExpiryChecker.MatchingVaultIsSkipped | ExpirationScanner.Logic/KeyVaultExpiryChecker.cs:71-72 | a vault the filter matches contributes nothing |
| KeyVaultExpiryChecker.ListedVaultIsNeverReported | ExpirationScanner.Logic/KeyVaultExpiryChecker.cs:71-72 | a vault named literally in the filter is never reported on |
| KeyVaultExpiryChecker.EmptyFilterReadsEveryVault | ExpirationScanner.Logic/KeyVaultExpiryChecker.cs:69-151 | with no filter no vault is skipped, and at most one message per vault |
| KeyVaultCheckFunctions.Run | ExpirationScanner/Endpoints/KeyVaultCheck/KeyVaultCheckFunctions.cs:43-172 | threshold failures end the run first; otherwise vault messages in order, then the joined errors always, even when empty |
| KeyVaultCheckFunctions.NoIgnoreSettingIgnoresNothing | ExpirationScanner/Endpoints/KeyVaultCheck/KeyVaultCheckFunctions.cs:52-92 | without the setting only a vault named "" would be ignored |
| KeyVaultCheckFunctions.IgnoredVaultIsSkipped | ExpirationScanner/Endpoints/KeyVaultCheck/KeyVaultCheckFunctions.cs:89-92 | a vault whose exact name is listed contributes nothing |
| ServicePrincipalCheckFunctions.FindServicePrincipalOwner | ExpirationScanner/Endpoints/ServicePincipalCheck/ServicePrincipalCheckFunctions.cs:99-112 | true iff some owner is a service principal with the tenant's client id |
| ServicePrincipalCheckFunctions.AppMessage | ExpirationScanner/Endpoints/ServicePincipalCheck/ServicePrincipalCheckFunctions.cs:64-93 | a message or exception iff the application is owned by the client, not ignored, and has a credential due before `now + days` |
| ServicePrincipalCheckFunctions.DueCertificates | ExpirationScanner/Endpoints/ServicePincipalCheck/ServicePrincipalCheckFunctions.cs:69 | a certificate is due iff it is one of the application's certificates with an end date before `now + days` |
| ServicePrincipalCheckFunctions.DueSecrets | ExpirationScanner/Endpoints/ServicePincipalCheck/ServicePrincipalCheckFunctions.cs:70 | a secret is due iff it is one of the application's secrets with an end date before `now + days` |
| ServicePrincipalCheckFunctions.AppMessageThrows | ExpirationScanner/Endpoints/ServicePincipalCheck/ServicePrincipalCheckFunctions.cs:81-84 | the message fails iff some due certificate lacks an identifier, and then with ArgumentNullException |
| ServicePrincipalCheckFunctions.AppMessageShape | ExpirationScanner/Endpoints/ServicePincipalCheck/ServicePrincipalCheckFunctions.cs:72-93 | when it succeeds the message is exactly the header, then one line per due certificate, then one per due secret |
| ServicePrincipalCheckFunctions.DueCertificateMarker | ExpirationScanner/Endpoints/ServicePincipalCheck/ServicePrincipalCheckFunctions.cs:84 | a due certificate's line carries the EXPIRED marker iff its end date is before `now` |
| ServicePrincipalCheckFunctions.DueSecretMarker | ExpirationScanner/Endpoints/ServicePincipalCheck/ServicePrincipalCheckFunctions.cs:90 | a due secret's line carries the EXPIRED marker iff its end date is before `now` |
| ServicePrincipalCheckFunctions.AppsFailureIsFinal | ExpirationScanner/Endpoints/ServicePincipalCheck/ServicePrincipalCheckFunctions.cs:62-95 | once an exception escapes, no later application is looked at |
| ServicePrincipalCheckFunctions.TenantsFailureIsFinal | ExpirationScanner/Endpoints/ServicePincipalCheck/ServicePrincipalCheckFunctions.cs:50-96 | once an exception escapes, no later tenant is looked at |
| ServicePrincipalCheckFunctions.AppsFromAppend | ExpirationScanner/Endpoints/ServicePincipalCheck/ServicePrincipalCheckFunctions.cs:62-95 | the scan of a concatenation of applications is the two scans in sequence |
| ServicePrincipalCheckFunctions.PassedOverAppChangesNothing | ExpirationScanner/Endpoints/ServicePincipalCheck/ServicePrincipalCheckFunctions.cs:64-67 | an application not owned by the client, or ignored by name, changes nothing |
| ServicePrincipalCheckFunctions.AtMostOneMessagePerApp | ExpirationScanner/Endpoints/ServicePincipalCheck/ServicePrincipalCheckFunctions.cs:72-93 | at most one message per application |
| ServicePrincipalCheckFunctions.WindowEndExcluded | ExpirationScanner/Endpoints/ServicePincipalCheck/ServicePrincipalCheckFunctions.cs:69-70 | a credential ending exactly at `now + days` is not due here, though the app-registration checker flags it |
| ServicePrincipalCheckFunctions.AppsStopAt | ExpirationScanner/Endpoints/ServicePincipalCheck/ServicePrincipalCheckFunctions.cs:62-95 | after an escaped exception the remaining applications change nothing |
| ServicePrincipalCheckFunctions.CheckApp | ExpirationScanner/Endpoints/ServicePincipalCheck/ServicePrincipalCheckFunctions.cs:64-94 | the loop body yields the application's message, or the exception |
| ServicePrincipalCheckFunctions.ScanTenant | ExpirationScanner/Endpoints/ServicePincipalCheck/ServicePrincipalCheckFunctions.cs:62-95 | the inner loop continues the sent messages by the tenant's applications, in order |
| ServicePrincipalCheckFunctions.ScanTenants | ExpirationScanner/Endpoints/ServicePincipalCheck/ServicePrincipalCheckFunctions.cs:50-96 | the outer loop scans the tenants in configured order |
| ServicePrincipalCheckFunctions.TenantsFromAppend | ExpirationScanner/Endpoints/ServicePincipalCheck/ServicePrincipalCheckFunctions.cs:50-96 | the scan of a concatenation of tenants is the two scans in sequence |
| ServicePrincipalCheckFunctions.Run | ExpirationScanner/Endpoints/ServicePincipalCheck/ServicePrincipalCheckFunctions.cs:34-97 | a threshold failure sends nothing; the warning is logged iff the tenant list is null or empty; a null list throws; otherwise the messages of the tenant scan |
| Notification.NotificationChannel.SendNotification | ExpirationScanner.Logic/Notification/INotificationService.cs:14 | a channel records each text it is asked to send |
| Notification.AggregatedNotificationService.constructor | ExpirationScanner/AggregatedNotificationService.cs:21-35 | built only over a non-empty service list with an active service; the list is fixed from then on |
| Notification.AggregatedNotificationService.Create | ExpirationScanner/AggregatedNotificationService.cs:26-31 | no services: InvalidOperationException; none active: NotSupportedException; otherwise a new service |
| Notification.AggregatedNotificationService.BroadcastNotification | ExpirationScanner/AggregatedNotificationService.cs:37-45 | the text is logged unless disabled, and each active service receives it once per listing; inactive ones receive nothing |
| Notification.LoggerSwitch | ExpirationScanner/AggregatedNotificationService.cs:39-40 | the logger is off iff the setting equals "true" ignoring case |
| AzureHelper.TenantRun | ExpirationScanner.Logic/Azure/AzureHelper.cs:56 | the greedy `[A-Za-z0-9-]*` takes the longest run of tenant-id characters |
| AzureHelper.FirstMatch | ExpirationScanner.Logic/Azure/AzureHelper.cs:56-58 | the leftmost position where the pattern matches, or none anywhere |
| AzureHelper.TenantIdFromHeader | ExpirationScanner.Logic/Azure/AzureHelper.cs:55-61 | a missing header throws NullReferenceException, a missing parameter ArgumentNullException("input"), a parameter without the pattern NotSupportedException; otherwise the matched tenant id, and only then success |
| AzureHelper.TenantRunIs | ExpirationScanner.Logic/Azure/AzureHelper.cs:56 | a run of tenant-id characters closed by any other character is what the greedy group takes |
| AzureHelper.ExtractWrittenTenantId | ExpirationScanner.Logic/Azure/AzureHelper.cs:56-61 | a tenant id written after the prefix and closed by a quote is read back exactly |
| AzureHelper.ExtractedTenantIdIsQuoted | ExpirationScanner.Logic/Azure/AzureHelper.cs:56-61 | a result exists iff the pattern matches somewhere; it is made of tenant-id characters and sits between the leftmost matching prefix and a quote |
| AzureHelper.EmptyTenantId | ExpirationScanner.Logic/Azure/AzureHelper.cs:56-61 | an empty group matches and yields "" |
| AzureHelper.UnauthorisedAnswerYieldsTenantId | ExpirationScanner.Tests/AzureHelperTests.cs:74-82 | the header of the tests yields the fake tenant id |
| AzureHelper.AzureHelper.constructor | ExpirationScanner.Logic/Azure/AzureHelper.cs:28-34 | a new helper starts with an empty cache |
| AzureHelper.AzureHelper.GetSubscriptionId | ExpirationScanner.Logic/Azure/AzureHelper.cs:36-37 | the configured `SubscriptionId`, or KeyNotFoundException |
| AzureHelper.AzureHelper.GetTenantId | ExpirationScanner.Logic/Azure/AzureHelper.cs:44-64 | subscription failure first; a cache hit needs no request; otherwise the parsed id, cached only on success, with other entries unchanged |
| AzureHelper.SecondLookupIsCached | ExpirationScanner.Logic/Azure/AzureHelper.cs:47-48 | after a successful lookup, the next one returns the same id without a request |

## Left out

- Authentication and client construction (MSI, token providers, `RestClient`, the Graph client)
  are foreign SDK calls. The tenant and subscription lookup a vault scan performs first becomes the
  `resolution` parameter, and the tenant lookup of the app-registration scan, success or failure,
  becomes its `tenant` parameter. Each tenant's applications become an input sequence.
- HTTP: `AzureHelper.AzureHelper.GetTenantId` takes the endpoint as a function from url to the first
  `WWW-Authenticate` header. The response status and cancellation are not modelled.
- Channel delivery (Slack, SendGrid, logger channels, `SlackService`) is HTTP and JSON. A channel is
  its `IsActive` flag and the list of texts it received. Its `IsActive` rule is not modelled.
- Notification.AggregatedNotificationService.BroadcastNotification: the sends of `Task.WhenAll`
  run concurrently in the source. Here they run one after another in list order. A failing channel
  is not modelled.
- Logging is a `logged` sequence in the fan-out and a `warned` flag in the service-principal run.
  Other log lines are left out.
- Exceptions the model does not raise: an exception other than a Key Vault error from a first-page
  fetch, failures of the vault or application listings themselves, null `DisplayName`, `Owners` or
  credential collections, and `AddDays` beyond the `DateTime` range.
- Culture-dependent date formatting, base64 and UTF-16 decoding are function fields of
  `Text.Formats`, left uninterpreted.
- Text.IgnoreCaseIsUpperEquality: case folding covers ASCII letters only. Ordinal ignore-case
  comparison and `RegexOptions.IgnoreCase` fold more of Unicode.
- `Text.IsWhiteSpace` covers U+0009 to U+000D and the space. The other Unicode white space that
  `Trim` removes is left out. `AppendLine` writes "\n".
- ServicePrincipalCheckFunctions.Run: a single clock `now` stands for `DateTime.Now` in the window
  and `DateTime.UtcNow` in the marker. Both name the same instant, so only the time between the reads
  and a daylight-saving shift across `AddDays` on local time are not modelled.
- KeyVault.ScanVaults: a single clock `now` stands for every `DateTime.UtcNow` read.
- `KeyVaultWarning.ExpiringKeys` is never set or rendered by either vault scan, so it has no field
  in `KeyVault.Warning`.
- The fan-out's service array is never written after construction. It is a `seq` of channel
  objects whose logs the broadcast updates.
- `Functions/KeyVaultExpiry.cs` and `Functions/AppRegistrationExpiry.cs` are superseded copies
  whose `Matches` throws, and they are not part of this model. Neither are `Startup.cs`, the
  pagination adapters, or `Constants.cs`, which only supplies a default the modelled code does not use.
