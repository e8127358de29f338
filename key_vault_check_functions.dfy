/**
 * `KeyVaultCheckFunctions.Run`: the timer-triggered vault scan of the
 * function app. Its settings come from configuration: a comma-separated
 * list of vault names to ignore and the two thresholds, parsed with
 * `int.Parse` and defaulting to 30 days. Messages go to Slack, and the
 * digest of access errors is sent at the end even when it is empty.
 */
module KeyVaultCheckFunctions {
  import opened Wrappers
  import opened Errors
  import opened Text
  import opened KeyVault
  import Configuration

  const IgnoredKeyVaultsKey: string := "IGNORED_KEYVAULTS"
  const CertificateThresholdKey: string := "CERTIFICATE_WARNING_THRESHOLD"
  const SecretThresholdKey: string := "SECRET_WARNING_THRESHOLD"

  /** The trimmed names of `IGNORED_KEYVAULTS`. */
  function IgnoreFilter(config: Configuration.Configuration): seq<string>
  {
    Configuration.NameList(config, IgnoredKeyVaultsKey)
  }

  /** `ignoreFilter.Contains(vault.Name)`: exact, case-sensitive membership. */
  function SkipListed(ignoreFilter: seq<string>): string -> bool
  {
    name => name in ignoreFilter
  }

  function RunSettings(config: Configuration.Configuration, certificateDays: int, secretDays: int, now: int, fmt: Formats): Settings
  {
    Settings(SkipListed(IgnoreFilter(config)), now, certificateDays, secretDays, fmt)
  }

  /**
   * The run. `resolution` is the outcome of looking up the tenant and the
   * subscription, `vaults` the subscription's vaults in listing order and
   * `sent` the Slack messages, in order.
   */
  method Run(config: Configuration.Configuration, vaults: seq<Vault>, resolution: Option<Exception>, now: int, fmt: Formats)
    returns (sent: seq<string>, failure: Option<Exception>)
    ensures Configuration.Threshold(config, CertificateThresholdKey).Failure? ==>
      sent == [] && failure == Some(Configuration.Threshold(config, CertificateThresholdKey).error)
    ensures Configuration.Threshold(config, CertificateThresholdKey).Success? && Configuration.Threshold(config, SecretThresholdKey).Failure? ==>
      sent == [] && failure == Some(Configuration.Threshold(config, SecretThresholdKey).error)
    ensures (Configuration.Threshold(config, CertificateThresholdKey).Success? && Configuration.Threshold(config, SecretThresholdKey).Success?
             && resolution.Some?) ==> sent == [] && failure == resolution
    ensures (Configuration.Threshold(config, CertificateThresholdKey).Success? && Configuration.Threshold(config, SecretThresholdKey).Success?
             && resolution.None?) ==>
      var r := Scan(vaults, RunSettings(config, Configuration.Threshold(config, CertificateThresholdKey).value,
                                        Configuration.Threshold(config, SecretThresholdKey).value, now, fmt));
      && failure == r.failure
      && sent == r.sent + (if r.failure.None? then [Join(r.errors, "\n")] else [])
  {
    var certificateThreshold := Configuration.Threshold(config, CertificateThresholdKey);
    if certificateThreshold.Failure? {
      return [], Some(certificateThreshold.error);
    }
    var secretThreshold := Configuration.Threshold(config, SecretThresholdKey);
    if secretThreshold.Failure? {
      return [], Some(secretThreshold.error);
    }
    if resolution.Some? {
      return [], resolution;
    }
    var errors;
    var settings := RunSettings(config, certificateThreshold.value, secretThreshold.value, now, fmt);
    sent, errors, failure := ScanVaults(vaults, settings);
    if failure.None? {
      sent := sent + [Join(errors, "\n")];
    }
  }

  /** Without the setting the list is one empty name: no real vault is ignored. */
  lemma NoIgnoreSettingIgnoresNothing(config: Configuration.Configuration, name: string)
    requires config.Get(IgnoredKeyVaultsKey).None?
    ensures SkipListed(IgnoreFilter(config))(name) <==> name == ""
  {
    Configuration.NameListUnset(config, IgnoredKeyVaultsKey);
  }

  /** An ignored vault contributes nothing, neither a message nor an access error. */
  lemma IgnoredVaultIsSkipped(config: Configuration.Configuration, vaults: seq<Vault>, k: nat,
                              certificateDays: int, secretDays: int, now: int, fmt: Formats)
    requires k < |vaults| && vaults[k].name in IgnoreFilter(config)
    ensures var s := RunSettings(config, certificateDays, secretDays, now, fmt);
      Scan(vaults, s) == Scan(vaults[..k] + vaults[k + 1..], s)
  {
    SkippedVaultChangesNothing(vaults, k, RunSettings(config, certificateDays, secretDays, now, fmt));
  }
}
