/**
 * `KeyVaultExpiryChecker.CheckAsync`: the vault scan of the notification
 * pipeline. A vault whose name the filter matches (case-sensitively, with
 * `*` wildcards) is skipped; each vault with due entries gets one message
 * through the notification strategy, and the access errors, if any, are
 * broadcast together at the end.
 */
module KeyVaultExpiryChecker {
  import opened Wrappers
  import opened Errors
  import opened Text
  import opened KeyVault
  import WhitelistHelper

  /** `if (Matches(vault.Name, keyVaultFilter)) continue;` */
  function SkipMatching(keyVaultFilter: seq<string>): string -> bool
  {
    name => WhitelistHelper.Matches(name, keyVaultFilter, false)
  }

  function RunSettings(keyVaultFilter: seq<string>, certificateDays: int, secretDays: int, now: int, fmt: Formats): Settings
  {
    Settings(SkipMatching(keyVaultFilter), now, certificateDays, secretDays, fmt)
  }

  /**
   * The run. `resolution` is the outcome of looking up the tenant and the
   * subscription before the scan (a failure there ends the run before any
   * vault is read); `vaults` are the subscription's vaults in listing order;
   * `sent` are the texts broadcast, in order.
   */
  method CheckAsync(vaults: seq<Vault>, keyVaultFilter: seq<string>, certificateExpiryWarningInDays: int,
                    secretExpiryWarningInDays: int, resolution: Option<Exception>, now: int, fmt: Formats)
    returns (sent: seq<string>, failure: Option<Exception>)
    ensures resolution.Some? ==> sent == [] && failure == resolution
    ensures resolution.None? ==>
      var r := Scan(vaults, RunSettings(keyVaultFilter, certificateExpiryWarningInDays, secretExpiryWarningInDays, now, fmt));
      && failure == r.failure
      && sent == r.sent + (if r.failure.None? && r.errors != [] then [Join(r.errors, "\n")] else [])
  {
    if resolution.Some? {
      return [], resolution;
    }
    var errors;
    sent, errors, failure := ScanVaults(vaults, RunSettings(keyVaultFilter, certificateExpiryWarningInDays, secretExpiryWarningInDays, now, fmt));
    if failure.None? && |errors| > 0 {
      sent := sent + [Join(errors, "\n")];
    }
  }

  /**
   * The filter lists vaults to leave out: a vault it matches contributes
   * nothing, neither a message nor an access error.
   */
  lemma MatchingVaultIsSkipped(vaults: seq<Vault>, k: nat, keyVaultFilter: seq<string>, certificateDays: int,
                               secretDays: int, now: int, fmt: Formats)
    requires k < |vaults| && WhitelistHelper.Matches(vaults[k].name, keyVaultFilter, false)
    ensures var s := RunSettings(keyVaultFilter, certificateDays, secretDays, now, fmt);
      Scan(vaults, s) == Scan(vaults[..k] + vaults[k + 1..], s)
  {
    SkippedVaultChangesNothing(vaults, k, RunSettings(keyVaultFilter, certificateDays, secretDays, now, fmt));
  }

  /** A vault named literally in the filter is never reported on, whatever it holds. */
  lemma ListedVaultIsNeverReported(v: Vault, keyVaultFilter: seq<string>, certificateDays: int,
                                   secretDays: int, now: int, fmt: Formats)
    requires v.name in keyVaultFilter && WhitelistHelper.Wildcard !in v.name
    ensures Scan([v], RunSettings(keyVaultFilter, certificateDays, secretDays, now, fmt)) == Start
  {
    var i :| 0 <= i < |keyVaultFilter| && keyVaultFilter[i] == v.name;
    assert WhitelistHelper.EntryMatches(v.name, keyVaultFilter[i], false);
    var s := RunSettings(keyVaultFilter, certificateDays, secretDays, now, fmt);
    assert s.skip(v.name);
    assert [v][..0] == [];
    assert ScanFrom(Start, [], s) == Start;
    assert ScanFrom(Start, [v], s) == Step(ScanFrom(Start, [], s), v, s);
  }

  /**
   * With no filter every vault is read: one message per vault with due
   * entries, then at most one digest of the access errors.
   */
  lemma {:induction false} EmptyFilterReadsEveryVault(vaults: seq<Vault>, certificateDays: int, secretDays: int, now: int, fmt: Formats)
    ensures var s := RunSettings([], certificateDays, secretDays, now, fmt);
      forall v :: v in vaults ==> !s.skip(v.name)
    ensures |Scan(vaults, RunSettings([], certificateDays, secretDays, now, fmt)).sent| <= |vaults|
  {
    AtMostOneMessagePerVault(Start, vaults, RunSettings([], certificateDays, secretDays, now, fmt));
  }
}
