/**
 * Microsoft Graph application registrations as both app-registration scans
 * see them, and the credential lines both scans write about them.
 */
module Graph {
  import opened Wrappers
  import opened Errors
  import opened Text

  /** Instants are whole seconds; `AddDays(d)` moves by `d` days of 86400 seconds. */
  const SecondsPerDay: int := 86400

  function AddDays(t: int, days: int): int
  {
    t + days * SecondsPerDay
  }

  /** A `PasswordCredential` (secret) or a `KeyCredential` (certificate): the fields the scans read. */
  datatype Credential = Credential(
    customKeyIdentifier: Option<Bytes>,
    startDateTime: Option<int>,
    endDateTime: Option<int>)

  /** An owner of an application: a service principal, or any other directory object. */
  datatype DirectoryObject = ServicePrincipal(appId: string) | OtherDirectoryObject

  datatype Application = Application(
    displayName: string,
    passwordCredentials: seq<Credential>,
    keyCredentials: seq<Credential>,
    owners: seq<DirectoryObject>)

  const ExpiredMarker: string := "⚠️ EXPIRED ⚠️"

  function LinePrefix(kind: string): string
  {
    "\t• " + kind + ": "
  }

  /** One bullet line (without its line break) about a flagged credential. */
  function CredentialLine(kind: string, expired: bool, description: string, c: Credential, fmt: Formats): string
  {
    LinePrefix(kind) + (if expired then ExpiredMarker else "") + " " + description
      + " - Created: " + OptionalTime(fmt.general, c.startDateTime)
      + "\t Expires: " + OptionalTime(fmt.general, c.endDateTime)
  }

  /** The character right after the prefix is the marker's first glyph exactly when the credential is expired. */
  lemma MarkerSlot(kind: string, expired: bool, description: string, c: Credential, fmt: Formats)
    ensures var line := CredentialLine(kind, expired, description, c, fmt);
      |line| > |LinePrefix(kind)| && (line[|LinePrefix(kind)|] == ExpiredMarker[0] <==> expired)
  {
    var prefix := LinePrefix(kind);
    var head := prefix + (if expired then ExpiredMarker else "") + " ";
    assert head[|prefix|] == (if expired then ExpiredMarker[0] else ' ');
    assert ExpiredMarker[0] != ' ';
    var line := head + description;
    assert line[|prefix|] == head[|prefix|];
    line := line + " - Created: ";
    assert line[|prefix|] == head[|prefix|];
    line := line + OptionalTime(fmt.general, c.startDateTime);
    assert line[|prefix|] == head[|prefix|];
    line := line + "\t Expires: ";
    assert line[|prefix|] == head[|prefix|];
    line := line + OptionalTime(fmt.general, c.endDateTime);
    assert line == CredentialLine(kind, expired, description, c, fmt);
  }

  /** `Convert.ToBase64String(CustomKeyIdentifier)`, which throws on a null identifier. */
  function CertificateDescription(c: Credential, fmt: Formats): (r: Result<string, Exception>)
    ensures r.Failure? <==> c.customKeyIdentifier.None?
    ensures r.Failure? ==> r.error.ArgumentNull?
  {
    if c.customKeyIdentifier.Some? then Success(fmt.base64(c.customKeyIdentifier.value))
    else Failure(ArgumentNull("inArray"))
  }

  /** The UTF-16 text of CustomKeyIdentifier, or "No description" when it is null. */
  function SecretDescription(c: Credential, fmt: Formats): string
  {
    if c.customKeyIdentifier.Some? then fmt.utf16(c.customKeyIdentifier.value) else "No description"
  }

  /** The certificate lines of a warning, in order; the first certificate without identifier throws. */
  function CertificateLines(certs: seq<Credential>, expired: Credential -> bool, fmt: Formats): Result<seq<string>, Exception>
  {
    if certs == [] then Success([])
    else
      var last := certs[|certs| - 1];
      match CertificateLines(certs[..|certs| - 1], expired, fmt)
      case Failure(e) => Failure(e)
      case Success(ls) =>
        match CertificateDescription(last, fmt)
        case Failure(e) => Failure(e)
        case Success(d) => Success(ls + [CredentialLine("Certificate", expired(last), d, last, fmt)])
  }

  /** The secret lines of a warning, in order. */
  function SecretLines(secrets: seq<Credential>, expired: Credential -> bool, fmt: Formats): seq<string>
  {
    if secrets == [] then []
    else
      var last := secrets[|secrets| - 1];
      SecretLines(secrets[..|secrets| - 1], expired, fmt)
        + [CredentialLine("Secret", expired(last), SecretDescription(last, fmt), last, fmt)]
  }

  /** Rendering certificates fails exactly when one lacks an identifier, and otherwise gives one line per certificate. */
  lemma {:induction false} CertificateLinesShape(certs: seq<Credential>, expired: Credential -> bool, fmt: Formats)
    ensures CertificateLines(certs, expired, fmt).Failure? <==>
      exists i :: 0 <= i < |certs| && certs[i].customKeyIdentifier.None?
    ensures CertificateLines(certs, expired, fmt).Failure? ==>
      CertificateLines(certs, expired, fmt).error.ArgumentNull?
    ensures CertificateLines(certs, expired, fmt).Success? ==>
      var ls := CertificateLines(certs, expired, fmt).value;
      |ls| == |certs| &&
      forall i :: 0 <= i < |certs| ==>
        ls[i] == CredentialLine("Certificate", expired(certs[i]), fmt.base64(certs[i].customKeyIdentifier.value), certs[i], fmt)
  {
    if certs != [] {
      var init := certs[..|certs| - 1];
      CertificateLinesShape(init, expired, fmt);
      assert forall i :: 0 <= i < |init| ==> init[i] == certs[i];
    }
  }

  lemma {:induction false} SecretLinesShape(secrets: seq<Credential>, expired: Credential -> bool, fmt: Formats)
    ensures var ls := SecretLines(secrets, expired, fmt);
      |ls| == |secrets| &&
      forall i :: 0 <= i < |secrets| ==>
        ls[i] == CredentialLine("Secret", expired(secrets[i]), SecretDescription(secrets[i], fmt), secrets[i], fmt)
  {
    if secrets != [] {
      var init := secrets[..|secrets| - 1];
      SecretLinesShape(init, expired, fmt);
      assert forall i :: 0 <= i < |init| ==> init[i] == secrets[i];
    }
  }

  /** The `foreach` over flagged certificates, appending one line each. */
  method RenderCertificates(certs: seq<Credential>, expired: Credential -> bool, fmt: Formats)
    returns (lines: seq<string>, failure: Option<Exception>)
    ensures match CertificateLines(certs, expired, fmt)
      case Success(ls) => failure.None? && lines == ls
      case Failure(e) => failure == Some(e)
  {
    lines := [];
    var i := 0;
    while i < |certs|
      invariant 0 <= i <= |certs|
      invariant CertificateLines(certs[..i], expired, fmt) == Success(lines)
    {
      assert certs[..i + 1][..i] == certs[..i];
      var description := CertificateDescription(certs[i], fmt);
      if description.Failure? {
        CertificateLinesFailurePersists(certs, i + 1, expired, fmt);
        return lines, Some(description.error);
      }
      lines := lines + [CredentialLine("Certificate", expired(certs[i]), description.value, certs[i], fmt)];
      i := i + 1;
    }
    assert certs[..i] == certs;
    failure := None;
  }

  /** Once rendering a prefix has thrown, rendering the whole list throws the same exception. */
  lemma {:induction false} CertificateLinesFailurePersists(certs: seq<Credential>, n: nat, expired: Credential -> bool, fmt: Formats)
    requires n <= |certs| && CertificateLines(certs[..n], expired, fmt).Failure?
    ensures CertificateLines(certs, expired, fmt) == CertificateLines(certs[..n], expired, fmt)
    decreases |certs| - n
  {
    if n < |certs| {
      assert certs[..n + 1][..n] == certs[..n];
      CertificateLinesFailurePersists(certs, n + 1, expired, fmt);
    } else {
      assert certs[..n] == certs;
    }
  }

  /** The `foreach` over flagged secrets, appending one line each. */
  method RenderSecrets(secrets: seq<Credential>, expired: Credential -> bool, fmt: Formats)
    returns (lines: seq<string>)
    ensures lines == SecretLines(secrets, expired, fmt)
  {
    lines := [];
    var i := 0;
    while i < |secrets|
      invariant 0 <= i <= |secrets|
      invariant lines == SecretLines(secrets[..i], expired, fmt)
    {
      assert secrets[..i + 1][..i] == secrets[..i];
      lines := lines + [CredentialLine("Secret", expired(secrets[i]), SecretDescription(secrets[i], fmt), secrets[i], fmt)];
      i := i + 1;
    }
    assert secrets[..i] == secrets;
  }
}
