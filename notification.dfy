/**
 * `AggregatedNotificationService`: the notification strategy both checkers
 * of the logic library write to. It is built over the registered
 * notification services, refuses to exist when there are none or none is
 * active, and broadcasts a text by logging it (unless the logger is
 * switched off in configuration) and handing it to every active service.
 */
module Notification {
  import opened Wrappers
  import opened Errors
  import opened Text
  import Configuration

  const LoggerDisableKey: string := "Notificaton_Logger_Disable"

  /** An `INotificationService`: whether it is active, and the texts it has been asked to send. */
  class NotificationChannel {
    const isActive: bool
    var received: seq<string>

    constructor(isActive: bool)
      ensures this.isActive == isActive && received == []
    {
      this.isActive := isActive;
      received := [];
    }

    method SendNotification(text: string)
      modifies this
      ensures received == old(received) + [text]
    {
      received := received + [text];
    }
  }

  /** `n` copies of `text`: what a service listed `n` times receives from one broadcast. */
  function Repeat(text: string, n: nat): (r: seq<string>)
    ensures |r| == n && forall i :: 0 <= i < n ==> r[i] == text
  {
    if n == 0 then [] else Repeat(text, n - 1) + [text]
  }

  /** How many times `c` occurs in `services`. */
  function Occurrences(services: seq<NotificationChannel>, c: NotificationChannel): nat
  {
    if services == [] then 0
    else Occurrences(services[..|services| - 1], c) + (if services[|services| - 1] == c then 1 else 0)
  }

  /** The count is the channel's multiplicity in the list. */
  lemma {:induction false} OccurrencesIsMultiplicity(services: seq<NotificationChannel>, c: NotificationChannel)
    ensures Occurrences(services, c) == multiset(services)[c]
  {
    if services != [] {
      var init := services[..|services| - 1];
      OccurrencesIsMultiplicity(init, c);
      assert services == init + [services[|services| - 1]];
    }
  }

  lemma OccurrencesStep(services: seq<NotificationChannel>, i: nat)
    requires i < |services|
    ensures forall c :: Occurrences(services[..i + 1], c) == Occurrences(services[..i], c) + (if services[i] == c then 1 else 0)
  {
    assert services[..i + 1][..i] == services[..i];
  }

  /** `!"true".Equals(configuration["Notificaton_Logger_Disable"], StringComparison.OrdinalIgnoreCase)`. */
  predicate LoggerEnabled(configuration: Configuration.Configuration)
  {
    match configuration.Get(LoggerDisableKey)
    case None => true
    case Some(v) => !StringEquals("true", v, true)
  }

  predicate AnyActive(services: seq<NotificationChannel>)
  {
    exists i :: 0 <= i < |services| && services[i].isActive
  }

  class AggregatedNotificationService {
    const notificationServices: seq<NotificationChannel>
    const configuration: Configuration.Configuration
    /** The texts written to the log, in order. */
    var logged: seq<string>

    /** What the constructor establishes: at least one service, and at least one of them active. */
    ghost predicate Valid()
    {
      |notificationServices| > 0 && AnyActive(notificationServices)
    }

    constructor(notificationServices: seq<NotificationChannel>, configuration: Configuration.Configuration)
      requires |notificationServices| > 0 && AnyActive(notificationServices)
      ensures Valid()
      ensures this.notificationServices == notificationServices && this.configuration == configuration && logged == []
    {
      this.notificationServices := notificationServices;
      this.configuration := configuration;
      logged := [];
    }

    /** The constructor's checks, with the exceptions it throws. */
    static method Create(notificationServices: seq<NotificationChannel>, configuration: Configuration.Configuration)
      returns (r: Result<AggregatedNotificationService, Exception>)
      ensures |notificationServices| == 0 ==> r.Failure? && r.error.InvalidOperation?
      ensures |notificationServices| > 0 && !AnyActive(notificationServices) ==> r.Failure? && r.error.NotSupported?
      ensures |notificationServices| > 0 && AnyActive(notificationServices) ==>
        && r.Success? && fresh(r.value) && r.value.Valid()
        && r.value.notificationServices == notificationServices && r.value.logged == []
    {
      if |notificationServices| == 0 {
        return Failure(InvalidOperation("At least one INotificationService must be configured for the function to run as intended but none where."));
      }
      var i := 0;
      while i < |notificationServices| && !notificationServices[i].isActive
        invariant 0 <= i <= |notificationServices|
        invariant forall j :: 0 <= j < i ==> !notificationServices[j].isActive
      {
        i := i + 1;
      }
      if i == |notificationServices| {
        return Failure(NotSupported("All notification targets are disabled!"));
      }
      var service := new AggregatedNotificationService(notificationServices, configuration);
      return Success(service);
    }

    /**
     * Logs `text` unless the logger is disabled, then hands it to every
     * active service, once per time it is listed; inactive services get
     * nothing.
     */
    method BroadcastNotification(text: string)
      requires Valid()
      modifies this, notificationServices
      ensures Valid()
      ensures logged == old(logged) + (if LoggerEnabled(configuration) then [text] else [])
      ensures forall c :: c in notificationServices ==>
        c.received == old(c.received) + (if c.isActive then Repeat(text, multiset(notificationServices)[c]) else [])
    {
      if LoggerEnabled(configuration) {
        logged := logged + [text];
      }
      for i := 0 to |notificationServices|
        invariant logged == old(logged) + (if LoggerEnabled(configuration) then [text] else [])
        invariant forall c :: c in notificationServices ==>
          c.received == old(c.received) + (if c.isActive then Repeat(text, Occurrences(notificationServices[..i], c)) else [])
      {
        var service := notificationServices[i];
        OccurrencesStep(notificationServices, i);
        if service.isActive {
          service.SendNotification(text);
        }
      }
      assert notificationServices[..|notificationServices|] == notificationServices;
      forall c | c in notificationServices
        ensures Occurrences(notificationServices, c) == multiset(notificationServices)[c]
      {
        OccurrencesIsMultiplicity(notificationServices, c);
      }
    }
  }

  /** Any spelling of "true" switches the logger off; any other value, or none, leaves it on. */
  lemma LoggerSwitch(configuration: Configuration.Configuration)
    ensures configuration.Get(LoggerDisableKey) == Some("TRUE") ==> !LoggerEnabled(configuration)
    ensures configuration.Get(LoggerDisableKey) == Some("True") ==> !LoggerEnabled(configuration)
    ensures configuration.Get(LoggerDisableKey) == Some("yes") ==> LoggerEnabled(configuration)
    ensures configuration.Get(LoggerDisableKey) == Some(" true") ==> LoggerEnabled(configuration)
    ensures LoggerEnabled(configuration) <==>
      configuration.Get(LoggerDisableKey).None? || ToUpperString(configuration.Get(LoggerDisableKey).value) != "TRUE"
  {
    if configuration.Get(LoggerDisableKey).Some? {
      IgnoreCaseIsUpperEquality("true", configuration.Get(LoggerDisableKey).value);
      assert ToUpperString("true") == "TRUE";
    }
  }
}
