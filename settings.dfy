/** DeviceSettings: the configured timeouts and retry policy, and the three properties that
    convert them to milliseconds with C#'s unchecked Int32 arithmetic. */
module Settings {
  import opened Text

  datatype DeviceSettings = DeviceSettings(
    connectionTimeoutMinutes: Int32,
    connectionTimeoutSeconds: Int32,
    retryAttempts: Int32,
    retryDelaySeconds: Int32)
  {
    /** ConnectionTimeoutMinutes * 60 * 1000, evaluated left to right. */
    function TotalTimeoutMilliseconds(): (ms: Int32)
      ensures ms == Wrap32(connectionTimeoutMinutes * 60000)
    {
      WrapMul(connectionTimeoutMinutes * 60, 1000);
      Wrap32(Wrap32(connectionTimeoutMinutes * 60) * 1000)
    }

    /** ConnectionTimeoutSeconds * 1000. */
    function OperationTimeoutMilliseconds(): (ms: Int32) {
      Wrap32(connectionTimeoutSeconds * 1000)
    }

    /** RetryDelaySeconds * 1000. */
    function RetryDelayMilliseconds(): (ms: Int32) {
      Wrap32(retryDelaySeconds * 1000)
    }
  }

  /** The values a DeviceSettings object starts with. */
  const Defaults: DeviceSettings := DeviceSettings(5, 30, 3, 5)

  /** Without overflow each conversion is the exact product; with it, the wrapped one. */
  lemma ConversionsExact(s: DeviceSettings)
    ensures IsInt32(s.connectionTimeoutMinutes * 60000) ==>
      s.TotalTimeoutMilliseconds() == s.connectionTimeoutMinutes * 60000
    ensures IsInt32(s.connectionTimeoutSeconds * 1000) ==>
      s.OperationTimeoutMilliseconds() == s.connectionTimeoutSeconds * 1000
    ensures IsInt32(s.retryDelaySeconds * 1000) ==>
      s.RetryDelayMilliseconds() == s.retryDelaySeconds * 1000
    ensures -35791 <= s.connectionTimeoutMinutes <= 35791 ==>
      s.TotalTimeoutMilliseconds() == s.connectionTimeoutMinutes * 60000
  {
  }

  /** The defaults: five minutes, thirty seconds, three attempts, five seconds. */
  lemma DefaultValues()
    ensures Defaults.connectionTimeoutMinutes == 5 && Defaults.connectionTimeoutSeconds == 30
    ensures Defaults.retryAttempts == 3 && Defaults.retryDelaySeconds == 5
    ensures Defaults.TotalTimeoutMilliseconds() == 300000
    ensures Defaults.OperationTimeoutMilliseconds() == 30000
    ensures Defaults.RetryDelayMilliseconds() == 5000
  {
  }

  /** A timeout of 35792 minutes or more no longer fits: the product wraps, here to a negative value. */
  lemma TotalTimeoutWraps()
    ensures DeviceSettings(35792, 30, 3, 5).TotalTimeoutMilliseconds() == 35792 * 60000 - 0x1_0000_0000
    ensures DeviceSettings(35792, 30, 3, 5).TotalTimeoutMilliseconds() < -1
  {
  }
}
