/** post_mpv_log: engine log messages become host log posts. */
module MpvLog {
  import opened MpvValues

  // The engine's numeric log levels (mpv_log_level).
  const LOG_LEVEL_NONE: int := 0
  const LOG_LEVEL_FATAL: int := 10
  const LOG_LEVEL_ERROR: int := 20
  const LOG_LEVEL_WARN: int := 30
  const LOG_LEVEL_INFO: int := 40
  const LOG_LEVEL_V: int := 50
  const LOG_LEVEL_DEBUG: int := 60
  const LOG_LEVEL_TRACE: int := 70

  /** The engine levels the object knows by name, most severe first. */
  const KnownLevels: seq<int> :=
    [LOG_LEVEL_FATAL, LOG_LEVEL_ERROR, LOG_LEVEL_WARN, LOG_LEVEL_INFO, LOG_LEVEL_V, LOG_LEVEL_DEBUG]

  /** The host level an engine level is posted at: 0 (fatal) to 3 (verbose)
      for the known levels, 41 for every other level. */
  function HostLevel(logLevel: int): (level: int)
    ensures level in {0, 1, 2, 3, 41}
    ensures level == 41 <==> logLevel !in KnownLevels
    ensures level <= 1 <==> logLevel in {LOG_LEVEL_FATAL, LOG_LEVEL_ERROR}
    ensures logLevel == LOG_LEVEL_FATAL ==> level == 0
    ensures logLevel == LOG_LEVEL_ERROR ==> level == 1
    ensures logLevel in {LOG_LEVEL_WARN, LOG_LEVEL_INFO} ==> level == 2
    ensures logLevel in {LOG_LEVEL_V, LOG_LEVEL_DEBUG} ==> level == 3
  {
    if logLevel == LOG_LEVEL_FATAL then 0
    else if logLevel == LOG_LEVEL_ERROR then 1
    else if logLevel == LOG_LEVEL_WARN || logLevel == LOG_LEVEL_INFO then 2
    else if logLevel == LOG_LEVEL_V || logLevel == LOG_LEVEL_DEBUG then 3
    else 41
  }

  /** The more severe of two known engine levels never gets a higher host level. */
  lemma HostLevelMonotone(i: nat, j: nat)
    requires i <= j < |KnownLevels|
    ensures HostLevel(KnownLevels[i]) <= HostLevel(KnownLevels[j])
  {
  }

  /** The posts one log message produces: the guard against level -1 never
      fails, so every message is posted exactly once. */
  function PostLog(msg: LogMessage): (posts: seq<Effect>)
    ensures |posts| == 1
    ensures posts[0].LogPost? && posts[0].level == HostLevel(msg.logLevel)
    ensures posts[0].prefix == msg.prefix && posts[0].levelName == msg.level && posts[0].text == msg.text
  {
    var level := HostLevel(msg.logLevel);
    if level != -1 then [LogPost(level, msg.prefix, msg.level, msg.text)] else []
  }
}
