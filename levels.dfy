/**
 The appender's severity mapping: log4php level codes (the integers returned by
 `LoggerLevel::toInt()`) to the numeric severities of section 6.2.1 of RFC 5424.
 */
module Levels {

  // log4php's level codes (LoggerLevel.php is not part of this model).
  const OFF: int := 2147483647
  const FATAL: int := 50000
  const ERROR: int := 40000
  const WARN: int := 30000
  const INFO: int := 20000
  const DEBUG: int := 10000
  const TRACE: int := 5000
  const ALL: int := -2147483647

  /** The five levels the mapping names; every other code takes the fallback. */
  predicate IsNamed(level: int) {
    level == FATAL || level == ERROR || level == WARN || level == INFO || level == DEBUG
  }

  /** The severities of section 6.2.1 of RFC 5424, most severe first. */
  datatype Severity =
    | Emergency | Alert | Critical | Error | Warning | Notice | Informational | Debug

  /** The numeric code RFC 5424 gives each severity. */
  function Code(s: Severity): (c: int)
    ensures 0 <= c <= 7
  {
    match s
    case Emergency => 0
    case Alert => 1
    case Critical => 2
    case Error => 3
    case Warning => 4
    case Notice => 5
    case Informational => 6
    case Debug => 7
  }

  /** The severity the appender means for each log4php level, by name. */
  function SeverityOf(level: int): Severity {
    if level == FATAL then Critical
    else if level == ERROR then Error
    else if level == WARN then Warning
    else if level == INFO then Informational
    else if level == DEBUG then Debug
    else Alert
  }

  /**
   `mapLevel`: a total switch on the level code. Each named level has its own
   severity and no two share one; everything else falls back to Alert (1).
   Emergency (0) and Notice (5) are never produced.
   */
  function MapLevel(level: int): (r: int)
    ensures r == Code(SeverityOf(level))
    ensures r in {1, 2, 3, 4, 6, 7}
    ensures r == 2 <==> level == FATAL
    ensures r == 3 <==> level == ERROR
    ensures r == 4 <==> level == WARN
    ensures r == 6 <==> level == INFO
    ensures r == 7 <==> level == DEBUG
    ensures r == 1 <==> !IsNamed(level)
  {
    if level == FATAL then 2
    else if level == ERROR then 3
    else if level == WARN then 4
    else if level == INFO then 6
    else if level == DEBUG then 7
    else 1
  }

  /**
   Among the named levels the mapping reverses the order: a more severe
   log4php level (larger code) gets a more severe, that is smaller, syslog code.
   */
  lemma MapLevelMonotone(a: int, b: int)
    requires IsNamed(a) && IsNamed(b)
    ensures a <= b <==> MapLevel(a) >= MapLevel(b)
  {
  }

  /**
   The fallback is not ordered with the rest: every level outside the five
   named ones, TRACE (the least severe level of log4php), ALL and OFF among
   them, maps to Alert, which is more severe than what FATAL maps to.
   */
  lemma FallbackOutranksFatal(level: int)
    requires !IsNamed(level)
    ensures SeverityOf(level) == Alert
    ensures MapLevel(level) < MapLevel(FATAL)
  {
  }
}
