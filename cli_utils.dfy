/**
 * The command-line tool's two small helpers: reading a `start-end` range
 * argument and describing how long ago a Unix timestamp was. The current time
 * is a parameter.
 */
module CliUtils {
  import opened Wrappers
  import opened Text

  /**
   * `parse_range`: exactly two `-`-separated parts, each a `u64`, the first
   * not above the second. `rangeType` names the range in the error texts.
   */
  function ParseRange(rangeStr: string, rangeType: string): (r: Result<(nat, nat), string>)
    ensures var parts := Split(rangeStr, '-');
      r.Ok? <==> |parts| == 2 && ParseU64(parts[0]).Some? && ParseU64(parts[1]).Some?
                 && ParseU64(parts[0]).value <= ParseU64(parts[1]).value
    ensures r.Ok? ==> var parts := Split(rangeStr, '-');
      Some(r.value.0) == ParseU64(parts[0]) && Some(r.value.1) == ParseU64(parts[1])
    ensures r.Ok? ==> r.value.0 <= r.value.1 <= U64_MAX
    ensures |Split(rangeStr, '-')| != 2 ==>
      r == Err("Invalid " + rangeType + " range format. Expected 'start-end', got '" + rangeStr + "'")
    ensures var parts := Split(rangeStr, '-');
      |parts| == 2 && ParseU64(parts[0]).None? ==> r == Err("Invalid start " + rangeType + ": '" + parts[0] + "'")
    ensures var parts := Split(rangeStr, '-');
      |parts| == 2 && ParseU64(parts[0]).Some? && ParseU64(parts[1]).None? ==>
      r == Err("Invalid end " + rangeType + ": '" + parts[1] + "'")
  {
    var parts := Split(rangeStr, '-');
    if |parts| != 2 then
      Err("Invalid " + rangeType + " range format. Expected 'start-end', got '" + rangeStr + "'")
    else
      match ParseU64(parts[0])
      case None => Err("Invalid start " + rangeType + ": '" + parts[0] + "'")
      case Some(start) =>
        match ParseU64(parts[1])
        case None => Err("Invalid end " + rangeType + ": '" + parts[1] + "'")
        case Some(end) =>
          if start > end then
            Err("Start " + rangeType + " (" + NatToString(start) + ") cannot be greater than end "
                + rangeType + " (" + NatToString(end) + ")")
          else Ok((start, end))
  }

  lemma NoDashInNumber(n: nat)
    ensures '-' !in NatToString(n)
  {
    var a := NatToString(n);
    forall i | 0 <= i < |a| ensures a[i] != '-' {
      assert IsDigit(a[i]);
    }
  }

  /** `start-end` written out splits at its one `-` into the two numbers, which read back. */
  lemma RangeTextParts(start: nat, end: nat)
    requires start <= U64_MAX && end <= U64_MAX
    ensures Split(NatToString(start) + "-" + NatToString(end), '-') == [NatToString(start), NatToString(end)]
    ensures ParseU64(NatToString(start)) == Some(start) && ParseU64(NatToString(end)) == Some(end)
  {
    var a := NatToString(start);
    var b := NatToString(end);
    NoDashInNumber(start);
    NoDashInNumber(end);
    SplitAtFirst(a, '-', b);
    assert a + "-" + b == a + ['-'] + b;
    assert IndexOf(b, '-').None?;
    ParseNatToString(start, U64_MAX);
    ParseNatToString(end, U64_MAX);
  }

  /** Writing a range as `start-end` and reading it back gives the range. */
  lemma ParseRangeRoundTrip(start: nat, end: nat, rangeType: string)
    requires start <= end <= U64_MAX
    ensures ParseRange(NatToString(start) + "-" + NatToString(end), rangeType) == Ok((start, end))
  {
    RangeTextParts(start, end);
  }

  /** A range written backwards is refused with the message naming both ends. */
  lemma ParseRangeReversed(start: nat, end: nat, rangeType: string)
    requires end < start <= U64_MAX
    ensures ParseRange(NatToString(start) + "-" + NatToString(end), rangeType)
         == Err("Start " + rangeType + " (" + NatToString(start) + ") cannot be greater than end "
                + rangeType + " (" + NatToString(end) + ")")
  {
    RangeTextParts(start, end);
  }

  /** A time unit: its length in seconds and its plural name. */
  datatype Unit = Seconds | Minutes | Hours | Days

  function UnitSeconds(u: Unit): nat {
    match u
    case Seconds => 1
    case Minutes => 60
    case Hours => 3600
    case Days => 86400
  }

  function UnitName(u: Unit): string {
    match u
    case Seconds => "seconds"
    case Minutes => "minutes"
    case Hours => "hours"
    case Days => "days"
  }

  /** The unit `format_timestamp` picks for an elapsed time, and how many whole units it shows. */
  function Elapsed(ago: nat): (e: (nat, Unit)) {
    if ago < 60 then (ago, Seconds)
    else if ago < 3600 then (ago / 60, Minutes)
    else if ago < 86400 then (ago / 3600, Hours)
    else (ago / 86400, Days)
  }

  /**
   * The shown count is the whole number of the chosen unit in the elapsed
   * time, and the unit is the largest one that elapsed at least once: fewer
   * than 60 seconds, 60 minutes or 24 hours are shown in the smaller unit.
   */
  lemma ElapsedBounds(ago: nat)
    ensures var (n, u) := Elapsed(ago);
      n * UnitSeconds(u) <= ago < (n + 1) * UnitSeconds(u)
      && (u != Days ==> n < (if u == Hours then 24 else 60))
      && (u != Seconds ==> n >= 1)
  {
  }

  /** `format_timestamp` at time `now`. */
  function FormatTimestamp(timestamp: nat, now: nat): (r: string)
    ensures timestamp > now ==> r == NatToString(timestamp) + " (future timestamp)"
    ensures timestamp <= now ==>
      r == NatToString(Elapsed(now - timestamp).0) + " " + UnitName(Elapsed(now - timestamp).1) + " ago"
  {
    if timestamp <= now then
      var (n, u) := Elapsed(now - timestamp);
      NatToString(n) + " " + UnitName(u) + " ago"
    else NatToString(timestamp) + " (future timestamp)"
  }
}
