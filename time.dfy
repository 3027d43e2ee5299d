/** The `time` specifier (src/Specifier/Time.php): renders a number of
    seconds as a rounded duration with a label, either in the unit a modifier
    names or in the first unit of a fixed table that covers the value. */
module Time {
  import opened Php

  /** A row of the table: the largest value it covers, the key of its label,
      and the divisor that turns seconds into its unit (none for rows that
      print a bare label such as "1 min."). */
  datatype Row = Row(threshold: int, key: string, divisor: Option<int>)

  const TimeFormats: seq<Row> := [
    Row(0, "less_sec", None),
    Row(1, "sec", None),
    Row(59, "secs", Some(1)),
    Row(60, "min", None),
    Row(3599, "mins", Some(60)),
    Row(5400, "hr", None),
    Row(86399, "hrs", Some(3600)),
    Row(129600, "day", None),
    Row(604800, "days", Some(86400))
  ]

  /** The label keys setTimes demands, in the order it checks them. */
  const LabelKeys: seq<string> := ["less_sec", "sec", "secs", "min", "mins", "hr", "hrs", "day", "days"]

  /** The labels the class starts with. */
  const DefaultLabels: map<string, string> := map[
    "less_sec" := "< 1 сек.",
    "sec" := "1 сек.",
    "secs" := "сек.",
    "min" := "1 мин.",
    "mins" := "мин.",
    "hr" := "1 ч.",
    "hrs" := "ч.",
    "day" := "1 д.",
    "days" := "д."
  ]

  predicate HasAllKeys(labels: map<string, string>)
  {
    forall i :: 0 <= i < |LabelKeys| ==> LabelKeys[i] in labels
  }

  /** The row a unit modifier selects (`static::$time`). */
  function UnitRow(unit: string): (r: Option<nat>)
    ensures r.Some? ==> Truthy(unit)
    ensures r.Some? ==> r.value < |TimeFormats| && TimeFormats[r.value].divisor.Some?
  {
    if unit == "seconds" then Some(2)
    else if unit == "minutes" then Some(4)
    else if unit == "hours" then Some(6)
    else if unit == "days" then Some(8)
    else None
  }

  /** `floor($value / $d)` for a positive divisor. */
  function Floor(value: int, d: int): (n: int)
    requires d > 0
    ensures n * d <= value < (n + 1) * d
  {
    var n := value / d;
    assert value == d * n + value % d;
    n
  }

  /** `ceil($value / $d)` for a positive divisor. */
  function Ceil(value: int, d: int): (n: int)
    requires d > 0
    ensures (n - 1) * d < value <= n * d
  {
    -((-value) / d)
  }

  /** The index of the first row from i on that covers the value, if any. */
  function FirstCovering(value: int, i: nat): (r: Option<nat>)
    requires i <= |TimeFormats|
    ensures r.Some? ==> i <= r.value < |TimeFormats| && value <= TimeFormats[r.value].threshold
    ensures r.Some? ==> forall t :: i <= t < r.value ==> value > TimeFormats[t].threshold
    ensures r.None? ==> forall t :: i <= t < |TimeFormats| ==> value > TimeFormats[t].threshold
    decreases |TimeFormats| - i
  {
    if i == |TimeFormats| then None
    else if value <= TimeFormats[i].threshold then Some(i)
    else FirstCovering(value, i + 1)
  }

  /** What a row prints for a value: its bare label, or the rounded-up count
      in its unit, a space and the label. */
  function RowText(labels: map<string, string>, row: Row, value: int): string
    requires row.key in labels
    requires row.divisor.Some? ==> row.divisor.value > 0
  {
    if row.divisor.None? then labels[row.key]
    else IntToString(Ceil(value, row.divisor.value)) + " " + labels[row.key]
  }

  lemma TableIsWellFormed(labels: map<string, string>, i: nat)
    requires HasAllKeys(labels) && i < |TimeFormats|
    ensures TimeFormats[i].key in labels
    ensures TimeFormats[i].divisor.Some? ==> TimeFormats[i].divisor.value > 0
  {
    assert TimeFormats[i].key == LabelKeys[i];
  }

  /** format(): at most one modifier; a truthy modifier must name a unit (in
      any case) and gives the rounded-down count in it; otherwise the table
      decides, and values past its last row count days, rounded up. */
  function Format(labels: map<string, string>, value: int, modifiers: seq<string>): (r: Result<string, string>)
    requires HasAllKeys(labels)
    ensures |modifiers| > 1 ==> r.Err?
    ensures |modifiers| == 0 ==> r.Ok?
    ensures |modifiers| == 1 ==> (r.Err? <==> Truthy(ToLower(modifiers[0])) && UnitRow(ToLower(modifiers[0])).None?)
  {
    if |modifiers| > 1 then Err("More than one modifier passed")
    else
      var time := if |modifiers| == 1 then ToLower(modifiers[0]) else "";
      if Truthy(time) && UnitRow(time).None? then
        Err("Неизвестный аргумент спецификатора \"" + time + "\"")
      else if Truthy(time) then
        var row := TimeFormats[UnitRow(time).value];
        TableIsWellFormed(labels, UnitRow(time).value);
        Ok(IntToString(Floor(value, row.divisor.value)) + " " + labels[row.key])
      else
        var index := ScanIndex(value);
        TableIsWellFormed(labels, index);
        Ok(RowText(labels, TimeFormats[index], value))
  }

  /** The row the foreach settles on: the first covering row, or the last row
      (`end(static::$timeFormats)`) when none covers the value. */
  function ScanIndex(value: int): (i: nat)
    ensures i < |TimeFormats|
  {
    var covering := FirstCovering(value, 0);
    if covering.Some? then covering.value else |TimeFormats| - 1
  }

  /** The buckets of the table written out as ranges. */
  function Bucket(labels: map<string, string>, value: int): string
    requires HasAllKeys(labels)
  {
    assert "less_sec" == LabelKeys[0] && "sec" == LabelKeys[1] && "secs" == LabelKeys[2];
    assert "min" == LabelKeys[3] && "mins" == LabelKeys[4] && "hr" == LabelKeys[5];
    assert "hrs" == LabelKeys[6] && "day" == LabelKeys[7] && "days" == LabelKeys[8];
    if value <= 0 then labels["less_sec"]
    else if value == 1 then labels["sec"]
    else if value <= 59 then IntToString(value) + " " + labels["secs"]
    else if value == 60 then labels["min"]
    else if value <= 3599 then IntToString(Ceil(value, 60)) + " " + labels["mins"]
    else if value <= 5400 then labels["hr"]
    else if value <= 86399 then IntToString(Ceil(value, 3600)) + " " + labels["hrs"]
    else if value <= 129600 then labels["day"]
    else IntToString(Ceil(value, 86400)) + " " + labels["days"]
  }

  /** Without a unit, the first row whose threshold is at least the value
      decides: the table scan is the range table above. A modifier "" or "0"
      is no unit. */
  lemma FormatWithoutUnit(labels: map<string, string>, value: int, modifiers: seq<string>)
    requires HasAllKeys(labels)
    requires |modifiers| == 0 || (|modifiers| == 1 && !Truthy(ToLower(modifiers[0])))
    ensures Format(labels, value, modifiers) == Ok(Bucket(labels, value))
  {
    ScanIsBucket(labels, value);
  }

  lemma ScanIsBucket(labels: map<string, string>, value: int)
    requires HasAllKeys(labels)
    ensures TimeFormats[ScanIndex(value)].key in labels
    ensures TimeFormats[ScanIndex(value)].divisor.Some? ==> TimeFormats[ScanIndex(value)].divisor.value > 0
    ensures RowText(labels, TimeFormats[ScanIndex(value)], value) == Bucket(labels, value)
  {
    TableIsWellFormed(labels, ScanIndex(value));
    if value <= 0 {
      assert ScanIndex(value) == 0;
    } else if value == 1 {
      assert ScanIndex(value) == 1;
    } else if value <= 59 {
      assert ScanIndex(value) == 2;
      assert Ceil(value, 1) == value;
    } else if value == 60 {
      assert ScanIndex(value) == 3;
    } else if value <= 3599 {
      assert ScanIndex(value) == 4;
    } else if value <= 5400 {
      assert ScanIndex(value) == 5;
    } else if value <= 86399 {
      assert ScanIndex(value) == 6;
    } else if value <= 129600 {
      assert ScanIndex(value) == 7;
    } else {
      assert ScanIndex(value) == 8;
    }
  }

  /** With a unit, the count is rounded down in that unit. */
  lemma FormatWithUnit(labels: map<string, string>, value: int, unit: string)
    requires HasAllKeys(labels)
    requires UnitRow(ToLower(unit)).Some?
    ensures var row := TimeFormats[UnitRow(ToLower(unit)).value];
            var d := row.divisor.value;
            d > 0 && row.key in labels &&
            Format(labels, value, [unit]) == Ok(IntToString(Floor(value, d)) + " " + labels[row.key])
  {
    TableIsWellFormed(labels, UnitRow(ToLower(unit)).value);
  }

  /** Unit names are matched case-insensitively. */
  lemma UnitIsCaseInsensitive(labels: map<string, string>, value: int, unit: string)
    requires HasAllKeys(labels)
    ensures Format(labels, value, [unit]) == Format(labels, value, [ToLower(unit)])
  {
    ToLowerIdempotent(unit);
  }

  /** Cases of tests/Specifier/TimeTest.php with the default labels: a unit
      rounds down, so one second is "0 д.". */
  lemma FormatOneSecondInDays()
    ensures Format(DefaultLabels, 1, ["days"]) == Ok("0 д.")
  {
    FormatWithUnit(DefaultLabels, 1, "days");
    assert ToLower("days") == "days";
    assert UnitRow("days") == Some(8);
    assert TimeFormats[8].divisor == Some(86400) && TimeFormats[8].key == "days";
    assert DefaultLabels["days"] == "д.";
    assert Floor(1, 86400) == 0;
    assert IntToString(0) == "0";
    assert "0" + " " + "д." == "0 д.";
  }

  lemma FormatHundredDays()
    ensures Format(DefaultLabels, 100 * 24 * 60 * 60, []) == Ok("100 д.")
  {
    FormatWithoutUnit(DefaultLabels, 100 * 24 * 60 * 60, []);
    HundredDaysBucket();
  }

  lemma HundredDaysBucket()
    ensures Bucket(DefaultLabels, 100 * 24 * 60 * 60) == "100 д."
  {
    assert Ceil(100 * 24 * 60 * 60, 86400) == 100;
    HundredIsWritten();
    assert DefaultLabels["days"] == "д.";
    assert "100" + " " + "д." == "100 д.";
  }

  lemma HundredIsWritten()
    ensures IntToString(100) == "100"
  {
    assert NatToString(10) == "1" + "0";
    assert NatToString(100) == "10" + "0";
  }

  /** The labels the specifier renders with (`static::$timeLabels`). */
  class TimeLabels {
    var labels: map<string, string>

    predicate Valid()
      reads this
    {
      HasAllKeys(labels)
    }

    constructor()
      ensures labels == DefaultLabels && Valid()
    {
      labels := DefaultLabels;
    }

    /** setTimes(): every one of the nine keys must be present; the first
        missing one is reported and the labels stay as they were. */
    method SetTimes(times: map<string, string>) returns (r: Result<bool, string>)
      modifies this
      ensures r.Ok? <==> HasAllKeys(times)
      ensures r.Ok? ==> r.value && labels == times
      ensures r.Err? ==> labels == old(labels)
      ensures r.Err? ==> exists i :: 0 <= i < |LabelKeys| && LabelKeys[i] !in times &&
                           (forall j :: 0 <= j < i ==> LabelKeys[j] in times) &&
                           r.error == "\"" + LabelKeys[i] + "\" key not provided"
      ensures Valid() <==> old(Valid()) || r.Ok?
    {
      var i := 0;
      while i < |LabelKeys|
        invariant 0 <= i <= |LabelKeys|
        invariant forall j :: 0 <= j < i ==> LabelKeys[j] in times
      {
        if LabelKeys[i] !in times {
          return Err("\"" + LabelKeys[i] + "\" key not provided");
        }
        i := i + 1;
      }
      labels := times;
      r := Ok(true);
    }
  }
}
