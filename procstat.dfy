/**
 * Reading one CPU's cumulative time-in-state counters out of the text of the kernel's
 * statistics file (`get_cpu_info`). Opening and reading the file is not modelled: the
 * parser receives the file's contents.
 */
module ProcStat {
  import opened Errors
  import opened Text

  /** The CPU name that selects the aggregate line "cpu  ...": a single space. */
  const AggregateCpu: string := " "

  /** The lines that start with `prefix`, in file order (the list comprehension of the program). */
  function Matching(lines: seq<string>, prefix: string): (m: seq<string>)
    ensures |m| <= |lines|
  {
    if lines == [] then []
    else if StartsWith(lines[0], prefix) then [lines[0]] + Matching(lines[1..], prefix)
    else Matching(lines[1..], prefix)
  }

  /** The comprehension keeps only lines of the file, and only those that start with `prefix`. */
  lemma {:induction false} MatchingKeepsPrefixed(lines: seq<string>, prefix: string)
    ensures forall k | 0 <= k < |Matching(lines, prefix)| ::
      Matching(lines, prefix)[k] in lines && StartsWith(Matching(lines, prefix)[k], prefix)
  {
    if lines != [] {
      MatchingKeepsPrefixed(lines[1..], prefix);
      var rest := Matching(lines[1..], prefix);
      assert forall k | 0 <= k < |rest| :: rest[k] in lines;
    }
  }

  /** Line `i` starts with `prefix` and no earlier line does. */
  predicate IsFirstMatch(lines: seq<string>, prefix: string, i: int) {
    0 <= i < |lines| && StartsWith(lines[i], prefix) &&
    forall j | 0 <= j < i :: !StartsWith(lines[j], prefix)
  }

  /** The comprehension is empty exactly when no line matches; otherwise it begins with the first match. */
  lemma {:induction false} MatchingHead(lines: seq<string>, prefix: string)
    ensures Matching(lines, prefix) == [] <==> forall j | 0 <= j < |lines| :: !StartsWith(lines[j], prefix)
    ensures Matching(lines, prefix) != [] ==>
      exists i :: IsFirstMatch(lines, prefix, i) && Matching(lines, prefix)[0] == lines[i]
  {
    if lines != [] {
      if StartsWith(lines[0], prefix) {
        assert IsFirstMatch(lines, prefix, 0);
      } else {
        MatchingHead(lines[1..], prefix);
        if Matching(lines[1..], prefix) != [] {
          var i :| IsFirstMatch(lines[1..], prefix, i) && Matching(lines[1..], prefix)[0] == lines[1..][i];
          assert IsFirstMatch(lines, prefix, i + 1);
        } else {
          forall j | 0 <= j < |lines| ensures !StartsWith(lines[j], prefix) {
            if j > 0 {
              assert lines[j] == lines[1..][j - 1];
            }
          }
        }
      }
    }
  }

  /** `[ln for ln in lines if ln.startswith(prefix)][0]`, with `None` for the IndexError. */
  function SelectLine(lines: seq<string>, prefix: string): (r: Option<string>)
    ensures r.None? <==> forall j | 0 <= j < |lines| :: !StartsWith(lines[j], prefix)
    ensures r.Some? ==> StartsWith(r.value, prefix)
    ensures r.Some? ==> exists i :: IsFirstMatch(lines, prefix, i) && lines[i] == r.value
  {
    MatchingHead(lines, prefix);
    var m := Matching(lines, prefix);
    if |m| == 0 then None else Some(m[0])
  }

  /** Tokens `0 .. i-1` are integer literals and token `i` is not. */
  predicate IsFirstInvalid(tokens: seq<string>, i: int) {
    0 <= i < |tokens| && ParseInt(tokens[i]).None? &&
    forall j | 0 <= j < i :: ParseInt(tokens[j]).Some?
  }

  /** `[int(i) for i in tokens]`: all values in order, or the ValueError of the first bad token. */
  function ParseCounters(tokens: seq<string>): (r: Result<seq<int>>)
    ensures r.Success? <==> forall i | 0 <= i < |tokens| :: ParseInt(tokens[i]).Some?
    ensures r.Success? ==> |r.value| == |tokens|
    ensures r.Success? ==> forall i | 0 <= i < |tokens| :: ParseInt(tokens[i]) == Some(r.value[i])
    ensures r.Failure? ==> r.error.NotAnInteger?
    ensures r.Failure? ==> exists i :: IsFirstInvalid(tokens, i) && r.error == NotAnInteger(tokens[i])
  {
    if tokens == [] then Success([])
    else
      match ParseInt(tokens[0])
      case None => Failure(NotAnInteger(tokens[0]))
      case Some(v) =>
        var rest := ParseCounters(tokens[1..]);
        if rest.Failure? then
          assert forall i | IsFirstInvalid(tokens[1..], i) :: IsFirstInvalid(tokens, i + 1);
          rest
        else
          assert forall i | 1 <= i < |tokens| :: tokens[i] == tokens[1..][i - 1];
          Success([v] + rest.value)
  }

  /** `values` are what `int()` makes of the fields of `line` after its first (the label). */
  predicate CountersOf(line: string, values: seq<int>) {
    var fields := Split(line);
    |fields| == |values| + 1 &&
    forall k | 0 <= k < |values| :: ParseInt(fields[k + 1]) == Some(values[k])
  }

  /** A line selected by its "cpu" prefix has a first field, the label. */
  lemma CpuLineHasLabel(line: string, cpunum: string)
    requires StartsWith(line, "cpu" + cpunum)
    ensures |Split(line)| >= 1
  {
  }

  /**
   * `get_cpu_info` on the file's text: take the first line that starts with "cpu" followed
   * by `cpunum`, split it on whitespace, drop the label and convert every other field.
   */
  function GetCpuInfo(stat: string, cpunum: string): (r: Result<seq<int>>)
    ensures r.Failure? ==> r.error == NoCpuLine || r.error.NotAnInteger?
  {
    match SelectLine(SplitLines(stat), "cpu" + cpunum)
    case None => Failure(NoCpuLine)
    case Some(line) =>
      CpuLineHasLabel(line, cpunum);
      ParseCounters(Split(line)[1..])
  }

  /** `get_cpu_info` raises IndexError exactly when no line of the file starts with "cpu" + `cpunum`. */
  lemma GetCpuInfoNoLine(stat: string, cpunum: string)
    ensures GetCpuInfo(stat, cpunum) == Failure(NoCpuLine) <==>
      forall j | 0 <= j < |SplitLines(stat)| :: !StartsWith(SplitLines(stat)[j], "cpu" + cpunum)
  {
    var lines := SplitLines(stat);
    var sel := SelectLine(lines, "cpu" + cpunum);
    if sel.Some? {
      CpuLineHasLabel(sel.value, cpunum);
      assert GetCpuInfo(stat, cpunum) == ParseCounters(Split(sel.value)[1..]);
    }
  }

  /**
   * On success `get_cpu_info` returns, in order, the values of all fields after the label of
   * the first line that starts with "cpu" + `cpunum`: one value fewer than the line has fields.
   */
  lemma GetCpuInfoValues(stat: string, cpunum: string)
    requires GetCpuInfo(stat, cpunum).Success?
    ensures exists i ::
      IsFirstMatch(SplitLines(stat), "cpu" + cpunum, i) && CountersOf(SplitLines(stat)[i], GetCpuInfo(stat, cpunum).value)
  {
    var lines := SplitLines(stat);
    var sel := SelectLine(lines, "cpu" + cpunum);
    assert sel.Some?;
    CpuLineHasLabel(sel.value, cpunum);
    var i :| IsFirstMatch(lines, "cpu" + cpunum, i) && lines[i] == sel.value;
    assert CountersOf(lines[i], GetCpuInfo(stat, cpunum).value);
  }

  /**
   * Apart from the missing line, `get_cpu_info` fails only with the ValueError of a field
   * after the label of the first matching line that is not an integer literal.
   */
  lemma GetCpuInfoInvalid(stat: string, cpunum: string)
    requires GetCpuInfo(stat, cpunum).Failure? && GetCpuInfo(stat, cpunum) != Failure(NoCpuLine)
    ensures GetCpuInfo(stat, cpunum).error.NotAnInteger?
    ensures exists i ::
      && IsFirstMatch(SplitLines(stat), "cpu" + cpunum, i)
      && ParseInt(GetCpuInfo(stat, cpunum).error.token).None?
      && GetCpuInfo(stat, cpunum).error.token in Split(SplitLines(stat)[i])[1..]
  {
    var lines := SplitLines(stat);
    var sel := SelectLine(lines, "cpu" + cpunum);
    assert sel.Some?;
    CpuLineHasLabel(sel.value, cpunum);
    var fields := Split(sel.value)[1..];
    var k :| IsFirstInvalid(fields, k) && GetCpuInfo(stat, cpunum).error == NotAnInteger(fields[k]);
    var i :| IsFirstMatch(lines, "cpu" + cpunum, i) && lines[i] == sel.value;
    assert fields[k] in Split(lines[i])[1..];
  }

  /** The decimal forms of `values`, in order. */
  function Decimals(values: seq<int>): (ts: seq<string>)
    ensures |ts| == |values|
    ensures forall k | 0 <= k < |values| :: ts[k] == Decimal(values[k])
  {
    if values == [] then [] else [Decimal(values[0])] + Decimals(values[1..])
  }

  lemma DecimalIsToken(n: int)
    ensures IsToken(Decimal(n))
  {
  }

  /**
   * Parsing inverts rendering: a file whose first line with the prefix "cpu" + `cpunum`
   * holds a label and the decimal forms of `values`, separated by any whitespace runs,
   * yields exactly `values`.
   */
  lemma ParseRendered(lines: seq<string>, cpunum: string, i: nat, name: string, values: seq<int>, gaps: seq<string>)
    requires forall j | 0 <= j < |lines| :: NoneOf(lines[j], LineBreaks)
    requires IsFirstMatch(lines, "cpu" + cpunum, i)
    requires IsToken(name)
    requires Gaps([name] + Decimals(values), gaps)
    requires lines[i] == Separated([name] + Decimals(values), gaps)
    ensures GetCpuInfo(Terminated(lines), cpunum) == Success(values)
  {
    SplitTerminated(lines);
    var prefix := "cpu" + cpunum;
    var sel := SelectLine(lines, prefix);
    var i' :| IsFirstMatch(lines, prefix, i') && lines[i'] == sel.value;
    assert i' == i;
    var fields := [name] + Decimals(values);
    forall k | 0 <= k < |fields| ensures IsToken(fields[k]) {
      if k > 0 {
        DecimalIsToken(values[k - 1]);
      }
    }
    assert [] + lines[i] == lines[i];
    SplitSeparated([], fields, gaps);
    assert fields[1..] == Decimals(values);
    forall k | 0 <= k < |values| ensures ParseInt(Decimals(values)[k]) == Some(values[k]) {
      ParseDecimal(values[k]);
    }
    var r := ParseCounters(Decimals(values));
    assert r.Success?;
    assert r.value == values;
  }

  /** The aggregate name " " skips a per-core line "cpu0 ..." that comes before the "cpu  ..." line. */
  lemma AggregateSkipsPerCoreLine()
    ensures GetCpuInfo("cpu0 7\ncpu  5\n", AggregateCpu) == Success([5])
  {
    var lines := ["cpu0 7", "cpu  5"];
    assert lines[1..] == ["cpu  5"];
    assert Terminated(lines[1..]) == "cpu  5\n";
    assert Terminated(lines) == "cpu0 7\ncpu  5\n";
    assert Decimals([5]) == ["5"];
    var fields, gaps := ["cpu"] + Decimals([5]), ["  ", ""];
    assert fields[1..] == ["5"] && gaps[1..] == [""];
    assert Separated(["5"], [""]) == "5";
    assert lines[1] == Separated(fields, gaps);
    assert lines[0][..4] == "cpu0" != "cpu ";
    assert lines[1][..4] == "cpu ";
    assert IsFirstMatch(lines, "cpu" + AggregateCpu, 1);
    ParseRendered(lines, AggregateCpu, 1, "cpu", [5], ["  ", ""]);
  }

  /** A CPU name that no line carries raises IndexError. */
  lemma MissingCpuRaises()
    ensures GetCpuInfo("cpu0 7\ncpu  5\n", "1") == Failure(NoCpuLine)
  {
    var lines := ["cpu0 7", "cpu  5"];
    assert Terminated(lines) == "cpu0 7\ncpu  5\n";
    assert lines[0][..4] == "cpu0" != "cpu1";
    assert lines[1][..4] == "cpu " != "cpu1";
    NoLineRaises(lines, "1");
  }

  lemma NoLineRaises(lines: seq<string>, cpunum: string)
    requires forall j | 0 <= j < |lines| :: NoneOf(lines[j], LineBreaks)
    requires forall j | 0 <= j < |lines| :: !StartsWith(lines[j], "cpu" + cpunum)
    ensures GetCpuInfo(Terminated(lines), cpunum) == Failure(NoCpuLine)
  {
    SplitTerminated(lines);
    GetCpuInfoNoLine(Terminated(lines), cpunum);
  }

  /** The prefix test lets the name "1" take the line of "cpu10" when no "cpu1" line precedes it. */
  lemma PrefixTakesLongerName()
    ensures GetCpuInfo("cpu10 4\n", "1") == Success([4])
  {
    var lines := ["cpu10 4"];
    assert Terminated(lines) == "cpu10 4\n";
    assert Decimals([4]) == ["4"];
    var fields, gaps := ["cpu10"] + Decimals([4]), [" ", ""];
    assert fields[1..] == ["4"] && gaps[1..] == [""];
    assert Separated(["4"], [""]) == "4";
    assert lines[0] == Separated(fields, gaps);
    assert IsFirstMatch(lines, "cpu1", 0);
    ParseRendered(lines, "1", 0, "cpu10", [4], [" ", ""]);
  }

  /** The gaps after `n` counters on a kernel line: one space between counters, none after the last. */
  function CounterGaps(n: nat): (gaps: seq<string>)
    ensures |gaps| == n
    ensures forall k | 0 <= k < n :: gaps[k] == if k == n - 1 then "" else " "
  {
    if n == 0 then [] else if n == 1 then [""] else [" "] + CounterGaps(n - 1)
  }

  /**
   * The aggregate line as the kernel writes it: the label "cpu", two spaces, then the
   * counters in decimal separated by single spaces.
   */
  function AggregateLine(counters: seq<int>): string {
    Separated(["cpu"] + Decimals(counters), ["  "] + CounterGaps(|counters|))
  }

  /** The text of a statistics file whose only line is the aggregate line holding `counters`. */
  function AggregateFile(counters: seq<int>): string {
    Terminated([AggregateLine(counters)])
  }

  /** Reading the aggregate line back from such a file yields the counters. */
  lemma ReadAggregateFile(counters: seq<int>)
    ensures GetCpuInfo(AggregateFile(counters), AggregateCpu) == Success(counters)
  {
    var fields := ["cpu"] + Decimals(counters);
    var gaps := ["  "] + CounterGaps(|counters|);
    forall k | 0 <= k < |fields| ensures IsToken(fields[k]) {
      if k > 0 {
        DecimalIsToken(counters[k - 1]);
      }
    }
    assert Gaps(fields, gaps);
    SeparatedHasNoBreak(fields, gaps);
    var line := AggregateLine(counters);
    assert line == "cpu" + "  " + Separated(fields[1..], gaps[1..]);
    assert line[..4] == "cpu ";
    assert IsFirstMatch([line], "cpu" + AggregateCpu, 0);
    ParseRendered([line], AggregateCpu, 0, "cpu", counters, gaps);
  }
}
