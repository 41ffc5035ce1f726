/** Device diagnostics: CPU load from the first line of the kernel's CPU statistics and
    heap use from the runtime, both as integer percentages computed in 64-bit `Long`
    arithmetic. */
module PerformanceMonitor {
  import opened Base
  import opened Text
  import opened Numbers

  /** The `cpu` object: the totals and the percentage, or only an error (an exception
      while reading or parsing; its message is not modelled). */
  datatype Cpu = Cpu(total: int, used: int, percentage: int) | CpuError

  datatype Memory = Memory(used: int, max: int, percentage: int, nativeHeap: int)

  datatype Device = Device(manufacturer: string, model: string, sdk: int, release: string)

  datatype Stats = Stats(cpu: Cpu, memory: Memory, device: Device, timestamp: int)

  /** `used * 100 / whole` in `Long` arithmetic, or 0 when whole is not positive. */
  function Percent(used: int, whole: int): int
  {
    if whole > 0 then TruncDiv(Wrap64(used * 100), whole) else 0
  }

  /** The fields 1..4 of the line split on whitespace runs (user, nice, system, idle),
      each parsed as a `Long`. `line` is None when the file is empty. */
  function CpuUsage(line: Option<string>): (r: Cpu)
    ensures line.None? ==> r == CpuError
    ensures line.Some? && |SplitRuns(line.value)| < 5 ==> r == CpuError
    ensures r.Cpu? ==> r.percentage == Percent(r.used, r.total) && (r.total <= 0 ==> r.percentage == 0)
  {
    if line.None? then CpuError
    else
      var parts := SplitRuns(line.value);
      if |parts| < 5 then CpuError
      else
        var user := ToLongOrNull(parts[1]);
        var nice := ToLongOrNull(parts[2]);
        var system := ToLongOrNull(parts[3]);
        var idle := ToLongOrNull(parts[4]);
        if user.None? || nice.None? || system.None? || idle.None? then CpuError
        else
          var total := Wrap64(user.value + nice.value + system.value + idle.value);
          var used := Wrap64(user.value + nice.value + system.value);
          Cpu(total, used, Percent(used, total))
  }

  /** The runtime's total, free and maximum heap and the native heap in use. */
  function MemoryInfo(totalMemory: int, freeMemory: int, maxMemory: int, nativeHeap: int): (r: Memory)
    requires LONG_MIN <= totalMemory <= LONG_MAX && LONG_MIN <= freeMemory <= LONG_MAX
    ensures r.max == maxMemory && r.nativeHeap == nativeHeap
    ensures r.used == Wrap64(totalMemory - freeMemory)
    ensures maxMemory <= 0 ==> r.percentage == 0
  {
    var used := Wrap64(totalMemory - freeMemory);
    Memory(used, maxMemory, Percent(used, maxMemory), nativeHeap)
  }

  /** The four objects of a stats reply; the clock is a parameter. */
  function GetStats(line: Option<string>, totalMemory: int, freeMemory: int, maxMemory: int, nativeHeap: int,
                    device: Device, nowMillis: int): (r: Stats)
    requires LONG_MIN <= totalMemory <= LONG_MAX && LONG_MIN <= freeMemory <= LONG_MAX
    ensures r.cpu == CpuUsage(line) && r.device == device && r.timestamp == nowMillis
    ensures r.memory == MemoryInfo(totalMemory, freeMemory, maxMemory, nativeHeap)
  {
    Stats(CpuUsage(line), MemoryInfo(totalMemory, freeMemory, maxMemory, nativeHeap), device, nowMillis)
  }

  /** With the runtime's usual relations (free within total, used within max), the
      memory percentage is between 0 and 100. */
  lemma MemoryBounds(totalMemory: nat, freeMemory: nat, maxMemory: nat, nativeHeap: int)
    requires freeMemory <= totalMemory <= LONG_MAX && totalMemory - freeMemory <= maxMemory
    requires maxMemory * 100 <= LONG_MAX
    ensures var m := MemoryInfo(totalMemory, freeMemory, maxMemory, nativeHeap);
      m.used == totalMemory - freeMemory && 0 <= m.percentage <= 100
  {
    PercentBounds(totalMemory - freeMemory, maxMemory);
  }

  /** Without overflow, a part of a positive whole is between 0 and 100 percent of it. */
  lemma PercentBounds(used: int, whole: int)
    requires 0 <= used <= whole && whole * 100 <= LONG_MAX
    ensures 0 <= Percent(used, whole) <= 100
    ensures whole > 0 ==> Percent(used, whole) == used * 100 / whole
  {
    if whole > 0 {
      assert used * 100 <= whole * 100;
      assert used * 100 / whole <= whole * 100 / whole;
    }
  }

  /** A statistics line of a tag and four non-negative counters small enough not to
      overflow, separated by single spaces, gives total = their sum, used = all but
      idle, and a percentage in [0, 100]. */
  lemma CpuOfCounters(fields: seq<string>, user: nat, nice: nat, system: nat, idle: nat)
    requires |fields| == 5 && NoSpace(fields[0])
    requires fields[1] == NatToString(user) && fields[2] == NatToString(nice)
    requires fields[3] == NatToString(system) && fields[4] == NatToString(idle)
    requires (user + nice + system + idle) * 100 <= LONG_MAX
    ensures var r := CpuUsage(Some(Unwords(fields)));
      r.Cpu? && r.total == user + nice + system + idle && r.used == user + nice + system
      && 0 <= r.percentage <= 100
  {
    forall i | 0 <= i < |fields| ensures NoSpace(fields[i]) && (i >= 1 ==> fields[i] != []) {
      if i == 1 {
        DigitsNoSpace(user);
      } else if i == 2 {
        DigitsNoSpace(nice);
      } else if i == 3 {
        DigitsNoSpace(system);
      } else if i == 4 {
        DigitsNoSpace(idle);
      }
    }
    RunsOfFields(fields);
    ParseLong(user);
    ParseLong(nice);
    ParseLong(system);
    ParseLong(idle);
    CpuOfParsed(Unwords(fields), user, nice, system, idle);
  }

  lemma CpuOfParsed(line: string, user: nat, nice: nat, system: nat, idle: nat)
    requires var p := SplitRuns(line);
      |p| >= 5 && ToLongOrNull(p[1]) == Some(user) && ToLongOrNull(p[2]) == Some(nice)
      && ToLongOrNull(p[3]) == Some(system) && ToLongOrNull(p[4]) == Some(idle)
    requires (user + nice + system + idle) * 100 <= LONG_MAX
    ensures var r := CpuUsage(Some(line));
      r.Cpu? && r.total == user + nice + system + idle && r.used == user + nice + system
      && 0 <= r.percentage <= 100
  {
    var total := user + nice + system + idle;
    var used := user + nice + system;
    assert Wrap64(total) == total && Wrap64(used) == used;
    PercentBounds(used, total);
    assert CpuUsage(Some(line)) == Cpu(total, used, Percent(used, total));
  }

  lemma DigitsNoSpace(n: nat)
    ensures NatToString(n) != [] && NoSpace(NatToString(n))
  {
  }

  lemma ParseLong(n: nat)
    requires n <= LONG_MAX
    ensures ToLongOrNull(NatToString(n)) == Some(n)
  {
    ParseSignedOfIntToString(n, LONG_MIN, LONG_MAX);
  }

  predicate NoSpace(s: string)
  {
    forall i :: 0 <= i < |s| ==> !IsSpace(s[i])
  }

  /** Fields joined by single spaces. */
  function Unwords(fields: seq<string>): string
    requires |fields| >= 1
  {
    if |fields| == 1 then fields[0] else fields[0] + " " + Unwords(fields[1..])
  }

  /** Splitting single-space-joined non-empty words on whitespace runs gives the words
      back. */
  lemma {:induction false} RunsOfFields(fields: seq<string>)
    requires |fields| >= 1 && forall i :: 0 <= i < |fields| ==> NoSpace(fields[i])
    requires forall i :: 1 <= i < |fields| ==> fields[i] != []
    ensures SplitRuns(Unwords(fields)) == fields
  {
    if |fields| == 1 {
      RunsOfWord(fields[0], "");
      assert fields[0] + "" == fields[0];
    } else {
      var rest := Unwords(fields[1..]);
      RunsOfFields(fields[1..]);
      UnwordsHead(fields[1..]);
      var sp := " " + rest;
      assert sp[1..] == rest && sp[0] == ' ';
      assert SplitRuns(sp) == [""] + SplitRuns(rest);
      RunsOfWord(fields[0], sp);
      assert fields[0] + " " + rest == fields[0] + sp;
      assert fields[0] + "" == fields[0];
    }
  }

  lemma UnwordsHead(fields: seq<string>)
    requires |fields| >= 1 && fields[0] != []
    ensures Unwords(fields) != [] && Unwords(fields)[0] == fields[0][0]
  {
  }

  /** A word in front of a string that starts with whitespace, or of nothing. */
  lemma {:induction false} RunsOfWord(w: string, rest: string)
    requires NoSpace(w) && (rest == [] || IsSpace(rest[0]))
    ensures SplitRuns(w + rest) == [w + SplitRuns(rest)[0]] + SplitRuns(rest)[1..]
    decreases |w|
  {
    if w == [] {
      assert w + rest == rest;
      var r := SplitRuns(rest);
      assert r == [r[0]] + r[1..];
      assert w + r[0] == r[0];
    } else {
      RunsOfWord(w[1..], rest);
      var s := w + rest;
      assert s[1..] == w[1..] + rest && s[0] == w[0];
      assert !IsSpace(s[0]);
      assert [w[0]] + (w[1..] + SplitRuns(rest)[0]) == w + SplitRuns(rest)[0];
    }
  }
}
