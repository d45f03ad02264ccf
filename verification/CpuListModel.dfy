/** The CPU-list notation: comma-separated numbers and inclusive ranges, in the order
    given.  Numbers are read as Python's int() reads ASCII text. */
module CpuListModel {
  import opened Common

  // ---------------------------------------------------------------- text

  predicate IsSpace(c: char) {
    9 <= c as int <= 13 || 28 <= c as int <= 32
  }

  predicate IsDigit(c: char) {
    '0' <= c <= '9'
  }

  function Strip(s: string): string
    decreases |s|
  {
    if s == [] then s
    else if IsSpace(s[0]) then Strip(s[1..])
    else if IsSpace(s[|s| - 1]) then Strip(s[..|s| - 1])
    else s
  }

  function Split(s: string, c: char): (parts: seq<string>)
    ensures parts != []
  {
    if s == [] then [""]
    else if s[0] == c then [""] + Split(s[1..], c)
    else var rest := Split(s[1..], c); [[s[0]] + rest[0]] + rest[1..]
  }

  function Join(parts: seq<string>): string
    requires parts != []
  {
    if |parts| == 1 then parts[0] else parts[0] + "," + Join(parts[1..])
  }

  function Str(n: nat): (s: string)
    ensures s != []
  {
    if n < 10 then [(n + '0' as int) as char] else Str(n / 10) + [(n % 10 + '0' as int) as char]
  }

  /** Decimal digits, single underscores allowed between them. */
  function ParseDigits(s: string): Option<nat>
    decreases |s|
  {
    if s == [] || !IsDigit(s[|s| - 1]) then None
    else
      var d := s[|s| - 1] as int - '0' as int;
      var rest := s[..|s| - 1];
      if rest == [] then Some(d)
      else
        match ParseDigits(if rest[|rest| - 1] == '_' then rest[..|rest| - 1] else rest)
        case None => None
        case Some(high) => Some(10 * high + d)
  }

  function ParseInt(s: string): Option<int> {
    var t := Strip(s);
    if t == [] then None
    else if t[0] == '-' || t[0] == '+' then
      match ParseDigits(t[1..])
      case None => None
      case Some(n) => (var signed: int := n; Some(if t[0] == '-' then -signed else signed))
    else
      match ParseDigits(t)
      case None => None
      case Some(n) => (var unsigned: int := n; Some(unsigned))
  }

  /** Index of the first dash, |s| when there is none. */
  function FindDash(s: string): (i: nat)
    ensures i <= |s| && (i < |s| ==> s[i] == '-')
    ensures forall k :: 0 <= k < i ==> s[k] != '-'
    ensures i == |s| <==> '-' !in s
  {
    if s == [] || s[0] == '-' then 0 else FindDash(s[1..]) + 1
  }

  // ---------------------------------------------------------------- parsing

  function Interval(lo: int, hi: int): (s: seq<int>)
    ensures |s| == Max(0, hi - lo + 1) && forall i :: 0 <= i < |s| ==> s[i] == lo + i
  {
    if hi < lo then [] else seq(hi - lo + 1, i => lo + i)
  }

  function ParseItem(item: string): Option<seq<int>> {
    var text := Strip(item);
    var dash := FindDash(text);
    if text == [] then None
    else if dash == |text| then
      match ParseInt(text)
      case None => None
      case Some(n) => Some([n])
    else
      match (ParseInt(text[..dash]), ParseInt(text[dash + 1..]))
      case (Some(lo), Some(hi)) => if hi < lo then None else Some(Interval(lo, hi))
      case _ => None
  }

  function ParseItems(items: seq<string>): Option<seq<int>> {
    if items == [] then Some([])
    else
      match (ParseItem(items[0]), ParseItems(items[1..]))
      case (Some(first), Some(rest)) => Some(first + rest)
      case _ => None
  }

  ghost predicate ValidCpus(cpus: seq<int>) {
    cpus != [] && (forall i :: 0 <= i < |cpus| ==> cpus[i] >= 0) && Distinct(cpus)
  }

  ghost function ParseSpec(value: string): Option<seq<int>> {
    match ParseItems(Split(value, ','))
    case None => None
    case Some(cpus) => if ValidCpus(cpus) then Some(cpus) else None
  }

  // ---------------------------------------------------------------- formatting

  datatype Run = Run(lo: int, hi: int)

  /** Maximal ascending runs, given the run in progress. */
  function RunsFrom(start: int, previous: int, rest: seq<int>): seq<Run>
    decreases |rest|
  {
    if rest == [] then [Run(start, previous)]
    else if rest[0] == previous + 1 then RunsFrom(start, rest[0], rest[1..])
    else [Run(start, previous)] + RunsFrom(rest[0], rest[0], rest[1..])
  }

  function StrInt(n: int): string {
    if n < 0 then "-" + Str(-n) else Str(n)
  }

  function RunText(r: Run): string {
    if r.lo == r.hi then StrInt(r.lo) else StrInt(r.lo) + "-" + StrInt(r.hi)
  }

  function Texts(rs: seq<Run>): (t: seq<string>)
    ensures |t| == |rs|
  {
    if rs == [] then [] else [RunText(rs[0])] + Texts(rs[1..])
  }

  function FormatSpec(cpus: seq<int>): Option<string> {
    if cpus == [] then None
    else
      var texts := Texts(RunsFrom(cpus[0], cpus[0], cpus[1..]));
      if texts == [] then None else Some(Join(texts))
  }

  // ---------------------------------------------------------------- round trip

  lemma {:induction false} StrDigits(n: nat)
    ensures forall i :: 0 <= i < |Str(n)| ==> IsDigit(Str(n)[i])
  {
    if n >= 10 {
      StrDigits(n / 10);
    }
  }

  lemma {:induction false} ParseDigitsStr(n: nat)
    ensures ParseDigits(Str(n)) == Some(n)
  {
    if n >= 10 {
      ParseDigitsStr(n / 10);
      StrDigits(n / 10);
      assert Str(n)[..|Str(n)| - 1] == Str(n / 10);
    }
  }

  lemma ParseIntStr(n: nat)
    ensures Strip(Str(n)) == Str(n) && ParseInt(Str(n)) == Some(n)
  {
    StrDigits(n);
    ParseDigitsStr(n);
  }

  lemma FindDashAt(a: string, b: string)
    requires '-' !in a
    ensures FindDash(a + "-" + b) == |a|
  {
    var s := a + "-" + b;
    assert s[|a|] == '-';
    forall k | 0 <= k < |a| ensures s[k] != '-' {
      assert s[k] == a[k];
    }
  }

  lemma ParseRun(r: Run)
    requires 0 <= r.lo <= r.hi
    ensures ParseItem(RunText(r)) == Some(Interval(r.lo, r.hi))
    ensures ',' !in RunText(r)
  {
    hide Str, ParseInt, ParseItem, Strip;
    StrDigits(r.lo);
    StrDigits(r.hi);
    ParseIntStr(r.lo);
    ParseIntStr(r.hi);
    if r.lo == r.hi {
      assert Interval(r.lo, r.hi) == [r.lo];
      ParseSingle(Str(r.lo), r.lo);
    } else {
      ParsePair(Str(r.lo), Str(r.hi), r.lo, r.hi);
    }
  }

  predicate Digits(s: string) {
    s != [] && forall i :: 0 <= i < |s| ==> IsDigit(s[i])
  }

  lemma ParseSingle(s: string, n: int)
    requires Digits(s) && Strip(s) == s && ParseInt(s) == Some(n)
    ensures ParseItem(s) == Some([n])
  {
    hide ParseInt, Strip;
  }

  lemma ParsePair(a: string, b: string, lo: int, hi: int)
    requires Digits(a) && Digits(b) && ParseInt(a) == Some(lo) && ParseInt(b) == Some(hi) && lo <= hi
    ensures ParseItem(a + "-" + b) == Some(Interval(lo, hi))
  {
    hide ParseInt, Interval;
    var s := a + "-" + b;
    FindDashAt(a, b);
    assert s[..|a|] == a && s[|a| + 1..] == b;
    assert IsDigit(s[0]) && IsDigit(s[|s| - 1]);
    assert Strip(s) == s;
  }

  lemma {:induction false} SplitPrefix(a: string, s: string)
    requires ',' !in a
    ensures Split(a, ',') == [a]
    ensures Split(a + "," + s, ',') == [a] + Split(s, ',')
  {
    if a == [] {
      assert a + "," + s == "," + s;
      assert ("," + s)[1..] == s;
    } else {
      SplitPrefix(a[1..], s);
      assert (a + "," + s)[1..] == a[1..] + "," + s;
      assert [a[0]] + a[1..] == a;
    }
  }

  lemma {:induction false} SplitJoin(parts: seq<string>)
    requires parts != [] && forall i :: 0 <= i < |parts| ==> ',' !in parts[i]
    ensures Split(Join(parts), ',') == parts
  {
    if |parts| == 1 {
      SplitPrefix(parts[0], "");
    } else {
      SplitJoin(parts[1..]);
      SplitPrefix(parts[0], Join(parts[1..]));
      assert parts == [parts[0]] + parts[1..];
    }
  }

  function Expand(rs: seq<Run>): seq<int> {
    if rs == [] then [] else Interval(rs[0].lo, rs[0].hi) + Expand(rs[1..])
  }

  /** Runs lose nothing and keep the order. */
  lemma {:induction false} RunsExpand(start: int, previous: int, rest: seq<int>)
    requires start <= previous
    ensures Expand(RunsFrom(start, previous, rest)) == Interval(start, previous) + rest
    decreases |rest|
  {
    if rest == [] {
      assert Expand([Run(start, previous)]) == Interval(start, previous) + [];
    } else if rest[0] == previous + 1 {
      RunsExpand(start, rest[0], rest[1..]);
      assert Interval(start, rest[0]) + rest[1..] == Interval(start, previous) + rest;
    } else {
      RunsExpand(rest[0], rest[0], rest[1..]);
      var tail := RunsFrom(rest[0], rest[0], rest[1..]);
      assert ([Run(start, previous)] + tail)[1..] == tail;
      assert Interval(rest[0], rest[0]) + rest[1..] == rest;
    }
  }

  predicate RunOk(r: Run) {
    0 <= r.lo <= r.hi
  }

  lemma {:induction false} RunsAreOk(start: int, previous: int, rest: seq<int>)
    requires 0 <= start <= previous && forall i :: 0 <= i < |rest| ==> rest[i] >= 0
    ensures forall i :: 0 <= i < |RunsFrom(start, previous, rest)| ==> RunOk(RunsFrom(start, previous, rest)[i])
    decreases |rest|
  {
    if rest != [] {
      if rest[0] == previous + 1 {
        RunsAreOk(start, rest[0], rest[1..]);
      } else {
        RunsAreOk(rest[0], rest[0], rest[1..]);
      }
    }
  }

  lemma {:induction false} ParseTexts(rs: seq<Run>)
    requires forall i :: 0 <= i < |rs| ==> RunOk(rs[i])
    ensures ParseItems(Texts(rs)) == Some(Expand(rs))
    ensures forall i :: 0 <= i < |rs| ==> ',' !in Texts(rs)[i]
  {
    hide ParseItem, RunText, Interval;
    if rs != [] {
      assert RunOk(rs[0]);
      ParseRun(rs[0]);
      ParseTexts(rs[1..]);
      assert Texts(rs)[1..] == Texts(rs[1..]);
      forall i | 0 <= i < |rs| ensures ',' !in Texts(rs)[i] {
        assert i > 0 ==> Texts(rs)[i] == Texts(rs[1..])[i - 1];
      }
    }
  }

  /** Printing then parsing gives a list back exactly when it is a valid CPU list, whatever
      its order; only the empty list cannot be printed. */
  lemma FormatParses(cpus: seq<int>)
    ensures FormatSpec(cpus).None? <==> cpus == []
    ensures cpus != [] ==> (ParseSpec(FormatSpec(cpus).value) == Some(cpus) <==> ValidCpus(cpus))
  {
    if cpus != [] {
      RunsNotEmpty(cpus[0], cpus[0], cpus[1..]);
      if ValidCpus(cpus) {
        ValidFormatParses(cpus);
      }
    }
  }

  lemma {:induction false} RunsNotEmpty(start: int, previous: int, rest: seq<int>)
    ensures RunsFrom(start, previous, rest) != []
    decreases |rest|
  {
    if rest != [] && rest[0] == previous + 1 {
      RunsNotEmpty(start, rest[0], rest[1..]);
    }
  }

  lemma ValidFormatParses(cpus: seq<int>)
    requires ValidCpus(cpus)
    ensures FormatSpec(cpus).Some? && ParseSpec(FormatSpec(cpus).value) == Some(cpus)
  {
    hide ParseItems, Texts, Split, Join;
    var rs := RunsFrom(cpus[0], cpus[0], cpus[1..]);
    RunsAreOk(cpus[0], cpus[0], cpus[1..]);
    RunsNotEmpty(cpus[0], cpus[0], cpus[1..]);
    RunsExpand(cpus[0], cpus[0], cpus[1..]);
    assert Interval(cpus[0], cpus[0]) + cpus[1..] == cpus;
    ParseTexts(rs);
    SplitJoin(Texts(rs));
  }
}
