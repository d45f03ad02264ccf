/** The CPU-list parser, printer and partitioner as the loops they are, each proved
    against the notation in CpuListModel. */
module CpuList {
  import opened Common
  import opened CpuListModel

  function Elements(s: seq<int>): set<int> {
    set x | x in s
  }

  /** The length of the set equals the length of the list exactly when nothing repeats. */
  lemma {:induction false} UniqueByCount(s: seq<int>)
    ensures |Elements(s)| <= |s|
    ensures |Elements(s)| == |s| <==> Distinct(s)
  {
    if s != [] {
      var last, rest := s[|s| - 1], s[..|s| - 1];
      UniqueByCount(rest);
      assert s == rest + [last];
      assert Elements(s) == Elements(rest) + {last};
      if last in rest {
        assert Elements(s) == Elements(rest);
        assert !Distinct(s);
      } else {
        assert |Elements(s)| == |Elements(rest)| + 1;
        assert Distinct(s) ==> Distinct(rest);
        assert Distinct(rest) ==> Distinct(s);
      }
    }
  }

  function Both(a: Option<seq<int>>, b: Option<seq<int>>): Option<seq<int>> {
    match (a, b)
    case (Some(x), Some(y)) => Some(x + y)
    case _ => None
  }

  lemma BothIsAssociative(a: Option<seq<int>>, b: Option<seq<int>>, c: Option<seq<int>>)
    ensures Both(a, Both(b, c)) == Both(Both(a, b), c) && Both(Some([]), a) == a
  {
    if a.Some? && b.Some? && c.Some? {
      assert a.value + (b.value + c.value) == (a.value + b.value) + c.value;
    }
    assert a.Some? ==> [] + a.value == a.value;
  }

  lemma {:induction false} ParseItemsSplit(a: seq<string>, b: seq<string>)
    ensures ParseItems(a + b) == Both(ParseItems(a), ParseItems(b))
  {
    hide ParseItem;
    if a == [] {
      assert a + b == b;
      BothIsAssociative(ParseItems(b), None, None);
    } else {
      ParseItemsSplit(a[1..], b);
      assert (a + b)[1..] == a[1..] + b;
      assert ParseItems(a + b) == Both(ParseItem(a[0]), ParseItems(a[1..] + b));
      hide Both;
      BothIsAssociative(ParseItem(a[0]), ParseItems(a[1..]), ParseItems(b));
    }
  }

  method ParseCpuList(value: string) returns (result: Option<seq<int>>)
    ensures result == ParseSpec(value)
  {
    hide Strip, ParseItem, ParseItems, Split;
    var items := Split(value, ',');
    var cpus: seq<int> := [];
    var i := 0;
    OneItem(items[0]);
    while i < |items|
      invariant 0 <= i <= |items|
      invariant ParseItems(items[..i]) == Some(cpus)
    {
      ParseItemsSplit(items[..i], items[i..]);
      ParseItemsSplit([items[i]], items[i + 1..]);
      ParseItemsSplit(items[..i], [items[i]]);
      assert items[..i] + items[i..] == items && [items[i]] + items[i + 1..] == items[i..];
      assert items[..i] + [items[i]] == items[..i + 1];
      OneItem(items[i]);
      var item := ReadItem(items[i]);
      if item.None? {
        return None;
      }
      cpus := cpus + item.value;
      i := i + 1;
    }
    assert items[..i] == items;
    UniqueByCount(cpus);
    if cpus == [] || (exists k :: 0 <= k < |cpus| && cpus[k] < 0) || |cpus| != |Elements(cpus)| {
      return None;
    }
    return Some(cpus);
  }

  lemma OneItem(item: string)
    ensures ParseItems([]) == Some([]) && ParseItems([item]) == ParseItem(item)
  {
    hide ParseItem;
    assert ParseItems([item][1..]) == Some([]);
    assert ParseItem(item).Some? ==> ParseItem(item).value + [] == ParseItem(item).value;
  }

  /** One item of the list: a number, or an inclusive range that must not be reversed. */
  method ReadItem(item: string) returns (result: Option<seq<int>>)
    ensures result == ParseItem(item)
  {
    var normalized := Strip(item);
    if normalized == [] {
      return None;
    }
    if '-' !in normalized {
      var number := ParseInt(normalized);
      if number.None? {
        return None;
      }
      return Some([number.value]);
    }
    var dash := FindDash(normalized);
    var start, stop := ParseInt(normalized[..dash]), ParseInt(normalized[dash + 1..]);
    if start.None? || stop.None? || stop.value < start.value {
      return None;
    }
    return Some(Interval(start.value, stop.value));
  }

  lemma {:induction false} TextsSplit(a: seq<Run>, b: seq<Run>)
    ensures Texts(a + b) == Texts(a) + Texts(b)
  {
    if a == [] {
      assert a + b == b;
    } else {
      hide RunText;
      TextsSplit(a[1..], b);
      assert (a + b)[1..] == a[1..] + b && (a + b)[0] == a[0];
      ConcatAssociates([RunText(a[0])], Texts(a[1..]), Texts(b));
    }
  }

  method FormatCpuList(cpus: seq<int>) returns (text: Option<string>)
    ensures text == FormatSpec(cpus)
  {
    hide RunText, Join;
    if cpus == [] {
      return None;
    }
    var ranges: seq<string> := [];
    var start, previous := cpus[0], cpus[0];
    var i := 1;
    while i < |cpus|
      invariant 1 <= i <= |cpus|
      invariant ranges + Texts(RunsFrom(start, previous, cpus[i..])) == Texts(RunsFrom(cpus[0], cpus[0], cpus[1..]))
    {
      var cpu := cpus[i];
      assert cpus[i..][0] == cpu && cpus[i..][1..] == cpus[i + 1..];
      if cpu == previous + 1 {
        previous := cpu;
      } else {
        TextsSplit([Run(start, previous)], RunsFrom(cpu, cpu, cpus[i + 1..]));
        assert Texts([Run(start, previous)]) == [RunText(Run(start, previous))];
        ranges := ranges + [RunText(Run(start, previous))];
        start, previous := cpu, cpu;
      }
      i := i + 1;
    }
    assert RunsFrom(start, previous, cpus[i..]) == [Run(start, previous)];
    assert Texts([Run(start, previous)]) == [RunText(Run(start, previous))];
    ranges := ranges + [RunText(Run(start, previous))];
    return Some(Join(ranges));
  }

  /** Parsing a printed list gives the list back, in its own order. */
  method ParsePrinted(cpus: seq<int>) returns (again: Option<seq<int>>)
    requires ValidCpus(cpus)
    ensures again == Some(cpus)
  {
    FormatParses(cpus);
    var text := FormatCpuList(cpus);
    again := ParseCpuList(text.value);
  }

  // ---------------------------------------------------------------- partitioning

  function Flatten(groups: seq<seq<int>>): seq<int> {
    if groups == [] then [] else Flatten(groups[..|groups| - 1]) + groups[|groups| - 1]
  }

  /** The groups are consecutive, non-empty, and the first `remainder` of them are one wider. */
  ghost predicate EvenSplit(cpus: seq<int>, replicas: nat, groups: seq<seq<int>>)
    requires replicas > 0
  {
    && |groups| == replicas
    && Flatten(groups) == cpus
    && forall g :: 0 <= g < replicas ==>
         groups[g] != [] && |groups[g]| == |cpus| / replicas + (if g < |cpus| % replicas then 1 else 0)
  }

  lemma WidthsSum(n: nat, replicas: nat)
    requires replicas > 0
    ensures n == (n / replicas) * replicas + n % replicas
  {
  }

  method PartitionCpus(cpus: seq<int>, replicas: int) returns (result: Option<seq<seq<int>>>)
    ensures result.None? <==> replicas <= 0 || |cpus| < replicas
    ensures result.Some? ==> EvenSplit(cpus, replicas, result.value)
  {
    if replicas <= 0 || |cpus| < replicas {
      return None;
    }
    var base, remainder := |cpus| / replicas, |cpus| % replicas;
    WidthsSum(|cpus|, replicas);
    BaseIsPositive(|cpus|, replicas);
    var groups: seq<seq<int>> := [];
    var cursor := 0;
    var replica := 0;
    while replica < replicas
      invariant 0 <= replica <= replicas && |groups| == replica
      invariant cursor == base * replica + Min(replica, remainder)
      invariant 0 <= cursor <= |cpus|
      invariant Flatten(groups) == cpus[..cursor]
      invariant forall g :: 0 <= g < replica ==>
        groups[g] != [] && |groups[g]| == base + (if g < remainder then 1 else 0)
    {
      var width := base + (if replica < remainder then 1 else 0);
      CursorStays(base, remainder, replica, replicas, |cpus|);
      var group := cpus[cursor..cursor + width];
      assert (groups + [group])[..replica] == groups;
      assert cpus[..cursor] + group == cpus[..cursor + width];
      groups := groups + [group];
      cursor := cursor + width;
      replica := replica + 1;
    }
    assert cpus[..cursor] == cpus;
    return Some(groups);
  }

  lemma BaseIsPositive(n: nat, replicas: nat)
    requires 0 < replicas <= n
    ensures n / replicas >= 1
  {
    if n / replicas < 1 {
      WidthsSum(n, replicas);
      assert false;
    }
  }

  lemma CursorStays(base: nat, remainder: nat, replica: nat, replicas: nat, n: nat)
    requires replica < replicas && n == base * replicas + remainder
    ensures base * (replica + 1) == base * replica + base
    ensures base * (replica + 1) + Min(replica + 1, remainder) <= n
  {
    MulMonotone(replica + 1, replicas, base);
    assert (replica + 1) * base == base * (replica + 1) && replicas * base == base * replicas;
  }
}
