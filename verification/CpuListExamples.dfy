/** The CPU-list notation on concrete text: a comma separates items, a dash joins the two ends of a
    range, and both ends belong to it. */
module CpuListExamples {
  import opened Common
  import opened CpuListModel

  lemma SplitAtComma(a: string, rest: string)
    requires ',' !in a
    ensures Split(a + "," + rest, ',') == [a] + Split(rest, ',')
  {
    var s := a + "," + rest;
    if a == [] {
      assert s == "," + rest && s[1..] == rest;
    } else {
      SplitAtComma(a[1..], rest);
      assert s[1..] == a[1..] + "," + rest && s[0] == a[0];
      assert [a[0]] + a[1..] == a;
    }
  }

  lemma {:induction false} SplitWithout(a: string)
    requires ',' !in a
    ensures Split(a, ',') == [a]
  {
    if a != [] {
      SplitWithout(a[1..]);
      assert [a[0]] + a[1..] == a;
    }
  }

  lemma OneDigit(d: nat)
    requires d < 10
    ensures var text := [('0' as int + d) as char]; ParseInt(text) == Some(d) && Strip(text) == text
  {
  }

  lemma OneNumber(d: nat)
    requires d < 10
    ensures ParseItem([('0' as int + d) as char]) == Some([d])
  {
    hide ParseInt, Strip;
    OneDigit(d);
  }

  lemma OneRange(a: nat, b: nat)
    requires a < 10 && b < 10
    ensures ParseItem([('0' as int + a) as char, '-', ('0' as int + b) as char])
         == if a <= b then Some(seq(b - a + 1, i => a + i)) else None
  {
    hide ParseInt, Strip;
    var text := [('0' as int + a) as char, '-', ('0' as int + b) as char];
    OneDigit(a);
    OneDigit(b);
    NothingToStrip(text);
    assert FindDash(text) == 1 && text[..1] == [text[0]] && text[2..] == [text[2]];
  }

  lemma NothingToStrip(text: string)
    requires text != [] && !IsSpace(text[0]) && !IsSpace(text[|text| - 1])
    ensures Strip(text) == text
  {
  }

  lemma MoreItems(item: string, rest: seq<string>, first: seq<int>, more: seq<int>)
    requires ParseItem(item) == Some(first) && ParseItems(rest) == Some(more)
    ensures ParseItems([item] + rest) == Some(first + more)
  {
    hide ParseItem;
    assert ([item] + rest)[1..] == rest;
  }

  /** "3,0-1,7" names the CPUs 3, 0, 1 and 7, in that order. */
  lemma ThreeItems()
    ensures ParseSpec("3,0-1,7") == Some([3, 0, 1, 7])
  {
    hide ParseItem, Split;
    SplitAtComma("3", "0-1,7");
    SplitAtComma("0-1", "7");
    SplitWithout("7");
    assert "3" + "," + "0-1,7" == "3,0-1,7" && "0-1" + "," + "7" == "0-1,7";
    var items := ["3", "0-1", "7"];
    assert Split("3,0-1,7", ',') == items;
    OneNumber(3);
    OneRange(0, 1);
    OneNumber(7);
    assert ParseItem("3") == Some([3]) && ParseItem("7") == Some([7]);
    assert seq(2, i => 0 + i) == [0, 1] && "0-1" == ['0', '-', '1'] && ParseItem("0-1") == Some([0, 1]);
    assert ["7"] + [] == ["7"] && ["0-1"] + ["7"] == ["0-1", "7"] && ["3"] + ["0-1", "7"] == items;
    assert [7] + [] == [7] && [0, 1] + [7] == [0, 1, 7] && [3] + [0, 1, 7] == [3, 0, 1, 7];
    MoreItems("7", [], [7], []);
    MoreItems("0-1", ["7"], [0, 1], [7]);
    MoreItems("3", ["0-1", "7"], [3], [0, 1, 7]);
  }
}
