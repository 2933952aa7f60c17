// The host-range grammar (sanity/host_lists.py), expanding side:
// "foo[01-03].bar" names foo01.bar, foo02.bar and foo03.bar, and
// expand() concatenates such items and subtracts one from another.
module HostLists {
  import opened Wrappers
  import opened Text

  /** Python's str(v) for an int. */
  function IntText(v: int): string
  {
    if v >= 0 then NatToString(v) else "-" + NatToString(-v)
  }

  /** One value of a range lo-hi: padded with zeros to the width of hi when
      lo starts with '0', and plain otherwise. */
  function RangeText(v: int, lo: string, hi: string): string
  {
    if |lo| > 0 && lo[0] == '0' then ZFill(IntText(v), |hi|) else IntText(v)
  }

  /** A rendered value denotes the value, and is at least as wide as hi
      when zero-padded. */
  lemma RangeTextValue(v: nat, lo: string, hi: string)
    ensures AllDigits(RangeText(v, lo, hi)) && DigitsValue(RangeText(v, lo, hi)) == v
    ensures |lo| > 0 && lo[0] == '0' ==> |RangeText(v, lo, hi)| >= |hi|
  {
    NatToStringRoundTrip(v);
    ZFillValue(IntText(v), |hi|);
  }

  /** The values first..last of a range, in ascending order. */
  function RangeFrom(first: int, last: int, lo: string, hi: string): (r: seq<string>)
    ensures |r| == if first > last then 0 else last - first + 1
    decreases last + 1 - first
  {
    if first > last then [] else [RangeText(first, lo, hi)] + RangeFrom(first + 1, last, lo, hi)
  }

  /** The m-th value of a range is first + m, rendered. */
  lemma {:induction false} RangeFromAt(first: int, last: int, lo: string, hi: string, m: nat)
    requires m < |RangeFrom(first, last, lo, hi)|
    ensures RangeFrom(first, last, lo, hi)[m] == RangeText(first + m, lo, hi)
    decreases m
  {
    var r := RangeFrom(first, last, lo, hi);
    assert r == [RangeText(first, lo, hi)] + RangeFrom(first + 1, last, lo, hi);
    if m > 0 {
      RangeFromAt(first + 1, last, lo, hi, m - 1);
      assert r[m] == RangeFrom(first + 1, last, lo, hi)[m - 1];
    }
  }

  /** range(int(val1), int(val2) + 1), rendered: int(None) raises
      TypeError and int() of anything but an optionally signed decimal
      raises ValueError (both None). */
  function RangeValues(lo: Option<string>, hi: string): Option<seq<string>>
  {
    if lo.None? then None
    else
      var a := PyInt(lo.value);
      var b := PyInt(hi);
      if a.None? || b.None? then None else Some(RangeFrom(a.value, b.value, lo.value, hi))
  }

  /** block_to_list's variables between two letters: the digits read since
      the last separator (val), the lower bound (val1, None after a range
      has been emitted), whether a '-' was seen, and the output. */
  datatype Scan = Scan(val: string, val1: Option<string>, inRange: bool, out: seq<string>)

  const BlockStart := Scan("", Some(""), false, [])

  /** One letter of block_to_list; None when int() raised. */
  function Feed(st: Scan, c: char): Option<Scan>
  {
    if c == ',' || c == '-' then
      var st1 :=
        if st.inRange then
          (var vs := RangeValues(st.val1, st.val);
           if vs.None? then None else Some(Scan("", None, false, st.out + vs.value)))
        else Some(st.(val1 := Some(st.val), val := ""));
      if st1.None? then None
      else if c == ',' then
        Some(if st1.value.val1.Some? then st1.value.(out := st1.value.out + [st1.value.val1.value]) else st1.value)
      else Some(st1.value.(inRange := true))
    else Some(st.(val := st.val + [c]))
  }

  /** The letters of s fed one after the other from st. */
  function ScanFrom(st: Scan, s: string): Option<Scan>
  {
    if s == [] then Some(st)
    else
      var before := ScanFrom(st, s[..|s| - 1]);
      if before.None? then None else Feed(before.value, s[|s| - 1])
  }

  /** block_to_list(block): the block with a ',' appended, letter by
      letter. */
  function BlockList(block: string): Option<seq<string>>
  {
    var st := ScanFrom(BlockStart, block + ",");
    if st.None? then None else Some(st.value.out)
  }

  /** The inner loop: range(int(val1), int(val2) + 1), each value
      rendered. */
  method ExpandRange(lo: Option<string>, hi: string) returns (r: Option<seq<string>>)
    ensures r == RangeValues(lo, hi)
  {
    if lo.None? {
      return None;
    }
    var a := PyInt(lo.value);
    var b := PyInt(hi);
    if a.None? || b.None? {
      return None;
    }
    var first, last, text := a.value, b.value, lo.value;
    var values: seq<string> := [];
    var v := first;
    while v < last + 1
      invariant values + RangeFrom(v, last, text, hi) == RangeFrom(first, last, text, hi)
      decreases last + 1 - v
    {
      RangeFromStep(values, v, last, text, hi);
      values := values + [RangeText(v, text, hi)];
      v := v + 1;
    }
    assert values + RangeFrom(v, last, text, hi) == values;
    return Some(values);
  }

  /** Emitting the first value of a range leaves the rest of it. */
  lemma RangeFromStep(values: seq<string>, v: int, last: int, lo: string, hi: string)
    requires v <= last
    ensures values + RangeFrom(v, last, lo, hi) ==
      (values + [RangeText(v, lo, hi)]) + RangeFrom(v + 1, last, lo, hi)
  {
    assert RangeFrom(v, last, lo, hi) == [RangeText(v, lo, hi)] + RangeFrom(v + 1, last, lo, hi);
  }

  /** block_to_list(block): "1-3,17,19-20" gives 1, 2, 3, 17, 19, 20. */
  method BlockToList(block: string) returns (r: Option<seq<string>>)
    ensures r == BlockList(block)
  {
    var s := block + ",";
    var result: seq<string> := [];
    var val: string := "";
    var val1: Option<string> := Some("");
    var inRange := false;
    var i := 0;
    while i < |s|
      invariant 0 <= i <= |s|
      invariant ScanFrom(BlockStart, s[..i]) == Some(Scan(val, val1, inRange, result))
    {
      var letter := s[i];
      assert s[..i + 1][..i] == s[..i];
      if letter == ',' || letter == '-' {
        if inRange {
          var vs := ExpandRange(val1, val);
          if vs.None? {
            assert ScanFrom(BlockStart, s[..i + 1]) == None;
            assert s[..|s|] == s;
            ScanNoneStays(BlockStart, s, i + 1);
            return None;
          }
          result := result + vs.value;
          val := "";
          val1 := None;
          inRange := false;
        } else {
          val1 := Some(val);
          val := "";
        }
        if letter == ',' {
          if val1.Some? {
            result := result + [val1.value];
          }
        } else {
          inRange := true;
        }
      } else {
        val := val + [letter];
      }
      i := i + 1;
    }
    assert s[..i] == s;
    return Some(result);
  }

  /** Once int() has raised, the rest of the block is not looked at. */
  lemma {:induction false} ScanNoneStays(st: Scan, s: string, n: nat)
    requires n <= |s| && ScanFrom(st, s[..n]) == None
    ensures ScanFrom(st, s) == None
    decreases |s| - n
  {
    if n < |s| {
      assert s[..n + 1][..n] == s[..n];
      ScanNoneStays(st, s, n + 1);
    } else {
      assert s[..n] == s;
    }
  }

  /** Feeding a + b is feeding a, then b. */
  lemma {:induction false} ScanAppend(st: Scan, a: string, b: string)
    ensures ScanFrom(st, a + b) ==
      (var x := ScanFrom(st, a); if x.None? then None else ScanFrom(x.value, b))
    decreases |b|
  {
    if b == [] {
      assert a + b == a;
    } else {
      var ab := a + b;
      assert ab[..|ab| - 1] == a + b[..|b| - 1];
      assert ab[|ab| - 1] == b[|b| - 1];
      ScanAppend(st, a, b[..|b| - 1]);
      var x := ScanFrom(st, a);
      if x.None? {
      }
    }
  }

  /** Letters other than separators only accumulate in val. */
  lemma {:induction false} ScanPlain(st: Scan, s: string)
    requires ',' !in s && '-' !in s
    ensures ScanFrom(st, s) == Some(st.(val := st.val + s))
    decreases |s|
  {
    if s != [] {
      ScanPlain(st, s[..|s| - 1]);
      assert s[|s| - 1] in s;
      assert st.val + s[..|s| - 1] + [s[|s| - 1]] == st.val + s;
    } else {
      assert st.val + s == st.val;
    }
  }

  /** One comma-separated entry of a well-formed block: a plain word, or a
      range of two decimal numbers. */
  datatype BlockItem = Word(w: string) | Span(lo: string, hi: string)

  predicate WellFormedItem(it: BlockItem)
  {
    match it
    case Word(w) => ',' !in w && '-' !in w
    case Span(lo, hi) => lo != [] && hi != [] && AllDigits(lo) && AllDigits(hi)
  }

  function ItemText(it: BlockItem): string
  {
    match it
    case Word(w) => w
    case Span(lo, hi) => lo + "-" + hi
  }

  /** What an entry stands for: the word itself, or every number of the
      range in ascending order. */
  function ItemValues(it: BlockItem): seq<string>
    requires WellFormedItem(it)
  {
    match it
    case Word(w) => [w]
    case Span(lo, hi) => RangeFrom(DigitsValue(lo), DigitsValue(hi), lo, hi)
  }

  /** The entries joined by commas. */
  function Join(items: seq<BlockItem>): string
    requires items != []
  {
    if |items| == 1 then ItemText(items[0]) else ItemText(items[0]) + "," + Join(items[1..])
  }

  /** Each entry followed by a comma. */
  function Terminated(items: seq<BlockItem>): string
  {
    if items == [] then "" else ItemText(items[0]) + "," + Terminated(items[1..])
  }

  function AllValues(items: seq<BlockItem>): seq<string>
    requires forall m :: 0 <= m < |items| ==> WellFormedItem(items[m])
  {
    if items == [] then [] else ItemValues(items[0]) + AllValues(items[1..])
  }

  lemma {:induction false} JoinTerminated(items: seq<BlockItem>)
    requires items != []
    ensures Join(items) + "," == Terminated(items)
  {
    if |items| > 1 {
      JoinTerminated(items[1..]);
    } else {
      assert items[1..] == [];
    }
  }

  /** Feeding one letter. */
  lemma ScanOne(st: Scan, c: char)
    ensures ScanFrom(st, [c]) == Feed(st, c)
  {
    assert [c][..0] == [];
  }

  /** A word and its comma, from a state between entries. */
  lemma WordThenComma(st: Scan, w: string)
    requires st.val == "" && !st.inRange && WellFormedItem(Word(w))
    ensures ScanFrom(st, w + ",") == Some(Scan("", Some(w), false, st.out + [w]))
  {
    ScanAppend(st, w, ",");
    ScanPlain(st, w);
    assert st.val + w == w;
    ScanOne(st.(val := w), ',');
  }

  /** A range and its comma, from a state between entries. */
  lemma SpanThenComma(st: Scan, lo: string, hi: string)
    requires st.val == "" && !st.inRange && WellFormedItem(Span(lo, hi))
    ensures ScanFrom(st, lo + "-" + hi + ",") == Some(Scan("", None, false, st.out + ItemValues(Span(lo, hi))))
  {
    assert lo + "-" + hi + "," == lo + ("-" + (hi + ","));
    ScanAppend(st, lo, "-" + (hi + ","));
    ScanPlain(st, lo);
    assert st.val + lo == lo;
    var s1 := st.(val := lo);
    ScanAppend(s1, "-", hi + ",");
    ScanOne(s1, '-');
    var s2 := Scan("", Some(lo), true, st.out);
    assert Feed(s1, '-') == Some(s2);
    ScanAppend(s2, hi, ",");
    ScanPlain(s2, hi);
    assert "" + hi == hi;
    var s3 := s2.(val := hi);
    ScanOne(s3, ',');
    assert RangeValues(Some(lo), hi) == Some(ItemValues(Span(lo, hi)));
  }

  /** One entry and its comma, from a state between entries. */
  lemma ItemThenComma(st: Scan, it: BlockItem)
    requires st.val == "" && !st.inRange && WellFormedItem(it)
    ensures var x := ScanFrom(st, ItemText(it) + ",");
      x.Some? && x.value.val == "" && !x.value.inRange && x.value.out == st.out + ItemValues(it)
  {
    match it
    case Word(w) => WordThenComma(st, w);
    case Span(lo, hi) => SpanThenComma(st, lo, hi);
  }

  lemma {:induction false} TerminatedValues(st: Scan, items: seq<BlockItem>)
    requires st.val == "" && !st.inRange
    requires forall m :: 0 <= m < |items| ==> WellFormedItem(items[m])
    ensures var x := ScanFrom(st, Terminated(items));
      x.Some? && x.value.out == st.out + AllValues(items)
    decreases |items|
  {
    if items == [] {
      assert Terminated(items) == [];
    } else {
      var head := ItemText(items[0]) + ",";
      var rest := Terminated(items[1..]);
      assert Terminated(items) == head + rest;
      ScanAppend(st, head, rest);
      ItemThenComma(st, items[0]);
      var x := ScanFrom(st, head).value;
      assert forall m :: 0 <= m < |items[1..]| ==> WellFormedItem(items[1..][m]) by {
        forall m | 0 <= m < |items[1..]| ensures WellFormedItem(items[1..][m]) {
          assert items[1..][m] == items[m + 1];
        }
      }
      TerminatedValues(x, items[1..]);
      var y := ScanFrom(x, rest);
      assert ScanFrom(st, Terminated(items)) == y;
      assert AllValues(items) == ItemValues(items[0]) + AllValues(items[1..]);
      AppendAssoc(st.out, ItemValues(items[0]), AllValues(items[1..]));
    }
  }

  lemma AppendAssoc<T>(a: seq<T>, b: seq<T>, c: seq<T>)
    ensures (a + b) + c == a + (b + c)
  {
  }

  /** block_to_list reads a well-formed block entry by entry: the result is
      every entry's values, in order. */
  lemma BlockListOfItems(items: seq<BlockItem>)
    requires items != []
    requires forall m :: 0 <= m < |items| ==> WellFormedItem(items[m])
    ensures BlockList(Join(items)) == Some(AllValues(items))
  {
    JoinTerminated(items);
    TerminatedValues(BlockStart, items);
    var x := ScanFrom(BlockStart, Terminated(items));
    assert BlockStart.out + AllValues(items) == AllValues(items);
    assert BlockList(Join(items)) == Some(x.value.out);
  }

  /** A range whose lower bound starts with '0' yields values at least as
      wide as its upper bound ("01-10" gives 01, 02, ..., 10). */
  lemma ZeroPaddedRange(lo: string, hi: string, m: nat)
    requires WellFormedItem(Span(lo, hi)) && lo[0] == '0'
    requires m < |ItemValues(Span(lo, hi))|
    ensures |ItemValues(Span(lo, hi))[m]| >= |hi| && AllDigits(ItemValues(Span(lo, hi))[m])
    ensures DigitsValue(ItemValues(Span(lo, hi))[m]) == DigitsValue(lo) + m
  {
    var a, b := DigitsValue(lo), DigitsValue(hi);
    assert ItemValues(Span(lo, hi)) == RangeFrom(a, b, lo, hi);
    RangeValueAt(a, b, lo, hi, m);
  }

  /** The m-th value of a range from a natural number is a digit string of
      first + m, padded when lo is. */
  lemma RangeValueAt(first: nat, last: int, lo: string, hi: string, m: nat)
    requires m < |RangeFrom(first, last, lo, hi)|
    ensures AllDigits(RangeFrom(first, last, lo, hi)[m])
    ensures DigitsValue(RangeFrom(first, last, lo, hi)[m]) == first + m
    ensures |lo| > 0 && lo[0] == '0' ==> |RangeFrom(first, last, lo, hi)[m]| >= |hi|
  {
    RangeFromAt(first, last, lo, hi, m);
    RangeTextValue(first + m, lo, hi);
  }

  /** The example of block_to_list's own documentation. */
  lemma BlockListExample(block: string)
    requires block == "1-3,17,19-20"
    ensures BlockList(block) == Some(["1", "2", "3", "17", "19", "20"])
  {
    var items := [Span("1", "3"), Word("17"), Span("19", "20")];
    assert Join(items) == block;
    BlockListOfItems(items);
    assert AllValues(items) == ItemValues(items[0]) + ItemValues(items[1]) + ItemValues(items[2]) by {
      assert items[1..][1..][1..] == [];
    }
    ExampleFirstSpan();
    ExampleLastSpan();
    assert AllValues(items) == ["1", "2", "3"] + ["17"] + ["19", "20"];
    assert ["1", "2", "3"] + ["17"] + ["19", "20"] == ["1", "2", "3", "17", "19", "20"];
  }

  lemma ExampleFirstSpan()
    ensures ItemValues(Span("1", "3")) == ["1", "2", "3"]
  {
    assert DigitsValue("1") == 1 && DigitsValue("3") == 3;
    assert RangeText(1, "1", "3") == "1" && RangeText(2, "1", "3") == "2" && RangeText(3, "1", "3") == "3";
  }

  lemma ExampleLastSpan()
    ensures ItemValues(Span("19", "20")) == ["19", "20"]
  {
    assert DigitsValue("19") == 19 && DigitsValue("20") == 20;
    assert NatToString(19) == "19" && NatToString(20) == "20";
    assert RangeText(19, "19", "20") == "19" && RangeText(20, "19", "20") == "20";
  }

  /** Every value of a block, between the text before the block and the
      text after it. */
  function Decorate(pre: string, vs: seq<string>, rest: string): (r: seq<string>)
    ensures |r| == |vs|
    ensures forall m :: 0 <= m < |vs| ==> r[m] == pre + vs[m] + rest
  {
    if vs == [] then [] else [pre + vs[0] + rest] + Decorate(pre, vs[1..], rest)
  }

  /** expand_item1's variables between two letters: inside a [...] block
      or not, the text outside blocks so far, the block so far, and the
      output. */
  datatype Bracket = Bracket(inBlock: bool, pre: string, block: string, out: seq<string>)

  const BracketStart := Bracket(false, "", "", [])

  /** The letter at position i of item; None when block_to_list raised.
      A ']' outside a block is ordinary text, and a block's values are
      followed by everything after its ']', blocks included. */
  function BracketStep(st: Bracket, item: string, i: nat): Option<Bracket>
    requires i < |item|
  {
    var c := item[i];
    if c == '[' then Some(st.(inBlock := true, block := ""))
    else if c == ']' && st.inBlock then
      var vs := BlockList(st.block);
      if vs.None? then None
      else Some(st.(inBlock := false, out := st.out + Decorate(st.pre, vs.value, item[i + 1..])))
    else if st.inBlock then Some(st.(block := st.block + [c]))
    else Some(st.(pre := st.pre + [c]))
  }

  /** The first n letters of item. */
  function BracketScan(item: string, n: nat): Option<Bracket>
    requires n <= |item|
  {
    if n == 0 then Some(BracketStart)
    else
      var b := BracketScan(item, n - 1);
      if b.None? then None else BracketStep(b.value, item, n - 1)
  }

  /** expand_item1(item): the names an item stands for; the item itself
      when it has no complete block. */
  function ItemNames(item: string): Option<seq<string>>
  {
    var b := BracketScan(item, |item|);
    if b.None? then None else Some(if b.value.out != [] then b.value.out else [item])
  }

  /** expand_item1(item) */
  method ExpandItem1(item: string) returns (r: Option<seq<string>>)
    ensures r == ItemNames(item)
  {
    var result: seq<string> := [];
    var inBlock := false;
    var preBlock: string := "";
    var block: string := "";
    var count := 0;
    while count < |item|
      invariant 0 <= count <= |item|
      invariant BracketScan(item, count) == Some(Bracket(inBlock, preBlock, block, result))
    {
      var letter := item[count];
      if letter == '[' {
        inBlock := true;
        block := "";
      } else if letter == ']' && inBlock {
        inBlock := false;
        var values := BlockToList(block);
        if values.None? {
          BracketNoneStays(item, count + 1);
          return None;
        }
        result := result + Decorate(preBlock, values.value, item[count + 1..]);
      } else if inBlock {
        block := block + [letter];
      } else {
        preBlock := preBlock + [letter];
      }
      count := count + 1;
    }
    if |result| > 0 {
      return Some(result);
    }
    return Some([item]);
  }

  lemma {:induction false} BracketNoneStays(item: string, n: nat)
    requires n <= |item| && BracketScan(item, n) == None
    ensures BracketScan(item, |item|) == None
    decreases |item| - n
  {
    if n < |item| {
      BracketNoneStep(item, n);
      BracketNoneStays(item, n + 1);
    }
  }

  lemma BracketNoneStep(item: string, n: nat)
    requires n < |item| && BracketScan(item, n) == None
    ensures BracketScan(item, n + 1) == None
  {
  }

  /** Outside a block, letters other than '[' are plain text. */
  lemma {:induction false} ScanOutside(item: string, a: nat, b: nat, st: Bracket)
    requires a <= b <= |item| && BracketScan(item, a) == Some(st) && !st.inBlock
    requires '[' !in item[a..b]
    ensures BracketScan(item, b) == Some(st.(pre := st.pre + item[a..b]))
    decreases b - a
  {
    if a == b {
      assert st.pre + item[a..b] == st.pre;
    } else {
      assert item[a..b] == item[a..b - 1] + [item[b - 1]];
      ScanOutside(item, a, b - 1, st);
      assert st.pre + item[a..b - 1] + [item[b - 1]] == st.pre + item[a..b];
    }
  }

  /** Inside a block, letters other than brackets accumulate in the
      block. */
  lemma {:induction false} ScanInside(item: string, a: nat, b: nat, st: Bracket)
    requires a <= b <= |item| && BracketScan(item, a) == Some(st) && st.inBlock
    requires '[' !in item[a..b] && ']' !in item[a..b]
    ensures BracketScan(item, b) == Some(st.(block := st.block + item[a..b]))
    decreases b - a
  {
    if a == b {
      assert st.block + item[a..b] == st.block;
    } else {
      assert item[a..b] == item[a..b - 1] + [item[b - 1]];
      ScanInside(item, a, b - 1, st);
      assert st.block + item[a..b - 1] + [item[b - 1]] == st.block + item[a..b];
    }
  }

  /** An item with no '[' stands for itself. */
  lemma PlainItem(item: string)
    requires '[' !in item
    ensures ItemNames(item) == Some([item])
  {
    assert item[0..|item|] == item;
    ScanOutside(item, 0, |item|, BracketStart);
  }

  /** An item with one block stands for the text before the block, each
      of the block's values, and the text after it: "foo[01-03].bar" names
      foo01.bar, foo02.bar and foo03.bar. */
  lemma OneBlockItem(pre: string, blk: string, rest: string, vs: seq<string>)
    requires '[' !in pre && '[' !in blk && ']' !in blk && '[' !in rest
    requires BlockList(blk) == Some(vs) && vs != []
    ensures ItemNames(pre + "[" + blk + "]" + rest) == Some(Decorate(pre, vs, rest))
  {
    var item := pre + "[" + blk + "]" + rest;
    var close := |pre| + 1 + |blk|;
    ItemLayout(pre, blk, rest);
    ScannedToBlock(pre, blk, rest);
    ScannedBlockBody(item, |pre|, close, pre, blk);
    ScannedPastBlock(item, close, pre, blk, rest, vs);
    var st3 := Bracket(false, pre, blk, Decorate(pre, vs, rest));
    assert item[close + 1..|item|] == rest;
    ScanOutside(item, close + 1, |item|, st3);
  }

  /** Scanning pre[ leaves pre as the text before an empty block. */
  lemma ScannedToBlock(pre: string, blk: string, rest: string)
    requires '[' !in pre && '[' !in blk && ']' !in blk && '[' !in rest
    ensures BracketScan(pre + "[" + blk + "]" + rest, |pre| + 1) == Some(Bracket(true, pre, "", []))
  {
    var item := pre + "[" + blk + "]" + rest;
    var open := |pre|;
    ItemLayout(pre, blk, rest);
    assert item[0..open] == pre;
    ScanOutside(item, 0, open, BracketStart);
    var st0 := Bracket(false, pre, "", []);
    assert BracketScan(item, open) == Some(st0) by {
      assert BracketStart.pre + item[0..open] == pre;
    }
    OpenBracket(item, open, st0);
  }

  /** Scanning a block's letters leaves them as the open block's text. */
  lemma ScannedBlockBody(item: string, open: nat, close: nat, pre: string, blk: string)
    requires open < close <= |item| && item[open + 1..close] == blk
    requires '[' !in blk && ']' !in blk
    requires BracketScan(item, open + 1) == Some(Bracket(true, pre, "", []))
    ensures BracketScan(item, close) == Some(Bracket(true, pre, blk, []))
  {
    ScanInside(item, open + 1, close, Bracket(true, pre, "", []));
    assert "" + blk == blk;
  }

  /** The ']' at close ends the open block and appends its decorated values. */
  lemma ScannedPastBlock(item: string, close: nat, pre: string, blk: string, rest: string, vs: seq<string>)
    requires close < |item| && item[close] == ']' && item[close + 1..] == rest
    requires BracketScan(item, close) == Some(Bracket(true, pre, blk, []))
    requires BlockList(blk) == Some(vs)
    ensures BracketScan(item, close + 1) == Some(Bracket(false, pre, blk, Decorate(pre, vs, rest)))
  {
    CloseBracket(item, close, Bracket(true, pre, blk, []));
    assert [] + Decorate(pre, vs, rest) == Decorate(pre, vs, rest);
  }

  /** Where the brackets of pre[blk]rest sit. */
  lemma ItemLayout(pre: string, blk: string, rest: string)
    ensures var item := pre + "[" + blk + "]" + rest;
      var open, close := |pre|, |pre| + 1 + |blk|;
      && close < |item| && item[open] == '[' && item[close] == ']'
      && item[..open] == pre && item[open + 1..close] == blk && item[close + 1..] == rest
  {
  }

  /** A '[' opens an empty block. */
  lemma OpenBracket(item: string, i: nat, st: Bracket)
    requires i < |item| && BracketScan(item, i) == Some(st) && item[i] == '['
    ensures BracketScan(item, i + 1) == Some(st.(inBlock := true, block := ""))
  {
  }

  /** A ']' closing a block that expands appends its decorated values. */
  lemma CloseBracket(item: string, i: nat, st: Bracket)
    requires i < |item| && BracketScan(item, i) == Some(st) && st.inBlock && item[i] == ']'
    requires BlockList(st.block).Some?
    ensures BracketScan(item, i + 1) ==
      Some(st.(inBlock := false, out := st.out + Decorate(st.pre, BlockList(st.block).value, item[i + 1..])))
  {
  }

  /** The part of an entry that names hosts: everything before its first
      ':'. */
  function HostPart(item: string): string { Before(item, ':') }

  /** expand_item(range_list): the names of every entry, concatenated;
      None when an entry's block raised. */
  function ItemListNames(items: seq<string>): Option<seq<string>>
  {
    if items == [] then Some([])
    else
      var before := ItemListNames(items[..|items| - 1]);
      var last := ItemNames(HostPart(items[|items| - 1]));
      if before.None? || last.None? then None else Some(before.value + last.value)
  }

  /** Expanding two lists of entries one after the other expands their
      concatenation. */
  lemma {:induction false} ItemListAppend(a: seq<string>, b: seq<string>)
    ensures ItemListNames(a + b) ==
      if ItemListNames(a).None? || ItemListNames(b).None? then None
      else Some(ItemListNames(a).value + ItemListNames(b).value)
  {
    if b == [] {
      assert a + b == a;
      assert ItemListNames(b) == Some([]);
      if ItemListNames(a).Some? {
        assert ItemListNames(a).value + [] == ItemListNames(a).value;
      }
    } else {
      var init := b[..|b| - 1];
      ItemListAppend(a, init);
      assert (a + b)[..|a + b| - 1] == a + init;
      assert (a + b)[|a + b| - 1] == b[|b| - 1];
      var x := ItemNames(HostPart(b[|b| - 1]));
      var pa, pi := ItemListNames(a), ItemListNames(init);
      assert ItemListNames(b) == if pi.None? || x.None? then None else Some(pi.value + x.value);
      assert ItemListNames(a + b) == if ItemListNames(a + init).None? || x.None? then None
        else Some(ItemListNames(a + init).value + x.value);
      if pa.Some? && pi.Some? && x.Some? {
        AppendAssoc(pa.value, pi.value, x.value);
      }
    }
  }

  /** expand_item(range_list): the plugin look-up it prepares for never
      happens, so this is one pass over the entries. */
  method ExpandItem(rangeList: seq<string>) returns (r: Option<seq<string>>)
    ensures r == ItemListNames(rangeList)
  {
    var newList: seq<string> := [];
    var i := 0;
    while i < |rangeList|
      invariant 0 <= i <= |rangeList|
      invariant ItemListNames(rangeList[..i]) == Some(newList)
    {
      assert rangeList[..i + 1][..i] == rangeList[..i];
      var names := ExpandItem1(HostPart(rangeList[i]));
      if names.None? {
        ItemListNoneStays(rangeList, i + 1);
        return None;
      }
      newList := newList + names.value;
      i := i + 1;
    }
    assert rangeList[..i] == rangeList;
    return Some(newList);
  }

  lemma {:induction false} ItemListNoneStays(items: seq<string>, n: nat)
    requires n <= |items| && ItemListNames(items[..n]) == None
    ensures ItemListNames(items) == None
    decreases |items| - n
  {
    if n < |items| {
      assert items[..n + 1][..n] == items[..n];
      ItemListNoneStays(items, n + 1);
    } else {
      assert items[..n] == items;
    }
  }

  /** A single string entry: expand_item(item) is its names. */
  lemma ItemListOfOne(item: string)
    ensures ItemListNames([item]) == ItemNames(HostPart(item))
  {
    assert [item][..0] == [];
    var n := ItemNames(HostPart(item));
    if n.Some? {
      assert [] + n.value == n.value;
    }
  }

  /** The elements of a list. */
  function Elems(xs: seq<string>): set<string>
  {
    set x | x in xs
  }

  /** list(s) for a Python set: the order Python iterates a set in is not
      modelled, so it is this parameter; a faithful one lists exactly the
      set's elements. */
  ghost predicate Lists(enum: set<string> -> seq<string>)
  {
    forall s :: Elems(enum(s)) == s
  }

  /** expand's variables between two entries: the groups so far
      (new_list), and the group popped by a '-' waiting for its subtrahend
      (set1, with operation '-'). */
  datatype ExpandState = ExpandState(lists: seq<seq<string>>, pending: Option<seq<string>>)

  /** One entry of expand(). A non-empty pending group is replaced by its
      difference with this entry's names; a '-' after some group pops that
      group; anything else is expanded and appended. */
  function ExpandStep(st: ExpandState, item: string, enum: set<string> -> seq<string>): Option<ExpandState>
  {
    if st.pending.Some? && st.pending.value != [] then
      var minus := ItemListNames([item]);
      if minus.None? then None
      else Some(ExpandState(st.lists + [enum(Elems(st.pending.value) - Elems(minus.value))], None))
    else if item == "-" && st.lists != [] then
      Some(ExpandState(st.lists[..|st.lists| - 1], Some(st.lists[|st.lists| - 1])))
    else
      var names := ItemListNames([item]);
      if names.None? then None else Some(st.(lists := st.lists + [names.value]))
  }

  function ExpandScan(items: seq<string>, enum: set<string> -> seq<string>): Option<ExpandState>
  {
    if items == [] then Some(ExpandState([], None))
    else
      var before := ExpandScan(items[..|items| - 1], enum);
      if before.None? then None else ExpandStep(before.value, items[|items| - 1], enum)
  }

  /** The groups, one after the other. */
  function Concat(ls: seq<seq<string>>): seq<string>
  {
    if ls == [] then [] else Concat(ls[..|ls| - 1]) + ls[|ls| - 1]
  }

  /** What expand() is given: a list of entries, or one string of
      comma-separated entries, each stripped of surrounding whitespace. */
  datatype RangeList = Listed(items: seq<string>) | Joined(text: string)

  function Entries(input: RangeList): seq<string>
  {
    match input
    case Listed(items) => items
    case Joined(text) =>
      var parts := Split(text, ',');
      seq(|parts|, k requires 0 <= k < |parts| => Strip(parts[k]))
  }

  /** expand(range_list) */
  function ExpandNames(input: RangeList, enum: set<string> -> seq<string>): Option<seq<string>>
  {
    var st := ExpandScan(Entries(input), enum);
    if st.None? then None else Some(Concat(st.value.lists))
  }

  /** expand(range_list) */
  method Expand(input: RangeList, enum: set<string> -> seq<string>) returns (r: Option<seq<string>>)
    ensures r == ExpandNames(input, enum)
  {
    var rangeList := Entries(input);
    var newList: seq<seq<string>> := [];
    var set1: Option<seq<string>> := None;
    var i := 0;
    while i < |rangeList|
      invariant 0 <= i <= |rangeList|
      invariant ExpandScan(rangeList[..i], enum) == Some(ExpandState(newList, set1))
    {
      var item := rangeList[i];
      ExpandScanNext(rangeList, i, enum);
      ghost var next := ExpandStep(ExpandState(newList, set1), item, enum);
      if set1.Some? && set1.value != [] {
        var set2 := ExpandItem([item]);
        if set2.None? {
          ExpandNoneStays(rangeList, enum, i + 1);
          return None;
        }
        newList := newList + [enum(Elems(set1.value) - Elems(set2.value))];
        set1 := None;
      } else if item == "-" && |newList| > 0 {
        set1 := Some(newList[|newList| - 1]);
        newList := newList[..|newList| - 1];
      } else {
        var expanded := ExpandItem([item]);
        if expanded.None? {
          ExpandNoneStays(rangeList, enum, i + 1);
          return None;
        }
        newList := newList + [expanded.value];
      }
      assert next == Some(ExpandState(newList, set1));
      i := i + 1;
    }
    assert rangeList[..i] == rangeList;
    var newList2: seq<string> := [];
    var j := 0;
    while j < |newList|
      invariant 0 <= j <= |newList|
      invariant newList2 == Concat(newList[..j])
    {
      assert newList[..j + 1][..j] == newList[..j];
      newList2 := newList2 + newList[j];
      j := j + 1;
    }
    assert newList[..j] == newList;
    return Some(newList2);
  }

  /** The scan of one more entry is one more step. */
  lemma ExpandScanNext(items: seq<string>, i: nat, enum: set<string> -> seq<string>)
    requires i < |items|
    ensures ExpandScan(items[..i + 1], enum) ==
      var b := ExpandScan(items[..i], enum);
      if b.None? then None else ExpandStep(b.value, items[i], enum)
  {
    assert items[..i + 1][..i] == items[..i];
  }

  lemma {:induction false} ExpandNoneStays(items: seq<string>, enum: set<string> -> seq<string>, n: nat)
    requires n <= |items| && ExpandScan(items[..n], enum) == None
    ensures ExpandScan(items, enum) == None
    decreases |items| - n
  {
    if n < |items| {
      assert items[..n + 1][..n] == items[..n];
      ExpandNoneStays(items, enum, n + 1);
    } else {
      assert items[..n] == items;
    }
  }

  /** Without '-' entries, expand() is expand_item over the entries: their
      names concatenated in order. */
  lemma {:induction false} ExpandWithoutMinus(items: seq<string>, enum: set<string> -> seq<string>)
    requires forall k :: 0 <= k < |items| ==> items[k] != "-"
    ensures var st := ExpandScan(items, enum);
      (st.Some? <==> ItemListNames(items).Some?) &&
      (st.Some? ==> st.value.pending.None? && Concat(st.value.lists) == ItemListNames(items).value)
  {
    if items != [] {
      var init := items[..|items| - 1];
      var last := items[|items| - 1];
      ExpandWithoutMinus(init, enum);
      ItemListOfOne(last);
      var st := ExpandScan(init, enum);
      if st.Some? {
        var names := ItemListNames([last]);
        if names.Some? {
          var lists := st.value.lists + [names.value];
          assert lists[..|lists| - 1] == st.value.lists;
        }
      }
    }
  }

  /** expand(['a', '-', 'b']) is a's names less b's, in the order the set
      of them is listed; with a faithful listing, exactly that set. */
  lemma ExpandSubtracts(a: string, b: string, enum: set<string> -> seq<string>)
    requires a != "-"
    requires ItemListNames([a]).Some? && ItemListNames([a]).value != [] && ItemListNames([b]).Some?
    ensures ExpandNames(Listed([a, "-", b]), enum) ==
      Some(enum(Elems(ItemListNames([a]).value) - Elems(ItemListNames([b]).value)))
    ensures Lists(enum) ==>
      Elems(ExpandNames(Listed([a, "-", b]), enum).value) == Elems(ItemListNames([a]).value) - Elems(ItemListNames([b]).value)
  {
    var items := [a, "-", b];
    var na := ItemListNames([a]).value;
    assert items[..2][..1] == [a] && items[..2] == [a, "-"] && [a][..0] == [];
    assert ExpandScan([a], enum) == Some(ExpandState([na], None)) by {
      assert ExpandScan([], enum) == Some(ExpandState([], None));
      assert [] + [na] == [na];
    }
    assert ExpandScan([a, "-"], enum) == Some(ExpandState([], Some(na))) by {
      assert [na][..0] == [];
    }
    var d := enum(Elems(na) - Elems(ItemListNames([b]).value));
    assert ExpandScan(items, enum) == Some(ExpandState([] + [d], None));
    assert [] + [d] == [d];
    assert Concat([d]) == d by { assert [d][..0] == []; }
  }

  /** A trailing '-' drops the group before it: expand(['a', '-']) is
      empty. */
  lemma TrailingMinusDrops(a: string, enum: set<string> -> seq<string>)
    requires a != "-" && ItemListNames([a]).Some?
    ensures ExpandNames(Listed([a, "-"]), enum) == Some([])
  {
    var items := [a, "-"];
    var na := ItemListNames([a]).value;
    assert items[..1] == [a] && [a][..0] == [];
    assert ExpandScan([a], enum) == Some(ExpandState([na], None)) by {
      assert ExpandScan([], enum) == Some(ExpandState([], None));
      assert [] + [na] == [na];
    }
    assert [na][..0] == [];
    assert ExpandScan(items, enum) == Some(ExpandState([], Some(na)));
  }
}
