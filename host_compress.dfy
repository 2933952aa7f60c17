// The host-range grammar (sanity/host_lists.py), compressing side:
// compress() turns host names back into range tokens such as
// "node[01-03].example.com", one run of tokens per domain, and
// multikeysort() is the dictionary sort it uses.
module HostCompress {
  import opened Wrappers
  import opened Text
  import opened Order
  import HostLists

  // ---------------------------------------------------------------------
  // cmp_compat and multikeysort
  // ---------------------------------------------------------------------

  /** A value in the dictionaries multikeysort compares: a str or an int. */
  datatype Val = Str(s: string) | Num(n: int)

  type Row = map<string, Val>

  /** Python 2's a < b on these values: an int sorts before any str, ints
      by value and strs by code points. */
  predicate ValLess(a: Val, b: Val)
  {
    if a.Num? && b.Num? then a.n < b.n
    else if a.Num? || b.Num? then a.Num?
    else StrLess(a.s, b.s)
  }

  /** cmp_compat(a, b) = (a > b) - (a < b) */
  function CmpCompat(a: Val, b: Val): int
  {
    (if ValLess(b, a) then 1 else 0) - (if ValLess(a, b) then 1 else 0)
  }

  /** cmp_compat is a three-way comparison: negative exactly when a < b,
      zero exactly when the values are equal, and it flips sign when its
      arguments are swapped. */
  lemma CmpCompatMeaning(a: Val, b: Val)
    ensures -1 <= CmpCompat(a, b) <= 1
    ensures CmpCompat(a, b) < 0 <==> ValLess(a, b)
    ensures CmpCompat(a, b) == 0 <==> a == b
    ensures CmpCompat(a, b) == -CmpCompat(b, a)
  {
    if a.Str? && b.Str? {
      StrLessIrreflexive(a.s);
      if StrLess(a.s, b.s) && StrLess(b.s, a.s) {
        StrLessTransitive(a.s, b.s, a.s);
      }
      if a.s != b.s {
        StrLessTotal(a.s, b.s);
      }
    }
  }

  lemma ValLessTransitive(a: Val, b: Val, c: Val)
    requires ValLess(a, b) && ValLess(b, c)
    ensures ValLess(a, c)
  {
    if a.Str? && c.Str? {
      StrLessTransitive(a.s, b.s, c.s);
    }
  }

  /** A sort column: the key, and 1 for ascending or -1 for a leading '-'. */
  function Column(col: string): (string, int)
  {
    if |col| > 0 && col[0] == '-' then (Strip(col[1..]), -1) else (Strip(col), 1)
  }

  /** multikeysort's comparer(left, right): the first column on which the
      rows differ decides, times its direction; a row without the column
      (KeyError) ends the comparison as equal. */
  function Comparer(left: Row, right: Row, cols: seq<string>): (r: int)
    ensures -1 <= r <= 1
  {
    if cols == [] then 0
    else
      var key := Column(cols[0]).0;
      var mult := Column(cols[0]).1;
      if key !in left || key !in right then 0
      else
        var c := CmpCompat(left[key], right[key]);
        if c != 0 then mult * c else Comparer(left, right, cols[1..])
  }

  /** sorted(items, cmp=comparer) */
  function MultiKeySort(items: seq<Row>, cols: seq<string>): seq<Row>
  {
    Sort(items, (a, b) => Comparer(a, b, cols) < 0)
  }

  /** The row holds every column's key. */
  predicate HasColumns(row: Row, cols: seq<string>)
  {
    forall k :: 0 <= k < |cols| ==> Column(cols[k]).0 in row
  }

  lemma {:induction false} ComparerSelf(a: Row, cols: seq<string>)
    ensures Comparer(a, a, cols) == 0
    decreases |cols|
  {
    if cols != [] {
      var key := Column(cols[0]).0;
      if key in a {
        CmpCompatMeaning(a[key], a[key]);
        ComparerSelf(a, cols[1..]);
      }
    }
  }

  /** Swapping the rows negates the comparison. */
  lemma {:induction false} ComparerAntisymmetric(a: Row, b: Row, cols: seq<string>)
    ensures Comparer(a, b, cols) == -Comparer(b, a, cols)
    decreases |cols|
  {
    if cols != [] {
      var key := Column(cols[0]).0;
      if key in a && key in b {
        CmpCompatMeaning(a[key], b[key]);
        ComparerAntisymmetric(a, b, cols[1..]);
      }
    }
  }

  lemma {:induction false} ComparerTransitive(a: Row, b: Row, c: Row, cols: seq<string>)
    requires HasColumns(a, cols) && HasColumns(b, cols) && HasColumns(c, cols)
    requires Comparer(a, b, cols) < 0 && Comparer(b, c, cols) < 0
    ensures Comparer(a, c, cols) < 0
    decreases |cols|
  {
    var key := Column(cols[0]).0;
    var mult := Column(cols[0]).1;
    assert key in a && key in b && key in c;
    CmpCompatMeaning(a[key], b[key]);
    CmpCompatMeaning(b[key], c[key]);
    CmpCompatMeaning(a[key], c[key]);
    var rest := cols[1..];
    assert HasColumns(a, rest) && HasColumns(b, rest) && HasColumns(c, rest) by {
      forall k | 0 <= k < |rest| ensures Column(rest[k]).0 in a && Column(rest[k]).0 in b && Column(rest[k]).0 in c {
        assert rest[k] == cols[k + 1];
      }
    }
    if a[key] == b[key] && b[key] == c[key] {
      ComparerTransitive(a, b, c, rest);
    } else if a[key] != b[key] && b[key] != c[key] {
      if mult == 1 {
        ValLessTransitive(a[key], b[key], c[key]);
      } else {
        ValLessTransitive(c[key], b[key], a[key]);
        CmpCompatMeaning(c[key], a[key]);
      }
    }
  }

  /** Rows that compare equal on every column compare alike with any row. */
  lemma {:induction false} ComparerCongruent(x: Row, a: Row, b: Row, cols: seq<string>)
    requires HasColumns(a, cols) && HasColumns(b, cols) && Comparer(a, b, cols) == 0
    ensures Comparer(x, a, cols) == Comparer(x, b, cols)
    decreases |cols|
  {
    if cols != [] {
      var key := Column(cols[0]).0;
      assert key in a && key in b;
      CmpCompatMeaning(a[key], b[key]);
      var rest := cols[1..];
      assert HasColumns(a, rest) && HasColumns(b, rest) by {
        forall k | 0 <= k < |rest| ensures Column(rest[k]).0 in a && Column(rest[k]).0 in b {
          assert rest[k] == cols[k + 1];
        }
      }
      ComparerCongruent(x, a, b, rest);
    }
  }

  /** On rows that hold every column, the comparer is a strict weak order:
      the lexicographic order of the columns, each ascending or descending. */
  lemma ComparerIsWeakOrder(cols: seq<string>)
    ensures IsStrictWeakOrderOn((a, b) => Comparer(a, b, cols) < 0, (r: Row) => HasColumns(r, cols))
  {
    forall a: Row ensures Comparer(a, a, cols) >= 0 {
      ComparerSelf(a, cols);
    }
    forall a: Row, b: Row, c: Row | HasColumns(a, cols) && HasColumns(b, cols) && HasColumns(c, cols)
      && Comparer(a, b, cols) < 0 && Comparer(b, c, cols) < 0
      ensures Comparer(a, c, cols) < 0
    {
      ComparerTransitive(a, b, c, cols);
    }
    forall a: Row, b: Row, c: Row | HasColumns(a, cols) && HasColumns(b, cols) && HasColumns(c, cols)
      && Comparer(a, c, cols) < 0
      ensures Comparer(a, b, cols) < 0 || Comparer(b, c, cols) < 0
    {
      ComparerAntisymmetric(a, b, cols);
      ComparerAntisymmetric(b, c, cols);
      if Comparer(a, b, cols) == 0 {
        ComparerCongruent(c, a, b, cols);
        ComparerAntisymmetric(a, c, cols);
        ComparerAntisymmetric(b, c, cols);
      } else if Comparer(b, c, cols) == 0 {
        ComparerCongruent(a, b, c, cols);
      } else if Comparer(a, b, cols) > 0 && Comparer(b, c, cols) > 0 {
        ComparerTransitive(c, b, a, cols);
        ComparerAntisymmetric(a, c, cols);
      }
    }
  }

  /** multikeysort returns the same rows, ordered by the columns when every
      row holds them all. */
  lemma MultiKeySortSorts(items: seq<Row>, cols: seq<string>)
    ensures multiset(MultiKeySort(items, cols)) == multiset(items)
    ensures (forall k :: 0 <= k < |items| ==> HasColumns(items[k], cols)) ==>
      Sorted(MultiKeySort(items, cols), (a, b) => Comparer(a, b, cols) < 0)
  {
    if forall k :: 0 <= k < |items| ==> HasColumns(items[k], cols) {
      ComparerIsWeakOrder(cols);
      SortSortedOn(items, (a, b) => Comparer(a, b, cols) < 0, (r: Row) => HasColumns(r, cols));
    }
  }

  /** A row missing the first column compares equal to every row, whatever
      the later columns hold. */
  lemma MissingColumnIsEqual(a: Row, b: Row, cols: seq<string>)
    requires cols != [] && Column(cols[0]).0 !in a
    ensures Comparer(a, b, cols) == 0 && Comparer(b, a, cols) == 0
  {
  }

  // ---------------------------------------------------------------------
  // Parsing a name
  // ---------------------------------------------------------------------

  /** compress_domain's dictionary for one name: the prefix, number and
      suffix groups of its pattern with the number's value (number_int), or
      just the name ('host') for a name without a '.'. */
  datatype Entry =
    | Numbered(prefix: string, number: string, numberInt: nat, suffix: string)
    | Lone(host: string)

  /** The name an entry was parsed from. */
  function HostText(e: Entry): string
  {
    match e
    case Numbered(p, n, _, x) => p + n + x
    case Lone(h) => h
  }

  /** The entry as the dictionary multikeysort sees. */
  function RowOf(e: Entry): Row
  {
    match e
    case Numbered(p, n, v, x) =>
      map["prefix" := Str(p), "number" := Str(n), "suffix" := Str(x), "number_int" := Num(v)]
    case Lone(h) => map["host" := Str(h)]
  }

  /** What parsing guarantees of a numbered entry. */
  predicate ValidEntry(e: Entry)
  {
    e.Numbered? ==> e.number != [] && AllDigits(e.number) && e.numberInt == DigitsValue(e.number)
  }

  /** One past the last digit among s[..n], or 0 when there is none. */
  function LastDigitEnd(s: string, n: nat): (q: nat)
    requires n <= |s|
    ensures q <= n && (q > 0 ==> IsDigit(s[q - 1]))
    ensures forall k :: q <= k < n ==> !IsDigit(s[k])
  {
    if n == 0 then 0 else if IsDigit(s[n - 1]) then n else LastDigitEnd(s, n - 1)
  }

  /** The start of the run of digits that ends at q. */
  function RunStart(s: string, q: nat): (p: nat)
    requires q <= |s|
    ensures p <= q && (p > 0 ==> !IsDigit(s[p - 1]))
    ensures forall k :: p <= k < q ==> IsDigit(s[k])
  {
    if q > 0 && IsDigit(s[q - 1]) then RunStart(s, q - 1) else q
  }

  /** The source's pattern prefix, optional number, then a suffix of
      non-digits up to a '.' and anything after, matched on a name with a
      '.': the suffix must reach a '.' through non-digits,
      so the number is the last run of digits before the first '.', and the
      lazy prefix is everything before it. When the first label holds no
      digit the number group is None and int(None) raises TypeError (None). */
  function MatchDotted(h: string): Option<Entry>
    requires '.' in h
  {
    var first := Before(h, '.');
    var q := LastDigitEnd(first, |first|);
    if q == 0 then None
    else
      var p := RunStart(first, q);
      assert forall k :: p <= k < q ==> h[k] == first[k];
      Some(Numbered(h[..p], h[p..q], DigitsValue(h[p..q]), h[q..]))
  }

  /** str.strip('.') */
  function StripDots(s: string): string
  {
    if s != [] && s[0] == '.' then StripDots(s[1..])
    else if s != [] && s[|s| - 1] == '.' then StripDots(s[..|s| - 1])
    else s
  }

  /** One name of compress_domain's parsing loop. A name with a '.' always
      matches the pattern; a name without one does not (AttributeError)
      and becomes compress([h + '.'])[0].strip('.'), where compressing a
      single name yields the name its entry was parsed from. */
  function ParseHost(h: string): Option<Entry>
  {
    if '.' in h then MatchDotted(h)
    else
      match MatchDotted(h + ".")
      case None => None
      case Some(e) => Some(Lone(StripDots(HostText(e))))
  }

  /** Parsing a name with a '.' fails exactly when its first label has no
      digit. */
  lemma MatchDottedFails(h: string)
    requires '.' in h
    ensures MatchDotted(h).None? <==> !HasDigit(Before(h, '.'))
  {
  }

  /** The pattern's groups for a name with a '.': they spell the name, the
      number is a maximal run of digits, and only non-digits lie between it
      and the first '.'. */
  lemma MatchDottedGroups(h: string)
    requires '.' in h && MatchDotted(h).Some?
    ensures var e := MatchDotted(h).value;
      && e.Numbered? && ValidEntry(e) && HostText(e) == h
      && (e.prefix == [] || !IsDigit(e.prefix[|e.prefix| - 1]))
      && '.' in e.suffix && !HasDigit(Before(e.suffix, '.'))
  {
    MatchDottedSpells(h);
    MatchDottedSuffix(h);
  }

  lemma MatchDottedSpells(h: string)
    requires '.' in h && MatchDotted(h).Some?
    ensures var e := MatchDotted(h).value;
      e.Numbered? && ValidEntry(e) && HostText(e) == h
      && (e.prefix == [] || !IsDigit(e.prefix[|e.prefix| - 1]))
  {
    var first := Before(h, '.');
    var q := LastDigitEnd(first, |first|);
    var p := RunStart(first, q);
    var num := h[p..q];
    forall i | 0 <= i < |num| ensures IsDigit(num[i]) {
      assert num[i] == first[p + i];
    }
    assert h[..p] + num + h[q..] == h;
  }

  lemma MatchDottedSuffix(h: string)
    requires '.' in h && MatchDotted(h).Some?
    ensures var e := MatchDotted(h).value;
      e.Numbered? && '.' in e.suffix && !HasDigit(Before(e.suffix, '.'))
  {
    var first := Before(h, '.');
    var rest := After(h, '.');
    var q := LastDigitEnd(first, |first|);
    var tail := first[q..];
    assert MatchDotted(h).value.suffix == h[q..];
    assert h[q..] == tail + ['.'] + rest by {
      assert h == first + ['.'] + rest;
    }
    DotAfter(tail, rest);
    forall i | 0 <= i < |tail| ensures !IsDigit(tail[i]) {
      assert tail[i] == first[q + i];
    }
  }

  /** In a + '.' + b, with no '.' in a, the text before the first '.' is a. */
  lemma DotAfter(a: string, b: string)
    requires '.' !in a
    ensures '.' in a + ['.'] + b && Before(a + ['.'] + b, '.') == a
  {
    assert (a + ['.'] + b)[|a|] == '.';
    BeforeOf(a, b);
  }

  /** The text before the first c of a + [c] + b is a when c is not in a. */
  lemma {:induction false} BeforeOf(a: string, b: string)
    requires '.' !in a
    ensures Before(a + ['.'] + b, '.') == a
  {
    if a != [] {
      BeforeOf(a[1..], b);
      assert (a + ['.'] + b)[1..] == a[1..] + ['.'] + b;
    }
  }

  /** A name without a '.' parses to itself exactly when it holds a digit. */
  lemma DotlessMeaning(h: string)
    requires '.' !in h
    ensures ParseHost(h) == if HasDigit(h) then Some(Lone(h)) else None
  {
    var d := h + ['.'];
    assert Before(d, '.') == h by {
      BeforeOf(h, []);
      assert h + ['.'] + [] == d;
    }
    MatchDottedFails(d);
    if HasDigit(h) {
      MatchDottedSpells(d);
      StripTrailingDot(h);
    }
  }

  lemma StripTrailingDot(h: string)
    requires '.' !in h && h != []
    ensures StripDots(h + ['.']) == h
  {
    var d := h + ['.'];
    assert d[0] == h[0] && d[..|d| - 1] == h;
    assert h[0] in h && h[|h| - 1] in h;
  }

  /** Every parsed entry spells the name it came from. */
  lemma ParseRoundTrip(h: string)
    requires ParseHost(h).Some?
    ensures ValidEntry(ParseHost(h).value) && HostText(ParseHost(h).value) == h
  {
    if '.' in h {
      MatchDottedGroups(h);
    } else {
      DotlessMeaning(h);
    }
  }

  // ---------------------------------------------------------------------
  // Ordering the entries
  // ---------------------------------------------------------------------

  /** compress_domain sorts its dictionaries by ['prefix', 'number_int']. */
  const SortColumns: seq<string> := ["prefix", "number_int"]

  predicate EntryLess(a: Entry, b: Entry)
  {
    Comparer(RowOf(a), RowOf(b), SortColumns) < 0
  }

  /** multikeysort(new_hosts, ['prefix', 'number_int']) on the entries. */
  function SortEntries(es: seq<Entry>): seq<Entry>
  {
    Sort(es, (a, b) => EntryLess(a, b))
  }

  function RowsOf(es: seq<Entry>): (rows: seq<Row>)
    ensures |rows| == |es|
  {
    if es == [] then [] else [RowOf(es[0])] + RowsOf(es[1..])
  }

  lemma {:induction false} InsertRows(x: Entry, ys: seq<Entry>)
    ensures RowsOf(Insert(x, ys, (a, b) => EntryLess(a, b)))
      == Insert(RowOf(x), RowsOf(ys), (a, b) => Comparer(a, b, SortColumns) < 0)
  {
    if ys != [] && EntryLess(ys[0], x) {
      InsertRows(x, ys[1..]);
    }
  }

  /** Sorting the entries sorts their dictionaries exactly as multikeysort
      does. */
  lemma {:induction false} SortEntriesIsMultiKeySort(es: seq<Entry>)
    ensures RowsOf(SortEntries(es)) == MultiKeySort(RowsOf(es), SortColumns)
  {
    if es != [] {
      SortEntriesIsMultiKeySort(es[1..]);
      InsertRows(es[0], SortEntries(es[1..]));
    }
  }

  /** Numbered entries sort by prefix, then by the number's value; an entry
      without a prefix (a name without a '.') compares equal to every
      entry. */
  lemma EntryOrder(a: Entry, b: Entry)
    ensures a.Numbered? && b.Numbered? ==>
      (EntryLess(a, b) <==> StrLess(a.prefix, b.prefix) || (a.prefix == b.prefix && a.numberInt < b.numberInt))
    ensures a.Lone? || b.Lone? ==> !EntryLess(a, b) && !EntryLess(b, a)
  {
    assert Strip("prefix") == "prefix";
    assert Strip("number_int") == "number_int";
    assert Column(SortColumns[0]) == ("prefix", 1);
    var rest := SortColumns[1..];
    assert rest == ["number_int"] && rest[1..] == [];
    assert Column(rest[0]) == ("number_int", 1);
    if a.Numbered? && b.Numbered? {
      var ra := RowOf(a);
      var rb := RowOf(b);
      assert ra["prefix"] == Str(a.prefix) && rb["prefix"] == Str(b.prefix);
      assert ra["number_int"] == Num(a.numberInt) && rb["number_int"] == Num(b.numberInt);
      CmpCompatMeaning(Str(a.prefix), Str(b.prefix));
      CmpCompatMeaning(Num(a.numberInt), Num(b.numberInt));
      assert Comparer(ra, rb, rest[1..]) == 0;
      var c1 := CmpCompat(Str(a.prefix), Str(b.prefix));
      var c2 := CmpCompat(Num(a.numberInt), Num(b.numberInt));
      assert Comparer(ra, rb, rest) == c2;
      assert Comparer(ra, rb, SortColumns) == if c1 != 0 then c1 else c2;
    } else {
      assert "prefix" !in RowOf(a) || "prefix" !in RowOf(b);
    }
  }

  // ---------------------------------------------------------------------
  // Grouping the entries into blocks
  // ---------------------------------------------------------------------

  /** When a numbered entry joins the block being built: as written, on the
      same prefix and suffix with the next number; KeepPadding also demands
      that the number be as wide as the previous one, unless neither it nor
      the block's first number has a leading zero, so that the range syntax
      can print every number of the block. */
  datatype Rule = AsWritten | KeepPadding

  predicate Unpadded(n: string) { n != [] && n[0] != '0' }

  predicate Extends(rule: Rule, e: Entry, prev: Entry, block: seq<Entry>)
    requires e.Numbered? && prev.Numbered?
  {
    && e.prefix == prev.prefix && e.suffix == prev.suffix && e.numberInt == prev.numberInt + 1
    && (rule == KeepPadding ==>
          |e.number| == |prev.number|
          || (block != [] && block[0].Numbered? && Unpadded(block[0].number) && Unpadded(e.number)))
  }

  /** The grouping loop's variables: the closed blocks (items), the block
      being built (items_block) and the previous entry (prev_dict). */
  datatype Group = Group(items: seq<seq<Entry>>, block: seq<Entry>, prev: Entry)

  /** prev_dict's initial {'prefix': '', 'suffix': '', 'number': 0} */
  const StartPrev: Entry := Numbered("", "0", 0, "")

  const GroupStart: Group := Group([], [], StartPrev)

  /** items.append(items_block) when items_block is non-empty. */
  function Close(items: seq<seq<Entry>>, block: seq<Entry>): seq<seq<Entry>>
  {
    if block != [] then items + [block] else items
  }

  /** One entry of the grouping loop. A numbered entry after an entry
      without a prefix reads prev_dict['prefix'], which raises KeyError
      (None). */
  function GroupStep(rule: Rule, g: Group, e: Entry): Option<Group>
  {
    if e.Lone? then Some(Group(Close(g.items, g.block), [e], e))
    else if g.prev.Lone? then None
    else if Extends(rule, e, g.prev, g.block) then Some(Group(g.items, g.block + [e], e))
    else Some(Group(Close(g.items, g.block), [e], e))
  }

  function GroupScan(rule: Rule, es: seq<Entry>): Option<Group>
  {
    if es == [] then Some(GroupStart)
    else
      var before := GroupScan(rule, es[..|es| - 1]);
      if before.None? then None else GroupStep(rule, before.value, es[|es| - 1])
  }

  /** items after the loop's final items.append(items_block). */
  function Blocks(rule: Rule, es: seq<Entry>): Option<seq<seq<Entry>>>
  {
    var g := GroupScan(rule, es);
    if g.None? then None else Some(g.value.items + [g.value.block])
  }

  /** The blocks, one after the other. */
  function Flatten(bs: seq<seq<Entry>>): seq<Entry>
  {
    if bs == [] then [] else Flatten(bs[..|bs| - 1]) + bs[|bs| - 1]
  }

  /** y carries on from x: the same prefix and suffix, the next number. */
  predicate Next(x: Entry, y: Entry)
  {
    && x.Numbered? && y.Numbered?
    && y.prefix == x.prefix && y.suffix == x.suffix && y.numberInt == x.numberInt + 1
  }

  /** Consecutive numbers under one prefix and suffix. */
  predicate Linked(b: seq<Entry>)
  {
    forall i, j :: 0 <= i < |b| && 0 <= j < |b| && j == i + 1 ==> Next(b[i], b[j])
  }

  /** y is as wide as x, or neither y nor the block's first entry has a
      leading zero. */
  predicate Padded(first: Entry, x: Entry, y: Entry)
  {
    && first.Numbered? && x.Numbered? && y.Numbered?
    && (|y.number| == |x.number| || (Unpadded(first.number) && Unpadded(y.number)))
  }

  predicate PaddingKept(b: seq<Entry>)
  {
    forall i, j :: 0 <= i < |b| && 0 <= j < |b| && j == i + 1 ==> Padded(b[0], b[i], b[j])
  }

  predicate Run(rule: Rule, b: seq<Entry>)
  {
    Linked(b) && (rule == KeepPadding ==> PaddingKept(b))
  }

  /** e did not join block b, which was closed before it. */
  predicate Separated(rule: Rule, b: seq<Entry>, e: Entry)
  {
    b != [] && (e.Lone? || b[|b| - 1].Lone? || !Extends(rule, e, b[|b| - 1], b))
  }

  /** What the grouping loop keeps: its blocks, then the open one, are the
      entries in order; every block is a run; and each closed block was
      closed because the next entry could not join it. */
  predicate GroupInvariant(rule: Rule, es: seq<Entry>, g: Group)
  {
    && Flatten(g.items) + g.block == es
    && (forall i :: 0 <= i < |g.items| ==> g.items[i] != [] && Run(rule, g.items[i]))
    && Run(rule, g.block)
    && (es == [] ==> g == GroupStart)
    && (es != [] ==> g.block != [] && g.prev == g.block[|g.block| - 1])
    && (forall i :: 0 < i < |g.items| ==> Separated(rule, g.items[i - 1], g.items[i][0]))
    && (g.items != [] ==> g.block != [] && Separated(rule, g.items[|g.items| - 1], g.block[0]))
  }

  lemma FlattenAppend(bs: seq<seq<Entry>>, b: seq<Entry>)
    ensures Flatten(bs + [b]) == Flatten(bs) + b
  {
    assert (bs + [b])[..|bs|] == bs;
  }

  lemma {:induction false} GroupScanKeeps(rule: Rule, es: seq<Entry>)
    requires GroupScan(rule, es).Some?
    ensures GroupInvariant(rule, es, GroupScan(rule, es).value)
  {
    if es != [] {
      var init := es[..|es| - 1];
      var e := es[|es| - 1];
      assert es == init + [e];
      GroupScanKeeps(rule, init);
      var g := GroupScan(rule, init).value;
      if e.Lone? || !Extends(rule, e, g.prev, g.block) {
        StepCloses(rule, init, g, e);
      } else {
        StepExtends(rule, init, g, e);
      }
    }
  }

  lemma StepCloses(rule: Rule, es: seq<Entry>, g: Group, e: Entry)
    requires GroupInvariant(rule, es, g) && GroupStep(rule, g, e).Some?
    requires e.Lone? || !Extends(rule, e, g.prev, g.block)
    ensures GroupInvariant(rule, es + [e], GroupStep(rule, g, e).value)
  {
    if g.block == [] {
      assert es == [] && g == GroupStart;
      assert GroupStep(rule, g, e).value == Group([], [e], e);
      assert [] + [e] == es + [e];
    } else {
      CloseBlock(rule, es, g, e);
    }
  }

  lemma CloseBlock(rule: Rule, es: seq<Entry>, g: Group, e: Entry)
    requires GroupInvariant(rule, es, g) && GroupStep(rule, g, e).Some? && g.block != []
    requires e.Lone? || !Extends(rule, e, g.prev, g.block)
    ensures GroupInvariant(rule, es + [e], GroupStep(rule, g, e).value)
  {
    var items := g.items + [g.block];
    var g' := Group(items, [e], e);
    assert GroupStep(rule, g, e).value == g';
    FlattenAppend(g.items, g.block);
    assert Flatten(items) + [e] == es + [e];
    assert Separated(rule, g.block, e);
    forall i | 0 <= i < |items| ensures items[i] != [] && Run(rule, items[i]) {
      if i < |g.items| {
        assert items[i] == g.items[i];
      }
    }
    forall i | 0 < i < |items| ensures Separated(rule, items[i - 1], items[i][0]) {
      if i < |g.items| {
        assert items[i - 1] == g.items[i - 1] && items[i] == g.items[i];
      } else {
        assert items[i] == g.block;
      }
    }
    assert Run(rule, [e]);
  }

  lemma StepExtends(rule: Rule, es: seq<Entry>, g: Group, e: Entry)
    requires GroupInvariant(rule, es, g) && GroupStep(rule, g, e).Some?
    requires e.Numbered? && g.prev.Numbered? && Extends(rule, e, g.prev, g.block)
    ensures GroupInvariant(rule, es + [e], GroupStep(rule, g, e).value)
  {
    var b := g.block + [e];
    assert GroupStep(rule, g, e).value == Group(g.items, b, e);
    if g.block == [] {
      assert b == [e];
    } else {
      forall i, j | 0 <= i < |b| && 0 <= j < |b| && j == i + 1 ensures Next(b[i], b[j]) {
        if j < |g.block| {
          assert b[i] == g.block[i] && b[j] == g.block[j];
        }
      }
      if rule == KeepPadding {
        assert b[0] == g.block[0];
        assert g.block[0].Numbered? by {
          if |g.block| > 1 {
            assert Padded(g.block[0], g.block[0], g.block[1]);
          }
        }
        forall i, j | 0 <= i < |b| && 0 <= j < |b| && j == i + 1 ensures Padded(b[0], b[i], b[j]) {
          if j < |g.block| {
            assert b[i] == g.block[i] && b[j] == g.block[j];
          } else {
            assert b[i] == g.prev && b[j] == e;
          }
        }
      }
    }
  }

  /** The blocks compress_domain prints: the entries in order, split into
      runs, every block but the last non-empty, the last empty only when
      there are no entries, and each block closed because the next entry
      could not join it. */
  lemma GroupedBlocks(rule: Rule, es: seq<Entry>)
    requires Blocks(rule, es).Some?
    ensures var bs := Blocks(rule, es).value;
      && |bs| >= 1 && Flatten(bs) == es
      && (forall i :: 0 <= i < |bs| ==> Run(rule, bs[i]))
      && (forall i :: 0 <= i < |bs| - 1 ==> bs[i] != [])
      && (bs[|bs| - 1] == [] <==> es == [])
      && (forall i :: 0 < i < |bs| && bs[i] != [] ==> Separated(rule, bs[i - 1], bs[i][0]))
  {
    GroupScanKeeps(rule, es);
    var g := GroupScan(rule, es).value;
    var bs := g.items + [g.block];
    FlattenAppend(g.items, g.block);
    forall i | 0 <= i < |bs| ensures Run(rule, bs[i]) {
      if i < |g.items| {
        assert bs[i] == g.items[i];
      }
    }
    forall i | 0 < i < |bs| && bs[i] != [] ensures Separated(rule, bs[i - 1], bs[i][0]) {
      if i < |g.items| {
        assert bs[i - 1] == g.items[i - 1] && bs[i] == g.items[i];
      }
    }
  }

  lemma {:induction false} GroupNoneStays(rule: Rule, es: seq<Entry>, n: nat)
    requires n <= |es| && GroupScan(rule, es[..n]) == None
    ensures GroupScan(rule, es) == None
    decreases |es| - n
  {
    if n < |es| {
      assert es[..n + 1][..n] == es[..n];
      GroupNoneStays(rule, es, n + 1);
    } else {
      assert es[..n] == es;
    }
  }

  // ---------------------------------------------------------------------
  // compress_domain
  // ---------------------------------------------------------------------

  /** How compress_domain prints a block: a single entry as its name, a
      longer run as prefix[first-last]suffix. */
  function Token(b: seq<Entry>): string
    requires b != [] && Linked(b)
  {
    if |b| == 1 then HostText(b[0])
    else
      assert Next(b[0], b[1]) && Next(b[|b| - 2], b[|b| - 1]);
      var blk := b[0].number + "-" + b[|b| - 1].number;
      b[0].prefix + "[" + blk + "]" + b[0].suffix
  }

  /** One token per non-empty block, in order. */
  function Tokens(bs: seq<seq<Entry>>): seq<string>
    requires forall i :: 0 <= i < |bs| ==> Linked(bs[i])
  {
    if bs == [] then []
    else
      var last := bs[|bs| - 1];
      Tokens(bs[..|bs| - 1]) + (if last == [] then [] else [Token(last)])
  }

  /** f applied to every element, in order; None once f gives None. */
  function Collect<A, B>(xs: seq<A>, f: A -> Option<B>): Option<seq<B>>
  {
    if xs == [] then Some([])
    else
      var before := Collect(xs[..|xs| - 1], f);
      var y := f(xs[|xs| - 1]);
      if before.None? || y.None? then None else Some(before.value + [y.value])
  }

  lemma {:induction false} CollectNoneStays<A, B>(xs: seq<A>, f: A -> Option<B>, n: nat)
    requires n <= |xs| && Collect(xs[..n], f) == None
    ensures Collect(xs, f) == None
    decreases |xs| - n
  {
    if n < |xs| {
      assert xs[..n + 1][..n] == xs[..n];
      CollectNoneStays(xs, f, n + 1);
    } else {
      assert xs[..n] == xs;
    }
  }

  /** Collect fails exactly when f fails on some element, and otherwise
      holds f's value for every element. */
  lemma {:induction false} CollectEach<A, B>(xs: seq<A>, f: A -> Option<B>)
    ensures Collect(xs, f).None? <==> exists k :: 0 <= k < |xs| && f(xs[k]).None?
    ensures Collect(xs, f).Some? ==>
      |Collect(xs, f).value| == |xs| && forall k :: 0 <= k < |xs| ==> f(xs[k]) == Some(Collect(xs, f).value[k])
  {
    if xs != [] {
      var init := xs[..|xs| - 1];
      CollectEach(init, f);
      assert forall k :: 0 <= k < |init| ==> init[k] == xs[k];
      assert xs[|xs| - 1] == xs[|init|];
    }
  }

  lemma CollectOne<A, B>(x: A, f: A -> Option<B>)
    ensures Collect([x], f) == if f(x).None? then None else Some([f(x).value])
  {
    assert [x][..0] == [] && [x][0] == x;
    assert Collect([], f) == Some([]);
    if f(x).Some? {
      assert [] + [f(x).value] == [f(x).value];
    }
  }

  /** The parsing loop: every name's entry, in order; None once a name
      raises. */
  function ParseAll(hs: seq<string>): Option<seq<Entry>>
  {
    Collect(hs, ParseHost)
  }

  /** compress_domain(hostnames): sort the names, parse each, sort the
      entries by prefix and number, group them and print each block; None
      when a name or the grouping raises. */
  function CompressDomainSpec(rule: Rule, hostnames: seq<string>): Option<seq<string>>
  {
    var parsed := ParseAll(Sort(hostnames, (a, b) => StrLess(a, b)));
    if parsed.None? then None
    else
      var es := SortEntries(parsed.value);
      var bs := Blocks(rule, es);
      if bs.None? then None
      else
        GroupedBlocks(rule, es);
        Some(Tokens(bs.value))
  }

  /** compress_domain's parsing loop over the sorted names. */
  method ParseHosts(hs: seq<string>) returns (r: Option<seq<Entry>>)
    ensures r == ParseAll(hs)
  {
    var newHosts: seq<Entry> := [];
    var i := 0;
    while i < |hs|
      invariant 0 <= i <= |hs|
      invariant ParseAll(hs[..i]) == Some(newHosts)
    {
      assert hs[..i + 1][..i] == hs[..i];
      var parsed := ParseHost(hs[i]);
      if parsed.None? {
        CollectNoneStays(hs, ParseHost, i + 1);
        return None;
      }
      newHosts := newHosts + [parsed.value];
      i := i + 1;
    }
    assert hs[..i] == hs;
    return Some(newHosts);
  }

  /** compress_domain's grouping loop over the sorted entries: AsWritten
      merges by value as the program does, rule also keeps the
      padding of a block's numbers. */
  method GroupEntries(rule: Rule, es: seq<Entry>) returns (r: Option<seq<seq<Entry>>>)
    ensures r == Blocks(rule, es)
  {
    var items: seq<seq<Entry>> := [];
    var block: seq<Entry> := [];
    var prev := StartPrev;
    var j := 0;
    while j < |es|
      invariant 0 <= j <= |es|
      invariant GroupScan(rule, es[..j]) == Some(Group(items, block, prev))
    {
      assert es[..j + 1][..j] == es[..j];
      var e := es[j];
      if e.Numbered? && prev.Lone? {
        // prev_dict['prefix'] raises KeyError
        GroupNoneStays(rule, es, j + 1);
        return None;
      }
      if e.Lone? || !Extends(rule, e, prev, block) {
        if |block| > 0 {
          items := items + [block];
        }
        block := [e];
      } else {
        block := block + [e];
      }
      prev := e;
      j := j + 1;
    }
    assert es[..j] == es;
    return Some(items + [block]);
  }

  /** compress_domain's printing loop over the blocks. */
  method PrintBlocks(items: seq<seq<Entry>>) returns (result: seq<string>)
    requires forall i :: 0 <= i < |items| ==> Linked(items[i])
    ensures result == Tokens(items)
  {
    result := [];
    var k := 0;
    while k < |items|
      invariant 0 <= k <= |items|
      invariant result == Tokens(items[..k])
    {
      assert items[..k + 1][..k] == items[..k];
      if |items[k]| > 0 {
        result := result + [Token(items[k])];
      }
      k := k + 1;
    }
    assert items[..k] == items;
  }

  /** compress_domain under either grouping rule. */
  method CompressDomain(rule: Rule, hostnames: seq<string>) returns (r: Option<seq<string>>)
    ensures r == CompressDomainSpec(rule, hostnames)
  {
    var hs := Sort(hostnames, (a, b) => StrLess(a, b));
    var parsed := ParseHosts(hs);
    if parsed.None? {
      return None;
    }
    var es := SortEntries(parsed.value);
    var blocks := GroupEntries(rule, es);
    if blocks.None? {
      return None;
    }
    GroupedBlocks(rule, es);
    var tokens := PrintBlocks(blocks.value);
    return Some(tokens);
  }

  // ---------------------------------------------------------------------
  // Round trip: expanding compress_domain's tokens gives back the names
  // ---------------------------------------------------------------------

  /** The names the entries were parsed from, in order. */
  function Names(es: seq<Entry>): seq<string>
  {
    seq(|es|, k requires 0 <= k < |es| => HostText(es[k]))
  }

  /** The names of the blocks, block after block. */
  function NamesOf(bs: seq<seq<Entry>>): seq<string>
  {
    if bs == [] then [] else NamesOf(bs[..|bs| - 1]) + Names(bs[|bs| - 1])
  }

  /** A name the range grammar reads back as itself: no block opens in it
      and no ':' cuts it short. */
  predicate Plain(h: string) { '[' !in h && ':' !in h }

  lemma DigitsArePlain(s: string)
    requires AllDigits(s)
    ensures '[' !in s && ']' !in s && ':' !in s
  {
    assert forall k :: 0 <= k < |s| ==> s[k] != '[' && s[k] != ']' && s[k] != ':';
  }

  /** Along a run, every entry keeps the prefix and suffix and counts up
      from the first number. */
  lemma {:induction false} RunCounts(b: seq<Entry>, m: nat)
    requires |b| > 1 && Linked(b) && m < |b|
    ensures b[0].Numbered? && b[m].Numbered?
    ensures b[m].prefix == b[0].prefix && b[m].suffix == b[0].suffix
    ensures b[m].numberInt == b[0].numberInt + m
  {
    assert Next(b[0], b[1]);
    if m > 0 {
      RunCounts(b, m - 1);
      assert Next(b[m - 1], b[m]);
    }
  }

  /** In a run whose first number has a leading zero, every number is as
      wide as the first. */
  lemma {:induction false} RunWidth(b: seq<Entry>, m: nat)
    requires |b| > 1 && Run(KeepPadding, b) && m < |b| && b[0].Numbered? && !Unpadded(b[0].number)
    ensures b[m].Numbered? && |b[m].number| == |b[0].number|
  {
    RunCounts(b, m);
    if m > 0 {
      RunWidth(b, m - 1);
      assert Padded(b[0], b[m - 1], b[m]);
    }
  }

  /** In a run whose first number has no leading zero, every number is
      str() of its value. */
  lemma {:induction false} RunCanonical(b: seq<Entry>, m: nat)
    requires |b| > 1 && Run(KeepPadding, b) && m < |b| && b[0].Numbered? && Unpadded(b[0].number)
    requires forall k :: 0 <= k < |b| ==> ValidEntry(b[k])
    ensures b[m].Numbered? && b[m].number == NatToString(b[m].numberInt)
  {
    RunCounts(b, m);
    if m == 0 {
      UnpaddedCanonical(b[0].number);
    } else {
      RunCanonical(b, m - 1);
      RunCounts(b, m - 1);
      assert Padded(b[0], b[m - 1], b[m]);
      var s := b[m].number;
      if |s| == |b[m - 1].number| {
        var t := NatToString(b[m].numberInt);
        DigitsCanonical(s);
        NatToStringLength(b[m - 1].numberInt, b[m].numberInt);
        assert Zeros(0) + t == t;
      } else {
        UnpaddedCanonical(s);
      }
    }
  }

  /** The range first-last of a run renders every number of the run the
      way it was written. */
  lemma RunRendered(b: seq<Entry>, m: nat)
    requires |b| > 1 && Run(KeepPadding, b) && m < |b|
    requires forall k :: 0 <= k < |b| ==> ValidEntry(b[k])
    ensures b[0].Numbered? && b[m].Numbered? && b[|b| - 1].Numbered?
    ensures HostLists.RangeText(b[0].numberInt + m, b[0].number, b[|b| - 1].number) == b[m].number
  {
    RunCounts(b, m);
    RunCounts(b, |b| - 1);
    if Unpadded(b[0].number) {
      RunCanonical(b, m);
    } else {
      RunWidth(b, m);
      RunWidth(b, |b| - 1);
      ZFillCanonical(b[m].number);
    }
  }

  /** A block lo-hi of two digit strings lists lo..hi, rendered. */
  lemma SpanBlock(lo: string, hi: string)
    requires lo != [] && hi != [] && AllDigits(lo) && AllDigits(hi)
    ensures HostLists.BlockList(lo + "-" + hi) == Some(HostLists.RangeFrom(DigitsValue(lo), DigitsValue(hi), lo, hi))
  {
    var span := HostLists.Span(lo, hi);
    assert HostLists.WellFormedItem(span);
    HostLists.BlockListOfItems([span]);
    assert HostLists.Join([span]) == HostLists.ItemText(span) == lo + "-" + hi;
    assert [span][1..] == [];
    var vs := HostLists.RangeFrom(DigitsValue(lo), DigitsValue(hi), lo, hi);
    assert HostLists.AllValues([span]) == HostLists.ItemValues(span) + HostLists.AllValues([]) == vs + [] == vs;
    assert HostLists.BlockList(HostLists.Join([span])) == Some(vs);
  }

  /** The range from a run's first number to its last, put between the
      run's prefix and suffix, spells the run's names. */
  lemma RunRange(b: seq<Entry>)
    requires |b| > 1 && Run(KeepPadding, b)
    requires forall k :: 0 <= k < |b| ==> ValidEntry(b[k])
    ensures b[0].Numbered? && b[|b| - 1].Numbered?
    ensures var lo, hi := b[0].number, b[|b| - 1].number;
      HostLists.Decorate(b[0].prefix, HostLists.RangeFrom(b[0].numberInt, b[|b| - 1].numberInt, lo, hi), b[0].suffix) == Names(b)
  {
    RunCounts(b, |b| - 1);
    var pre, lo, hi, rest := b[0].prefix, b[0].number, b[|b| - 1].number, b[0].suffix;
    var vs := HostLists.RangeFrom(b[0].numberInt, b[|b| - 1].numberInt, lo, hi);
    var ds := HostLists.Decorate(pre, vs, rest);
    forall m | 0 <= m < |b| ensures ds[m] == Names(b)[m] {
      RunNameAt(b, m);
    }
  }

  /** The m-th name of the range written for a run is the run's m-th name. */
  lemma RunNameAt(b: seq<Entry>, m: nat)
    requires |b| > 1 && Run(KeepPadding, b) && m < |b|
    requires forall k :: 0 <= k < |b| ==> ValidEntry(b[k])
    ensures b[0].Numbered? && b[|b| - 1].Numbered?
    ensures var vs := HostLists.RangeFrom(b[0].numberInt, b[|b| - 1].numberInt, b[0].number, b[|b| - 1].number);
      m < |vs| && b[0].prefix + vs[m] + b[0].suffix == HostText(b[m])
  {
    RunCounts(b, m);
    RunCounts(b, |b| - 1);
    HostLists.RangeFromAt(b[0].numberInt, b[|b| - 1].numberInt, b[0].number, b[|b| - 1].number, m);
    RunRendered(b, m);
  }

  /** A block's token expands to exactly the block's names. */
  lemma TokenExpands(b: seq<Entry>)
    requires b != [] && Run(KeepPadding, b)
    requires forall k :: 0 <= k < |b| ==> ValidEntry(b[k]) && Plain(HostText(b[k]))
    ensures HostLists.ItemNames(Token(b)) == Some(Names(b)) && ':' !in Token(b)
  {
    if |b| == 1 {
      HostLists.PlainItem(HostText(b[0]));
      assert Names(b) == [HostText(b[0])];
    } else {
      RunRange(b);
      var pre, lo, hi, rest := b[0].prefix, b[0].number, b[|b| - 1].number, b[0].suffix;
      SpanBlock(lo, hi);
      assert HostText(b[0]) == pre + lo + rest;
      DigitsArePlain(lo);
      DigitsArePlain(hi);
      var blk := lo + "-" + hi;
      HostLists.OneBlockItem(pre, blk, rest, HostLists.RangeFrom(DigitsValue(lo), DigitsValue(hi), lo, hi));
      assert Token(b) == pre + "[" + blk + "]" + rest;
    }
  }

  /** Expanding every token gives the blocks' names, block after block. */
  lemma {:induction false} TokensExpand(bs: seq<seq<Entry>>)
    requires forall i :: 0 <= i < |bs| ==> Linked(bs[i]) && PaddingKept(bs[i])
    requires forall i, k :: 0 <= i < |bs| && 0 <= k < |bs[i]| ==> ValidEntry(bs[i][k]) && Plain(HostText(bs[i][k]))
    ensures HostLists.ItemListNames(Tokens(bs)) == Some(NamesOf(bs))
  {
    if bs != [] {
      var init := bs[..|bs| - 1];
      var last := bs[|bs| - 1];
      TokensExpand(init);
      if last == [] {
        assert Names(last) == [];
        assert NamesOf(init) + [] == NamesOf(init);
        assert Tokens(init) + [] == Tokens(init);
      } else {
        var t := Token(last);
        TokenExpands(last);
        BeforeAbsent(t, ':');
        var ts := Tokens(init) + [t];
        assert ts[..|ts| - 1] == Tokens(init);
      }
    }
  }

  /** The parsing loop fails exactly when one of the names does not
      parse; otherwise its entries spell the names, in order, and are well
      formed. */
  lemma ParseAllSpells(hs: seq<string>)
    ensures ParseAll(hs).None? <==> exists k :: 0 <= k < |hs| && ParseHost(hs[k]).None?
    ensures ParseAll(hs).Some? ==> Names(ParseAll(hs).value) == hs
    ensures ParseAll(hs).Some? ==> forall k :: 0 <= k < |ParseAll(hs).value| ==> ValidEntry(ParseAll(hs).value[k])
  {
    CollectEach(hs, ParseHost);
    if ParseAll(hs).Some? {
      var v := ParseAll(hs).value;
      forall k | 0 <= k < |hs| ensures HostText(v[k]) == hs[k] && ValidEntry(v[k]) {
        ParseRoundTrip(hs[k]);
      }
    }
  }

  lemma NamesAppend(a: seq<Entry>, b: seq<Entry>)
    ensures Names(a + b) == Names(a) + Names(b)
  {
  }

  /** The blocks' names are the names of their concatenation. */
  lemma {:induction false} NamesOfFlatten(bs: seq<seq<Entry>>)
    ensures NamesOf(bs) == Names(Flatten(bs))
  {
    if bs != [] {
      NamesOfFlatten(bs[..|bs| - 1]);
      NamesAppend(Flatten(bs[..|bs| - 1]), bs[|bs| - 1]);
    }
  }

  /** Inserting an entry adds its name to the names. */
  lemma {:induction false} NamesInsert(x: Entry, ys: seq<Entry>, lt: (Entry, Entry) -> bool)
    ensures multiset(Names(Insert(x, ys, lt))) == multiset(Names(ys)) + multiset{HostText(x)}
  {
    var r := Insert(x, ys, lt);
    if ys == [] || !lt(ys[0], x) {
      assert r == [x] + ys && r[1..] == ys;
      NamesHead(r);
    } else {
      var y, tail := ys[0], ys[1..];
      assert r == [y] + Insert(x, tail, lt) && r[1..] == Insert(x, tail, lt);
      NamesHead(r);
      NamesInsert(x, tail, lt);
      NamesHead(ys);
      SwapLast(multiset(Names(tail)), multiset{HostText(x)}, multiset{HostText(y)});
    }
  }

  /** The names of a non-empty run: its tail's, and its head's. */
  lemma NamesHead(xs: seq<Entry>)
    requires xs != []
    ensures multiset(Names(xs)) == multiset(Names(xs[1..])) + multiset{HostText(xs[0])}
  {
    assert xs == [xs[0]] + xs[1..];
    NamesAppend([xs[0]], xs[1..]);
    assert Names([xs[0]]) == [HostText(xs[0])];
  }

  lemma SwapLast(m: multiset<string>, a: multiset<string>, b: multiset<string>)
    ensures m + a + b == m + b + a
  {
  }

  /** Sorting the entries reorders their names alike. */
  lemma {:induction false} NamesSort(xs: seq<Entry>, lt: (Entry, Entry) -> bool)
    ensures multiset(Names(Sort(xs, lt))) == multiset(Names(xs))
  {
    if xs != [] {
      var x, rest := xs[0], xs[1..];
      assert Sort(xs, lt) == Insert(x, Sort(rest, lt), lt);
      NamesSort(rest, lt);
      NamesInsert(x, Sort(rest, lt), lt);
      NamesHead(xs);
    }
  }

  /** Every entry of a block is an entry of the concatenation. */
  lemma {:induction false} FlattenHas(bs: seq<seq<Entry>>, i: nat, k: nat)
    requires i < |bs| && k < |bs[i]|
    ensures bs[i][k] in Flatten(bs)
  {
    if i < |bs| - 1 {
      FlattenHas(bs[..|bs| - 1], i, k);
    }
  }

  /** Every entry of the blocks came from one of the names. */
  lemma BlockEntries(bs: seq<seq<Entry>>, es: seq<Entry>, hostnames: seq<string>)
    requires multiset(Flatten(bs)) == multiset(es)
    requires forall k :: 0 <= k < |es| ==> ValidEntry(es[k])
    requires multiset(Names(es)) == multiset(hostnames)
    requires forall k :: 0 <= k < |hostnames| ==> Plain(hostnames[k])
    ensures forall i, k :: 0 <= i < |bs| && 0 <= k < |bs[i]| ==> ValidEntry(bs[i][k]) && Plain(HostText(bs[i][k]))
  {
    forall i, k | 0 <= i < |bs| && 0 <= k < |bs[i]|
      ensures ValidEntry(bs[i][k]) && Plain(HostText(bs[i][k]))
    {
      FlattenHas(bs, i, k);
      assert bs[i][k] in multiset(es);
      var j :| 0 <= j < |es| && es[j] == bs[i][k];
      assert Names(es)[j] in multiset(hostnames);
    }
  }

  /** compress_domain loses no name and adds none: expanding its tokens
      with the range grammar gives back the names, as a multiset, when no
      name holds '[' or ':'. */
  lemma CompressDomainRoundTrip(hostnames: seq<string>)
    requires forall k :: 0 <= k < |hostnames| ==> Plain(hostnames[k])
    requires CompressDomainSpec(KeepPadding, hostnames).Some?
    ensures var ts := CompressDomainSpec(KeepPadding, hostnames).value;
      HostLists.ItemListNames(ts).Some? && multiset(HostLists.ItemListNames(ts).value) == multiset(hostnames)
  {
    var hs := Sort(hostnames, (a, b) => StrLess(a, b));
    var es := ParseAll(hs).value;
    ParseAllSpells(hs);
    var xs := SortEntries(es);
    GroupedBlocks(KeepPadding, xs);
    var bs := Blocks(KeepPadding, xs).value;
    BlockEntries(bs, es, hostnames);
    TokensExpand(bs);
    NamesOfFlatten(bs);
    NamesSort(es, (a, b) => EntryLess(a, b));
  }

  // ---------------------------------------------------------------------
  // The grouping loop as written merges numbers of different padding
  // ---------------------------------------------------------------------

  lemma ParseSample(h: string, p: nat, q: nat)
    requires h == "n9.x" || h == "n010.x"
    requires p == 1 && q == |h| - 2
    ensures ParseHost(h) == Some(Numbered("n", h[p..q], DigitsValue(h[p..q]), ".x"))
  {
    assert h[q] == '.';
    var first := h[..q];
    assert Before(h, '.') == first by {
      BeforeOf(first, "x");
      assert first + ['.'] + "x" == h;
    }
    assert LastDigitEnd(first, |first|) == q;
    assert RunStart(first, q) == p by {
      if h == "n010.x" {
        assert RunStart(first, 3) == RunStart(first, 2) == RunStart(first, 1);
      }
    }
    assert h[..p] == "n" && h[q..] == ".x";
  }

  /** The sample names sort with n010.x first, and parse to their
      entries. */
  lemma SampleParse(h1: string, h2: string)
    requires h1 == "n9.x" && h2 == "n010.x"
    ensures ParseAll(Sort([h1, h2], (a, b) => StrLess(a, b)))
      == Some([Numbered("n", "010", 10, ".x"), Numbered("n", "9", 9, ".x")])
  {
    SampleSort(h1, h2);
    var e1, e2 := Numbered("n", "9", 9, ".x"), Numbered("n", "010", 10, ".x");
    SampleEntries(h1, h2);
    var hs := [h2, h1];
    CollectOne(h2, ParseHost);
    assert hs[..1] == [h2] && hs[1] == h1;
    assert ParseAll(hs) == Some([e2] + [e1]);
    assert [e2] + [e1] == [e2, e1];
    assert Sort([h1, h2], (a, b) => StrLess(a, b)) == hs;
  }

  /** The entries of the two sample names. */
  lemma SampleEntries(h1: string, h2: string)
    requires h1 == "n9.x" && h2 == "n010.x"
    ensures ParseHost(h1) == Some(Numbered("n", "9", 9, ".x"))
    ensures ParseHost(h2) == Some(Numbered("n", "010", 10, ".x"))
  {
    SampleValues();
    ParseSample(h1, 1, 2);
    assert h1[1..2] == "9";
    ParseSample(h2, 1, 4);
    assert h2[1..4] == "010";
  }

  lemma SampleValues()
    ensures DigitsValue("9") == 9 && DigitsValue("010") == 10
  {
    assert "9"[..0] == [] && "0"[..0] == [];
    assert "010"[..2] == "01" && "01"[..1] == "0";
    assert DigitsValue("0") == 0;
    assert DigitsValue("01") == 1;
  }

  lemma SampleSort(h1: string, h2: string)
    requires h1 == "n9.x" && h2 == "n010.x"
    ensures Sort([h1, h2], (a, b) => StrLess(a, b)) == [h2, h1]
  {
    var lt := (a, b) => StrLess(a, b);
    assert StrLess(h2, h1) by {
      assert h2[0] == h1[0] && h2[1] < h1[1];
    }
    assert [h1, h2][1..] == [h2];
    assert Sort([h2], lt) == [h2];
    assert Sort([h1, h2], lt) == Insert(h1, [h2], lt) == [h2] + Insert(h1, [], lt);
  }

  /** n9.x sorts before n010.x: same prefix, then 9 < 10. */
  lemma SampleLess()
    ensures EntryLess(Numbered("n", "9", 9, ".x"), Numbered("n", "010", 10, ".x"))
  {
    var r1, r2 := RowOf(Numbered("n", "9", 9, ".x")), RowOf(Numbered("n", "010", 10, ".x"));
    assert r1["prefix"] == r2["prefix"] == Str("n");
    assert r1["number_int"] == Num(9) && r2["number_int"] == Num(10);
    assert Comparer(r1, r2, SortColumns[1..]) == -1;
    assert Comparer(r1, r2, SortColumns) == -1;
  }

  /** multikeysort puts n9.x's entry before n010.x's. */
  lemma SampleSortEntries()
    ensures SortEntries([Numbered("n", "010", 10, ".x"), Numbered("n", "9", 9, ".x")])
      == [Numbered("n", "9", 9, ".x"), Numbered("n", "010", 10, ".x")]
  {
    var e1, e2 := Numbered("n", "9", 9, ".x"), Numbered("n", "010", 10, ".x");
    var elt := (a, b) => EntryLess(a, b);
    SampleLess();
    assert Sort([e1], elt) == [e1];
    assert Sort([e2, e1], elt) == Insert(e2, [e1], elt) == [e1] + Insert(e2, [], elt);
  }

  /** The sample entries group into one block as written and into two when
      the padding is kept. */
  lemma SampleBlocks()
    ensures Blocks(AsWritten, [Numbered("n", "9", 9, ".x"), Numbered("n", "010", 10, ".x")])
      == Some([[Numbered("n", "9", 9, ".x"), Numbered("n", "010", 10, ".x")]])
    ensures Blocks(KeepPadding, [Numbered("n", "9", 9, ".x"), Numbered("n", "010", 10, ".x")])
      == Some([[Numbered("n", "9", 9, ".x")], [Numbered("n", "010", 10, ".x")]])
  {
    var e1, e2 := Numbered("n", "9", 9, ".x"), Numbered("n", "010", 10, ".x");
    var es := [e1, e2];
    assert es[..1] == [e1] && [e1][..0] == [];
    assert !Extends(AsWritten, e1, StartPrev, []) && !Extends(KeepPadding, e1, StartPrev, []);
    assert GroupScan(AsWritten, [e1]) == Some(Group([], [e1], e1));
    assert GroupScan(KeepPadding, [e1]) == Some(Group([], [e1], e1));
    assert Extends(AsWritten, e2, e1, [e1]);
    assert !Unpadded(e2.number);
    assert !Extends(KeepPadding, e2, e1, [e1]);
    var g := Group([], [e1], e1);
    assert g.prev == e1 && g.block == [e1] && !e2.Lone? && !g.prev.Lone?;
    assert Extends(AsWritten, e2, g.prev, g.block);
    assert GroupStep(AsWritten, g, e2) == Some(Group(g.items, g.block + [e2], e2));
    assert g.block + [e2] == [e1, e2];
    assert GroupStep(AsWritten, g, e2) == Some(Group([], [e1, e2], e2));
    assert !Extends(KeepPadding, e2, g.prev, g.block);
    assert GroupStep(KeepPadding, g, e2) == Some(Group(Close(g.items, g.block), [e2], e2));
    assert Close(g.items, g.block) == [[e1]];
    assert GroupScan(AsWritten, es) == GroupStep(AsWritten, g, e2);
    assert GroupScan(KeepPadding, es) == GroupStep(KeepPadding, g, e2);
    assert [] + [[e1, e2]] == [[e1, e2]] && [[e1]] + [[e2]] == [[e1], [e2]];
  }

  /** The blocks print as one range as written, and as the two names
      when the padding is kept. */
  lemma SampleTokens()
    ensures Linked([Numbered("n", "9", 9, ".x"), Numbered("n", "010", 10, ".x")])
    ensures Tokens([[Numbered("n", "9", 9, ".x"), Numbered("n", "010", 10, ".x")]]) == ["n[9-010].x"]
    ensures Tokens([[Numbered("n", "9", 9, ".x")], [Numbered("n", "010", 10, ".x")]]) == ["n9.x", "n010.x"]
  {
    var e1, e2 := Numbered("n", "9", 9, ".x"), Numbered("n", "010", 10, ".x");
    var b := [e1, e2];
    assert Next(b[0], b[1]);
    assert Token(b) == "n" + "[" + ("9" + "-" + "010") + "]" + ".x" == "n[9-010].x";
    var one: seq<seq<Entry>> := [b];
    assert one[..0] == [];
    assert Tokens(one) == Tokens([]) + [Token(b)];
    var bs := [[e1], [e2]];
    assert bs[..1] == [[e1]] && [[e1]][..0] == [];
    assert Token([e1]) == "n9.x" && Token([e2]) == "n010.x";
  }

  /** The range list reads n[9-010].x as n9.x and n10.x. */
  lemma SampleExpands(pre: string, lo: string, hi: string, rest: string)
    requires pre == "n" && lo == "9" && hi == "010" && rest == ".x"
    ensures pre + "[" + (lo + "-" + hi) + "]" + rest == "n[9-010].x"
    ensures HostLists.ItemNames(pre + "[" + (lo + "-" + hi) + "]" + rest) == Some(["n9.x", "n10.x"])
  {
    SampleValues();
    SpanBlock(lo, hi);
    var vs := HostLists.RangeFrom(9, 10, lo, hi);
    assert NatToString(10) == NatToString(1) + [DigitChar(0)] == "10";
    assert HostLists.RangeText(9, lo, hi) == "9" && HostLists.RangeText(10, lo, hi) == "10";
    assert vs == [HostLists.RangeText(9, lo, hi)] + ([HostLists.RangeText(10, lo, hi)] + []);
    assert vs == ["9", "10"];
    HostLists.OneBlockItem(pre, lo + "-" + hi, rest, vs);
    var ds := HostLists.Decorate(pre, vs, rest);
    assert ds[0] == "n9.x" && ds[1] == "n10.x";
    assert ds == ["n9.x", "n10.x"];
  }

  /** As written, n9.x and n010.x form one block printed n[9-010].x, which
      the range grammar reads as n9.x and n10.x: n010.x is lost. Keeping
      the padding prints the two names apart. */
  lemma PaddingMergeAsWritten(hostnames: seq<string>, token: string)
    requires hostnames == ["n9.x", "n010.x"] && token == "n[9-010].x"
    ensures CompressDomainSpec(AsWritten, hostnames) == Some([token])
    ensures HostLists.ItemNames(token) == Some(["n9.x", "n10.x"])
    ensures CompressDomainSpec(KeepPadding, hostnames) == Some(hostnames)
  {
    SampleParse(hostnames[0], hostnames[1]);
    assert hostnames == [hostnames[0], hostnames[1]];
    SampleSortEntries();
    SampleBlocks();
    SampleTokens();
    SampleExpands("n", "9", "010", ".x");
  }

  // ---------------------------------------------------------------------
  // compress: one compress_domain per domain, domains in sorted order
  // ---------------------------------------------------------------------

  /** A name's domain: everything after its first '.', or '' without one. */
  function Domain(h: string): string
  {
    After(h, '.')
  }

  /** The domain is '.'.join(host.split('.')[1:]) for a name with a '.',
      and '' for a name without one. */
  lemma DomainIsJoinSplit(h: string)
    ensures Domain(h) == if '.' in h then JoinOn(Split(h, '.')[1..], '.') else ""
  {
    if '.' in h {
      assert Split(h, '.')[1..] == Split(After(h, '.'), '.');
      JoinSplit(After(h, '.'), '.');
    } else {
      NoSepNoAfter(h, '.');
    }
  }

  lemma {:induction false} NoSepNoAfter(s: string, c: char)
    requires c !in s
    ensures After(s, c) == ""
    decreases |s|
  {
    if s != [] {
      assert c !in s[1..];
      NoSepNoAfter(s[1..], c);
    }
  }

  /** domain_dict[d]: the names whose domain is d, in their input order. */
  function Filter(hs: seq<string>, d: string): (r: seq<string>)
  {
    if hs == [] then []
    else Filter(hs[..|hs| - 1], d) + (if Domain(hs[|hs| - 1]) == d then [hs[|hs| - 1]] else [])
  }

  /** domain_dict's keys, in the order they were first added. */
  function DomainsSeen(hs: seq<string>): seq<string>
  {
    if hs == [] then []
    else
      var before := DomainsSeen(hs[..|hs| - 1]);
      var d := Domain(hs[|hs| - 1]);
      if d in before then before else before + [d]
  }

  /** Every domain once, and exactly the names' domains. */
  lemma {:induction false} DomainsSeenFacts(hs: seq<string>)
    ensures Distinct(DomainsSeen(hs))
    ensures forall d :: d in DomainsSeen(hs) <==> exists k :: 0 <= k < |hs| && Domain(hs[k]) == d
  {
    if hs != [] {
      var init := hs[..|hs| - 1];
      DomainsSeenFacts(init);
      assert forall k :: 0 <= k < |init| ==> init[k] == hs[k];
      forall d | exists k :: 0 <= k < |hs| && Domain(hs[k]) == d
        ensures d in DomainsSeen(hs)
      {
        var k :| 0 <= k < |hs| && Domain(hs[k]) == d;
        if k < |init| {
          assert Domain(init[k]) == d;
        }
      }
    }
  }

  /** domains.sort() */
  function SortedDomains(hs: seq<string>): seq<string>
  {
    Sort(DomainsSeen(hs), (a, b) => StrLess(a, b))
  }

  /** compress_domain for each domain of ds, results concatenated; None
      once one raises. */
  function CompressAll(rule: Rule, hs: seq<string>, ds: seq<string>): Option<seq<string>>
  {
    if ds == [] then Some([])
    else
      var before := CompressAll(rule, hs, ds[..|ds| - 1]);
      var these := CompressDomainSpec(rule, Filter(hs, ds[|ds| - 1]));
      if before.None? || these.None? then None else Some(before.value + these.value)
  }

  /** compress(hostnames) */
  function CompressSpec(rule: Rule, hostnames: seq<string>): Option<seq<string>>
  {
    CompressAll(rule, hostnames, SortedDomains(hostnames))
  }

  /** One more domain: its compress_domain result follows the others. */
  lemma CompressAllSnoc(rule: Rule, hs: seq<string>, ds: seq<string>, k: nat, result: seq<string>, hosts: seq<string>)
    requires k < |ds| && CompressAll(rule, hs, ds[..k]) == Some(result)
    requires CompressDomainSpec(rule, Filter(hs, ds[k])) == Some(hosts)
    ensures CompressAll(rule, hs, ds[..k + 1]) == Some(result + hosts)
  {
    assert ds[..k + 1][..k] == ds[..k];
  }

  /** A domain whose compress_domain raises makes compress raise. */
  lemma CompressAllFails(rule: Rule, hs: seq<string>, ds: seq<string>, k: nat)
    requires k < |ds| && CompressDomainSpec(rule, Filter(hs, ds[k])) == None
    ensures CompressAll(rule, hs, ds) == None
  {
    assert ds[..k + 1][..k] == ds[..k];
    CompressAllNoneStays(rule, hs, ds, k + 1);
  }

  lemma {:induction false} CompressAllNoneStays(rule: Rule, hs: seq<string>, ds: seq<string>, n: nat)
    requires n <= |ds| && CompressAll(rule, hs, ds[..n]) == None
    ensures CompressAll(rule, hs, ds) == None
    decreases |ds| - n
  {
    if n < |ds| {
      assert ds[..n + 1][..n] == ds[..n];
      CompressAllNoneStays(rule, hs, ds, n + 1);
    } else {
      assert ds[..n] == ds;
    }
  }

  /** domain_dict after the names hs: each name appended to its domain's
      list, the list created on the domain's first name. */
  function Grouped(hs: seq<string>): map<string, seq<string>>
  {
    if hs == [] then map[]
    else
      var m := Grouped(hs[..|hs| - 1]);
      var h := hs[|hs| - 1];
      var d := Domain(h);
      if d in m then m[d := m[d] + [h]] else m[d := [h]]
  }

  /** domain_dict's keys are the domains seen, and each holds exactly the
      names of its domain, in order. */
  lemma {:induction false} GroupedFacts(hs: seq<string>)
    ensures forall d :: d in Grouped(hs) <==> d in DomainsSeen(hs)
    ensures forall d :: d in Grouped(hs) ==> Grouped(hs)[d] == Filter(hs, d)
  {
    if hs != [] {
      var init := hs[..|hs| - 1];
      var h := hs[|hs| - 1];
      GroupedFacts(init);
      FilterAbsent(init, Domain(h));
      var m := Grouped(hs);
      forall d | d in m
        ensures m[d] == Filter(hs, d)
      {
        if d != Domain(h) {
          assert m[d] == Grouped(init)[d];
        }
      }
    }
  }

  /** compress's loop over the names: domain_dict maps each domain seen so
      far to its names. */
  method GroupByDomain(hostnames: seq<string>) returns (domainDict: map<string, seq<string>>)
    ensures forall d :: d in domainDict <==> d in DomainsSeen(hostnames)
    ensures forall d :: d in domainDict ==> domainDict[d] == Filter(hostnames, d)
  {
    domainDict := map[];
    var i := 0;
    while i < |hostnames|
      invariant 0 <= i <= |hostnames|
      invariant domainDict == Grouped(hostnames[..i])
    {
      var host := hostnames[i];
      var domain := Domain(host);
      assert hostnames[..i + 1][..i] == hostnames[..i];
      assert hostnames[..i + 1][i] == host;
      if domain in domainDict {
        domainDict := domainDict[domain := domainDict[domain] + [host]];
      } else {
        domainDict := domainDict[domain := [host]];
      }
      i := i + 1;
    }
    assert hostnames[..i] == hostnames;
    GroupedFacts(hostnames);
  }

  /** A domain not seen yet has no names. */
  lemma {:induction false} FilterAbsent(hs: seq<string>, d: string)
    ensures d !in DomainsSeen(hs) ==> Filter(hs, d) == []
  {
    if hs != [] {
      FilterAbsent(hs[..|hs| - 1], d);
    }
  }

  /** list(domain_dict.keys()), sorted. */
  method SortedKeys(hostnames: seq<string>, domainDict: map<string, seq<string>>) returns (domains: seq<string>)
    requires forall d :: d in domainDict <==> d in DomainsSeen(hostnames)
    ensures domains == SortedDomains(hostnames)
  {
    var listed := ListSet(domainDict.Keys);
    StrLessIsOrder();
    domains := SortDistinct(listed, (a, b) => StrLess(a, b));
    DomainsSeenFacts(hostnames);
    SortDistinctStrictly(DomainsSeen(hostnames), (a, b) => StrLess(a, b));
    StrictlySortedUnique(domains, SortedDomains(hostnames), (a, b) => StrLess(a, b));
  }

  /** compress's loop over the sorted domains. */
  method CompressDomains(rule: Rule, hostnames: seq<string>, domainDict: map<string, seq<string>>, domains: seq<string>)
    returns (r: Option<seq<string>>)
    requires forall d :: d in domains ==> d in domainDict && domainDict[d] == Filter(hostnames, d)
    ensures r == CompressAll(rule, hostnames, domains)
  {
    var result: seq<string> := [];
    var k := 0;
    while k < |domains|
      invariant 0 <= k <= |domains|
      invariant CompressAll(rule, hostnames, domains[..k]) == Some(result)
    {
      var hosts := CompressDomain(rule, domainDict[domains[k]]);
      if hosts.None? {
        CompressAllFails(rule, hostnames, domains, k);
        return None;
      }
      CompressAllSnoc(rule, hostnames, domains, k, result, hosts.value);
      result := result + hosts.value;
      k := k + 1;
    }
    assert domains[..k] == domains;
    return Some(result);
  }

  /** compress(hostnames) under either grouping rule: AsWritten is the
      program, KeepPadding the corrected grouping. */
  method Compress(rule: Rule, hostnames: seq<string>) returns (r: Option<seq<string>>)
    ensures r == CompressSpec(rule, hostnames)
  {
    var domainDict := GroupByDomain(hostnames);
    var domains := SortedKeys(hostnames, domainDict);
    StrLessIsOrder();
    DomainsSeenFacts(hostnames);
    SortDistinctStrictly(DomainsSeen(hostnames), (a, b) => StrLess(a, b));
    r := CompressDomains(rule, hostnames, domainDict, domains);
  }

  /** The sorted domains are each domain of the names once, ascending. */
  lemma SortedDomainsFacts(hs: seq<string>)
    ensures StrictlySorted(SortedDomains(hs), (a, b) => StrLess(a, b))
    ensures forall d :: d in SortedDomains(hs) <==> exists k :: 0 <= k < |hs| && Domain(hs[k]) == d
  {
    StrLessIsOrder();
    DomainsSeenFacts(hs);
    SortDistinctStrictly(DomainsSeen(hs), (a, b) => StrLess(a, b));
  }

  /** The names of every domain of ds, domain after domain. */
  function FlatFilter(hs: seq<string>, ds: seq<string>): seq<string>
  {
    if ds == [] then [] else FlatFilter(hs, ds[..|ds| - 1]) + Filter(hs, ds[|ds| - 1])
  }

  lemma {:induction false} FlatFilterSnoc(hs: seq<string>, h: string, ds: seq<string>)
    requires Distinct(ds)
    ensures multiset(FlatFilter(hs + [h], ds)) ==
      multiset(FlatFilter(hs, ds)) + if Domain(h) in ds then multiset{h} else multiset{}
  {
    if ds != [] {
      var init := ds[..|ds| - 1];
      var d := ds[|ds| - 1];
      DistinctInit(ds);
      FlatFilterSnoc(hs, h, init);
      assert ds == init + [d];
      FlatFilterSnocStep(hs, h, init, d);
    }
  }

  /** Dropping the last of distinct elements leaves them distinct and
      without it. */
  lemma DistinctInit<T>(xs: seq<T>)
    requires Distinct(xs) && xs != []
    ensures Distinct(xs[..|xs| - 1]) && xs[|xs| - 1] !in xs[..|xs| - 1]
  {
  }

  /** One more domain keeps the count of the added name right. */
  lemma FlatFilterSnocStep(hs: seq<string>, h: string, init: seq<string>, d: string)
    requires d !in init
    requires multiset(FlatFilter(hs + [h], init)) ==
      multiset(FlatFilter(hs, init)) + if Domain(h) in init then multiset{h} else multiset{}
    ensures multiset(FlatFilter(hs + [h], init + [d])) ==
      multiset(FlatFilter(hs, init + [d])) + if Domain(h) in init + [d] then multiset{h} else multiset{}
  {
    FlatFilterLast(hs, init, d);
    FlatFilterLast(hs + [h], init, d);
    FilterLast(hs, h, d);
    assert Domain(h) in init + [d] <==> Domain(h) in init || Domain(h) == d;
    AddOnce(multiset(FlatFilter(hs, init)), multiset(FlatFilter(hs + [h], init)),
            multiset(Filter(hs, d)), multiset(Filter(hs + [h], d)), h, Domain(h) in init, Domain(h) == d);
  }

  /** Adding h to at most one of two parts adds it to their sum. */
  lemma AddOnce<T>(a: multiset<T>, a': multiset<T>, b: multiset<T>, b': multiset<T>, h: T, inA: bool, inB: bool)
    requires !(inA && inB)
    requires a' == a + if inA then multiset{h} else multiset{}
    requires b' == b + if inB then multiset{h} else multiset{}
    ensures a' + b' == a + b + if inA || inB then multiset{h} else multiset{}
  {
  }

  lemma FlatFilterLast(hs: seq<string>, init: seq<string>, d: string)
    ensures FlatFilter(hs, init + [d]) == FlatFilter(hs, init) + Filter(hs, d)
  {
    assert (init + [d])[..|init|] == init;
  }

  lemma FilterLast(hs: seq<string>, h: string, d: string)
    ensures Filter(hs + [h], d) == Filter(hs, d) + if Domain(h) == d then [h] else []
  {
    assert (hs + [h])[..|hs|] == hs;
  }

  /** Splitting the names by domain over a list of their domains, each
      once, loses no name and adds none. */
  lemma {:induction false} FlatFilterPartition(hs: seq<string>, ds: seq<string>)
    requires Distinct(ds) && forall k :: 0 <= k < |hs| ==> Domain(hs[k]) in ds
    ensures multiset(FlatFilter(hs, ds)) == multiset(hs)
  {
    if hs == [] {
      FlatFilterEmpty(ds);
    } else {
      var init := hs[..|hs| - 1];
      var h := hs[|hs| - 1];
      assert forall k :: 0 <= k < |init| ==> init[k] == hs[k];
      FlatFilterPartition(init, ds);
      assert init + [h] == hs;
      FlatFilterSnoc(init, h, ds);
    }
  }

  lemma {:induction false} FlatFilterEmpty(ds: seq<string>)
    ensures FlatFilter([], ds) == []
  {
    if ds != [] {
      FlatFilterEmpty(ds[..|ds| - 1]);
    }
  }

  /** Every name in a domain's list is one of the names. */
  lemma {:induction false} FilterFrom(hs: seq<string>, d: string)
    ensures forall x :: x in Filter(hs, d) ==> x in hs && Domain(x) == d
  {
    if hs != [] {
      FilterFrom(hs[..|hs| - 1], d);
      assert forall x :: x in hs[..|hs| - 1] ==> x in hs;
    }
  }

  /** Expanding the tokens of the domains ds gives back their names. */
  lemma {:induction false} CompressAllExpands(hs: seq<string>, ds: seq<string>)
    requires forall k :: 0 <= k < |hs| ==> Plain(hs[k])
    requires CompressAll(KeepPadding, hs, ds).Some?
    ensures var ts := CompressAll(KeepPadding, hs, ds).value;
      HostLists.ItemListNames(ts).Some? && multiset(HostLists.ItemListNames(ts).value) == multiset(FlatFilter(hs, ds))
  {
    if ds != [] {
      var init := ds[..|ds| - 1];
      var d := ds[|ds| - 1];
      CompressAllExpands(hs, init);
      var fs := Filter(hs, d);
      FilterFrom(hs, d);
      forall k | 0 <= k < |fs| ensures Plain(fs[k]) {
        assert fs[k] in fs;
      }
      CompressDomainRoundTrip(fs);
      HostLists.ItemListAppend(CompressAll(KeepPadding, hs, init).value, CompressDomainSpec(KeepPadding, fs).value);
    }
  }

  /** compress loses no name and adds none: expanding its tokens gives
      back the names, as a multiset, when no name holds '[' or ':'. */
  lemma CompressRoundTrip(hostnames: seq<string>)
    requires forall k :: 0 <= k < |hostnames| ==> Plain(hostnames[k])
    requires CompressSpec(KeepPadding, hostnames).Some?
    ensures var ts := CompressSpec(KeepPadding, hostnames).value;
      HostLists.ItemListNames(ts).Some? && multiset(HostLists.ItemListNames(ts).value) == multiset(hostnames)
  {
    var ds := SortedDomains(hostnames);
    StrLessIsOrder();
    DomainsSeenFacts(hostnames);
    SortDistinctStrictly(DomainsSeen(hostnames), (a, b) => StrLess(a, b));
    SortedDomainsFacts(hostnames);
    CompressAllExpands(hostnames, ds);
    FlatFilterPartition(hostnames, ds);
  }

  // ---------------------------------------------------------------------
  // A single name, and the dotless case of the parsing loop
  // ---------------------------------------------------------------------

  /** A single entry sorts, groups and prints as itself. */
  lemma OneEntry(rule: Rule, e: Entry)
    requires e.Lone? || '.' in e.suffix
    ensures SortEntries([e]) == [e]
    ensures Blocks(rule, [e]) == Some([[e]])
    ensures Tokens([[e]]) == [HostText(e)]
  {
    assert SortEntries([e]) == Insert(e, [], (a, b) => EntryLess(a, b)) == [e];
    assert [e][..0] == [];
    if e.Numbered? {
      assert e.suffix != [];
      assert !Extends(rule, e, StartPrev, []);
    }
    assert GroupScan(rule, [e]) == GroupStep(rule, GroupStart, e) == Some(Group([], [e], e));
    var bs: seq<seq<Entry>> := [[e]];
    assert bs[..0] == [];
    assert [] + [[e]] == bs;
  }

  /** compress_domain of one name with a '.' gives the name back, and
      raises when its first label has no digit. */
  lemma CompressDomainOne(rule: Rule, h: string)
    requires '.' in h
    ensures CompressDomainSpec(rule, [h]) == if HasDigit(Before(h, '.')) then Some([h]) else None
  {
    var lt := (a, b) => StrLess(a, b);
    assert Sort([h], lt) == [h] by {
      assert Sort([h], lt) == Insert(h, [], lt);
    }
    assert ParseAll([h]) == if ParseHost(h).None? then None else Some([ParseHost(h).value]) by {
      CollectOne(h, ParseHost);
    }
    MatchDottedFails(h);
    if HasDigit(Before(h, '.')) {
      var e := ParseHost(h).value;
      assert '.' in e.suffix by {
        MatchDottedGroups(h);
      }
      assert HostText(e) == h by {
        ParseRoundTrip(h);
      }
      OneEntry(rule, e);
    }
  }

  /** One name has one domain, holding that name. */
  lemma SingleDomain(h: string)
    ensures SortedDomains([h]) == [Domain(h)]
    ensures Filter([h], Domain(h)) == [h]
  {
    assert [h][..0] == [];
    assert DomainsSeen([h]) == [Domain(h)];
  }

  /** compress of one name with a '.' is compress_domain of it. */
  lemma CompressOne(rule: Rule, h: string)
    requires '.' in h
    ensures CompressSpec(rule, [h]) == CompressDomainSpec(rule, [h])
  {
    SingleDomain(h);
    CompressAllOne(rule, [h], Domain(h));
  }

  /** Over a single domain, compress is compress_domain of its names. */
  lemma CompressAllOne(rule: Rule, hs: seq<string>, d: string)
    ensures CompressAll(rule, hs, [d]) == CompressDomainSpec(rule, Filter(hs, d))
  {
    var ds := [d];
    assert ds[..|ds| - 1] == [] && ds[|ds| - 1] == d;
    assert forall t: seq<string> :: [] + t == t;
  }

  /** The parsing loop's dotless case is what the source computes:
      compress([h + '.'])[0].strip('.'), None when that raises. */
  lemma DotlessIsCompress(rule: Rule, h: string)
    requires '.' !in h
    ensures CompressSpec(rule, [h + "."]).None? <==> ParseHost(h).None?
    ensures CompressSpec(rule, [h + "."]).Some? ==>
      |CompressSpec(rule, [h + "."]).value| == 1
      && ParseHost(h) == Some(Lone(StripDots(CompressSpec(rule, [h + "."]).value[0])))
  {
    var d := h + ".";
    assert '.' in d by { assert d[|h|] == '.'; }
    assert Before(d, '.') == h by {
      BeforeOf(h, []);
      assert h + ['.'] + [] == d;
    }
    var c := CompressSpec(rule, [d]);
    assert c == if HasDigit(h) then Some([d]) else None by {
      CompressOne(rule, d);
      CompressDomainOne(rule, d);
    }
    assert ParseHost(h) == if HasDigit(h) then Some(Lone(h)) else None by {
      DotlessMeaning(h);
    }
    if HasDigit(h) {
      assert StripDots(d) == h by { StripTrailingDot(h); }
    }
  }
}
