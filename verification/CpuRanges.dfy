/** Printing sets of processors as lists of ranges, and reading the lists back. */
module CpuRanges {
  import opened Decimals
  import opened CpuEntries
  import opened CpuList
  import opened Sums
  import opened Words

  datatype Item = One(id: nat) | Range(first: nat, last: nat)

  function ShowItem(item: Item): string {
    match item
    case One(id) => Decimal(id)
    case Range(first, last) => Decimal(first) + "-" + Decimal(last)
  }

  function Show(items: seq<Item>): string {
    if items == [] then ""
    else if |items| == 1 then ShowItem(items[0])
    else ShowItem(items[0]) + "," + Show(items[1..])
  }

  /** The ids are those of `uint32_t`. */
  predicate Fits(item: Item) {
    match item
    case One(id) => id < TWO32
    case Range(first, last) => first < TWO32 && last < TWO32
  }

  function Listed(item: Item): set<nat> {
    match item
    case One(id) => {id}
    case Range(first, last) => Interval(first, last + 1)
  }

  function AllListed(items: seq<Item>): set<nat> {
    if items == [] then {} else Listed(items[0]) + AllListed(items[1..])
  }

  /** A range, not backwards, up to the largest 32-bit number. */
  predicate Endless(item: Item) {
    item.Range? && item.first <= item.last == TWO32 - 1
  }

  predicate SomeEndless(items: seq<Item>) {
    exists i | 0 <= i < |items| :: Endless(items[i])
  }

  lemma NumbersHaveNo(c: char, n: nat)
    requires !IsDigit(c)
    ensures c !in Decimal(n)
  {
  }

  lemma BlanksHaveNo(c: char, s: string)
    requires AllBlank(s) && !Blank(c)
    ensures c !in s
  {
  }

  // ---------------------------------------------------------------- lists with white space

  /** An item with white space before it, after it, and on both sides of the dash. */
  datatype Spaced = Spaced(item: Item, before: string, left: string, right: string, after: string)

  predicate JustBlanks(w: Spaced) {
    AllBlank(w.before) && AllBlank(w.left) && AllBlank(w.right) && AllBlank(w.after)
  }

  function ShowSpaced(w: Spaced): string {
    match w.item
    case One(id) => w.before + Decimal(id) + w.after
    case Range(first, last) => (w.before + Decimal(first) + w.left) + "-" + (w.right + Decimal(last) + w.after)
  }

  function ShowAll(ws: seq<Spaced>): string {
    if ws == [] then ""
    else if |ws| == 1 then ShowSpaced(ws[0])
    else ShowSpaced(ws[0]) + "," + ShowAll(ws[1..])
  }

  function Items(ws: seq<Spaced>): seq<Item> {
    seq(|ws|, i requires 0 <= i < |ws| => ws[i].item)
  }

  lemma PaddedHasNo(c: char, before: string, n: nat, after: string)
    requires AllBlank(before) && AllBlank(after) && !Blank(c) && !IsDigit(c)
    ensures c !in before + Decimal(n) + after
  {
    NumbersHaveNo(c, n);
    BlanksHaveNo(c, before);
    BlanksHaveNo(c, after);
  }

  lemma PaddedNumber(before: string, n: nat, after: string)
    requires n < 0x1_0000_0000 && AllBlank(before) && AllBlank(after)
    ensures Entry(before + Decimal(n) + after) == Ids({n})
  {
    BlanksHaveNo('-', after);
    FirstIsNoDigit(after);
    NoZeros(before);
    SmallCut(n);
    NumberEntry(before + Decimal(n) + after, before, [], n, after);
  }

  lemma SmallCut(n: nat)
    requires n < 0x1_0000_0000
    ensures {n % 0x1_0000_0000} == {n}
  {
  }

  lemma FirstIsNoDigit(s: string)
    requires AllBlank(s)
    ensures s == [] || !('0' <= s[0] <= '9')
  {
    if s != [] {
      BlankIsSpace(s[0]);
    }
  }

  lemma NoZeros(s: string)
    ensures s + [] == s
  {
  }

  lemma EntryOfSpaced(w: Spaced)
    requires Fits(w.item) && JustBlanks(w)
    ensures Entry(ShowSpaced(w)) == if Endless(w.item) then Diverges else Ids(Listed(w.item))
    ensures ',' !in ShowSpaced(w)
  {
    match w.item
    case One(id) =>
      PaddedNumber(w.before, id, w.after);
      PaddedHasNo(',', w.before, id, w.after);
    case Range(first, last) =>
      PaddedNumber(w.before, first, w.left);
      PaddedNumber(w.right, last, w.after);
      PaddedHasNo(',', w.before, first, w.left);
      PaddedHasNo(',', w.right, last, w.after);
      PaddedHasNo('-', w.before, first, w.left);
      PaddedHasNo('-', w.right, last, w.after);
      var a, b := w.before + Decimal(first) + w.left, w.right + Decimal(last) + w.after;
      RangeEntry(a, b);
      if !Endless(w.item) {
        assert Entry(a + "-" + b).ids == Listed(w.item);
      }
  }

  /** A well-formed list, with any white space around its items and dashes: the parser ends exactly if
      no range goes up to 2^32 - 1, and then yields exactly the union of the listed ids and ranges. */
  lemma {:induction false} LineOfList(ws: seq<Spaced>)
    requires ws != [] && forall i | 0 <= i < |ws| :: Fits(ws[i].item) && JustBlanks(ws[i])
    ensures Line(ShowAll(ws)) == if SomeEndless(Items(ws)) then Diverges else Ids(AllListed(Items(ws)))
  {
    var head := ShowSpaced(ws[0]);
    assert Items(ws)[0] == ws[0].item && Items(ws)[1..] == Items(ws[1..]);
    EntryOfSpaced(ws[0]);
    LineOfEntry(head);
    EndlessTail(Items(ws));
    if |ws| == 1 {
      assert AllListed(Items(ws)[1..]) == {} && !SomeEndless(Items(ws)[1..]);
      assert Listed(ws[0].item) + {} == Listed(ws[0].item);
    } else {
      LineOfList(ws[1..]);
      CommaIsUnion(head, ShowAll(ws[1..]));
    }
  }

  /** Without white space that is the plain list. */
  function Plain(items: seq<Item>): seq<Spaced> {
    seq(|items|, i requires 0 <= i < |items| => Spaced(items[i], "", "", "", ""))
  }

  lemma PlainItem(item: Item)
    ensures ShowSpaced(Spaced(item, "", "", "", "")) == ShowItem(item)
  {
    match item
    case One(id) => assert "" + Decimal(id) + "" == Decimal(id);
    case Range(first, last) =>
      assert "" + Decimal(first) + "" == Decimal(first) && "" + Decimal(last) + "" == Decimal(last);
  }

  lemma {:induction false} PlainShow(items: seq<Item>)
    ensures ShowAll(Plain(items)) == Show(items) && Items(Plain(items)) == items
  {
    if items != [] {
      PlainItem(items[0]);
      if |items| > 1 {
        assert Plain(items)[1..] == Plain(items[1..]);
        PlainShow(items[1..]);
      }
    }
  }

  lemma EndlessTail(items: seq<Item>)
    requires items != []
    ensures SomeEndless(items) <==> Endless(items[0]) || SomeEndless(items[1..])
  {
    if SomeEndless(items) {
      var i :| 0 <= i < |items| && Endless(items[i]);
      assert i == 0 || Endless(items[1..][i - 1]);
    }
    if SomeEndless(items[1..]) {
      var i :| 0 <= i < |items[1..]| && Endless(items[1..][i]);
      assert Endless(items[i + 1]);
    }
  }

  lemma {:induction false} LeastExists(s: set<nat>)
    requires s != {}
    ensures exists m :: IsLeast(s, m)
    decreases |s|
  {
    var k :| k in s;
    var rest := s - {k};
    if rest == {} {
      assert s == {k};
      assert IsLeast(s, k);
    } else {
      LeastExists(rest);
      var m :| IsLeast(rest, m);
      assert forall j | j in s :: j == k || j in rest;
      if k < m {
        assert IsLeast(s, k);
      } else {
        assert IsLeast(s, m);
      }
    }
  }

  ghost predicate IsLeast(s: set<nat>, m: nat) {
    m in s && forall k | k in s :: m <= k
  }

  ghost function Least(s: set<nat>): (m: nat)
    requires s != {}
    ensures IsLeast(s, m)
  {
    LeastExists(s);
    var m :| IsLeast(s, m);
    m
  }

  /** The last number of the run of neighbours that starts at `m`. */
  function RunEnd(s: set<nat>, m: nat): (e: nat)
    requires m in s
    ensures m <= e && e + 1 !in s && forall k | m <= k <= e :: k in s
    decreases |s|
  {
    if m + 1 in s then
      var e := RunEnd(s - {m}, m + 1);
      assert s - {m} <= s && (e + 1 in s ==> e + 1 in s - {m});
      e
    else m
  }

  lemma Smaller(rest: set<nat>, s: set<nat>, m: nat)
    requires rest <= s && m in s && m !in rest
    ensures |rest| < |s|
  {
    SubsetSize(rest, s - {m});
  }

  /** What is left of a set when its first run is taken away. */
  ghost function Rest(s: set<nat>): (rest: set<nat>)
    requires s != {}
    ensures rest <= s && |rest| < |s|
  {
    var m := Least(s);
    var rest := s - Interval(m, RunEnd(s, m) + 1);
    assert m !in rest;
    Smaller(rest, s, m);
    rest
  }

  /** The canonical list of a set: its runs, from below, each as long as it can be. */
  ghost function Runs(s: set<nat>): seq<Item>
    decreases |s|
  {
    if s == {} then []
    else
      var m := Least(s);
      var e := RunEnd(s, m);
      [if m == e then One(m) else Range(m, e)] + Runs(Rest(s))
  }

  ghost predicate AllBelow(s: set<nat>, bound: nat) {
    forall k | k in s :: k < bound
  }

  lemma {:induction false} RunsListTheSet(s: set<nat>)
    requires AllBelow(s, TWO32)
    ensures AllListed(Runs(s)) == s
    decreases |s|
  {
    if s != {} {
      RunsListTheSet(Rest(s));
      FirstRun(s);
      FirstListed(s);
    }
  }

  lemma {:induction false} RunsFit(s: set<nat>)
    requires AllBelow(s, TWO32)
    ensures forall i | 0 <= i < |Runs(s)| :: Fits(Runs(s)[i])
    decreases |s|
  {
    if s != {} {
      RunsFit(Rest(s));
      FirstRun(s);
      FirstFits(s);
      var runs := Runs(s);
      forall i | 0 <= i < |runs| ensures Fits(runs[i]) {
        assert i == 0 || runs[i] == runs[1..][i - 1];
      }
    }
  }

  lemma {:induction false} EndlessRuns(s: set<nat>)
    requires AllBelow(s, TWO32)
    ensures SomeEndless(Runs(s)) <==> TWO32 - 1 in s && TWO32 - 2 in s
    decreases |s|
  {
    if s != {} {
      EndlessRuns(Rest(s));
      FirstRun(s);
      FirstEndless(s);
      EndlessTail(Runs(s));
    }
  }

  lemma FirstRun(s: set<nat>)
    requires s != {}
    ensures Runs(s) != [] && Runs(s)[1..] == Runs(Rest(s))
    ensures Runs(s)[0] == if Least(s) == RunEnd(s, Least(s)) then One(Least(s)) else Range(Least(s), RunEnd(s, Least(s)))
  {
  }

  lemma ListedRun(m: nat, e: nat)
    requires m <= e
    ensures Listed(if m == e then One(m) else Range(m, e)) == Interval(m, e + 1)
  {
  }

  lemma RunAndRest(s: set<nat>)
    requires s != {}
    ensures Interval(Least(s), RunEnd(s, Least(s)) + 1) + Rest(s) == s
  {
    var run := Interval(Least(s), RunEnd(s, Least(s)) + 1);
    assert run <= s;
    assert Rest(s) == s - run;
  }

  lemma FirstListed(s: set<nat>)
    requires s != {}
    ensures Listed(Runs(s)[0]) + Rest(s) == s
  {
    FirstRun(s);
    ListedRun(Least(s), RunEnd(s, Least(s)));
    RunAndRest(s);
  }

  lemma FirstFits(s: set<nat>)
    requires s != {} && AllBelow(s, TWO32)
    ensures Fits(Runs(s)[0])
  {
    FirstRun(s);
    assert RunEnd(s, Least(s)) in s;
  }

  lemma FirstEndless(s: set<nat>)
    requires s != {} && AllBelow(s, TWO32)
    ensures TWO32 - 1 in s && TWO32 - 2 in s <==>
            Endless(Runs(s)[0]) || (TWO32 - 1 in Rest(s) && TWO32 - 2 in Rest(s))
  {
    var m := Least(s);
    var e := RunEnd(s, m);
    FirstRun(s);
    assert e in s;
    assert Endless(Runs(s)[0]) <==> m < e == TWO32 - 1;
  }

  /** The parser undoes the canonical printer: for every finite non-empty set of 32-bit ids, but
      for exactly those that have both of the two largest ids, on which it never ends. */
  lemma RoundTripExactly(s: set<nat>)
    requires s != {} && AllBelow(s, TWO32)
    ensures Line(Show(Runs(s))) == if TWO32 - 1 in s && TWO32 - 2 in s then Diverges else Ids(s)
  {
    RunsListTheSet(s);
    RunsFit(s);
    EndlessRuns(s);
    PlainShow(Runs(s));
    LineOfList(Plain(Runs(s)));
  }

  lemma FirstGap(s: set<nat>)
    requires s != {} && Rest(s) != {}
    ensures RunEnd(s, Least(s)) + 1 < Least(Rest(s))
  {
    var e, next := RunEnd(s, Least(s)), Least(Rest(s));
    assert next in s && next != e + 1;
    assert next !in Interval(Least(s), e + 1);
  }

  /** What makes the list canonical: there is a gap between each run and the next. */
  lemma {:induction false} RunsAreApart(s: set<nat>, i: nat)
    requires i + 1 < |Runs(s)|
    ensures Last(Runs(s)[i]) + 1 < First(Runs(s)[i + 1])
    decreases |s|
  {
    var rest := Rest(s);
    FirstRun(s);
    var runs := Runs(s);
    assert runs[i + 1] == runs[1..][i];
    if i == 0 {
      FirstRun(rest);
      FirstGap(s);
    } else {
      assert runs[i] == runs[1..][i - 1];
      RunsAreApart(rest, i - 1);
    }
  }

  function First(item: Item): nat {
    if item.One? then item.id else item.first
  }

  function Last(item: Item): nat {
    if item.One? then item.id else item.last
  }
}
