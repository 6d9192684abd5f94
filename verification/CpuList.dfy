/** The Linux lists of processors, such as "0-3,5,8-11". */
module CpuList {
  import opened Decimals
  import opened Words

  function Split(s: string, sep: char): (tokens: seq<string>)
    ensures tokens != []
  {
    if s == [] then [[]]
    else
      var rest := Split(s[1..], sep);
      if s[0] == sep then [[]] + rest else Prepend(s[0], rest)
  }

  /** A character in front of the first token. */
  function Prepend(c: char, tokens: seq<string>): (r: seq<string>)
    requires tokens != []
    ensures r != []
  {
    [[c] + tokens[0]] + tokens[1..]
  }

  lemma PrependConcat(c: char, x: seq<string>, y: seq<string>)
    requires x != []
    ensures Prepend(c, x + y) == Prepend(c, x) + y
  {
    assert (x + y)[1..] == x[1..] + y;
  }

  lemma SplitStep(s: string, sep: char)
    requires s != []
    ensures Split(s, sep) == if s[0] == sep then [[]] + Split(s[1..], sep) else Prepend(s[0], Split(s[1..], sep))
  {
  }

  lemma {:induction false} SplitConcat(a: string, sep: char, b: string)
    ensures Split(a + [sep] + b, sep) == Split(a, sep) + Split(b, sep)
  {
    var s := a + [sep] + b;
    SplitStep(s, sep);
    if a == [] {
      assert s[1..] == b;
    } else {
      var x, y := Split(a[1..], sep), Split(b, sep);
      assert Split(s[1..], sep) == x + y by {
        SplitConcat(a[1..], sep, b);
        assert s[1..] == a[1..] + [sep] + b;
      }
      SplitStep(a, sep);
      if a[0] == sep {
        assert [[]] + (x + y) == [[]] + x + y;
      } else {
        PrependConcat(a[0], x, y);
      }
    }
  }

  lemma {:induction false} SplitWhole(s: string, sep: char)
    requires sep !in s
    ensures Split(s, sep) == [s]
  {
    if s != [] {
      SplitWhole(s[1..], sep);
      assert [s[0]] + s[1..] == s;
    }
  }

  /** In particular `std::stoul` never sees a minus sign. */
  lemma {:induction false} TokensHaveNoSeparator(s: string, sep: char)
    ensures forall i | 0 <= i < |Split(s, sep)| :: sep !in Split(s, sep)[i]
  {
    if s != [] {
      TokensHaveNoSeparator(s[1..], sep);
    }
  }

  function DropTrailingSpaces(s: string): (r: string)
    ensures r == [] || !IsSpace(r[|r| - 1])
  {
    if s == [] || !IsSpace(s[|s| - 1]) then s else DropTrailingSpaces(s[..|s| - 1])
  }

  function Trim(s: string): string {
    DropTrailingSpaces(SkipSpaces(s))
  }

  /** How `ids_from_line` ends: with ids, with one of the two exceptions of `std::stoul`, or not. */
  datatype Outcome = Ids(ids: set<nat>) | InvalidArgument | OutOfRange | Diverges

  /** From `unsigned long` to `uint32_t`. */
  function Cut(n: nat): nat {
    n % TWO32
  }

  /** The numbers from `first` up to `end`, without `end`. */
  function Interval(first: nat, end: nat): (s: set<nat>)
    ensures forall k :: k in s <==> first <= k < end
  {
    if end <= first then {} else Interval(first, end - 1) + {end - 1}
  }

  /** The 32-bit loop variable of a range after `n` rounds. */
  function LoopVar(first: nat, n: nat): nat {
    (first + n) % TWO32
  }

  /** The loop over a range goes on while the variable is at most `last`: it ends exactly if there
      is a number above `last` to reach. */
  lemma LoopEndsExactly(first: nat, last: nat)
    requires first < TWO32 && last < TWO32
    ensures (exists n: nat :: LoopVar(first, n) > last) <==> first > last || last != TWO32 - 1
    ensures first <= last != TWO32 - 1 ==>
              && LoopVar(first, last - first + 1) > last
              && forall n: nat | n <= last - first :: LoopVar(first, n) == first + n
  {
    if first > last {
      assert LoopVar(first, 0) > last;
    } else if last != TWO32 - 1 {
      assert LoopVar(first, last - first + 1) == last + 1;
    }
  }

  function RangeOf(first: Number, last: Number): Outcome {
    if first.NotANumber? then InvalidArgument
    else if first.TooLarge? then OutOfRange
    else if last.NotANumber? then InvalidArgument
    else if last.TooLarge? then OutOfRange
    else
      var f, l := Cut(first.value), Cut(last.value);
      if f <= l == TWO32 - 1 then Diverges else Ids(Interval(f, l + 1))
  }

  /** One entry: a number, or a range from its first number to its last. */
  function Entry(entry: string): Outcome {
    var v := Split(Trim(entry), '-');
    if |v| == 1 then
      match Stoul(v[0])
      case NotANumber => InvalidArgument
      case TooLarge => OutOfRange
      case Number(n) => Ids({Cut(n)})
    else RangeOf(Stoul(v[0]), Stoul(v[|v| - 1]))
  }

  /** The union, unless something went wrong, and then what went wrong first. */
  function Combine(a: Outcome, b: Outcome): Outcome {
    if !a.Ids? then a else if !b.Ids? then b else Ids(a.ids + b.ids)
  }

  function CombineAll(outcomes: seq<Outcome>): Outcome {
    if outcomes == [] then Ids({}) else Combine(outcomes[0], CombineAll(outcomes[1..]))
  }

  function Outcomes(entries: seq<string>): seq<Outcome> {
    seq(|entries|, i requires 0 <= i < |entries| => Entry(entries[i]))
  }

  function Entries(entries: seq<string>): Outcome {
    CombineAll(Outcomes(entries))
  }

  lemma EntriesStep(entries: seq<string>)
    requires entries != []
    ensures Entries(entries) == Combine(Entry(entries[0]), Entries(entries[1..]))
  {
    assert Outcomes(entries)[1..] == Outcomes(entries[1..]);
  }

  function Line(content: string): Outcome {
    Entries(Split(content, ','))
  }

  /** The inner loop, for a range on which it ends. */
  method InsertRange(ids: set<nat>, first: nat, last: nat) returns (r: set<nat>)
    ensures r == ids + Interval(first, last + 1)
  {
    r := ids;
    var i := first;
    while i <= last
      invariant r == ids + Interval(first, i) && (i <= last + 1 || i == first)
    {
      r := r + {i};
      i := i + 1;
    }
  }

  /** A range entry: its two numbers are read one after the other. */
  method InsertRangeEntry(ids: set<nat>, first: string, last: string) returns (r: Outcome)
    ensures r == Combine(Ids(ids), RangeOf(Stoul(first), Stoul(last)))
  {
    var f := Stoul(first);
    if !f.Number? {
      return if f.NotANumber? then InvalidArgument else OutOfRange;
    }
    var l := Stoul(last);
    if !l.Number? {
      return if l.NotANumber? then InvalidArgument else OutOfRange;
    }
    if Cut(f.value) <= Cut(l.value) == TWO32 - 1 {
      return Diverges;
    }
    var all := InsertRange(ids, Cut(f.value), Cut(l.value));
    return Ids(all);
  }

  method InsertEntry(ids: set<nat>, entry: string) returns (r: Outcome)
    ensures r == Combine(Ids(ids), Entry(entry))
  {
    var v2 := Split(Trim(entry), '-');
    if |v2| != 1 {
      r := InsertRangeEntry(ids, v2[0], v2[|v2| - 1]);
      return;
    }
    match Stoul(v2[0]) {
      case NotANumber => r := InvalidArgument;
      case TooLarge => r := OutOfRange;
      case Number(n) => r := Ids(ids + {Cut(n)});
    }
  }

  /** The loop over the entries of a line. */
  method InsertEntries(entries: seq<string>) returns (r: Outcome)
    ensures r == Entries(entries)
  {
    CombineNothing(Entries(entries));
    r := Ids({});
    assert entries[0..] == entries;
    for k := 0 to |entries|
      invariant r.Ids? && Entries(entries) == Combine(r, Entries(entries[k..]))
    {
      OneMoreEntry(r.ids, entries, k);
      r := InsertEntry(r.ids, entries[k]);
      if !r.Ids? {
        return;
      }
    }
    CombineNothing(r);
  }

  method IdsFromLine(content: string) returns (outcome: Outcome)
    ensures outcome == Line(content)
  {
    outcome := InsertEntries(Split(content, ','));
  }

  lemma OneMoreEntry(ids: set<nat>, entries: seq<string>, k: nat)
    requires k < |entries|
    ensures Combine(Ids(ids), Entries(entries[k..])) ==
            Combine(Combine(Ids(ids), Entry(entries[k])), Entries(entries[k + 1..]))
  {
    EntriesStep(entries[k..]);
    assert entries[k..][1..] == entries[k + 1..];
    CombineAssociates(Ids(ids), Entry(entries[k]), Entries(entries[k + 1..]));
  }

  lemma CombineAssociates(a: Outcome, b: Outcome, c: Outcome)
    ensures Combine(Combine(a, b), c) == Combine(a, Combine(b, c))
  {
    if a.Ids? && b.Ids? && c.Ids? {
      assert a.ids + b.ids + c.ids == a.ids + (b.ids + c.ids);
    }
  }

  lemma CombineNothing(a: Outcome)
    ensures Combine(Ids({}), a) == a == Combine(a, Ids({}))
  {
    if a.Ids? {
      assert {} + a.ids == a.ids == a.ids + {};
    }
  }

  lemma {:induction false} CombineAllConcat(a: seq<Outcome>, b: seq<Outcome>)
    ensures CombineAll(a + b) == Combine(CombineAll(a), CombineAll(b))
  {
    if a == [] {
      assert a + b == b;
      CombineNothing(CombineAll(b));
    } else {
      CombineAllConcat(a[1..], b);
      assert (a + b)[1..] == a[1..] + b;
      CombineAssociates(a[0], CombineAll(a[1..]), CombineAll(b));
    }
  }

  lemma OutcomesConcat(x: seq<string>, y: seq<string>)
    ensures Outcomes(x + y) == Outcomes(x) + Outcomes(y)
  {
  }

  lemma EntriesConcat(x: seq<string>, y: seq<string>)
    ensures Entries(x + y) == Combine(Entries(x), Entries(y))
  {
    OutcomesConcat(x, y);
    CombineAllConcat(Outcomes(x), Outcomes(y));
  }

  lemma LineOfSplit(content: string, x: seq<string>, y: seq<string>)
    requires Split(content, ',') == x + y
    ensures Line(content) == Combine(Entries(x), Entries(y))
  {
    EntriesConcat(x, y);
  }

  /** For any two texts, a comma between them means union, or what went wrong first. */
  lemma CommaIsUnion(a: string, b: string)
    ensures var x, y := Line(a), Line(b);
            Line(a + "," + b) == if !x.Ids? then x else if !y.Ids? then y else Ids(x.ids + y.ids)
  {
    SplitConcat(a, ',', b);
    LineOfSplit(a + [','] + b, Split(a, ','), Split(b, ','));
  }

  /** Every id of a result fits in 32 bits. */
  lemma {:induction false} IdsFit(entries: seq<string>)
    ensures Entries(entries).Ids? ==> forall id | id in Entries(entries).ids :: id < TWO32
  {
    if entries != [] {
      IdsFit(entries[1..]);
      EntriesStep(entries);
    }
  }

  /** A range whose first number is above its last, after both are cut to 32 bits. */
  predicate Backwards(entry: string) {
    var v := Split(Trim(entry), '-');
    && |v| > 1 && Stoul(v[0]).Number? && Stoul(v[|v| - 1]).Number?
    && Cut(Stoul(v[0]).value) > Cut(Stoul(v[|v| - 1]).value)
  }

  /** The caller takes an empty set for a failure of the parser; it is the answer exactly when every
      entry is a range written backwards. */
  lemma {:induction false} EmptyExactly(entries: seq<string>)
    ensures Entries(entries) == Ids({}) <==> forall i | 0 <= i < |entries| :: Backwards(entries[i])
  {
    if entries != [] {
      EmptyExactly(entries[1..]);
      EmptyEntry(entries[0]);
      EntriesStep(entries);
      EmptyUnion(Entry(entries[0]), Entries(entries[1..]));
      assert forall i | 1 <= i < |entries| :: entries[i] == entries[1..][i - 1];
    }
  }

  lemma EmptyUnion(a: Outcome, b: Outcome)
    ensures Combine(a, b) == Ids({}) <==> a == Ids({}) && b == Ids({})
  {
    if a.Ids? && b.Ids? {
      assert a.ids <= a.ids + b.ids && b.ids <= a.ids + b.ids;
    }
  }

  lemma EmptyEntry(entry: string)
    ensures Entry(entry) == Ids({}) <==> Backwards(entry)
  {
    var v := Split(Trim(entry), '-');
    var first, last := Stoul(v[0]), Stoul(v[|v| - 1]);
    if first.Number? && last.Number? {
      var f, l := Cut(first.value), Cut(last.value);
      assert f in {f};
      assert f <= l ==> f in Interval(f, l + 1);
      assert f > l ==> Interval(f, l + 1) == {};
    }
  }

  /** An empty line makes `std::stoul` throw: it is not taken for an empty list. */
  lemma EmptyLineThrows()
    ensures Line("") == InvalidArgument
  {
    var nothing: string := [];
    assert Split(nothing, ',') == [nothing] && Trim(nothing) == nothing && Split(nothing, '-') == [nothing];
    assert Stoul(nothing) == NotANumber;
    EntriesStep([nothing]);
  }

  /** White space around an entry does not matter. */
  lemma SpacesAroundEntry(p: string, e: string, q: string)
    requires forall i | 0 <= i < |p| :: IsSpace(p[i])
    requires forall i | 0 <= i < |q| :: IsSpace(q[i])
    ensures Entry(p + e + q) == Entry(e)
  {
    SpacesInFront(p, e + q);
    assert p + e + q == p + (e + q);
    SpacesBehind(e, q);
  }

  lemma {:induction false} SpacesInFront(p: string, s: string)
    requires forall i | 0 <= i < |p| :: IsSpace(p[i])
    ensures SkipSpaces(p + s) == SkipSpaces(s)
  {
    if p == [] {
      assert p + s == s;
    } else {
      SpacesInFront(p[1..], s);
      assert (p + s)[1..] == p[1..] + s;
    }
  }

  lemma {:induction false} SpacesBehind(e: string, q: string)
    requires forall i | 0 <= i < |q| :: IsSpace(q[i])
    ensures Trim(e + q) == Trim(e)
  {
    if e == [] {
      assert e + q == q;
    } else if IsSpace(e[0]) {
      SpacesBehind(e[1..], q);
      assert (e + q)[1..] == e[1..] + q;
    } else {
      TrailingSpaces(e, q);
      assert (e + q)[0] == e[0];
    }
  }

  lemma {:induction false} TrailingSpaces(e: string, q: string)
    requires forall i | 0 <= i < |q| :: IsSpace(q[i])
    ensures DropTrailingSpaces(e + q) == DropTrailingSpaces(e)
  {
    if q == [] {
      assert e + q == e;
    } else {
      TrailingSpaces(e, q[..|q| - 1]);
      assert (e + q)[..|e + q| - 1] == e + q[..|q| - 1];
    }
  }
}
