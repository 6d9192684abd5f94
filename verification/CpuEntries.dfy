/** What a single entry of a processor list means, for any text: numbers, ranges, white space and
    everything that makes the reading throw. */
module CpuEntries {
  import opened Decimals
  import opened CpuList

  /** What `isspace` accepts: blank, tabulator, line feed, vertical tabulator, form feed, return. */
  predicate Blank(c: char) {
    c in " \t\n\U{B}\U{C}\r"
  }

  predicate AllBlank(s: string) {
    forall i | 0 <= i < |s| :: Blank(s[i])
  }

  lemma BlankIsSpace(c: char)
    ensures Blank(c) <==> IsSpace(c)
  {
    var blanks := " \t\n\U{B}\U{C}\r";
    assert blanks[0] == ' ' && blanks[1] == '\t' && blanks[2] == '\n' && blanks[3] == '\U{B}' && blanks[4] == '\U{C}'
           && blanks[5] == '\r';
    assert '\t' as int == 9 && '\n' as int == 10 && '\U{B}' as int == 11 && '\U{C}' as int == 12 && '\r' as int == 13;
  }

  lemma BlanksAreSpaces(s: string)
    requires AllBlank(s)
    ensures forall i | 0 <= i < |s| :: IsSpace(s[i])
  {
    forall i | 0 <= i < |s| ensures IsSpace(s[i]) {
      BlankIsSpace(s[i]);
    }
  }

  // ---------------------------------------------------------------- reading

  lemma {:induction false} DigitsBefore(s: string, q: string)
    requires q == [] || !IsDigit(q[0])
    ensures Digits(s + q) == Digits(s)
  {
    if s == [] {
      assert s + q == q;
    } else if IsDigit(s[0]) {
      DigitsBefore(s[1..], q);
      assert (s + q)[1..] == s[1..] + q;
    }
  }

  lemma SpaceIsNoDigit(c: char)
    requires IsSpace(c)
    ensures !IsDigit(c) && c != '+' && c != '-' && c != ','
  {
  }

  /** Reading a number stops before white space. */
  lemma StoulBefore(s: string, q: string)
    requires forall i | 0 <= i < |q| :: IsSpace(q[i])
    ensures Stoul(s + q) == Stoul(s)
  {
    var t := SkipSpaces(s);
    SkipBefore(s, q);
    if t == [] {
      assert SkipSpaces(s + q) == [];
    } else {
      assert SkipSpaces(s + q) == t + q;
      assert (t + q)[1..] == t[1..] + q;
      DigitsBefore(t, q);
      DigitsBefore(t[1..], q);
    }
  }

  lemma {:induction false} SkipBefore(s: string, q: string)
    requires forall i | 0 <= i < |q| :: IsSpace(q[i])
    ensures SkipSpaces(s + q) == if SkipSpaces(s) == [] then [] else SkipSpaces(s) + q
  {
    if s == [] {
      assert s + q == q && SkipSpaces(q) == [];
    } else if IsSpace(s[0]) {
      SkipBefore(s[1..], q);
      assert (s + q)[1..] == s[1..] + q;
    } else {
      assert (s + q)[0] == s[0];
    }
  }

  lemma Associate(a: string, m: string, b: string)
    ensures a + m + b == a + (m + b)
    ensures m != [] ==> (m + b)[0] == m[0] && (a + m)[|a + m| - 1] == m[|m| - 1]
  {
  }

  lemma {:induction false} SkipCount(s: string) returns (k: nat)
    ensures k <= |s| && s[k..] == SkipSpaces(s) && forall i | 0 <= i < k :: IsSpace(s[i])
  {
    k := 0;
    if s != [] && IsSpace(s[0]) {
      k := SkipCount(s[1..]);
      assert s[1..][k..] == s[k + 1..] && forall i | 0 <= i < k :: s[i + 1] == s[1..][i];
      k := k + 1;
    }
  }

  lemma SkipIsPart(s: string) returns (p: string)
    ensures s == p + SkipSpaces(s) && forall i | 0 <= i < |p| :: IsSpace(p[i])
  {
    var k := SkipCount(s);
    p := s[..k];
  }

  lemma {:induction false} DropIsPart(s: string) returns (q: string)
    ensures s == DropTrailingSpaces(s) + q && forall i | 0 <= i < |q| :: IsSpace(q[i])
  {
    q := [];
    if s != [] && IsSpace(s[|s| - 1]) {
      var last := [s[|s| - 1]];
      var rest := DropIsPart(s[..|s| - 1]);
      q := rest + last;
      assert s == s[..|s| - 1] + last;
      Associate(DropTrailingSpaces(s), rest, last);
    } else {
      assert s == s + [];
    }
  }

  /** Trimming takes away white space at both ends. */
  lemma TrimIsPart(s: string) returns (p: string, q: string)
    ensures s == p + (Trim(s) + q)
    ensures forall i | 0 <= i < |p| :: IsSpace(p[i])
    ensures forall i | 0 <= i < |q| :: IsSpace(q[i])
  {
    p := SkipIsPart(s);
    q := DropIsPart(SkipSpaces(s));
  }

  lemma StoulOfTrimmed(s: string)
    ensures Stoul(Trim(s)) == Stoul(s)
  {
    var p, q := TrimIsPart(s);
    SpacesInFront(p, Trim(s) + q);
    StoulBefore(Trim(s), q);
  }

  // ---------------------------------------------------------------- numbers

  function OfNumber(n: Number): Outcome {
    match n
    case NotANumber => InvalidArgument
    case TooLarge => OutOfRange
    case Number(n) => Ids({n % 0x1_0000_0000})
  }

  lemma PartsHaveNo(p: string, q: string, c: char)
    requires c !in p + q
    ensures c !in p && c !in q
  {
    assert forall i | 0 <= i < |p| :: p[i] == (p + q)[i];
    assert forall i | 0 <= i < |q| :: q[i] == (p + q)[|p| + i];
  }

  lemma SkipHasNo(s: string, c: char)
    requires c !in s
    ensures c !in SkipSpaces(s)
  {
    var p := SkipIsPart(s);
    PartsHaveNo(p, SkipSpaces(s), c);
  }

  lemma DropHasNo(s: string, c: char)
    requires c !in s
    ensures c !in DropTrailingSpaces(s)
  {
    var q := DropIsPart(s);
    PartsHaveNo(DropTrailingSpaces(s), q, c);
  }

  lemma EntryWithoutDash(s: string)
    requires '-' !in s
    ensures Entry(s) == OfNumber(Stoul(s))
  {
    SkipHasNo(s, '-');
    DropHasNo(SkipSpaces(s), '-');
    SplitWhole(Trim(s), '-');
    StoulOfTrimmed(s);
  }

  lemma {:induction false} LeadingZeros(zeros: string, d: string)
    requires forall i | 0 <= i < |zeros| :: zeros[i] == '0'
    requires forall i | 0 <= i < |d| :: IsDigit(d[i])
    ensures Value(zeros + d) == Value(d)
    decreases |zeros| + |d|
  {
    var s := zeros + d;
    if d != [] {
      LeadingZeros(zeros, d[..|d| - 1]);
      assert s[..|s| - 1] == zeros + d[..|d| - 1];
    } else if zeros != [] {
      assert s == zeros;
      LeadingZeros(zeros[..|zeros| - 1], []);
      assert zeros[..|zeros| - 1] + [] == zeros[..|zeros| - 1];
    }
  }

  lemma StoulOfDigits(d: string, rest: string)
    requires d != [] && forall i | 0 <= i < |d| :: IsDigit(d[i])
    requires rest == [] || !IsDigit(rest[0])
    ensures Stoul(d + rest) == if Value(d) < 0x1_0000_0000_0000_0000 then Number(Value(d)) else TooLarge
  {
    assert (d + rest)[0] == d[0] && IsDigit(d[0]);
    assert SkipSpaces(d + rest) == d + rest;
    DigitsAtFront(d, rest);
  }

  lemma Regroup(a: string, b: string, c: string, d: string)
    ensures a + b + c + d == a + (b + c + d) == a + (b + c) + d
  {
  }

  lemma StoulOfNumber(before: string, zeros: string, n: nat, rest: string)
    requires forall i | 0 <= i < |before| :: IsSpace(before[i])
    requires forall i | 0 <= i < |zeros| :: zeros[i] == '0'
    requires rest == [] || !IsDigit(rest[0])
    ensures Stoul(before + zeros + Decimal(n) + rest) ==
            if n < 0x1_0000_0000_0000_0000 then Number(n) else TooLarge
  {
    var digits := Decimal(n);
    SpacesInFront(before, zeros + digits + rest);
    Regroup(before, zeros, digits, rest);
    StoulOfDigits(zeros + digits, rest);
    LeadingZeros(zeros, digits);
    ValueOfDecimal(n);
  }

  /** A number, with white space before it, zeros in front and anything but a digit or a dash after it:
      cut to 32 bits if it has at most 64, and an exception otherwise. */
  lemma NumberEntry(s: string, before: string, zeros: string, n: nat, rest: string)
    requires s == before + zeros + Decimal(n) + rest
    requires AllBlank(before) && (forall i | 0 <= i < |zeros| :: zeros[i] == '0')
    requires '-' !in rest && (rest == [] || !('0' <= rest[0] <= '9'))
    ensures Entry(s) == if n < 0x1_0000_0000_0000_0000 then Ids({n % 0x1_0000_0000}) else OutOfRange
  {
    BlanksAreSpaces(before);
    assert '-' !in before by {
      if i :| 0 <= i < |before| && before[i] == '-' {
        SpaceIsNoDigit(before[i]);
      }
    }
    assert '-' !in s;
    EntryWithoutDash(s);
    StoulOfNumber(before, zeros, n, rest);
  }

  // ---------------------------------------------------------------- ranges

  lemma {:induction false} SkipAround(a: string, r: string)
    requires r != [] && !IsSpace(r[0])
    ensures SkipSpaces(a + r) == SkipSpaces(a) + r
  {
    if a == [] {
      assert a + r == r;
    } else {
      assert (a + r)[0] == a[0] && (a + r)[1..] == a[1..] + r;
      SkipAround(a[1..], r);
    }
  }

  lemma {:induction false} DropAround(l: string, b: string)
    requires l != [] && !IsSpace(l[|l| - 1])
    ensures DropTrailingSpaces(l + b) == l + DropTrailingSpaces(b)
  {
    if b == [] {
      assert l + b == l;
    } else {
      var n := |b| - 1;
      assert (l + b)[|l| + n] == b[n] && (l + b)[..|l| + n] == l + b[..n];
      DropAround(l, b[..n]);
    }
  }

  lemma DropBehind(x: string, m: string, b: string, s: string)
    requires m != [] && !IsSpace(m[|m| - 1]) && s == x + (m + b)
    ensures DropTrailingSpaces(s) == x + m + DropTrailingSpaces(b)
  {
    Associate(x, m, b);
    DropAround(x + m, b);
  }

  lemma TrimAround(a: string, m: string, b: string)
    requires m != [] && !IsSpace(m[0]) && !IsSpace(m[|m| - 1])
    ensures Trim(a + m + b) == SkipSpaces(a) + m + DropTrailingSpaces(b)
  {
    Associate(a, m, b);
    SkipAround(a, m + b);
    DropBehind(SkipSpaces(a), m, b, SkipSpaces(a + m + b));
  }

  lemma StoulOfParts(s: string)
    ensures Stoul(SkipSpaces(s)) == Stoul(s) == Stoul(DropTrailingSpaces(s))
  {
    var p := SkipIsPart(s);
    var q := DropIsPart(s);
    SpacesInFront(p, SkipSpaces(s));
    StoulBefore(DropTrailingSpaces(s), q);
  }

  lemma RangeOfStouls(a: string, b: string)
    requires '-' !in a && '-' !in b
    ensures Entry(a + "-" + b) == RangeOf(Stoul(a), Stoul(b))
  {
    var x, y := SkipSpaces(a), DropTrailingSpaces(b);
    TrimAround(a, "-", b);
    SkipHasNo(a, '-');
    DropHasNo(b, '-');
    SplitConcat(x, '-', y);
    SplitWhole(x, '-');
    SplitWhole(y, '-');
    StoulOfParts(a);
    StoulOfParts(b);
  }

  /** A range: what its first text throws if that throws, else what its last text throws; else the
      numbers from the first to the last, of which there are none if it is written backwards; and no
      end if the last one is 2^32 - 1. */
  lemma RangeEntry(a: string, b: string)
    requires '-' !in a && '-' !in b
    ensures !Entry(a).Ids? ==> Entry(a + "-" + b) == Entry(a)
    ensures Entry(a).Ids? && !Entry(b).Ids? ==> Entry(a + "-" + b) == Entry(b)
    ensures forall f: nat, l: nat | Entry(a) == Ids({f}) && Entry(b) == Ids({l}) ::
              if f <= l == 0xFFFF_FFFF then Entry(a + "-" + b) == Diverges
              else Entry(a + "-" + b).Ids? && forall k: nat :: k in Entry(a + "-" + b).ids <==> f <= k <= l
  {
    EntryWithoutDash(a);
    EntryWithoutDash(b);
    RangeOfStouls(a, b);
    forall f: nat, l: nat | Entry(a) == Ids({f}) && Entry(b) == Ids({l})
      ensures if f <= l == 0xFFFF_FFFF then Entry(a + "-" + b) == Diverges
              else Entry(a + "-" + b).Ids? && forall k: nat :: k in Entry(a + "-" + b).ids <==> f <= k <= l
    {
      SameSingle(f, Cut(Stoul(a).value));
      SameSingle(l, Cut(Stoul(b).value));
    }
  }

  lemma SameSingle(x: nat, y: nat)
    requires {x} == {y}
    ensures x == y
  {
    assert x in {y};
  }

  lemma DashesAround(mid: string)
    ensures var m := "-" + mid + "-"; m != [] && m[0] == '-' && m[|m| - 1] == '-'
  {
  }

  lemma RegroupDashes(a: string, mid: string, b: string)
    ensures a + ("-" + mid + "-") + b == a + "-" + mid + "-" + b == a + "-" + (mid + "-" + b)
  {
    Regroup(a, "-", mid, "-");
    Regroup(a + "-", mid, "-", b);
  }

  /** Of more than two texts between dashes only the first and the last count. */
  lemma MiddleIsIgnored(a: string, mid: string, b: string)
    requires '-' !in a && '-' !in b
    ensures Entry(a + "-" + mid + "-" + b) == Entry(a + "-" + b)
  {
    var x, y := SkipSpaces(a), DropTrailingSpaces(b);
    RangeOfStouls(a, b);
    DashesAround(mid);
    TrimAround(a, "-" + mid + "-", b);
    SkipHasNo(a, '-');
    DropHasNo(b, '-');
    var tail := mid + "-" + y;
    RegroupDashes(a, mid, b);
    RegroupDashes(x, mid, y);
    SplitConcat(x, '-', tail);
    SplitConcat(mid, '-', y);
    SplitWhole(x, '-');
    SplitWhole(y, '-');
    var v := [x] + (Split(mid, '-') + [y]);
    assert v[0] == x && v[|v| - 1] == y && |v| > 1;
    StoulOfParts(a);
    StoulOfParts(b);
  }

  // ---------------------------------------------------------------- what throws

  /** A list of a single entry. */
  lemma LineOfEntry(entry: string)
    requires ',' !in entry
    ensures Line(entry) == Entry(entry)
  {
    SplitWhole(entry, ',');
    EntriesStep([entry]);
    CombineNothing(Entry(entry));
  }

  /** A text of nothing but white space is no number, and no list either. */
  lemma BlankThrows(s: string)
    requires AllBlank(s)
    ensures Entry(s) == InvalidArgument == Line(s)
  {
    BlanksAreSpaces(s);
    assert forall i | 0 <= i < |s| :: s[i] != '-' && s[i] != ',';
    EntryWithoutDash(s);
    assert SkipSpaces(s) == [];
    LineOfEntry(s);
  }

  lemma TrimFirst(before: string, c: char, rest: string)
    requires AllBlank(before) && !Blank(c)
    ensures Trim(before + [c] + rest) == [c] + DropTrailingSpaces(rest)
  {
    BlanksAreSpaces(before);
    BlankIsSpace(c);
    TrimAround(before, [c], rest);
    assert SkipSpaces(before) == [];
  }

  lemma OtherFirst(before: string, c: char, rest: string)
    requires AllBlank(before) && !Blank(c) && !IsDigit(c) && c != '+'
    ensures Entry(before + [c] + rest) == InvalidArgument
  {
    TrimFirst(before, c, rest);
    BlankIsSpace(c);
    var first := Split([c] + DropTrailingSpaces(rest), '-')[0];
    FirstOfSplit([c] + DropTrailingSpaces(rest));
    assert SkipSpaces(first) == first;
    assert Digits(first) == [];
  }

  lemma SplitPlus(t: string)
    ensures var u, v := Split(t, '-'), Split("+" + t, '-');
            v[0] == "+" + u[0] && v[1..] == u[1..] && |v| == |u| && (|v| > 1 ==> v[|v| - 1] == u[|u| - 1])
  {
    SplitStep("+" + t, '-');
    assert ("+" + t)[1..] == t;
  }

  lemma StoulPlus(s: string)
    ensures s != [] && IsDigit(s[0]) ==> Stoul("+" + s) == Stoul(s)
    ensures s == [] || !IsDigit(s[0]) ==> Stoul("+" + s) == NotANumber
  {
    assert SkipSpaces("+" + s) == "+" + s && ("+" + s)[1..] == s;
  }

  lemma PlusAndDigit(before: string, rest: string)
    requires AllBlank(before) && rest != [] && IsDigit(rest[0])
    ensures Entry(before + ['+'] + rest) == Entry(rest)
  {
    var t := DropTrailingSpaces(rest);
    BlankIsSpace('+');
    TrimFirst(before, '+', rest);
    SplitPlus(t);
    FirstOfSplit(t);
    DropFirstDigit(rest);
    StoulPlus(Split(t, '-')[0]);
    assert Trim(rest) == t;
  }

  lemma PlusAndOther(before: string, rest: string)
    requires AllBlank(before) && (rest == [] || !IsDigit(rest[0]))
    ensures Entry(before + ['+'] + rest) == InvalidArgument
  {
    var t := DropTrailingSpaces(rest);
    BlankIsSpace('+');
    TrimFirst(before, '+', rest);
    SplitPlus(t);
    FirstOfSplit(t);
    DropFirstOther(rest);
    StoulPlus(Split(t, '-')[0]);
  }

  /** The first character that is not white space must be a digit, or one plus right before a digit,
      which does not matter; anything else throws, whatever follows. */
  lemma FirstCharacter(before: string, c: char, rest: string)
    requires AllBlank(before) && !Blank(c)
    ensures !('0' <= c <= '9') && c != '+' ==> Entry(before + [c] + rest) == InvalidArgument
    ensures c == '+' && (rest == [] || !('0' <= rest[0] <= '9')) ==> Entry(before + [c] + rest) == InvalidArgument
    ensures c == '+' && rest != [] && '0' <= rest[0] <= '9' ==> Entry(before + [c] + rest) == Entry(rest)
  {
    if c == '+' {
      if rest != [] && IsDigit(rest[0]) {
        PlusAndDigit(before, rest);
      } else {
        PlusAndOther(before, rest);
      }
    } else if !IsDigit(c) {
      OtherFirst(before, c, rest);
    }
  }

  /** The first token starts like the text, unless that starts with a dash. */
  lemma FirstOfSplit(t: string)
    ensures Split(t, '-')[0] == [] ==> t == [] || t[0] == '-'
    ensures Split(t, '-')[0] != [] ==> t != [] && Split(t, '-')[0][0] == t[0]
  {
    if t != [] {
      SplitStep(t, '-');
    }
  }

  lemma {:induction false} DropInFront(c: char, rest: string)
    requires !IsSpace(c)
    ensures DropTrailingSpaces([c] + rest) == [c] + DropTrailingSpaces(rest)
  {
    var s := [c] + rest;
    if rest == [] {
      assert s == [c] && [c] + [] == [c];
    } else {
      assert s[|s| - 1] == rest[|rest| - 1];
      if IsSpace(rest[|rest| - 1]) {
        DropInFront(c, rest[..|rest| - 1]);
        assert s[..|s| - 1] == [c] + rest[..|rest| - 1];
      }
    }
  }

  lemma DropFirstDigit(s: string)
    requires s != [] && IsDigit(s[0])
    ensures var t := DropTrailingSpaces(s); t != [] && t[0] == s[0]
  {
    DropInFront(s[0], s[1..]);
    assert [s[0]] + s[1..] == s;
  }

  lemma DropFirstOther(s: string)
    requires s == [] || !IsDigit(s[0])
    ensures var t := DropTrailingSpaces(s); t == [] || !IsDigit(t[0])
  {
    var q := DropIsPart(s);
    var t := DropTrailingSpaces(s);
    assert t != [] ==> t[0] == s[0];
  }
}
