/** Segment file names: how mq_store_file.c numbers them, reads the numbers back and scans a directory. */
module SegmentNames {
  import opened Bytes
  import opened Decimal
  import opened Strings

  type Name = seq<byte>

  const UNDERSCORE: byte := 95

  const DB_PATTERN: Name := [100, 98, 95]

  const RTAG_PATTERN: Name := [114, 116, 97, 103, 95]

  // ----- The generated names

  /** How many digits "%u" needs. */
  function Width(n: nat): (w: nat)
    ensures w > 0 && n < Pow10(w) && (w > 1 ==> Pow10(w - 1) <= n)
  {
    if n < 10 then assert Pow10(1) == 10; 1 else 1 + Width(n / 10)
  }

  /** "%012u". */
  function FieldWidth(n: nat): nat { if Width(n) < 12 then 12 else Width(n) }

  function Digits(n: nat): Name { Padded(n, FieldWidth(n)) }

  function DbName(n: nat): Name { DB_PATTERN + Digits(n) }

  function RtagName(n: nat): Name { RTAG_PATTERN + Digits(n) }

  lemma {:induction false} PowersGrow(a: nat, b: nat)
    requires a <= b
    ensures Pow10(a) <= Pow10(b)
  {
    if a < b {
      PowersGrow(a, b - 1);
    }
  }

  lemma FieldHolds(n: nat)
    ensures n < Pow10(FieldWidth(n))
    ensures FieldWidth(n) == 12 <==> n < 1_000_000_000_000
  {
    TenDigits();
    if Width(n) <= 12 {
      PowersGrow(Width(n), 12);
    } else {
      PowersGrow(12, Width(n) - 1);
    }
  }

  // ----- strcmp

  /** The sign of strcmp. */
  function StrCmp(a: Name, b: Name): int {
    if |a| == 0 then (if |b| == 0 then 0 else -1)
    else if |b| == 0 then 1
    else if a[0] != b[0] then (if a[0] < b[0] then -1 else 1)
    else StrCmp(a[1..], b[1..])
  }

  lemma {:induction false} StrCmpTotal(a: Name, b: Name)
    ensures StrCmp(a, b) == -StrCmp(b, a)
    ensures StrCmp(a, b) == 0 <==> a == b
  {
    if |a| > 0 && |b| > 0 && a[0] == b[0] {
      StrCmpTotal(a[1..], b[1..]);
      assert a == [a[0]] + a[1..] && b == [b[0]] + b[1..];
    }
  }

  lemma {:induction false} StrCmpTransitive(a: Name, b: Name, c: Name)
    requires StrCmp(a, b) <= 0 && StrCmp(b, c) <= 0
    ensures StrCmp(a, c) <= 0
  {
    if |a| > 0 && |b| > 0 && |c| > 0 && a[0] == b[0] == c[0] {
      StrCmpTransitive(a[1..], b[1..], c[1..]);
    }
  }

  lemma {:induction false} StrCmpPrefix(p: Name, a: Name, b: Name)
    ensures StrCmp(p + a, p + b) == StrCmp(a, b)
  {
    if |p| > 0 {
      assert (p + a)[1..] == p[1..] + a && (p + b)[1..] == p[1..] + b;
      StrCmpPrefix(p[1..], a, b);
    } else {
      assert p + a == a && p + b == b;
    }
  }

  /** What follows parts of equal length decides only when those are equal. */
  lemma {:induction false} StrCmpAppend(a: Name, b: Name, c: Name, d: Name)
    requires |a| == |b|
    ensures StrCmp(a + c, b + d) == if StrCmp(a, b) != 0 then StrCmp(a, b) else StrCmp(c, d)
  {
    if |a| > 0 {
      assert (a + c)[1..] == a[1..] + c && (b + d)[1..] == b[1..] + d;
      StrCmpAppend(a[1..], b[1..], c, d);
    } else {
      assert a + c == c && b + d == d;
    }
  }

  function Sign(n: int): int { if n < 0 then -1 else if n > 0 then 1 else 0 }

  /** Fields of one width are ordered as their numbers. */
  lemma {:induction false} FieldOrder(m: nat, n: nat, w: nat)
    requires m < Pow10(w) && n < Pow10(w)
    ensures StrCmp(Padded(m, w), Padded(n, w)) == Sign(m - n)
    decreases w
  {
    if w > 0 {
      FieldOrder(m / 10, n / 10, w - 1);
      StrCmpAppend(Padded(m / 10, w - 1), Padded(n / 10, w - 1), [ZERO + m % 10], [ZERO + n % 10]);
    }
  }

  /** The leading digits of a field are the field of the leading digits. */
  lemma {:induction false} LeadingDigits(n: nat, w: nat, k: nat)
    requires k <= w
    ensures Padded(n, w)[..k] == Padded(n / Pow10(w - k), k)
    decreases w
  {
    if k == w {
      assert Padded(n, w)[..k] == Padded(n, w);
      assert n / 1 == n;
    } else {
      LeadingDigits(n / 10, w - 1, k);
      assert Padded(n, w)[..k] == Padded(n / 10, w - 1)[..k];
      DivideTwice(n, Pow10(w - 1 - k));
    }
  }

  lemma DivideTwice(n: nat, p: nat)
    requires p > 0
    ensures n / 10 / p == n / (10 * p)
  {
    var q, r := n / 10 / p, n / 10 % p;
    var low := 10 * r + n % 10;
    assert n / 10 == p * q + r;
    assert n == 10 * (p * q + r) + n % 10;
    assert 10 * (p * q) == (10 * p) * q;
    var q', r' := n / (10 * p), n % (10 * p);
    assert n == (10 * p) * q' + r';
    assert (10 * p) * (q' - q) == low - r';
    assert q' - q >= 1 ==> (10 * p) * (q' - q) >= 10 * p;
    assert q' - q <= -1 ==> (10 * p) * (q' - q) <= -(10 * p);
  }

  lemma ShrinkQuotient(n: nat, v: nat, w: nat)
    requires v <= w && n < Pow10(w)
    ensures n / Pow10(w - v) < Pow10(v)
  {
    hide Pow10;
    PowersMultiply(v, w - v);
    var d := Pow10(w - v);
    QuotientBelow(n, d, Pow10(v));
  }

  lemma QuotientBelow(n: nat, d: nat, b: nat)
    requires d > 0 && n < d * b
    ensures n / d < b
  {
    var q := n / d;
    assert n == d * q + n % d;
    assert q >= b ==> d * q >= d * b;
  }

  lemma {:induction false} PowersMultiply(a: nat, b: nat)
    ensures Pow10(a + b) == Pow10(b) * Pow10(a)
  {
    if b > 0 {
      PowersMultiply(a, b - 1);
      assert 10 * (Pow10(b - 1) * Pow10(a)) == (10 * Pow10(b - 1)) * Pow10(a);
    }
  }

  /** The order of two names, in numbers: as the numbers when the fields are equally wide, otherwise
      decided by the leading digits of the longer one. */
  lemma {:induction false} NameOrder(m: nat, n: nat)
    requires FieldWidth(m) <= FieldWidth(n)
    ensures StrCmp(DbName(m), DbName(n))
         == if FieldWidth(m) == FieldWidth(n) then Sign(m - n)
            else if m <= n / Pow10(FieldWidth(n) - FieldWidth(m)) then -1 else 1
  {
    hide StrCmp, Padded, Width, Pow10;
    var v, w := FieldWidth(m), FieldWidth(n);
    FieldHolds(m);
    FieldHolds(n);
    StrCmpPrefix(DB_PATTERN, Digits(m), Digits(n));
    if v == w {
      FieldOrder(m, n, v);
    } else {
      var head, tail := Digits(n)[..v], Digits(n)[v..];
      assert Digits(n) == head + tail && Digits(m) == Digits(m) + [];
      LeadingDigits(n, w, v);
      ShrinkQuotient(n, v, w);
      FieldOrder(m, n / Pow10(w - v), v);
      StrCmpAppend(Digits(m), head, [], tail);
      EmptyFirst(tail);
    }
  }

  lemma EmptyFirst(s: Name)
    requires |s| > 0
    ensures StrCmp([], s) == -1
  {}

  /** Below 10^12 the names are ordered as the numbers. */
  lemma {:induction false} SmallNamesOrdered(m: nat, n: nat)
    requires m < 1_000_000_000_000 && n < 1_000_000_000_000
    ensures StrCmp(DbName(m), DbName(n)) == Sign(m - n)
  {
    FieldHolds(m);
    FieldHolds(n);
    NameOrder(m, n);
  }

  /** The name of 10^12 sorts before the name of its predecessor. */
  lemma {:induction false} OrderBreaksAtTrillion()
    ensures StrCmp(DbName(1_000_000_000_000), DbName(999_999_999_999)) == -1
  {
    hide StrCmp, Padded, Width;
    var m, n := 999_999_999_999, 1_000_000_000_000;
    FieldHolds(m);
    FieldHolds(n);
    ThirteenDigits();
    NameOrder(m, n);
    StrCmpTotal(DbName(m), DbName(n));
  }

  lemma WidthIs(n: nat, w: nat)
    requires w > 0 && Pow10(w - 1) <= n < Pow10(w)
    ensures Width(n) == w
  {
    if Width(n) < w {
      PowersGrow(Width(n), w - 1);
    } else if Width(n) > w {
      PowersGrow(w, Width(n) - 1);
    }
  }

  lemma ThirteenDigits()
    ensures FieldWidth(1_000_000_000_000) == 13
    ensures Pow10(1) == 10
  {
    hide Width;
    TenDigits();
    assert Pow10(13) == 10 * Pow10(12);
    WidthIs(1_000_000_000_000, 13);
  }

  // ----- get_id_by_fname

  const ATOLL_MAX: nat := 0x7FFF_FFFF_FFFF_FFFF

  function Atoll(s: Name): nat { if Atoi(s) > ATOLL_MAX then ATOLL_MAX else Atoi(s) }

  /** The number in the last token of s, or ret when s has none. */
  function LastNumber(s: Name, ret: nat): nat {
    if |s| == 0 then ret
    else if s[0] == UNDERSCORE then LastNumber(s[1..], ret)
    else LastNumber(s[TokenLen(s, UNDERSCORE)..], Atoll(s[..TokenLen(s, UNDERSCORE)]))
  }

  method GetIdByFname(fname: Name) returns (ret: nat)
    ensures ret == LastNumber(fname, 0)
  {
    ret := 0;
    var rest := fname;
    while |rest| > 0
      invariant LastNumber(rest, ret) == LastNumber(fname, 0)
      decreases |rest|
    {
      if rest[0] == UNDERSCORE {
        rest := rest[1..];
      } else {
        var n := TokenLen(rest, UNDERSCORE);
        ret, rest := Atoll(rest[..n]), rest[n..];
      }
    }
  }

  lemma TokenStops(s: Name)
    ensures TokenLen(s, UNDERSCORE) == |s| || UNDERSCORE in s
  {
    if TokenLen(s, UNDERSCORE) < |s| {
      assert s[TokenLen(s, UNDERSCORE)] in s;
    }
  }

  lemma NoUnderscore(s: Name)
    requires |s| > 0 && UNDERSCORE !in s
    ensures TokenLen(s, UNDERSCORE) == |s| && forall ret :: LastNumber(s, ret) == Atoll(s)
  {
    TokenStops(s);
    assert s[..|s|] == s && s[|s|..] == [];
  }

  lemma LastNumberSkips(p: Name, digits: Name, ret: nat)
    requires |digits| > 0 && UNDERSCORE !in digits && UNDERSCORE !in p && |p| > 0
    ensures LastNumber(p + [UNDERSCORE] + digits, ret) == Atoll(digits)
  {
    var s := p + [UNDERSCORE] + digits;
    assert s == p + ([UNDERSCORE] + digits);
    TokenOf(p, [UNDERSCORE] + digits, UNDERSCORE);
    assert s[0] in p;
    var t := s[|p|..];
    assert t[0] == UNDERSCORE && t[1..] == digits;
    NoUnderscore(digits);
    var x := Atoll(s[..|p|]);
    assert LastNumber(t, x) == LastNumber(digits, x);
  }

  /** The number of a segment is read back from its name, for every number atoll can return. */
  lemma {:induction false} IdInverts(n: nat)
    ensures LastNumber(DbName(n), 0) == LastNumber(RtagName(n), 0) == if n > ATOLL_MAX then ATOLL_MAX else n
  {
    hide LastNumber, TokenLen, Pow10, Width;
    var d := Digits(n);
    FieldHolds(n);
    PaddedValue(n, FieldWidth(n));
    AtoiOfDigits(d);
    DigitsAreNotUnderscores(d);
    assert DbName(n) == [100, 98] + [UNDERSCORE] + d;
    assert RtagName(n) == [114, 116, 97, 103] + [UNDERSCORE] + d;
    LastNumberSkips([100, 98], d, 0);
    LastNumberSkips([114, 116, 97, 103], d, 0);
  }

  lemma DigitsAreNotUnderscores(d: Name)
    requires AllDigits(d)
    ensures UNDERSCORE !in d
  {}

  // ----- find_handle_file

  /** A directory entry: its name, and whether it is a regular file. */
  datatype Entry = Entry(name: Name, regular: bool)

  predicate Matches(name: Name, pattern: Name) {
    |name| >= |pattern| && name[..|pattern|] == pattern
  }

  predicate Listed(e: Entry, pattern: Name) {
    e.regular && Matches(e.name, pattern)
  }

  /** name is among the segment files of the listing, and none sorts before it. */
  ghost predicate IsFirst(name: Name, entries: seq<Entry>) {
    && (exists i :: 0 <= i < |entries| && Listed(entries[i], DB_PATTERN) && entries[i].name == name)
    && (forall i :: 0 <= i < |entries| && Listed(entries[i], DB_PATTERN) ==> StrCmp(name, entries[i].name) <= 0)
  }

  ghost predicate IsLast(name: Name, entries: seq<Entry>) {
    && (exists i :: 0 <= i < |entries| && Listed(entries[i], DB_PATTERN) && entries[i].name == name)
    && (forall i :: 0 <= i < |entries| && Listed(entries[i], DB_PATTERN) ==> StrCmp(name, entries[i].name) >= 0)
  }

  lemma FirstStays(name: Name, entries: seq<Entry>, e: Entry)
    requires IsFirst(name, entries)
    ensures !Listed(e, DB_PATTERN) ==> IsFirst(name, entries + [e])
    ensures Listed(e, DB_PATTERN) ==> IsFirst(if StrCmp(e.name, name) < 0 then e.name else name, entries + [e])
  {
    var next := entries + [e];
    var kept := if Listed(e, DB_PATTERN) && StrCmp(e.name, name) < 0 then e.name else name;
    StrCmpTotal(e.name, name);
    StrCmpTotal(kept, kept);
    var j :| 0 <= j < |entries| && Listed(entries[j], DB_PATTERN) && entries[j].name == name;
    assert next[j].name == name && next[|entries|] == e;
    forall i | 0 <= i < |next| && Listed(next[i], DB_PATTERN)
      ensures StrCmp(kept, next[i].name) <= 0
    {
      if i < |entries| {
        assert next[i] == entries[i];
        StrCmpTransitive(kept, name, entries[i].name);
      }
    }
  }

  lemma LastStays(name: Name, entries: seq<Entry>, e: Entry)
    requires IsLast(name, entries)
    ensures !Listed(e, DB_PATTERN) ==> IsLast(name, entries + [e])
    ensures Listed(e, DB_PATTERN) ==> IsLast(if StrCmp(e.name, name) > 0 then e.name else name, entries + [e])
  {
    var next := entries + [e];
    var kept := if Listed(e, DB_PATTERN) && StrCmp(e.name, name) > 0 then e.name else name;
    StrCmpTotal(e.name, name);
    StrCmpTotal(kept, kept);
    var j :| 0 <= j < |entries| && Listed(entries[j], DB_PATTERN) && entries[j].name == name;
    assert next[j].name == name && next[|entries|] == e;
    forall i | 0 <= i < |next| && Listed(next[i], DB_PATTERN)
      ensures StrCmp(kept, next[i].name) >= 0
    {
      if i < |entries| {
        assert next[i] == entries[i];
        StrCmpTotal(entries[i].name, name);
        StrCmpTotal(kept, name);
        StrCmpTransitive(entries[i].name, name, kept);
        StrCmpTotal(entries[i].name, kept);
      }
    }
  }

  ghost predicate Has(entries: seq<Entry>, pattern: Name) {
    exists i :: 0 <= i < |entries| && Listed(entries[i], pattern)
  }

  ghost predicate IsListed(name: Name, entries: seq<Entry>, pattern: Name) {
    exists i :: 0 <= i < |entries| && Listed(entries[i], pattern) && entries[i].name == name
  }

  lemma ListedStays(name: Name, entries: seq<Entry>, e: Entry, pattern: Name)
    requires IsListed(name, entries, pattern)
    ensures IsListed(name, entries + [e], pattern)
  {
    var i :| 0 <= i < |entries| && Listed(entries[i], pattern) && entries[i].name == name;
    assert (entries + [e])[i] == entries[i];
  }

  lemma OneMore(entries: seq<Entry>, e: Entry, pattern: Name)
    ensures Has(entries + [e], pattern) <==> Has(entries, pattern) || Listed(e, pattern)
    ensures Listed(e, pattern) ==> IsListed(e.name, entries + [e], pattern)
    ensures Listed(e, DB_PATTERN) && !Has(entries, DB_PATTERN) ==>
      IsFirst(e.name, entries + [e]) && IsLast(e.name, entries + [e])
  {
    var next := entries + [e];
    assert next[|entries|] == e && forall i :: 0 <= i < |entries| ==> next[i] == entries[i];
    StrCmpTotal(e.name, e.name);
  }

  /** queue_file_t. */
  datatype QueueFile = QueueFile(rtagName: Name, readName: Name, writeName: Name, rtagFid: nat, readFid: nat,
                                 writeFid: nat)

  /** rtag is the journal that is kept, removed are those that are unlinked: none that has a size sorts
      behind the kept one. size is what the file system says about a bare name, negative for none. */
  ghost predicate KeptJournal(rtag: Name, removed: seq<Name>, entries: seq<Entry>, size: Name -> int) {
    && IsListed(rtag, entries, RTAG_PATTERN)
    && (forall i :: 0 <= i < |entries| && Listed(entries[i], RTAG_PATTERN) ==>
          && (size(entries[i].name) >= 0 ==> StrCmp(rtag, entries[i].name) >= 0)
          && (entries[i].name == rtag || entries[i].name in removed))
  }

  /** The kept journal sorts nowhere before the first one listed, and if it is another one it has a size. */
  ghost predicate KeptOrFirst(rtag: Name, entries: seq<Entry>, size: Name -> int) {
    exists i :: 0 <= i < |entries| && Listed(entries[i], RTAG_PATTERN)
      && (forall k :: 0 <= k < i ==> !Listed(entries[k], RTAG_PATTERN))
      && StrCmp(rtag, entries[i].name) >= 0 && (rtag == entries[i].name || size(rtag) >= 0)
  }

  ghost predicate NoRepeats(entries: seq<Entry>) {
    forall i, k :: 0 <= i < k < |entries| ==> entries[i].name != entries[k].name
  }

  /** Only journals are unlinked; and when no name is listed twice, each but the kept one, once. */
  ghost predicate Unlinked(rtag: Name, removed: seq<Name>, entries: seq<Entry>) {
    && (forall n :: n in removed ==> IsListed(n, entries, RTAG_PATTERN))
    && (NoRepeats(entries) ==>
          && (forall n :: n in removed <==> IsListed(n, entries, RTAG_PATTERN) && n != rtag)
          && (forall a, b :: 0 <= a < b < |removed| ==> removed[a] != removed[b]))
  }

  lemma ListedIn(n: Name, entries: seq<Entry>, e: Entry)
    ensures IsListed(n, entries + [e], RTAG_PATTERN)
       <==> IsListed(n, entries, RTAG_PATTERN) || (Listed(e, RTAG_PATTERN) && n == e.name)
  {
    var next := entries + [e];
    assert next[|entries|] == e && forall i :: 0 <= i < |entries| ==> next[i] == entries[i];
  }

  lemma NotListedBefore(entries: seq<Entry>, e: Entry)
    requires NoRepeats(entries + [e])
    ensures NoRepeats(entries) && !IsListed(e.name, entries, RTAG_PATTERN)
  {
    var next := entries + [e];
    assert next[|entries|] == e && forall i :: 0 <= i < |entries| ==> next[i] == entries[i];
  }

  /** One entry more: nothing is unlinked, or of the kept journal and the new one either. */
  lemma UnlinkedStays(rtag: Name, removed: seq<Name>, entries: seq<Entry>, e: Entry)
    requires IsListed(rtag, entries, RTAG_PATTERN) && Unlinked(rtag, removed, entries)
    ensures !Listed(e, RTAG_PATTERN) ==> Unlinked(rtag, removed, entries + [e])
    ensures Listed(e, RTAG_PATTERN) ==>
      && Unlinked(rtag, removed + [e.name], entries + [e])
      && Unlinked(e.name, removed + [rtag], entries + [e])
  {
    hide IsListed, NoRepeats;
    forall n
      ensures IsListed(n, entries + [e], RTAG_PATTERN)
         <==> IsListed(n, entries, RTAG_PATTERN) || (Listed(e, RTAG_PATTERN) && n == e.name)
    {
      ListedIn(n, entries, e);
    }
    if NoRepeats(entries + [e]) {
      NotListedBefore(entries, e);
    }
  }

  lemma KeptOrFirstStays(rtag: Name, entries: seq<Entry>, e: Entry, size: Name -> int)
    requires KeptOrFirst(rtag, entries, size)
    ensures KeptOrFirst(rtag, entries + [e], size)
    ensures size(e.name) >= 0 && StrCmp(e.name, rtag) > 0 ==> KeptOrFirst(e.name, entries + [e], size)
  {
    var next := entries + [e];
    var i :| 0 <= i < |entries| && Listed(entries[i], RTAG_PATTERN)
      && (forall k :: 0 <= k < i ==> !Listed(entries[k], RTAG_PATTERN))
      && StrCmp(rtag, entries[i].name) >= 0 && (rtag == entries[i].name || size(rtag) >= 0);
    assert next[i] == entries[i] && forall k :: 0 <= k < i ==> next[k] == entries[k];
    StrCmpTotal(rtag, entries[i].name);
    StrCmpTotal(e.name, rtag);
    StrCmpTotal(e.name, entries[i].name);
    if StrCmp(e.name, rtag) > 0 {
      StrCmpTransitive(entries[i].name, rtag, e.name);
    }
  }

  lemma FirstJournal(entries: seq<Entry>, e: Entry, size: Name -> int)
    requires !Has(entries, RTAG_PATTERN) && Listed(e, RTAG_PATTERN)
    ensures KeptJournal(e.name, [], entries + [e], size) && KeptOrFirst(e.name, entries + [e], size)
    ensures Unlinked(e.name, [], entries + [e])
  {
    var next := entries + [e];
    assert next[|entries|] == e && forall i :: 0 <= i < |entries| ==> next[i] == entries[i];
    StrCmpTotal(e.name, e.name);
  }

  lemma JournalStays(rtag: Name, removed: seq<Name>, entries: seq<Entry>, e: Entry, size: Name -> int)
    requires KeptJournal(rtag, removed, entries, size)
    ensures !Listed(e, RTAG_PATTERN) ==> KeptJournal(rtag, removed, entries + [e], size)
    ensures Listed(e, RTAG_PATTERN) && size(e.name) < 0 ==>
      KeptJournal(rtag, removed + [e.name], entries + [e], size)
    ensures Listed(e, RTAG_PATTERN) && size(e.name) >= 0 ==>
      var c := StrCmp(e.name, rtag);
      KeptJournal(if c > 0 then e.name else rtag, removed + [if c < 0 then e.name else rtag], entries + [e], size)
  {
    var next, c := entries + [e], StrCmp(e.name, rtag);
    ListedStays(rtag, entries, e, RTAG_PATTERN);
    OneMore(entries, e, RTAG_PATTERN);
    StrCmpTotal(e.name, rtag);
    StrCmpTotal(e.name, e.name);
    forall i | 0 <= i < |entries| && Listed(entries[i], RTAG_PATTERN) && size(entries[i].name) >= 0 && c > 0
      ensures StrCmp(e.name, entries[i].name) >= 0
    {
      StrCmpTotal(rtag, entries[i].name);
      StrCmpTransitive(entries[i].name, rtag, e.name);
      StrCmpTotal(e.name, entries[i].name);
    }
    assert forall i :: 0 <= i < |entries| ==> next[i] == entries[i];
    assert next[|entries|] == e;
  }

  lemma KeptIsListed(rtag: Name, removed: seq<Name>, entries: seq<Entry>, size: Name -> int)
    requires KeptJournal(rtag, removed, entries, size)
    ensures IsListed(rtag, entries, RTAG_PATTERN)
  {}

  lemma DotMatchesNothing(name: Name)
    requires |name| > 0 && name[0] == 46
    ensures !Matches(name, DB_PATTERN) && !Matches(name, RTAG_PATTERN)
  {
    assert |name| >= 3 ==> name[..3][0] == 46;
    assert |name| >= 5 ==> name[..5][0] == 46;
  }

  /** find_handle_file. Sizes are looked up, and journals removed, by bare name. */
  method FindHandleFile(entries: seq<Entry>, size: Name -> int) returns (ok: bool, file: QueueFile, removed: seq<Name>)
    ensures ok <==> Has(entries, DB_PATTERN) && Has(entries, RTAG_PATTERN) && file.rtagFid == file.readFid
    ensures Has(entries, RTAG_PATTERN) ==>
      (&& KeptJournal(file.rtagName, removed, entries, size) && KeptOrFirst(file.rtagName, entries, size)
       && Unlinked(file.rtagName, removed, entries))
    ensures !Has(entries, RTAG_PATTERN) ==> removed == []
    ensures Has(entries, DB_PATTERN) && Has(entries, RTAG_PATTERN) ==>
      (&& IsFirst(file.readName, entries) && IsLast(file.writeName, entries)
       && file.readFid == LastNumber(file.readName, 0) && file.writeFid == LastNumber(file.writeName, 0)
       && file.rtagFid == LastNumber(file.rtagName, 0))
  {
    hide IsFirst, IsLast, KeptJournal, KeptOrFirst, Unlinked, Has, LastNumber, Matches, IsListed;
    var read, write, rtag: Name := [], [], [];
    removed := [];
    var i, j := 1, 1;
    NothingListed();
    for k := 0 to |entries|
      invariant i >= 1 && j >= 1 && (i > 1 <==> Has(entries[..k], DB_PATTERN))
          && (j > 1 <==> Has(entries[..k], RTAG_PATTERN))
      invariant i > 1 ==> IsFirst(read, entries[..k]) && IsLast(write, entries[..k])
      invariant j > 1 ==> KeptJournal(rtag, removed, entries[..k], size) && Unlinked(rtag, removed, entries[..k])
      invariant j > 1 ==> KeptOrFirst(rtag, entries[..k], size)
      invariant j == 1 ==> removed == []
    {
      var e := entries[k];
      ghost var seen := entries[..k];
      assert entries[..k + 1] == seen + [e];
      OneMore(seen, e, DB_PATTERN);
      OneMore(seen, e, RTAG_PATTERN);
      if i > 1 {
        FirstStays(read, seen, e);
        LastStays(write, seen, e);
      }
      if j > 1 {
        JournalStays(rtag, removed, seen, e, size);
        KeptIsListed(rtag, removed, seen, size);
        KeptOrFirstStays(rtag, seen, e, size);
        UnlinkedStays(rtag, removed, seen, e);
        StrCmpTotal(e.name, rtag);
      } else if Listed(e, RTAG_PATTERN) {
        FirstJournal(seen, e, size);
      }
      if !e.regular {
        continue;
      }
      if |e.name| > 0 && e.name[0] == 46 {
        DotMatchesNothing(e.name);
        continue;
      }
      if Matches(e.name, DB_PATTERN) {
        if i == 1 {
          read, write := e.name, e.name;
        } else {
          read := if StrCmp(e.name, read) < 0 then e.name else read;
          write := if StrCmp(e.name, write) > 0 then e.name else write;
        }
        i := i + 1;
      }
      if Matches(e.name, RTAG_PATTERN) {
        if j == 1 {
          rtag := e.name;
        } else {
          if size(e.name) < 0 {
            removed := removed + [e.name];
            continue;
          }
          removed := removed + [if StrCmp(e.name, rtag) < 0 then e.name else rtag];
          rtag := if StrCmp(e.name, rtag) > 0 then e.name else rtag;
        }
        j := j + 1;
      }
    }
    assert entries[..|entries|] == entries;
    ok, file := false, QueueFile(rtag, read, write, 0, 0, 0);
    if i <= 1 || j <= 1 {
      return;
    }
    var rtagFid := GetIdByFname(rtag);
    var readFid := GetIdByFname(read);
    var writeFid := GetIdByFname(write);
    file := QueueFile(rtag, read, write, rtagFid, readFid, writeFid);
    ok := rtagFid == readFid;
  }

  lemma NothingListed()
    ensures !Has([], DB_PATTERN) && !Has([], RTAG_PATTERN)
  {}

  const TRILLION: nat := 1_000_000_000_000

  /** The segment files of the directory are those with these numbers. */
  ghost predicate Numbered(entries: seq<Entry>, ids: set<nat>) {
    && (forall i :: 0 <= i < |entries| && Listed(entries[i], DB_PATTERN) ==>
          exists k :: k in ids && entries[i].name == DbName(k))
    && (forall k :: k in ids ==> IsListed(DbName(k), entries, DB_PATTERN))
  }

  /** In whatever order a directory lists its segments, the least number becomes the read segment
      and the greatest the write segment. */
  lemma {:induction false} ScanPicksEnds(entries: seq<Entry>, ids: set<nat>, read: Name, write: Name)
    requires Numbered(entries, ids) && forall k :: k in ids ==> k < TRILLION
    requires IsFirst(read, entries) && IsLast(write, entries)
    ensures var r := LastNumber(read, 0); r in ids && forall k :: k in ids ==> r <= k
    ensures var w := LastNumber(write, 0); w in ids && forall k :: k in ids ==> k <= w
  {
    hide LastNumber, StrCmp, DbName, Listed;
    var i :| 0 <= i < |entries| && Listed(entries[i], DB_PATTERN) && entries[i].name == read;
    var r :| r in ids && read == DbName(r);
    var j :| 0 <= j < |entries| && Listed(entries[j], DB_PATTERN) && entries[j].name == write;
    var w :| w in ids && write == DbName(w);
    IdInverts(r);
    IdInverts(w);
    forall k | k in ids
      ensures r <= k <= w
    {
      assert IsListed(DbName(k), entries, DB_PATTERN);
      SmallNamesOrdered(r, k);
      SmallNamesOrdered(w, k);
    }
  }
}
