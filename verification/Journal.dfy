/** The rtag journal (mq_store_rtag.c): one 61-byte line per operation, read backwards at restart. */
module Journal {
  import opened Bytes
  import opened Decimal
  import opened Message
  import opened Strings

  const RTAG_ITEM_LEN: nat := 60
  const LINE_LEN: nat := 61
  const NEWLINE: byte := 10

  /** What a line records; wlock is an int printed and parsed through uint32. */
  datatype Record = Record(rcount: nat, rpos: nat, wpos: nat, maxque: nat, delay: nat, wlock: int)

  /** The queue defaults that a fallback restores. */
  datatype Defaults = Defaults(maxque: nat, delay: nat)

  predicate Storable(r: Record) {
    && r.rcount < U32 && r.rpos < U32 && r.wpos < U32 && r.maxque < U32 && r.delay < U32
    && -0x8000_0000 <= r.wlock < 0x8000_0000
  }

  function FromInt32(x: int): nat { x % U32 }

  function ToInt32(x: nat): int {
    if x % U32 < 0x8000_0000 then x % U32 else x % U32 - U32
  }

  /** The sprintf of mq_sm_rtag_write_item: six times "%010u" and a newline. */
  function Line(r: Record): (s: seq<byte>)
    ensures |s| == LINE_LEN
  {
    Padded(r.rcount, 10) + Padded(r.rpos, 10) + Padded(r.wpos, 10) +
    Padded(r.maxque, 10) + Padded(r.delay, 10) + Padded(FromInt32(r.wlock), 10) + [NEWLINE]
  }

  /** check_rtag_item; its comparisons with 0, UINT_MAX and INT_MAX can never fail. */
  predicate Plausible(r: Record, max: nat) {
    r.rcount <= max / MSG_HEAD_LEN && r.rpos <= max && r.wpos <= max
  }

  // ----- Reading one piece of the file

  function Field(token: seq<byte>, i: nat): nat
    requires 10 * i + 10 <= |token| && AllDigits(token[10 * i..10 * i + 10])
  {
    Value(token[10 * i..10 * i + 10]) % U32
  }

  predicate SixFields(token: seq<byte>) {
    |token| >= RTAG_ITEM_LEN &&
    forall i :: 0 <= i < 6 ==> AllDigits(token[10 * i..10 * i + 10])
  }

  function Fields(token: seq<byte>): Record
    requires SixFields(token)
  {
    Record(Field(token, 0), Field(token, 1), Field(token, 2), Field(token, 3), Field(token, 4),
           ToInt32(Field(token, 5)))
  }

  /** parse_rtag_item: the first token long enough decides, unless its numbers are implausible;
      a character that is no digit ends the search. */
  function ParseItem(s: seq<byte>, max: nat): Option<Record>
  {
    var n := TokenLen(s, NEWLINE);
    if n < RTAG_ITEM_LEN then
      if n == |s| then None else ParseItem(s[n + 1..], max)
    else if !SixFields(s[..n]) then None
    else if Plausible(Fields(s[..n]), max) then Some(Fields(s[..n]))
    else if n == |s| then None
    else ParseItem(s[n + 1..], max)
  }

  method ParseField(token: seq<byte>, i: nat) returns (ok: bool, num: nat)
    requires 10 * i + 10 <= |token|
    ensures ok <==> AllDigits(token[10 * i..10 * i + 10])
    ensures ok ==> num == Field(token, i)
  {
    ok, num := StrToNum(token[10 * i..10 * i + 10]);
  }

  method ParseFields(token: seq<byte>) returns (item: Option<Record>)
    requires |token| >= RTAG_ITEM_LEN
    ensures item.Some? <==> SixFields(token)
    ensures item.Some? ==> item.value == Fields(token)
  {
    hide AllDigits, Field;
    var ok, rcount, rpos, wpos, maxque, delay, wlock;
    ok, rcount := ParseField(token, 0);
    if !ok { return None; }
    ok, rpos := ParseField(token, 1);
    if !ok { return None; }
    ok, wpos := ParseField(token, 2);
    if !ok { return None; }
    ok, maxque := ParseField(token, 3);
    if !ok { return None; }
    ok, delay := ParseField(token, 4);
    if !ok { return None; }
    ok, wlock := ParseField(token, 5);
    if !ok { return None; }
    return Some(Record(rcount, rpos, wpos, maxque, delay, ToInt32(wlock)));
  }

  method ParseRtagItem(line: seq<byte>, max: nat) returns (r: Option<Record>)
    ensures r == ParseItem(line, max)
  {
    hide SixFields;
    var rest := line;
    while true
      invariant ParseItem(line, max) == ParseItem(rest, max)
      decreases |rest|
    {
      var n := TokenLen(rest, NEWLINE);
      if n >= RTAG_ITEM_LEN {
        var item := ParseFields(rest[..n]);
        if item.None? || Plausible(item.value, max) {
          return item;
        }
      }
      if n == |rest| {
        return None;
      }
      rest := rest[n + 1..];
    }
  }

  // ----- Reading the file backwards

  /** The piece read in round i: from 61*i bytes before the end, at most two lines. */
  function Piece(file: seq<byte>, i: nat): seq<byte>
    requires 1 <= i && i * LINE_LEN <= |file|
  {
    var offset := |file| - i * LINE_LEN;
    if i == 1 then file[offset..] else file[offset..offset + 2 * LINE_LEN]
  }

  /** The rounds of mq_sm_rtag_read_item from round i on. A record found after the first round,
      or none at all, moves the write position to the end of its segment. */
  function ReadFrom(file: seq<byte>, i: nat, max: nat, conf: Defaults): Record
    requires 1 <= i
    decreases |file| - i
  {
    if |file| < i * LINE_LEN then Record(0, 0, max, conf.maxque, conf.delay, 0)
    else match ParseItem(CString(Piece(file, i)), max)
      case Some(r) => if i > 1 then r.(wpos := max) else r
      case None => ReadFrom(file, i + 1, max, conf)
  }

  function ReadItem(file: seq<byte>, max: nat, conf: Defaults): Record {
    ReadFrom(file, 1, max, conf)
  }

  method RtagReadItem(file: seq<byte>, max: nat, conf: Defaults) returns (r: Record)
    ensures r == ReadItem(file, max, conf)
  {
    hide ParseItem, CString;
    var i := 1;
    while true
      invariant 1 <= i && ReadItem(file, max, conf) == ReadFrom(file, i, max, conf)
      decreases |file| - i
    {
      var offset := |file| - i * LINE_LEN;
      if offset < 0 {
        break;
      }
      var line := if i == 1 then file[offset..] else file[offset..offset + 2 * LINE_LEN];
      var item := ParseRtagItem(CString(line), max);
      if item.Some? {
        r := item.value;
        if i > 1 {
          r := r.(wpos := max);
        }
        return;
      }
      i := i + 1;
    }
    return Record(0, 0, max, conf.maxque, conf.delay, 0);
  }

  /** Whatever the text, a record that is accepted has positions inside the segment. */
  lemma {:induction false} ParsedIsPlausible(s: seq<byte>, max: nat)
    ensures ParseItem(s, max).Some? ==> Plausible(ParseItem(s, max).value, max) && Storable(ParseItem(s, max).value)
    decreases |s|
  {
    hide SixFields, AllDigits, Value;
    var n := TokenLen(s, NEWLINE);
    if n < |s| {
      ParsedIsPlausible(s[n + 1..], max);
    }
  }

  lemma {:induction false} ReadIsPlausible(file: seq<byte>, i: nat, max: nat, conf: Defaults)
    requires 1 <= i && conf.delay < U32
    ensures var r := ReadFrom(file, i, max, conf);
      && Plausible(r, max) && r.delay < U32 && -0x8000_0000 <= r.wlock < 0x8000_0000
      && (conf.maxque < U32 ==> r.maxque < U32)
    decreases |file| - i
  {
    hide ParseItem, CString;
    if |file| >= i * LINE_LEN {
      ParsedIsPlausible(CString(Piece(file, i)), max);
      if ParseItem(CString(Piece(file, i)), max).None? {
        ReadIsPlausible(file, i + 1, max, conf);
      }
    }
  }

  // ----- Round trip

  lemma Slices6(a: seq<byte>, b: seq<byte>, c: seq<byte>, d: seq<byte>, e: seq<byte>, f: seq<byte>, t: seq<byte>)
    requires |a| == |b| == |c| == |d| == |e| == |f| == 10
    ensures var s := a + b + c + d + e + f + t;
      && s[0..10] == a && s[10..20] == b && s[20..30] == c && s[30..40] == d && s[40..50] == e && s[50..60] == f
      && s[..60] + t == s
  {}

  lemma PaddedField(x: nat)
    requires x < U32
    ensures AllDigits(Padded(x, 10)) && Value(Padded(x, 10)) % U32 == x
  {
    TenDigits();
    PaddedValue(x, 10);
  }

  lemma Int32RoundTrip(x: int)
    requires -0x8000_0000 <= x < 0x8000_0000
    ensures ToInt32(FromInt32(x)) == x
  {}

  /** All six fields survive printing and parsing, the lock value -1 included. */
  lemma {:induction false} LineRoundTrip(r: Record, token: seq<byte>)
    requires Storable(r) && |token| >= RTAG_ITEM_LEN && token[..RTAG_ITEM_LEN] == Line(r)[..RTAG_ITEM_LEN]
    ensures SixFields(token) && Fields(token) == r
  {
    hide Padded, Value, Pow10;
    var a, b, c := Padded(r.rcount, 10), Padded(r.rpos, 10), Padded(r.wpos, 10);
    var d, e, f := Padded(r.maxque, 10), Padded(r.delay, 10), Padded(FromInt32(r.wlock), 10);
    Slices6(a, b, c, d, e, f, [NEWLINE]);
    PaddedField(r.rcount); PaddedField(r.rpos); PaddedField(r.wpos);
    PaddedField(r.maxque); PaddedField(r.delay); PaddedField(FromInt32(r.wlock));
    Int32RoundTrip(r.wlock);
    forall i | 0 <= i < 6
      ensures token[10 * i..10 * i + 10] == Line(r)[10 * i..10 * i + 10]
    {
      SliceOfSlice(token, 0, RTAG_ITEM_LEN, 10 * i, 10 * i + 10);
      SliceOfSlice(Line(r), 0, RTAG_ITEM_LEN, 10 * i, 10 * i + 10);
      assert token[0..RTAG_ITEM_LEN] == Line(r)[0..RTAG_ITEM_LEN];
    }
    assert token[0..10] == a && token[10..20] == b && token[20..30] == c;
    assert token[30..40] == d && token[40..50] == e && token[50..60] == f;
  }

  // ----- Recovery after a torn append

  /** A journal that was closed properly: lines only. */
  function Lines(rs: seq<Record>): seq<byte> {
    if rs == [] then [] else Lines(rs[..|rs| - 1]) + Line(rs[|rs| - 1])
  }

  predicate Text(s: seq<byte>) { 0 !in s }

  lemma LineIsText(r: Record)
    ensures Text(Line(r))
    ensures NEWLINE !in Line(r)[..RTAG_ITEM_LEN] && Line(r)[RTAG_ITEM_LEN] == NEWLINE
  {
    hide Padded;
    var s := Line(r);
    forall i | 0 <= i < RTAG_ITEM_LEN
      ensures IsDigit(s[i])
    {}
  }

  /** A fragment shorter than a line is never mistaken for one. */
  lemma SkipFragment(a: seq<byte>, rest: seq<byte>, max: nat)
    requires NEWLINE !in a && |a| < RTAG_ITEM_LEN
    ensures ParseItem(a + [NEWLINE] + rest, max) == ParseItem(rest, max)
    ensures ParseItem(a, max) == None
  {
    assert a + [NEWLINE] + rest == a + ([NEWLINE] + rest);
    TokenOf(a, [NEWLINE] + rest, NEWLINE);
    assert (a + [NEWLINE] + rest)[|a| + 1..] == rest;
    assert a + [] == a;
    TokenOf(a, [], NEWLINE);
  }

  /** A whole line, its newline written or not, is found. */
  lemma FindLine(r: Record, rest: seq<byte>, max: nat)
    requires Storable(r) && Plausible(r, max)
    requires rest == [] || rest[0] == NEWLINE
    ensures ParseItem(Line(r)[..RTAG_ITEM_LEN] + rest, max) == Some(r)
  {
    hide Line, SixFields, Fields, Plausible;
    LineIsText(r);
    var d := Line(r)[..RTAG_ITEM_LEN];
    TokenOf(d, rest, NEWLINE);
    LineRoundTrip(r, d);
    assert (d + rest)[..|d|] == d;
  }

  /** The last line is complete: it is restored as it is. */
  lemma {:induction false} CleanTail(pre: seq<byte>, r: Record, max: nat, conf: Defaults)
    requires Storable(r) && Plausible(r, max)
    ensures ReadItem(pre + Line(r), max, conf) == r
  {
    hide Line, Plausible;
    LineIsText(r);
    var file := pre + Line(r);
    assert file[|file| - LINE_LEN..] == Line(r);
    CStringOfText(Line(r));
    assert Line(r) == Line(r)[..RTAG_ITEM_LEN] + [NEWLINE];
    FindLine(r, [NEWLINE], max);
  }

  /** The six numbers stand in this order, in decimal, the lock as its value modulo 2^32. */
  lemma {:induction false} LineShows(r: Record)
    requires Storable(r)
    ensures AllDigits(Line(r)[..60]) && Line(r)[60] == 10
    ensures var d := Line(r);
      && AllDigits(d[0..10]) && AllDigits(d[10..20]) && AllDigits(d[20..30])
      && AllDigits(d[30..40]) && AllDigits(d[40..50]) && AllDigits(d[50..60])
      && Value(d[0..10]) == r.rcount && Value(d[10..20]) == r.rpos && Value(d[20..30]) == r.wpos
      && Value(d[30..40]) == r.maxque && Value(d[40..50]) == r.delay
      && Value(d[50..60]) == if r.wlock >= 0 then r.wlock else r.wlock + U32
  {
    hide Padded, Value, Pow10;
    var a, b, c := Padded(r.rcount, 10), Padded(r.rpos, 10), Padded(r.wpos, 10);
    var d, e, f := Padded(r.maxque, 10), Padded(r.delay, 10), Padded(FromInt32(r.wlock), 10);
    Slices6(a, b, c, d, e, f, [NEWLINE]);
    TenDigits();
    PaddedValue(r.rcount, 10); PaddedValue(r.rpos, 10); PaddedValue(r.wpos, 10);
    PaddedValue(r.maxque, 10); PaddedValue(r.delay, 10); PaddedValue(FromInt32(r.wlock), 10);
    assert forall i :: 0 <= i < 60 ==> IsDigit(Line(r)[i]);
  }

  /** A line whose numbers cannot be right is passed over: the line before it comes back, with the write position
      at the end of the segment. */
  lemma {:induction false} ImplausibleLine(pre: seq<byte>, q: Record, r: Record, max: nat, conf: Defaults)
    requires Storable(q) && Storable(r)
    requires q.rcount <= max / 12 && q.rpos <= max && q.wpos <= max
    ensures ReadItem(pre + Line(q) + Line(r), max, conf)
         == if r.rcount <= max / 12 && r.rpos <= max && r.wpos <= max then r else q.(wpos := max)
  {
    hide Line, ParseItem, CString, SixFields, Fields;
    if Plausible(r, max) {
      CleanTail(pre + Line(q), r, max, conf);
    } else {
      LineIsText(q);
      LineIsText(r);
      var file, d, e := pre + Line(q) + Line(r), Line(q)[..RTAG_ITEM_LEN], Line(r)[..RTAG_ITEM_LEN];
      assert Line(q) == d + [NEWLINE] && Line(r) == e + [NEWLINE];
      assert Piece(file, 1) == e + [NEWLINE];
      assert Piece(file, 2) == d + ([NEWLINE] + Line(r));
      CStringOfText(e + [NEWLINE]);
      LineRoundTrip(r, e);
      ParseToken(e, [], max);
      assert e + ([NEWLINE] + []) == e + [NEWLINE];
      FindLine(q, [NEWLINE] + Line(r), max);
      CStringOfText(d + ([NEWLINE] + Line(r)));
      assert ReadFrom(file, 1, max, conf) == ReadFrom(file, 2, max, conf);
    }
  }

  /** Only the newline is missing: the new record is restored all the same. */
  lemma {:induction false} MissingNewline(pre: seq<byte>, q: Record, r: Record, max: nat, conf: Defaults)
    requires Storable(r) && Plausible(r, max)
    ensures ReadItem(pre + Line(q) + Line(r)[..RTAG_ITEM_LEN], max, conf) == r
  {
    hide Line, Plausible;
    LineIsText(q);
    LineIsText(r);
    var d := Line(r)[..RTAG_ITEM_LEN];
    var file := pre + Line(q) + d;
    var piece := [] + [NEWLINE] + d;
    assert file[|file| - LINE_LEN..] == piece;
    CStringOfText(piece);
    SkipFragment([], d, max);
    assert d + [] == d;
    FindLine(r, [], max);
  }

  /** The first round after a tear sees two fragments and no line. */
  lemma TornFirstRound(pre: seq<byte>, r: Record, torn: seq<byte>, max: nat)
    requires 0 < |torn| < RTAG_ITEM_LEN && Text(torn) && NEWLINE !in torn
    ensures ParseItem(CString(Piece(pre + Line(r) + torn, 1)), max) == None
  {
    hide Line;
    LineIsText(r);
    var file := pre + Line(r) + torn;
    var a := Line(r)[|torn|..RTAG_ITEM_LEN];
    assert Piece(file, 1) == a + [NEWLINE] + torn;
    FragmentText(r, |torn|);
    CStringOfText(a + [NEWLINE] + torn);
    SkipFragment(a, torn, max);
    SkipFragment(torn, [], max);
  }

  lemma FragmentText(q: Record, t: nat)
    requires t <= RTAG_ITEM_LEN
    ensures Text(Line(q)[t..RTAG_ITEM_LEN]) && NEWLINE !in Line(q)[t..RTAG_ITEM_LEN]
  {
    hide Line;
    LineIsText(q);
    var a := Line(q)[t..RTAG_ITEM_LEN];
    assert forall i :: 0 <= i < |a| ==> a[i] == Line(q)[..RTAG_ITEM_LEN][i + t] == Line(q)[i + t];
  }

  lemma TornText(r: Record, t: nat)
    requires t <= RTAG_ITEM_LEN
    ensures Text(Line(r)[..t]) && NEWLINE !in Line(r)[..t]
  {
    hide Line;
    LineIsText(r);
    var s := Line(r)[..t];
    assert forall i :: 0 <= i < t ==> s[i] == Line(r)[i] == Line(r)[..RTAG_ITEM_LEN][i];
  }

  /** What stands behind the last newline of s. */
  function Unfinished(s: seq<byte>): (v: seq<byte>)
    ensures NEWLINE !in v && |v| <= |s|
    ensures s != [] && s[|s| - 1] == NEWLINE ==> v == []
    ensures s != [] && s[|s| - 1] != NEWLINE ==> v != []
  {
    var n := TokenLen(s, NEWLINE);
    if n == |s| then s else Unfinished(s[n + 1..])
  }

  /** Whole tokens in front are passed over; what is unfinished runs into the text behind it. */
  lemma {:induction false} ParseBehind(w: seq<byte>, rest: seq<byte>, max: nat)
    requires |w| <= RTAG_ITEM_LEN
    ensures ParseItem(w + rest, max) == ParseItem(Unfinished(w) + rest, max)
    decreases |w|
  {
    hide ParseItem;
    var n := TokenLen(w, NEWLINE);
    if n < |w| {
      assert w + rest == w[..n] + [NEWLINE] + (w[n + 1..] + rest);
      SkipFragment(w[..n], w[n + 1..] + rest, max);
      ParseBehind(w[n + 1..], rest, max);
    }
  }

  lemma {:induction false} ShortIsNone(s: seq<byte>, max: nat)
    requires |s| < RTAG_ITEM_LEN
    ensures ParseItem(s, max) == None
  {
    var n := TokenLen(s, NEWLINE);
    if n < |s| {
      ShortIsNone(s[n + 1..], max);
    }
  }

  /** One token, long enough, and a fragment behind it. */
  lemma ParseToken(token: seq<byte>, torn: seq<byte>, max: nat)
    requires |token| >= RTAG_ITEM_LEN && NEWLINE !in token
    requires |torn| < RTAG_ITEM_LEN && NEWLINE !in torn
    ensures ParseItem(token + ([NEWLINE] + torn), max) ==
      if SixFields(token) && Plausible(Fields(token), max) then Some(Fields(token)) else None
  {
    hide SixFields, Fields, Plausible;
    var s := token + ([NEWLINE] + torn);
    TokenOf(token, [NEWLINE] + torn, NEWLINE);
    assert s[..|token|] == token && s[|token| + 1..] == torn;
    ShortIsNone(torn, max);
  }

  function Fallback(max: nat, conf: Defaults): Record {
    Record(0, 0, max, conf.maxque, conf.delay, 0)
  }

  /** The bytes in front of the last complete line that the second round sees. */
  function Tail(pre: seq<byte>, t: nat): seq<byte>
    requires LINE_LEN <= |pre| + t && t <= LINE_LEN
  {
    pre[|pre| + t - LINE_LEN..]
  }

  /** What the second round after a tear takes for the last line: the journal is only ever appended
      to, so a line written behind an older tear has that fragment in front of it. */
  function Token(pre: seq<byte>, last: Record, t: nat): seq<byte>
    requires LINE_LEN <= |pre| + t && t <= LINE_LEN
  {
    Unfinished(Tail(pre, t)) + Line(last)[..RTAG_ITEM_LEN]
  }

  lemma SecondRound(pre: seq<byte>, last: Record, torn: seq<byte>, max: nat)
    requires 0 < |torn| < RTAG_ITEM_LEN && Text(torn) && NEWLINE !in torn && LINE_LEN <= |pre| + |torn|
    ensures ParseItem(CString(Piece(pre + Line(last) + torn, 2)), max) ==
      var token := Token(pre, last, |torn|);
      if Text(Tail(pre, |torn|)) && SixFields(token) && Plausible(Fields(token), max) then Some(Fields(token)) else None
  {
    hide Line, SixFields, Fields, Plausible, ParseItem, CString;
    var file, w, d := pre + Line(last) + torn, Tail(pre, |torn|), Line(last)[..RTAG_ITEM_LEN];
    var rest := d + ([NEWLINE] + torn);
    LineIsText(last);
    assert Line(last) == d + [NEWLINE];
    assert file == pre[..|pre| + |torn| - LINE_LEN] + (w + rest);
    assert Piece(file, 2) == w + rest;
    if Text(w) {
      CStringOfText(w + rest);
      ParseBehind(w, rest, max);
      assert Unfinished(w) + rest == Token(pre, last, |torn|) + ([NEWLINE] + torn);
      ParseToken(Token(pre, last, |torn|), torn, max);
    } else {
      CStringStops(w, rest);
      ShortIsNone(CString(w + rest), max);
    }
  }

  /** The record restored from a journal that ends in a torn line, whatever stands in front of the
      last complete one. */
  function TornResult(pre: seq<byte>, last: Record, torn: seq<byte>, max: nat, conf: Defaults): Record {
    if LINE_LEN > |pre| + |torn| || |torn| > LINE_LEN then Fallback(max, conf)
    else
      var token := Token(pre, last, |torn|);
      if Text(Tail(pre, |torn|)) && SixFields(token) && Plausible(Fields(token), max) then Fields(token).(wpos := max)
      else ReadFrom(pre + Line(last) + torn, 3, max, conf)
  }

  /** Torn in the middle. */
  lemma {:induction false} TornLine(pre: seq<byte>, last: Record, torn: seq<byte>, max: nat, conf: Defaults)
    requires 0 < |torn| < RTAG_ITEM_LEN && Text(torn) && NEWLINE !in torn
    ensures ReadItem(pre + Line(last) + torn, max, conf) == TornResult(pre, last, torn, max, conf)
  {
    hide Line, ParseItem, CString, Piece, Token, SixFields, Fields, Plausible;
    var file := pre + Line(last) + torn;
    TornFirstRound(pre, last, torn, max);
    assert ReadItem(file, max, conf) == ReadFrom(file, 2, max, conf);
    if LINE_LEN <= |pre| + |torn| {
      SecondRound(pre, last, torn, max);
    }
  }

  /** The last complete line starts a line of its own, and the second round reaches back to that newline. */
  ghost predicate Anchored(pre: seq<byte>, t: nat) {
    LINE_LEN <= |pre| + t && t <= RTAG_ITEM_LEN && pre[|pre| - 1] == NEWLINE && Text(Tail(pre, t))
  }

  lemma AnchoredRestores(pre: seq<byte>, last: Record, torn: seq<byte>, max: nat, conf: Defaults)
    requires Anchored(pre, |torn|) && 0 < |torn| && Storable(last) && Plausible(last, max)
    ensures TornResult(pre, last, torn, max, conf) == last.(wpos := max)
  {
    hide Line, SixFields, Fields, Plausible;
    var d := Line(last)[..RTAG_ITEM_LEN];
    assert Tail(pre, |torn|)[|Tail(pre, |torn|)| - 1] == NEWLINE;
    assert Token(pre, last, |torn|) == d;
    LineRoundTrip(last, d);
  }

  /** A complete line in front is anchor enough. */
  lemma LineAnchors(pre: seq<byte>, q: Record, t: nat)
    requires 0 < t < RTAG_ITEM_LEN
    ensures Anchored(pre + Line(q), t)
  {
    hide Line;
    LineIsText(q);
    var file := pre + Line(q);
    FragmentText(q, t);
    assert Tail(file, t) == Line(q)[t..] == Line(q)[t..RTAG_ITEM_LEN] + [NEWLINE];
  }

  // ----- When the last complete line is what comes back

  lemma FieldsAgree(a: seq<byte>, b: seq<byte>)
    requires |a| >= RTAG_ITEM_LEN && |b| >= RTAG_ITEM_LEN && a[..RTAG_ITEM_LEN] == b[..RTAG_ITEM_LEN]
    ensures SixFields(a) == SixFields(b)
    ensures SixFields(a) ==> Fields(a) == Fields(b)
  {
    hide AllDigits, Value;
    forall i | 0 <= i < 6
      ensures a[10 * i..10 * i + 10] == b[10 * i..10 * i + 10]
    {
      SliceOfSlice(a, 0, RTAG_ITEM_LEN, 10 * i, 10 * i + 10);
      SliceOfSlice(b, 0, RTAG_ITEM_LEN, 10 * i, 10 * i + 10);
      assert a[0..RTAG_ITEM_LEN] == b[0..RTAG_ITEM_LEN];
    }
  }

  /** From the third round on the last 61 bytes are out of sight. */
  lemma {:induction false} LateRounds(a: seq<byte>, b: seq<byte>, i: nat, max: nat, conf: Defaults)
    requires 3 <= i && |a| == |b| >= LINE_LEN && a[..|a| - LINE_LEN] == b[..|a| - LINE_LEN]
    ensures ReadFrom(a, i, max, conf) == ReadFrom(b, i, max, conf)
    decreases |a| - i
  {
    hide ParseItem, CString;
    if |a| >= i * LINE_LEN {
      var offset := |a| - i * LINE_LEN;
      SliceOfSlice(a, 0, |a| - LINE_LEN, offset, offset + 2 * LINE_LEN);
      SliceOfSlice(b, 0, |a| - LINE_LEN, offset, offset + 2 * LINE_LEN);
      assert a[0..|a| - LINE_LEN] == b[0..|a| - LINE_LEN];
      LateRounds(a, b, i + 1, max, conf);
    }
  }

  function LockedUntil(n: nat): Record { Record(0, 0, 0, 0, 0, n) }

  /** Two records that differ in the last digit of their lines. */
  lemma LastDigit()
    ensures Storable(LockedUntil(1)) && Storable(LockedUntil(2))
    ensures Line(LockedUntil(1))[..59] == Line(LockedUntil(2))[..59]
  {
    var zeros := Padded(0, 10);
    var a, b := Line(LockedUntil(1)), Line(LockedUntil(2));
    assert FromInt32(1) == 1 && FromInt32(2) == 2;
    assert Padded(1, 10) == Padded(0, 9) + [49] && Padded(2, 10) == Padded(0, 9) + [50];
    hide Padded;
    var front := zeros + zeros + zeros + zeros + zeros + Padded(0, 9);
    assert a == front + [49, NEWLINE] && b == front + [50, NEWLINE];
  }

  /** Without an anchor the last digit of the line is never looked at. */
  lemma UnanchoredIgnores(pre: seq<byte>, torn: seq<byte>, max: nat, conf: Defaults)
    requires 0 < |torn| < RTAG_ITEM_LEN && !Anchored(pre, |torn|)
    ensures TornResult(pre, LockedUntil(1), torn, max, conf) == TornResult(pre, LockedUntil(2), torn, max, conf)
  {
    hide Line, SixFields, Fields, ReadFrom, LockedUntil, Plausible;
    LastDigit();
    var t := |torn|;
    var l1, l2 := Line(LockedUntil(1)), Line(LockedUntil(2));
    if LINE_LEN <= |pre| + t {
      var f1, f2 := pre + l1 + torn, pre + l2 + torn;
      assert l1[..t] == l1[..59][..t] && l2[..t] == l2[..59][..t];
      assert f1[..|f1| - LINE_LEN] == pre + l1[..t] && f2[..|f1| - LINE_LEN] == pre + l2[..t];
      LateRounds(f1, f2, 3, max, conf);
      var w := Tail(pre, t);
      if Text(w) {
        var v := Unfinished(w);
        assert w[|w| - 1] == pre[|pre| - 1];
        var t1, t2 := Token(pre, LockedUntil(1), t), Token(pre, LockedUntil(2), t);
        var n := RTAG_ITEM_LEN - |v|;
        assert l1[..RTAG_ITEM_LEN][..n] == l1[..59][..n] && l2[..RTAG_ITEM_LEN][..n] == l2[..59][..n];
        assert t1[..RTAG_ITEM_LEN] == v + l1[..RTAG_ITEM_LEN][..n];
        assert t2[..RTAG_ITEM_LEN] == v + l2[..RTAG_ITEM_LEN][..n];
        FieldsAgree(t1, t2);
      }
    }
  }

  /** After a tear the last complete line is restored, whatever it says, if and only if a newline
      stands in front of it and the second round reaches that newline. */
  lemma {:induction false} RestoredIffAnchored(pre: seq<byte>, torn: seq<byte>, max: nat, conf: Defaults)
    requires 0 < |torn| < RTAG_ITEM_LEN && Text(torn) && NEWLINE !in torn
    ensures Anchored(pre, |torn|) <==>
      forall last :: Storable(last) && Plausible(last, max) ==>
        ReadItem(pre + Line(last) + torn, max, conf) == last.(wpos := max)
  {
    hide Line, ReadItem, TornResult;
    if Anchored(pre, |torn|) {
      forall last | Storable(last) && Plausible(last, max)
        ensures ReadItem(pre + Line(last) + torn, max, conf) == last.(wpos := max)
      {
        TornLine(pre, last, torn, max, conf);
        AnchoredRestores(pre, last, torn, max, conf);
      }
    } else {
      LastDigit();
      TornLine(pre, LockedUntil(1), torn, max, conf);
      TornLine(pre, LockedUntil(2), torn, max, conf);
      UnanchoredIgnores(pre, torn, max, conf);
      assert Plausible(LockedUntil(1), max) && Plausible(LockedUntil(2), max);
      assert LockedUntil(1).(wpos := max) != LockedUntil(2).(wpos := max);
    }
  }

  // ----- The second tear

  /** The part of an older fragment of t1 bytes that the second round sees behind a tear of t. */
  function Seen(n: Record, t1: nat, t: nat): seq<byte>
    requires t1 <= RTAG_ITEM_LEN && t <= LINE_LEN
  {
    Line(n)[(if t1 + t <= LINE_LEN then 0 else t1 + t - LINE_LEN)..t1]
  }

  lemma DigitsOfLine(r: Record)
    ensures AllDigits(Line(r)[..RTAG_ITEM_LEN])
  {}

  lemma SliceDigits(s: seq<byte>, i: nat, j: nat)
    requires AllDigits(s) && i <= j <= |s|
    ensures AllDigits(s[i..j])
  {}

  lemma TokenOfDigits(v: seq<byte>, d: seq<byte>)
    requires AllDigits(v) && AllDigits(d) && |d| == RTAG_ITEM_LEN
    ensures SixFields(v + d)
  {
    assert AllDigits(v + d);
    forall i | 0 <= i < 6
      ensures AllDigits((v + d)[10 * i..10 * i + 10])
    {
      SliceDigits(v + d, 10 * i, 10 * i + 10);
    }
  }

  lemma {:induction false} UnfinishedBehind(a: seq<byte>, v: seq<byte>)
    requires NEWLINE !in v && (a == [] || a[|a| - 1] == NEWLINE)
    ensures Unfinished(a + v) == v
    decreases |a|
  {
    if a == [] {
      assert a + v == v;
      TokenOf(v, [], NEWLINE);
      assert v + [] == v;
    } else {
      var n := TokenLen(a, NEWLINE);
      var rest := [NEWLINE] + a[n + 1..] + v;
      assert a == a[..n] + [NEWLINE] + a[n + 1..];
      assert a + v == a[..n] + rest;
      TokenOf(a[..n], rest, NEWLINE);
      assert (a + v)[n + 1..] == a[n + 1..] + v;
      UnfinishedBehind(a[n + 1..], v);
    }
  }

  lemma SeenIsDigits(n: Record, t1: nat, t: nat)
    requires t1 <= RTAG_ITEM_LEN && t <= LINE_LEN
    ensures AllDigits(Seen(n, t1, t))
  {
    hide Line, AllDigits;
    DigitsOfLine(n);
    var v := Seen(n, t1, t);
    SliceDigits(Line(n)[..RTAG_ITEM_LEN], t1 - |v|, t1);
    SliceOfSlice(Line(n), 0, RTAG_ITEM_LEN, t1 - |v|, t1);
    assert Line(n)[0..RTAG_ITEM_LEN] == Line(n)[..RTAG_ITEM_LEN];
  }

  lemma SliceText(s: seq<byte>, i: nat, j: nat)
    requires Text(s) && i <= j <= |s|
    ensures Text(s[i..j])
  {}

  lemma SeenBehind(pre: seq<byte>, q: Record, n: Record, t1: nat, t: nat)
    requires 0 < t1 <= RTAG_ITEM_LEN && 0 < t < RTAG_ITEM_LEN
    ensures var older := pre + Line(q) + Line(n)[..t1];
      LINE_LEN <= |older| + t && Text(Tail(older, t)) && Unfinished(Tail(older, t)) == Seen(n, t1, t)
  {
    hide Line;
    var frag, v := Line(n)[..t1], Seen(n, t1, t);
    var older := pre + Line(q) + frag;
    var w := Tail(older, t);
    LineIsText(q);
    LineIsText(n);
    TornText(n, t1);
    var a := if t1 + t <= LINE_LEN then Line(q)[t1 + t..] else [];
    assert v == if t1 + t <= LINE_LEN then frag else frag[t1 + t - LINE_LEN..];
    assert w == a + v;
    SliceText(Line(q), if t1 + t <= LINE_LEN then t1 + t else LINE_LEN, LINE_LEN);
    SliceText(frag, t1 - |v|, t1);
    assert v == frag[t1 - |v|..t1] && a == Line(q)[LINE_LEN - |a|..LINE_LEN];
    UnfinishedBehind(a, v);
  }

  /** One line behind an older fragment, and a second tear: fragment and line are read as one token
      of digits. Its first sixty are taken for the last line whenever the numbers are plausible. */
  lemma {:induction false} SecondTear(pre: seq<byte>, q: Record, n: Record, t1: nat, last: Record, torn: seq<byte>,
                                      max: nat, conf: Defaults)
    requires 0 < t1 <= RTAG_ITEM_LEN && 0 < |torn| < RTAG_ITEM_LEN && Text(torn) && NEWLINE !in torn
    ensures var older := pre + Line(q) + Line(n)[..t1];
      var token := Seen(n, t1, |torn|) + Line(last)[..RTAG_ITEM_LEN];
      && SixFields(token)
      && (Plausible(Fields(token), max) ==>
            ReadItem(older + Line(last) + torn, max, conf) == Fields(token).(wpos := max))
  {
    hide Line, SixFields, Fields, Plausible, ReadItem, ReadFrom, Tail, Unfinished, Seen, AllDigits;
    SeenBehind(pre, q, n, t1, |torn|);
    SeenIsDigits(n, t1, |torn|);
    DigitsOfLine(last);
    TokenOfDigits(Seen(n, t1, |torn|), Line(last)[..RTAG_ITEM_LEN]);
    TornLine(pre + Line(q) + Line(n)[..t1], last, torn, max, conf);
  }

  /** What a tear ten bytes into a line, and another one behind the next line, make of that line:
      every number moves one field on. */
  function Shifted(n: Record, r: Record): Record {
    Record(n.rcount, r.rcount, r.rpos, r.wpos, r.maxque, ToInt32(r.delay))
  }

  lemma ShiftedFields(n: Record, r: Record)
    requires Storable(n) && Storable(r)
    ensures var token := Line(n)[..10] + Line(r)[..RTAG_ITEM_LEN];
      SixFields(token) && Fields(token) == Shifted(n, r)
  {
    hide Padded, Value, Pow10;
    var token := Line(n)[..10] + Line(r)[..RTAG_ITEM_LEN];
    var a, b, c := Padded(r.rcount, 10), Padded(r.rpos, 10), Padded(r.wpos, 10);
    var d, e, f := Padded(r.maxque, 10), Padded(r.delay, 10), Padded(FromInt32(r.wlock), 10);
    Slices6(a, b, c, d, e, f, [NEWLINE]);
    assert Line(n)[..10] == Padded(n.rcount, 10);
    PaddedField(n.rcount); PaddedField(r.rcount); PaddedField(r.rpos);
    PaddedField(r.wpos); PaddedField(r.maxque); PaddedField(r.delay);
    forall i | 1 <= i < 6
      ensures token[10 * i..10 * i + 10] == Line(r)[10 * (i - 1)..10 * (i - 1) + 10]
    {
      SliceOfSlice(Line(r), 0, RTAG_ITEM_LEN, 10 * (i - 1), 10 * (i - 1) + 10);
      assert Line(r)[0..RTAG_ITEM_LEN] == Line(r)[..RTAG_ITEM_LEN];
    }
    assert token[0..10] == Padded(n.rcount, 10);
    assert token[10..20] == a && token[20..30] == b && token[30..40] == c && token[40..50] == d && token[50..60] == e;
  }

  /** A failing input: the restored record is plausible, and not the last one. */
  lemma {:induction false} SecondTearMisread(pre: seq<byte>, q: Record, n: Record, last: Record, torn: seq<byte>,
                                             max: nat, conf: Defaults)
    requires 0 < |torn| <= 51 && Text(torn) && NEWLINE !in torn && Storable(n) && Storable(last)
    requires n.rcount <= max / MSG_HEAD_LEN && last.rcount <= max && last.rpos <= max
    ensures ReadItem(pre + Line(q) + Line(n)[..10] + Line(last) + torn, max, conf) == Shifted(n, last).(wpos := max)
  {
    hide Line, ReadItem, SixFields, Fields;
    SecondTear(pre, q, n, 10, last, torn, max, conf);
    assert Seen(n, 10, |torn|) == Line(n)[..10];
    ShiftedFields(n, last);
  }

  // ----- Every tear

  /** Recovery from any tear: behind arbitrary older bytes the journal holds the lines of rs and
      the first t bytes of one more. Two complete lines are always enough to go back to; one is
      enough when it is anchored, or when it is the last thing written. */
  lemma {:induction false} TornRecovery(pre: seq<byte>, rs: seq<Record>, next: Record, t: nat, max: nat, conf: Defaults)
    requires |rs| >= 1 && t <= RTAG_ITEM_LEN
    requires Storable(rs[|rs| - 1]) && Plausible(rs[|rs| - 1], max) && Storable(next) && Plausible(next, max)
    ensures var last, torn := rs[|rs| - 1], Line(next)[..t];
      var r := ReadItem(pre + Lines(rs) + torn, max, conf);
      && (t == RTAG_ITEM_LEN ==> r == next)
      && (t == 0 ==> r == last)
      && (0 < t < RTAG_ITEM_LEN && (|rs| >= 2 || Anchored(pre, t)) ==> r == last.(wpos := max))
      && (0 < t < RTAG_ITEM_LEN && |rs| == 1 ==> r == TornResult(pre, last, torn, max, conf))
  {
    hide Line, Plausible, ReadItem, Anchored, TornResult;
    var n := |rs| - 1;
    var older, last, torn := pre + Lines(rs[..n]), rs[n], Line(next)[..t];
    assert pre + Lines(rs) == older + Line(last);
    TornText(next, t);
    if t == 0 {
      assert older + Line(last) + torn == older + Line(last);
      CleanTail(older, last, max, conf);
    } else if t == RTAG_ITEM_LEN {
      MissingNewline(older, last, next, max, conf);
    } else {
      TornLine(older, last, torn, max, conf);
      if n == 0 {
        assert older == pre;
      } else {
        assert rs[..n][..n - 1] == rs[..n - 1];
        assert older == pre + Lines(rs[..n - 1]) + Line(rs[n - 1]);
        LineAnchors(pre + Lines(rs[..n - 1]), rs[n - 1], t);
      }
      if n > 0 || Anchored(pre, t) {
        AnchoredRestores(older, last, torn, max, conf);
      }
    }
  }

  /** With nothing in front of the one line there is nothing to go back to. */
  lemma NothingBefore(last: Record, torn: seq<byte>, max: nat, conf: Defaults)
    requires |torn| < LINE_LEN
    ensures TornResult([], last, torn, max, conf) == Fallback(max, conf) && !Anchored([], |torn|)
  {}
}
