/** Variable expansion of ini.c: $(name) is replaced in place and the replacement is scanned again. */
module IniExpand {
  import opened Strings

  /** The values of each key; a key that occurs more than once cannot be referred to. */
  type Values = map<string, seq<string>>

  datatype Error = Loop | NoKey | Overflow

  datatype Status = Ok | Err(error: Error)

  const MAX_TOKENS: int := 1024

  // ----- Specification: left-to-right, rescanning substitution on strings

  /** How the scan of one piece of text ends: a reference was closed and rest is what is to be scanned
      now; the text ended; or the expansion failed. */
  datatype Scan = Replaced(rest: string, tokens: int) | AtEnd(text: string, tokens: int) | Failed(error: Error)

  predicate Opens(s: string) { |s| >= 2 && s[0] == '$' && s[1] == '(' }

  function Value(values: Values, key: string): (v: seq<string>)
    ensures |v| <= 1
  {
    if key in values && |values[key]| == 1 then values[key] else []
  }

  /** A call: one token less, and none may be the last. */
  function Call(values: Values, rest: string, nested: bool, tokens: int, start: nat, max: int): Scan
    decreases tokens, |rest| + 1
  {
    if tokens - 1 <= 0 then Failed(Loop) else ScanFrom(values, "", rest, nested, tokens - 1, start, max)
  }

  /** The scan of rest, when left has been passed since the start of this piece of text. */
  function ScanFrom(values: Values, left: string, rest: string, nested: bool, tokens: int, start: nat,
                    max: int): (r: Scan)
    requires tokens > 0
    ensures r.Replaced? ==> nested && 0 < r.tokens <= tokens
    ensures r.AtEnd? ==> 0 < r.tokens <= tokens
    decreases tokens, |rest|
  {
    if |rest| == 0 then AtEnd(left, tokens)
    else if Opens(rest) then
      var inner := Call(values, rest[2..], true, tokens, start + (if nested then 2 else 0) + |left|, max);
      if inner.Replaced? then ScanFrom(values, left, inner.rest, nested, inner.tokens, start, max)
      else if inner.AtEnd? then AtEnd(left + "$(" + inner.text, inner.tokens)
      else inner
    else if rest[0] == ')' && nested then
      var v := Value(values, left);
      if v == [] then Failed(NoKey)
      else if start + |v[0]| + |rest| - 1 >= max then Failed(Overflow)
      else Replaced(v[0] + rest[1..], tokens)
    else ScanFrom(values, left + [rest[0]], rest[1..], nested, tokens, start, max)
  }

  /** The expansion of a line. */
  function Expand(values: Values, line: string, max: int): Scan {
    ScanFrom(values, "", line, false, MAX_TOKENS - 1, 0, max)
  }

  // ----- The buffer

  /** A string of length n, and the zero behind it. */
  ghost predicate Text(buf: array<char>, n: int)
    reads buf
  {
    0 <= n < buf.Length && buf[n] == '\0' && '\0' !in buf[..n]
  }

  ghost predicate NoZeros(values: Values) {
    forall k, i :: k in values && 0 <= i < |values[k]| ==> '\0' !in values[k][i]
  }

  ghost function Part(buf: array<char>, i: nat, j: nat): (s: string)
    requires i <= j <= buf.Length
    reads buf
    ensures |s| == j - i
  {
    buf[i..j]
  }

  lemma ThreeParts(buf: array<char>, i: nat, j: nat, n: nat)
    requires i <= j <= n < buf.Length
    ensures Part(buf, 0, n) == Part(buf, 0, i) + Part(buf, i, j) + Part(buf, j, n)
  {}

  /** memmove of n characters from src to dst. */
  method Memmove(buf: array<char>, dst: nat, src: nat, n: nat)
    requires dst + n <= buf.Length && src + n <= buf.Length
    modifies buf
    ensures Part(buf, dst, dst + n) == old(Part(buf, src, src + n)) && Part(buf, 0, dst) == old(Part(buf, 0, dst))
  {
    forall i | 0 <= i < n {
      buf[dst + i] := buf[src + i];
    }
  }

  /** memcpy of the value to start. */
  method Memcpy(buf: array<char>, start: nat, value: string, ghost n: nat)
    requires start + |value| <= n <= buf.Length
    modifies buf
    ensures Part(buf, start, start + |value|) == value && Part(buf, 0, start) == old(Part(buf, 0, start))
    ensures Part(buf, start + |value|, n) == old(Part(buf, start + |value|, n))
  {
    forall i | 0 <= i < |value| {
      buf[start + i] := value[i];
    }
  }

  /** The replacement of old_len characters at start: the tail moves, the value is copied in. */
  method Splice(buf: array<char>, start: nat, p: nat, curLen: nat, value: string, moveLen: nat)
    requires start <= p < curLen < buf.Length && moveLen == curLen - p - 1
        && start + |value| + (curLen - p - 1) < buf.Length
    requires '\0' !in Part(buf, 0, start) && '\0' !in Part(buf, p + 1, curLen) && '\0' !in value
    modifies buf
    ensures Text(buf, start + |value| + (curLen - p - 1))
    ensures Part(buf, 0, start + |value| + (curLen - p - 1))
        == old(Part(buf, 0, start)) + value + old(Part(buf, p + 1, curLen))
  {
    hide Text, Part;
    var newLen := |value|;
    ghost var head, tail := Part(buf, 0, start), Part(buf, p + 1, curLen);
    HeadKept(buf, start, start + newLen);
    Memmove(buf, start + newLen, p + 1, moveLen);
    HeadKept(buf, start, start + newLen);
    Memcpy(buf, start, value, start + newLen + moveLen);
    ThreeParts(buf, start, start + newLen, start + newLen + moveLen);
    Terminate(buf, start + newLen + moveLen, head, value, tail);
  }

  lemma HeadKept(buf: array<char>, i: nat, j: nat)
    requires i <= j <= buf.Length
    ensures Part(buf, 0, i) == Part(buf, 0, j)[..i]
  {}

  method Terminate(buf: array<char>, n: nat, ghost head: string, ghost value: string, ghost tail: string)
    requires n < buf.Length && Part(buf, 0, n) == head + value + tail
    requires '\0' !in head && '\0' !in value && '\0' !in tail
    modifies buf
    ensures Text(buf, n) && Part(buf, 0, n) == head + value + tail
  {
    ghost var text := Part(buf, 0, n);
    buf[n] := '\0';
    assert Part(buf, 0, n) == text;
  }

  lemma CallIsScan(values: Values, rest: string, nested: bool, tokens: int, start: nat, max: int)
    ensures Call(values, rest, nested, tokens, start, max)
         == if tokens - 1 <= 0 then Failed(Loop) else ScanFrom(values, "", rest, nested, tokens - 1, start, max)
  {}

  lemma ScanEnds(values: Values, left: string, nested: bool, tokens: int, start: nat, max: int)
    requires tokens > 0
    ensures ScanFrom(values, left, "", nested, tokens, start, max) == AtEnd(left, tokens)
  {}

  lemma ScanOpens(values: Values, left: string, rest: string, nested: bool, tokens: int, start: nat, max: int)
    requires tokens > 0 && Opens(rest)
    ensures var inner := Call(values, rest[2..], true, tokens, start + (if nested then 2 else 0) + |left|, max);
      var outer := ScanFrom(values, left, rest, nested, tokens, start, max);
      match inner
      case Replaced(more, t) => 0 < t < tokens && outer == ScanFrom(values, left, more, nested, t, start, max)
      case AtEnd(text, t) => 0 < t < tokens && outer == AtEnd(left + "$(" + text, t)
      case Failed(_) => outer == inner
  {}

  lemma ScanCloses(values: Values, left: string, rest: string, tokens: int, start: nat, max: int)
    requires tokens > 0 && |rest| > 0 && rest[0] == ')'
    ensures var v := Value(values, left);
      ScanFrom(values, left, rest, true, tokens, start, max)
      == if v == [] then Failed(NoKey)
         else if start + |v[0]| + |rest| - 1 >= max then Failed(Overflow)
         else Replaced(v[0] + rest[1..], tokens)
  {}

  lemma ScanPlain(values: Values, left: string, rest: string, nested: bool, tokens: int, start: nat, max: int)
    requires tokens > 0 && |rest| > 0 && !Opens(rest) && !(rest[0] == ')' && nested)
    ensures ScanFrom(values, left, rest, nested, tokens, start, max)
         == ScanFrom(values, left + [rest[0]], rest[1..], nested, tokens, start, max)
  {}

  /** What the characters at p say about the rest of the text. */
  lemma Look(buf: array<char>, p: nat, n: nat)
    requires Text(buf, n) && p <= n
    ensures buf[p] == '\0' <==> p == n
    ensures p < n ==> p + 1 < buf.Length && buf[p] == Part(buf, p, n)[0]
    ensures p < n ==> (Opens(Part(buf, p, n)) <==> buf[p] == '$' && buf[p + 1] == '(')
    ensures p < n && Opens(Part(buf, p, n)) ==> p + 2 <= n && Part(buf, p, n)[2..] == Part(buf, p + 2, n)
  {
    assert p < n ==> buf[p] in buf[..n];
    assert p + 1 < n ==> buf[p..n][1] == buf[p + 1];
  }

  /** What is left to scan once the inner reference at p has been dealt with. */
  lemma StepOpens(values: Values, text: string, from: nat, p: nat, nested: bool, tokens: int, start: nat, max: int,
                  now: string)
    requires tokens > 0 && from <= p <= |text| && Opens(text[p..]) && from == start + if nested then 2 else 0
    ensures var inner := Call(values, text[p..][2..], true, tokens, p, max);
      var spec := ScanFrom(values, text[from..p], text[p..], nested, tokens, start, max);
      && (inner.Failed? ==> spec == inner)
      && (!inner.Failed? ==> 0 < inner.tokens < tokens)
      && (inner.Replaced? && now == text[..p] + inner.rest ==>
            now[..from] == text[..from]
                && ScanFrom(values, now[from..p], now[p..], nested, inner.tokens, start, max) == spec)
      && (inner.AtEnd? && now == text[..p + 2] + inner.text ==>
            now[..from] == text[..from] && ScanFrom(values, now[from..], "", nested, inner.tokens, start, max) == spec)
  {
    hide Call, ScanFrom;
    var left := text[from..p];
    var inner := Call(values, text[p..][2..], true, tokens, p, max);
    ScanOpens(values, left, text[p..], nested, tokens, start, max);
    if inner.Replaced? {
      assert now == text[..p] + inner.rest ==> now[from..p] == left && now[p..] == inner.rest;
    } else if inner.AtEnd? && now == text[..p + 2] + inner.text {
      assert now[from..] == left + "$(" + inner.text by { assert text[..p + 2] == text[..from] + left + "$("; }
      ScanEnds(values, now[from..], nested, inner.tokens, start, max);
    }
  }

  lemma Advance(buf: array<char>, from: nat, p: nat, n: nat)
    requires from <= p < n < buf.Length
    ensures Part(buf, from, p + 1) == Part(buf, from, p) + [Part(buf, p, n)[0]]
        && Part(buf, p + 1, n) == Part(buf, p, n)[1..]
  {}

  lemma OpensWithin(s: string)
    requires Opens(s)
    ensures |s| >= 2
  {}

  lemma Cuts(buf: array<char>, from: nat, p: nat, n: nat)
    requires from <= p <= n < buf.Length
    ensures var text := buf[..n];
      && text[..from] == buf[..from] && text[from..p] == buf[from..p] && text[p..] == buf[p..n]
      && text[..p] == buf[..p] && (p + 2 <= n ==> text[..p + 2] == buf[..p + 2])
      && (p == n ==> text[from..] == text[from..p] && text[p..] == "")
  {}

  lemma PrefixOfPrefix(buf: array<char>, start: nat, from: nat, pre: string)
    requires start <= from <= buf.Length && buf[..from] == pre
    ensures buf[..start] == pre[..start]
  {}

  lemma AllScanned(buf: array<char>, from: nat, p: nat)
    requires from <= p < buf.Length
    ensures Part(buf, p, p) == "" && Part(buf, 0, p) == Part(buf, 0, from) + Part(buf, from, p)
  {}

  lemma ValueHasNoZeros(values: Values, key: string)
    requires NoZeros(values)
    ensures Value(values, key) != [] ==> '\0' !in Value(values, key)[0]
  {}

  /** The case of find_token in which ) at p closes the reference that starts at start. */
  method CloseToken(values: Values, buf: array<char>, start: nat, p: nat, curLen: nat, startOffset: nat, max: int)
      returns (status: Status, curLen': nat)
    requires Text(buf, curLen) && curLen < max <= buf.Length && NoZeros(values)
    requires start + 2 <= p < curLen && startOffset == start
    modifies buf
    ensures var v := Value(values, old(Part(buf, start + 2, p)));
      if v == [] then status == Err(NoKey)
      else if start + |v[0]| + (curLen - p) - 1 >= max then status == Err(Overflow)
      else (status == Ok && Text(buf, curLen') && curLen' < max
            && Part(buf, 0, curLen') == old(Part(buf, 0, start)) + v[0] + old(Part(buf, p + 1, curLen)))
  {
    hide Value;
    ghost var head, name, tail := buf[..start], buf[start + 2..p], buf[p + 1..curLen];
    assert forall c :: c in head || c in tail ==> c in buf[..curLen];
    buf[p] := '\0';
    assert buf[..start] == head && buf[start + 2..p] == name && buf[p + 1..curLen] == tail;
    status, curLen' := Ok, curLen;
    var value := Value(values, buf[start + 2..p]);
    ValueHasNoZeros(values, name);
    if value == [] {
      status := Err(NoKey);
      return;
    }
    var oldLen := p - start + 1;
    var newLen := |value[0]|;
    var moveLen := curLen - oldLen - startOffset;
    var grown := curLen + (newLen - oldLen);
    if grown >= max {
      status := Err(Overflow);
      return;
    }
    Splice(buf, start, p, curLen, value[0], moveLen);
    curLen' := grown;
  }

  /** The case of find_token in which $( at p opens an inner reference. */
  method OpenToken(values: Values, buf: array<char>, start: nat, skip: nat, p: nat, curLen: nat, startOffset: nat,
                   max: int, tokens: int)
      returns (status: Status, p': nat, curLen': nat, tokens': int)
    requires Text(buf, curLen) && curLen < max <= buf.Length && NoZeros(values)
    requires skip == 0 || skip == 2
    requires start + skip <= p <= curLen && startOffset == start && tokens > 0 && Opens(Part(buf, p, curLen))
    modifies buf
    ensures var from := start + skip;
      var spec := ScanFrom(values, old(Part(buf, from, p)), old(Part(buf, p, curLen)), skip != 0, tokens, start, max);
      if status == Ok then
        (0 < tokens' < tokens && Text(buf, curLen') && curLen' < max && from <= p' <= curLen'
         && Part(buf, 0, from) == old(Part(buf, 0, from)) && Part(buf, 0, start) == old(Part(buf, 0, start))
         && ScanFrom(values, Part(buf, from, p'), Part(buf, p', curLen'), skip != 0, tokens', start, max) == spec)
      else spec == Failed(status.error)
    decreases tokens, 1
  {
    hide Call, ScanFrom, Opens, Text, NoZeros;
    ghost var from, text := start + skip, buf[..curLen];
    OpensWithin(Part(buf, p, curLen));
    Look(buf, p, curLen);
    Cuts(buf, from, p, curLen);
    status, p', curLen', tokens' := FindToken(values, buf, p, 2, curLen, startOffset + (p - start), max, tokens);
    ghost var now := if status == Ok then buf[..curLen'] else "";
    StepOpens(values, text, from, p, skip != 0, tokens, start, max, now);
    if status == Ok {
      Cuts(buf, from, p', curLen');
      PrefixOfPrefix(buf, start, from, text[..from]);
    }
  }

  /** find_token: p is where the caller goes on scanning. Pointers are positions in buf. */
  method FindToken(values: Values, buf: array<char>, start: nat, skip: nat, curLen: nat, startOffset: nat, max: int,
                   tokens: int)
      returns (status: Status, p: nat, curLen': nat, tokens': int)
    requires Text(buf, curLen) && curLen < max <= buf.Length && NoZeros(values)
    requires skip == 0 || skip == 2
    requires start + skip <= curLen && startOffset == start && tokens > 0
    modifies buf
    ensures var spec := Call(values, old(buf[start + skip..curLen]), skip != 0, tokens, start, max);
      match spec
      case Failed(e) => status == Err(e)
      case Replaced(rest, left) =>
        (status == Ok && tokens' == left && p == start && Text(buf, curLen') && curLen' < max
         && buf[..curLen'] == old(buf[..start]) + rest)
      case AtEnd(text, left) =>
        (status == Ok && tokens' == left && p == curLen' && Text(buf, curLen') && curLen' < max
         && buf[..curLen'] == old(buf[..start + skip]) + text)
    decreases tokens, 0
  {
    hide Call, ScanFrom, Value;
    CallIsScan(values, buf[start + skip..curLen], skip != 0, tokens, start, max);
    if tokens - 1 <= 0 {
      status, p, curLen', tokens' := Err(Loop), 0, curLen, tokens - 1;
      return;
    }
    status, p, curLen', tokens' := ScanText(values, buf, start, skip, curLen, startOffset, max, tokens - 1);
  }

  /** The loop of find_token. */
  method ScanText(values: Values, buf: array<char>, start: nat, skip: nat, curLen: nat, startOffset: nat, max: int,
                  tokens: int)
      returns (status: Status, p: nat, curLen': nat, tokens': int)
    requires Text(buf, curLen) && curLen < max <= buf.Length && NoZeros(values)
    requires skip == 0 || skip == 2
    requires start + skip <= curLen && startOffset == start && tokens > 0
    modifies buf
    ensures var spec := ScanFrom(values, "", old(Part(buf, start + skip, curLen)), skip != 0, tokens, start, max);
      && (status != Ok ==> spec == Failed(status.error))
      && (status == Ok ==> Text(buf, curLen') && curLen' < max)
      && (status == Ok && spec.Replaced? ==>
            tokens' == spec.tokens && p == start && Part(buf, 0, curLen') == old(Part(buf, 0, start)) + spec.rest)
      && (status == Ok && !spec.Replaced? ==>
            spec.AtEnd? && tokens' == spec.tokens && p == curLen'
                && Part(buf, 0, curLen') == old(Part(buf, 0, start + skip)) + spec.text)
    decreases tokens, 2
  {
    hide *;
    status, p, curLen', tokens' := Ok, start + skip, curLen, tokens;
    ghost var from, head, pre := start + skip, Part(buf, 0, start), Part(buf, 0, p);
    ghost var spec := ScanFrom(values, "", Part(buf, p, curLen), skip != 0, tokens, start, max);
    AllScanned(buf, from, p);
    while buf[p] != '\0'
      invariant status == Ok && 0 < tokens' <= tokens && Text(buf, curLen') && curLen' < max
      invariant from <= p <= curLen' && Part(buf, 0, from) == pre && Part(buf, 0, start) == head
      invariant ScanFrom(values, Part(buf, from, p), Part(buf, p, curLen'), skip != 0, tokens', start, max) == spec
      decreases tokens', curLen' - p
    {
      Look(buf, p, curLen');
      Advance(buf, from, p, curLen');
      if buf[p] == '$' && buf[p + 1] == '(' {
        status, p, curLen', tokens' := OpenToken(values, buf, start, skip, p, curLen', startOffset, max, tokens');
        if status != Ok {
          return;
        }
      } else if buf[p] == ')' && skip != 0 {
        ScanCloses(values, Part(buf, from, p), Part(buf, p, curLen'), tokens', start, max);
        status, curLen' := CloseToken(values, buf, start, p, curLen', startOffset, max);
        p := start;
        return;
      } else {
        ScanPlain(values, Part(buf, from, p), Part(buf, p, curLen'), skip != 0, tokens', start, max);
        p := p + 1;
      }
    }
    Look(buf, p, curLen');
    AllScanned(buf, from, p);
    ScanEnds(values, Part(buf, from, p), skip != 0, tokens', start, max);
  }

  // ----- Lines

  /** strstr(s, "$("), or the length of s. */
  function FirstOpen(s: string): (i: nat)
    ensures i <= |s|
    ensures forall j :: 0 <= j < i ==> !Opens(s[j..])
    ensures i < |s| ==> Opens(s[i..])
  {
    if |s| == 0 || Opens(s) then 0
    else
      var i := 1 + FirstOpen(s[1..]);
      assert forall j :: 1 <= j <= |s| ==> s[j..] == s[1..][j - 1..];
      assert s[0..] == s;
      i
  }

  /** Text without references is passed over. */
  lemma {:induction false} ScanOver(values: Values, left: string, pre: string, rest: string, nested: bool,
                                    tokens: int, start: nat, max: int)
    requires tokens > 0 && (nested ==> ')' !in pre)
    requires forall i :: 0 <= i < |pre| ==> !Opens((pre + rest)[i..])
    ensures ScanFrom(values, left, pre + rest, nested, tokens, start, max)
         == ScanFrom(values, left + pre, rest, nested, tokens, start, max)
    decreases |pre|
  {
    hide ScanFrom, Opens;
    if |pre| == 0 {
      assert pre + rest == rest && left + pre == left;
    } else {
      var all := pre + rest;
      assert all[0..] == all;
      ScanPlain(values, left, all, nested, tokens, start, max);
      assert all[1..] == pre[1..] + rest && left + [pre[0]] + pre[1..] == left + pre;
      assert forall i :: 0 <= i < |pre| - 1 ==> all[1..][i..] == all[i + 1..];
      ScanOver(values, left + [pre[0]], pre[1..], rest, nested, tokens, start, max);
    }
  }

  function Behind(pre: string, r: Scan): Scan {
    if r.AtEnd? then AtEnd(pre + r.text, r.tokens) else r
  }

  /** At the top level it does not matter where the scan is said to start. */
  lemma {:induction false} MoveStart(values: Values, pre: string, left: string, rest: string, tokens: int,
                                     start: nat, max: int)
    requires tokens > 0
    ensures ScanFrom(values, pre + left, rest, false, tokens, start, max)
         == Behind(pre, ScanFrom(values, left, rest, false, tokens, start + |pre|, max))
    decreases tokens, |rest|
  {
    hide Call, ScanFrom, Opens;
    if |rest| == 0 {
      ScanEnds(values, pre + left, false, tokens, start, max);
      ScanEnds(values, left, false, tokens, start + |pre|, max);
    } else if Opens(rest) {
      ScanOpens(values, pre + left, rest, false, tokens, start, max);
      ScanOpens(values, left, rest, false, tokens, start + |pre|, max);
      OpensWithin(rest);
      var inner := Call(values, rest[2..], true, tokens, start + |pre| + |left|, max);
      if inner.Replaced? {
        MoveStart(values, pre, left, inner.rest, inner.tokens, start, max);
      } else if inner.AtEnd? {
        assert pre + left + "$(" + inner.text == pre + (left + "$(" + inner.text);
      }
    } else {
      ScanPlain(values, pre + left, rest, false, tokens, start, max);
      ScanPlain(values, left, rest, false, tokens, start + |pre|, max);
      assert pre + left + [rest[0]] == pre + (left + [rest[0]]);
      MoveStart(values, pre, left + [rest[0]], rest[1..], tokens, start, max);
    }
  }

  /** Expansion may start at the first reference. */
  lemma {:induction false} ExpandFromFirst(values: Values, line: string, max: int)
    ensures var offset := FirstOpen(line);
      Expand(values, line, max)
      == Behind(line[..offset], ScanFrom(values, "", line[offset..], false, MAX_TOKENS - 1, offset, max))
  {
    hide ScanFrom, FirstOpen;
    var offset := FirstOpen(line);
    var pre, rest := line[..offset], line[offset..];
    assert pre + rest == line && pre + "" == pre && "" + pre == pre;
    ScanOver(values, "", pre, rest, false, MAX_TOKENS - 1, 0, max);
    MoveStart(values, pre, "", rest, MAX_TOKENS - 1, 0, max);
  }

  lemma TopLevelNeverCloses(values: Values, line: string, max: int)
    ensures !Expand(values, line, max).Replaced?
  {}

  /** replace_in_line. */
  method ReplaceInLine(values: Values, str: string, buf: array<char>, max: int) returns (status: Status, result: string)
    requires NoZeros(values) && '\0' !in str && |str| < max <= buf.Length
    modifies buf
    ensures status == Ok ==> |result| < max && '\0' !in result
    ensures match Expand(values, str, max)
      case AtEnd(text, _) => status == Ok && result == text
      case Failed(e) => status == Err(e)
      case Replaced(_, _) => false
  {
    hide ScanFrom, Call, FirstOpen, Opens, Expand;
    status, result := Ok, str;
    ExpandFromFirst(values, str, max);
    TopLevelNeverCloses(values, str, max);
    var offset := FirstOpen(str);
    if offset < |str| {
      forall i | 0 <= i < |str| {
        buf[i] := str[i];
      }
      buf[|str|] := '\0';
      assert buf[..|str|] == str && buf[offset..|str|] == str[offset..] && buf[..offset] == str[..offset];
      CallIsScan(values, str[offset..], false, MAX_TOKENS, offset, max);
      var p, curLen, tokens;
      status, p, curLen, tokens := FindToken(values, buf, offset, 0, |str|, offset, max, MAX_TOKENS);
      if status == Ok {
        result := buf[..curLen];
      }
    } else {
      ScanEnds(values, "", false, MAX_TOKENS - 1, offset, max);
      assert str[offset..] == "" && str[..offset] + "" == str;
    }
  }

  // ----- What the expansion means

  /** More tokens and more room never change a result, they only let more lines through. */
  lemma {:induction false} LimitsOnlyReject(values: Values, left: string, rest: string, nested: bool,
                                            tokens: int, max: int, tokens': int, max': int, start: nat)
    requires 0 < tokens <= tokens' && max <= max'
    ensures var r := ScanFrom(values, left, rest, nested, tokens, start, max);
      var r' := ScanFrom(values, left, rest, nested, tokens', start, max');
      && (r.AtEnd? ==> r'.AtEnd? && r'.text == r.text && r'.tokens - r.tokens == tokens' - tokens)
      && (r.Replaced? ==> r'.Replaced? && r'.rest == r.rest && r'.tokens - r.tokens == tokens' - tokens)
    decreases tokens, |rest|
  {
    hide Call, ScanFrom, Opens;
    if |rest| == 0 {
      ScanEnds(values, left, nested, tokens, start, max);
      ScanEnds(values, left, nested, tokens', start, max');
    } else if Opens(rest) {
      ScanOpens(values, left, rest, nested, tokens, start, max);
      ScanOpens(values, left, rest, nested, tokens', start, max');
      OpensWithin(rest);
      var at := start + (if nested then 2 else 0) + |left|;
      CallIsScan(values, rest[2..], true, tokens, at, max);
      CallIsScan(values, rest[2..], true, tokens', at, max');
      if tokens > 1 {
        LimitsOnlyReject(values, "", rest[2..], true, tokens - 1, max, tokens' - 1, max', at);
        var inner := Call(values, rest[2..], true, tokens, at, max);
        var inner' := Call(values, rest[2..], true, tokens', at, max');
        if inner.Replaced? {
          LimitsOnlyReject(values, left, inner.rest, nested, inner.tokens, max, inner'.tokens, max', start);
        }
      }
    } else if rest[0] == ')' && nested {
      ScanCloses(values, left, rest, tokens, start, max);
      ScanCloses(values, left, rest, tokens', start, max');
    } else {
      ScanPlain(values, left, rest, nested, tokens, start, max);
      ScanPlain(values, left, rest, nested, tokens', start, max');
      LimitsOnlyReject(values, left + [rest[0]], rest[1..], nested, tokens, max, tokens', max', start);
    }
  }

  /** No reference is left: behind $( there is no ). */
  ghost predicate Settled(s: string) {
    forall i :: 0 <= i < |s| && Opens(s[i..]) ==> ')' !in s[i..]
  }

  /** Nothing opens before position n. */
  ghost predicate NoOpenBefore(s: string, n: int) {
    forall i :: 0 <= i < n && i < |s| ==> !Opens(s[i..])
  }

  ghost predicate Solid(v: string) {
    |v| > 0 && v[0] != '('
  }

  /** No value that a reference can stand for is empty or starts with a parenthesis. */
  ghost predicate Clean(values: Values) {
    forall k :: k in values && |values[k]| == 1 ==> Solid(values[k][0])
  }

  lemma SolidJoin(left: string, rest: string, more: string)
    requires NoOpenBefore(left + rest, |left|) && Opens(rest) && Solid(more)
    ensures NoOpenBefore(left + more, |left|)
  {
    forall i | 0 <= i < |left|
      ensures !Opens((left + more)[i..])
    {
      assert !Opens((left + rest)[i..]);
      if i == |left| - 1 {
        assert (left + more)[i..][1] == more[0];
      } else {
        assert (left + more)[i..][..2] == (left + rest)[i..][..2] == left[i..i + 2];
      }
    }
  }

  lemma OpenTail(left: string, rest: string, text: string)
    requires NoOpenBefore(left + rest, |left|) && Opens(rest) && ')' !in text
    ensures Settled(left + "$(" + text)
  {
    hide Opens;
    var s := left + "$(" + text;
    assert s == left + ("$(" + text);
    forall i | 0 <= i < |left|
      ensures !Opens(s[i..])
    {
      OpensInPrefix(left, rest, text, i);
    }
    forall i | 0 <= i < |s| && Opens(s[i..])
      ensures ')' !in s[i..]
    {
      assert i >= |left|;
      NoneInSuffix(left, "$(" + text, i);
    }
  }

  lemma NoneInSuffix(left: string, tail: string, i: nat)
    requires |left| <= i <= |left + tail| && ')' !in tail
    ensures ')' !in (left + tail)[i..]
  {
    assert (left + tail)[i..] == tail[i - |left|..];
  }

  lemma OpensInPrefix(left: string, rest: string, text: string, i: nat)
    requires i < |left| && Opens(rest)
    ensures Opens((left + "$(" + text)[i..]) == Opens((left + rest)[i..])
  {
    var s := left + "$(" + text;
    assert s == left + ("$(" + text) && rest[..2] == "$(";
    assert i + 1 < |left| ==> s[i..][..2] == left[i..i + 2] == (left + rest)[i..][..2];
  }

  lemma OneMorePassed(left: string, rest: string)
    requires NoOpenBefore(left + rest, |left|) && |rest| > 0 && !Opens(rest)
    ensures NoOpenBefore(left + [rest[0]] + rest[1..], |left| + 1)
  {
    assert left + [rest[0]] + rest[1..] == left + rest;
    assert (left + rest)[|left|..] == rest;
  }

  lemma NoOpenIsSettled(left: string)
    requires NoOpenBefore(left + "", |left|)
    ensures Settled(left)
  {
    assert left + "" == left;
  }

  lemma CleanValue(values: Values, key: string, rest: string)
    requires Clean(values) && Value(values, key) != []
    ensures Solid(Value(values, key)[0] + rest)
  {}

  /** With clean values what the scan leaves behind it has no reference; and text that is not empty
      and starts with no parenthesis is expanded to such text. */
  lemma {:induction false} ScanSettles(values: Values, left: string, rest: string, nested: bool, tokens: int,
                                       start: nat, max: int)
    requires tokens > 0 && Clean(values) && NoOpenBefore(left + rest, |left|) && (nested ==> ')' !in left)
    ensures var r := ScanFrom(values, left, rest, nested, tokens, start, max);
      && (r.AtEnd? ==> Settled(r.text) && (nested ==> ')' !in r.text) && (Solid(left + rest) ==> Solid(r.text)))
      && (r.Replaced? ==> Solid(r.rest))
    decreases tokens, |rest|
  {
    hide Call, ScanFrom, Opens, Settled, NoOpenBefore, Clean, Value;
    if |rest| == 0 {
      ScanEnds(values, left, nested, tokens, start, max);
      NoOpenIsSettled(left);
    } else if Opens(rest) {
      OpensWithin(rest);
      ScanOpens(values, left, rest, nested, tokens, start, max);
      var at := start + (if nested then 2 else 0) + |left|;
      CallIsScan(values, rest[2..], true, tokens, at, max);
      if tokens > 1 {
        NothingBefore(rest[2..]);
        ScanSettles(values, "", rest[2..], true, tokens - 1, at, max);
        var inner := Call(values, rest[2..], true, tokens, at, max);
        if inner.Replaced? {
          SolidJoin(left, rest, inner.rest);
          ScanSettles(values, left, inner.rest, nested, inner.tokens, start, max);
        } else if inner.AtEnd? {
          OpenTail(left, rest, inner.text);
        }
      }
    } else if rest[0] == ')' && nested {
      ScanCloses(values, left, rest, tokens, start, max);
      if Value(values, left) != [] {
        CleanValue(values, left, rest[1..]);
      }
    } else {
      ScanPlain(values, left, rest, nested, tokens, start, max);
      OneMorePassed(left, rest);
      assert left + [rest[0]] + rest[1..] == left + rest;
      ScanSettles(values, left + [rest[0]], rest[1..], nested, tokens, start, max);
    }
  }

  lemma NothingBefore(rest: string)
    ensures NoOpenBefore("" + rest, |""|)
  {}

  // ----- When every result is settled

  /** A key that a reference can spell, and a value that holds no reference. */
  ghost predicate Plain(values: Values) {
    forall k :: k in values && |values[k]| == 1 ==>
      ')' !in k && NoOpenBefore(k, |k|) && NoOpenBefore(values[k][0], |values[k][0]|)
  }

  /** A line whose expansion leaves a reference to be expanded. */
  function Witness(key: string, value: string): string {
    "$$(" + key + ")" + if value == "" then "(x)" else ")"
  }

  lemma NoOpenAcross(s: string, t: string)
    requires NoOpenBefore(s, |s|) && (|s| > 0 && s[|s| - 1] == '$' ==> t == "" || t[0] != '(')
    ensures forall i :: 0 <= i < |s| ==> !Opens((s + t)[i..])
  {
    forall i | 0 <= i < |s|
      ensures !Opens((s + t)[i..])
    {
      assert !Opens(s[i..]);
    }
  }

  /** A reference whose name is plain is replaced by its value, at the cost of one token. */
  lemma {:induction false} ReplaceOne(values: Values, left: string, key: string, after: string, tokens: int,
                                      start: nat, max: int)
    requires tokens > 1 && ')' !in key && NoOpenBefore(key, |key|)
    ensures var v := Value(values, key);
      ScanFrom(values, left, "$(" + key + ")" + after, false, tokens, start, max)
      == if v == [] then Failed(NoKey)
         else if start + |left| + |v[0]| + |after| >= max then Failed(Overflow)
         else ScanFrom(values, left, v[0] + after, false, tokens - 1, start, max)
  {
    hide Call, ScanFrom, NoOpenBefore, Value;
    var rest := "$(" + key + ")" + after;
    var tail := ")" + after;
    assert rest[2..] == key + tail && "" + key == key && tail[1..] == after;
    NoOpenAcross(key, tail);
    ScanOpens(values, left, rest, false, tokens, start, max);
    CallIsScan(values, rest[2..], true, tokens, start + |left|, max);
    ScanOver(values, "", key, tail, true, tokens - 1, start + |left|, max);
    ScanCloses(values, key, tail, tokens - 1, start + |left|, max);
  }

  lemma WitnessExpands(values: Values, key: string, v: string, max: int)
    requires key in values && values[key] == [v] && ')' !in key && NoOpenBefore(key, |key|)
    requires NoOpenBefore(v, |v|) && !Solid(v) && max >= |v| + 5
    ensures var r := Expand(values, Witness(key, v), max); r.AtEnd? && !Settled(r.text)
  {
    hide Call, ScanFrom, NoOpenBefore;
    var after := if v == "" then "(x)" else ")";
    var ref := "$(" + key + ")" + after;
    var line := Witness(key, v);
    var text := v + after;
    assert line == ['$'] + ref && line[0] == '$' && line[1..] == ref && "" + ['$'] == "$" && !Opens(line);
    ScanPlain(values, "", line, false, MAX_TOKENS - 1, 0, max);
    ReplaceOne(values, "$", key, after, MAX_TOKENS - 1, 0, max);
    NoOpenText(v, after);
    assert text + "" == text;
    ScanOver(values, "$", text, "", false, MAX_TOKENS - 2, 0, max);
    ScanEnds(values, "$" + text, false, MAX_TOKENS - 2, 0, max);
    var r := "$" + text;
    assert r[0..] == r && r[1] == '(' && r[|r| - 1] == ')';
    assert Opens(r[0..]) && ')' in r[0..];
  }

  lemma NoOpenText(v: string, after: string)
    requires NoOpenBefore(v, |v|) && after == if v == "" then "(x)" else ")"
    ensures forall i :: 0 <= i < |v + after| ==> !Opens((v + after + "")[i..])
  {
    NoOpenAcross(v, after);
    assert v + after + "" == v + after;
    forall i | |v| <= i < |v + after|
      ensures !Opens((v + after)[i..])
    {
      assert (v + after)[i..][0] == after[i - |v|];
    }
  }

  /** For plain tables: every successful expansion is free of references exactly when no value is
      empty or starts with a parenthesis. */
  lemma {:induction false} SettledIffClean(values: Values)
    requires Plain(values)
    ensures Clean(values)
       <==> forall line, max :: Expand(values, line, max).AtEnd? ==> Settled(Expand(values, line, max).text)
  {
    hide ScanFrom, NoOpenBefore, Settled, Witness;
    if Clean(values) {
      forall line, max | Expand(values, line, max).AtEnd?
        ensures Settled(Expand(values, line, max).text)
      {
        NothingBefore(line);
        ScanSettles(values, "", line, false, MAX_TOKENS - 1, 0, max);
      }
    } else {
      var k :| k in values && |values[k]| == 1 && !Solid(values[k][0]);
      var v := values[k][0];
      WitnessExpands(values, k, v, |v| + 5);
    }
  }

  // ----- References to themselves

  /** A variable whose value refers to the variable itself is never expanded: the budget of tokens
      or the size of the buffer ends the attempt. */
  lemma {:induction false} SelfReferenceFails(values: Values, left: string, key: string, pre: string, post: string,
                                              after: string, tokens: int, max: int)
    requires tokens > 0 && ')' !in key && NoOpenBefore(key, |key|) && NoOpenBefore(pre, |pre|)
    requires key in values && values[key] == [pre + "$(" + key + ")" + post]
    ensures var r := ScanFrom(values, left, "$(" + key + ")" + after, false, tokens, 0, max);
      r == Failed(Loop) || r == Failed(Overflow)
    decreases tokens
  {
    hide Call, ScanFrom, NoOpenBefore;
    var rest := "$(" + key + ")" + after;
    if tokens == 1 {
      ScanOpens(values, left, rest, false, 1, 0, max);
      CallIsScan(values, rest[2..], true, 1, |left|, max);
    } else {
      ReplaceOne(values, left, key, after, tokens, 0, max);
      var again := "$(" + key + ")" + (post + after);
      assert values[key][0] + after == pre + again;
      NoOpenAcross(pre, again);
      ScanOver(values, left, pre, again, false, tokens - 1, 0, max);
      SelfReferenceFails(values, left + pre, key, pre, post, post + after, tokens - 1, max);
    }
  }

  // ----- The whole table

  /** Value i of key k is replaced. */
  function Put(values: Values, k: string, i: nat, text: string): Values
    requires k in values && i < |values[k]|
  {
    values[k := values[k][i := text]]
  }

  /** Every value from value i of key j on is expanded in order, by the table as it then stands. */
  function ExpandFrom(values: Values, order: seq<string>, j: nat, i: nat, max: int): Option<Values>
    requires j <= |order| && forall k :: k in order ==> k in values
    decreases |order| - j, if j < |order| then |values[order[j]]| - i else 0
  {
    if j == |order| then Some(values)
    else
      var k := order[j];
      if i >= |values[k]| then ExpandFrom(values, order, j + 1, 0, max)
      else
        var r := Expand(values, values[k][i], max);
        if r.AtEnd? then ExpandFrom(Put(values, k, i, r.text), order, j, i + 1, max) else None
  }

  ghost predicate Short(values: Values, max: int) {
    forall k, i :: k in values && 0 <= i < |values[k]| ==> |values[k][i]| < max
  }

  /** replace_var. */
  method ReplaceVar(values0: Values, order: seq<string>, buf: array<char>, max: int)
      returns (status: Status, values: Values)
    requires (forall k :: k in order ==> k in values0) && NoZeros(values0) && Short(values0, max) && max <= buf.Length
    modifies buf
    ensures match ExpandFrom(values0, order, 0, 0, max)
      case Some(all) => status == Ok && values == all
      case None => status == Err(NoKey)
  {
    hide Expand;
    status, values := Ok, values0;
    for j := 0 to |order|
      invariant status == Ok && (forall k :: k in order ==> k in values) && NoZeros(values) && Short(values, max)
      invariant ExpandFrom(values, order, j, 0, max) == ExpandFrom(values0, order, 0, 0, max)
    {
      var k := order[j];
      var n := |values[k]|;
      for i := 0 to n
        invariant status == Ok && (forall k :: k in order ==> k in values) && NoZeros(values) && Short(values, max)
        invariant |values[k]| == n
        invariant ExpandFrom(values, order, j, i, max) == ExpandFrom(values0, order, 0, 0, max)
      {
        var text;
        status, text := ReplaceInLine(values, values[k][i], buf, max);
        if status != Ok {
          status := Err(NoKey);
          return;
        }
        values := Put(values, k, i, text);
      }
    }
  }

  /** The values before value i of key j are settled. */
  ghost predicate Done(values: Values, order: seq<string>, j: nat, i: nat)
    requires forall k :: k in order ==> k in values
  {
    forall a, b :: 0 <= a < |order| && 0 <= b < |values[order[a]]| && (a < j || (a == j && b < i)) ==>
      Settled(values[order[a]][b])
  }

  /** In a clean table every value is expanded completely, and the table stays clean. */
  lemma {:induction false} TableSettles(values: Values, order: seq<string>, j: nat, i: nat, max: int)
    requires j <= |order| && (forall k :: k in order ==> k in values) && Clean(values) && Done(values, order, j, i)
    requires forall a, b :: 0 <= a < b < |order| ==> order[a] != order[b]
    ensures var r := ExpandFrom(values, order, j, i, max);
      r.Some? ==> Clean(r.value) && r.value.Keys == values.Keys && Done(r.value, order, |order|, 0)
    decreases |order| - j, if j < |order| then |values[order[j]]| - i else 0
  {
    hide Settled, Solid;
    if j < |order| {
      var k := order[j];
      if i >= |values[k]| {
        TableSettles(values, order, j + 1, 0, max);
      } else {
        var r := Expand(values, values[k][i], max);
        if r.AtEnd? {
          NothingBefore(values[k][i]);
          assert "" + values[k][i] == values[k][i];
          ScanSettles(values, "", values[k][i], false, MAX_TOKENS - 1, 0, max);
          TableSettles(Put(values, k, i, r.text), order, j, i + 1, max);
        }
      }
    }
  }

  // ----- The budget

  function Repeat(s: string, n: nat): string {
    if n == 0 then "" else s + Repeat(s, n - 1)
  }

  lemma {:induction false} Spend(values: Values, left: string, key: string, v: string, n: nat, tokens: int, max: int)
    requires tokens > 0 && key in values && values[key] == [v]
    requires ')' !in key && NoOpenBefore(key, |key|) && NoOpenBefore(v, |v|)
    requires |left| + |Repeat(v, n)| + |Repeat("$(" + key + ")", n)| < max
    ensures ScanFrom(values, left, Repeat("$(" + key + ")", n), false, tokens, 0, max)
         == if n < tokens then AtEnd(left + Repeat(v, n), tokens - n) else Failed(Loop)
    decreases n
  {
    hide Call, ScanFrom, NoOpenBefore;
    var ref := "$(" + key + ")";
    var all := Repeat(ref, n);
    if n == 0 {
      ScanEnds(values, left, false, tokens, 0, max);
      assert left + "" == left;
    } else {
      var after := Repeat(ref, n - 1);
      assert all == ref + after;
      if tokens == 1 {
        ScanOpens(values, left, all, false, 1, 0, max);
        CallIsScan(values, all[2..], true, 1, |left|, max);
      } else {
        ReplaceOne(values, left, key, after, tokens, 0, max);
        NoOpenAcross(v, after);
        ScanOver(values, left, v, after, false, tokens - 1, 0, max);
        Spend(values, left + v, key, v, n - 1, tokens - 1, max);
        assert left + v + Repeat(v, n - 1) == left + Repeat(v, n);
      }
    }
  }

  /** With room enough, a line of n references to a value without references is expanded up to n == 1022. */
  lemma {:induction false} BudgetSuffices(values: Values, key: string, v: string, n: nat, max: int)
    requires key in values && values[key] == [v]
    requires ')' !in key && NoOpenBefore(key, |key|) && NoOpenBefore(v, |v|)
    requires |Repeat(v, n)| + |Repeat("$(" + key + ")", n)| < max
    ensures Expand(values, Repeat("$(" + key + ")", n), max)
         == if n <= 1022 then AtEnd(Repeat(v, n), 1023 - n) else Failed(Loop)
  {
    hide ScanFrom, NoOpenBefore, Repeat;
    Spend(values, "", key, v, n, MAX_TOKENS - 1, max);
    assert "" + Repeat(v, n) == Repeat(v, n);
  }

  // ----- Expansion as rewriting

  /** s has the reference to k between a and b, and its ) is the first one behind an opening. */
  ghost predicate Redex(values: Values, s: string, a: string, k: string, b: string) {
    && s == a + "$(" + k + ")" + b && Settled(a)
    && ')' !in k && NoOpenBefore(k, |k|) && k in values && |values[k]| == 1
  }

  /** That reference is replaced. */
  ghost predicate Step(values: Values, s: string, t: string) {
    exists a, k, b :: Redex(values, s, a, k, b) && t == a + values[k][0] + b
  }

  ghost predicate Reaches(values: Values, s: string, t: string, n: nat)
    decreases n
  {
    if n == 0 then s == t else exists u :: Step(values, s, u) && Reaches(values, u, t, n - 1)
  }

  lemma {:induction false} ReachesOn(values: Values, s: string, t: string, u: string, n: nat, m: nat)
    requires Reaches(values, s, t, n) && Reaches(values, t, u, m)
    ensures Reaches(values, s, u, n + m)
    decreases n
  {
    hide Step;
    if n > 0 {
      var w :| Step(values, s, w) && Reaches(values, w, t, n - 1);
      ReachesOn(values, w, t, u, n - 1, m);
    }
  }

  lemma OneStep(values: Values, s: string, a: string, k: string, b: string, t: string)
    requires Redex(values, s, a, k, b) && t == a + values[k][0] + b
    ensures Reaches(values, s, t, 1)
  {
    assert Step(values, s, t);
    assert Reaches(values, t, t, 0);
  }

  lemma NoOpenAt(text: string, i: nat)
    requires i + 1 < |text| && text[i] == '$' && text[i + 1] == '('
    ensures Opens(text[i..])
  {}

  lemma OpenChars(text: string, i: nat)
    requires i < |text| && Opens(text[i..])
    ensures i + 1 < |text| && text[i] == '$' && text[i + 1] == '('
  {}

  lemma OpenSettled(ctx: string, left: string)
    requires Settled(ctx) && ')' !in left
    ensures Settled(ctx + "$(" + left)
  {
    hide Opens;
    var s, tail := ctx + "$(" + left, "$(" + left;
    assert s == ctx + tail;
    forall i | 0 <= i < |s| && Opens(s[i..])
      ensures ')' !in s[i..]
    {
      if i < |ctx| {
        OpenChars(s, i);
        assert s[i] == ctx[i] && s[|ctx|] == '$';
        NoOpenAt(ctx, i);
        assert s[i..] == ctx[i..] + tail;
      } else {
        NoneInSuffix(ctx, tail, i);
      }
    }
  }

  lemma LeftPlain(left: string, rest: string)
    requires NoOpenBefore(left + rest, |left|)
    ensures NoOpenBefore(left, |left|)
  {
    forall i | 0 <= i < |left|
      ensures !Opens(left[i..])
    {
      assert !Opens((left + rest)[i..]);
      assert i + 1 < |left| ==> left[i..][0] == (left + rest)[i..][0] && left[i..][1] == (left + rest)[i..][1];
    }
  }

  /** What is scanned in front of left. */
  function Before(ctx: string, nested: bool): string {
    if nested then ctx + "$(" else ""
  }

  /** With clean values the scan rewrites the whole text, ctx and all. */
  lemma {:induction false} ScanRewrites(values: Values, ctx: string, left: string, rest: string, nested: bool,
                                        tokens: int, start: nat, max: int) returns (n: nat)
    requires tokens > 0 && Clean(values) && NoOpenBefore(left + rest, |left|)
    requires nested ==> Settled(ctx) && ')' !in left
    ensures var r := ScanFrom(values, left, rest, nested, tokens, start, max);
      && (r.AtEnd? ==> Reaches(values, Before(ctx, nested) + left + rest, Before(ctx, nested) + r.text, n))
      && (r.Replaced? ==> Reaches(values, Before(ctx, nested) + left + rest, ctx + r.rest, n))
    decreases tokens, |rest|
  {
    hide Call, ScanFrom, Opens, Settled, NoOpenBefore, Clean, Value, Reaches, Redex;
    n := 0;
    var from := Before(ctx, nested);
    LeftPlain(left, rest);
    if |rest| == 0 {
      ScanEnds(values, left, nested, tokens, start, max);
      assert from + left + rest == from + left;
      ReachesItself(values, from + left);
    } else if Opens(rest) {
      OpensWithin(rest);
      ScanOpens(values, left, rest, nested, tokens, start, max);
      var at := start + (if nested then 2 else 0) + |left|;
      CallIsScan(values, rest[2..], true, tokens, at, max);
      if tokens > 1 {
        NothingBefore(rest[2..]);
        ContextSettled(ctx, left, nested);
        var inner := Call(values, rest[2..], true, tokens, at, max);
        n := ScanRewrites(values, from + left, "", rest[2..], true, tokens - 1, at, max);
        ScanSettles(values, "", rest[2..], true, tokens - 1, at, max);
        OpenSplit(rest);
        assert from + left + "$(" + "" + rest[2..] == from + left + rest;
        if inner.Replaced? {
          SolidJoin(left, rest, inner.rest);
          var m := ScanRewrites(values, ctx, left, inner.rest, nested, inner.tokens, start, max);
          var r := ScanFrom(values, left, rest, nested, tokens, start, max);
          if !r.Failed? {
            ReachesOn(values, from + left + rest, from + left + inner.rest,
                      if r.AtEnd? then from + r.text else ctx + r.rest, n, m);
          }
          n := n + m;
        } else if inner.AtEnd? {
          assert from + left + "$(" + inner.text == from + (left + "$(" + inner.text);
        }
      }
    } else if rest[0] == ')' && nested {
      ScanCloses(values, left, rest, tokens, start, max);
      if Value(values, left) != [] {
        var v := Value(values, left)[0];
        n := 1;
        assert from + left + rest == ctx + "$(" + left + ")" + rest[1..];
        assert ctx + v + rest[1..] == ctx + (v + rest[1..]);
        Reduces(values, from + left + rest, ctx, left, rest[1..]);
      }
    } else {
      ScanPlain(values, left, rest, nested, tokens, start, max);
      OneMorePassed(left, rest);
      assert left + [rest[0]] + rest[1..] == left + rest;
      assert from + left + rest == from + (left + [rest[0]]) + rest[1..];
      n := ScanRewrites(values, ctx, left + [rest[0]], rest[1..], nested, tokens, start, max);
    }
  }

  lemma ReachesItself(values: Values, s: string)
    ensures Reaches(values, s, s, 0)
  {}

  lemma OpenSplit(rest: string)
    requires Opens(rest)
    ensures rest == "$(" + rest[2..]
  {}

  lemma ContextSettled(ctx: string, left: string, nested: bool)
    requires NoOpenBefore(left, |left|) && (nested ==> Settled(ctx) && ')' !in left)
    ensures Settled(Before(ctx, nested) + left)
  {
    if nested {
      OpenSettled(ctx, left);
    } else {
      assert "" + left == left;
    }
  }

  lemma Reduces(values: Values, s: string, ctx: string, k: string, b: string)
    requires s == ctx + "$(" + k + ")" + b && Settled(ctx) && ')' !in k && NoOpenBefore(k, |k|)
    requires Value(values, k) != []
    ensures Reaches(values, s, ctx + Value(values, k)[0] + b, 1)
  {
    hide Reaches, Settled, NoOpenBefore;
    OneStep(values, s, ctx, k, b, ctx + values[k][0] + b);
  }

  lemma NoCloseBehind(text: string, i: nat, p: nat)
    requires Settled(text) && i < p < |text| && Opens(text[i..])
    ensures text[p] != ')'
  {
    assert text[p] == text[i..][p - i];
  }

  lemma NoReference(text: string, i: int, p: int)
    requires Settled(text)
    ensures 0 <= i && i + 1 < p < |text| && text[i] == '$' && text[i + 1] == '(' ==> text[p] != ')'
  {
    if 0 <= i && i + 1 < p < |text| && text[i] == '$' && text[i + 1] == '(' {
      NoOpenAt(text, i);
      NoCloseBehind(text, i, p);
    }
  }

  lemma PlainAt(text: string, i: int)
    requires NoOpenBefore(text, |text|) && ')' !in text
    ensures 0 <= i < |text| ==> text[i] != ')'
    ensures 0 <= i && i + 1 < |text| ==> !(text[i] == '$' && text[i + 1] == '(')
  {
    if 0 <= i && i + 1 < |text| && text[i] == '$' && text[i + 1] == '(' {
      NoOpenAt(text, i);
      assert false;
    }
  }

  /** The reference that is replaced is the only one of its kind. */
  lemma RedexUnique(values: Values, s: string, a: string, k: string, b: string, a': string, k': string, b': string)
    requires Redex(values, s, a, k, b) && Redex(values, s, a', k', b') && |a| <= |a'|
    ensures a == a' && k == k' && b == b'
  {
    hide Opens, Settled, NoOpenBefore;
    var p, p' := |a| + 2 + |k|, |a'| + 2 + |k'|;
    assert s[|a|] == '$' && s[|a| + 1] == '(' && s[p] == ')' && s[|a'|] == '$' && s[|a'| + 1] == '(' && s[p'] == ')';
    assert k == s[|a| + 2..p] && k' == s[|a'| + 2..p'];
    if p < |a'| {
      NoReference(a', |a|, p);
      assert false;
    } else if |a| < |a'| {
      PlainAt(k, |a'| - |a| - 2);
      assert false;
    }
    if p < p' {
      PlainAt(k', p - |a| - 2);
      assert false;
    } else if p' < p {
      PlainAt(k, p' - |a| - 2);
      assert false;
    }
    assert a == s[..|a|] && a' == s[..|a'|] && b == s[p + 1..] && b' == s[p' + 1..];
  }

  lemma StepUnique(values: Values, s: string, t: string, u: string)
    requires Step(values, s, t) && Step(values, s, u)
    ensures t == u
  {
    var a, k, b :| Redex(values, s, a, k, b) && t == a + values[k][0] + b;
    var a', k', b' :| Redex(values, s, a', k', b') && u == a' + values[k'][0] + b';
    if |a| <= |a'| {
      RedexUnique(values, s, a, k, b, a', k', b');
    } else {
      RedexUnique(values, s, a', k', b', a, k, b);
    }
  }

  lemma SettledNoStep(values: Values, s: string, t: string)
    requires Settled(s)
    ensures !Step(values, s, t)
  {
    if Step(values, s, t) {
      var a, k, b :| Redex(values, s, a, k, b) && t == a + values[k][0] + b;
      NoOpenAt(s, |a|);
      NoCloseBehind(s, |a|, |a| + 2 + |k|);
      assert false;
    }
  }

  lemma {:induction false} NormalFormUnique(values: Values, s: string, t: string, u: string, n: nat, m: nat)
    requires Reaches(values, s, t, n) && Settled(t) && Reaches(values, s, u, m) && Settled(u)
    ensures t == u && n == m
    decreases n
  {
    hide Step, Settled;
    if n > 0 && m > 0 {
      var t1 :| Step(values, s, t1) && Reaches(values, t1, t, n - 1);
      var u1 :| Step(values, s, u1) && Reaches(values, u1, u, m - 1);
      StepUnique(values, s, t1, u1);
      NormalFormUnique(values, t1, t, u, n - 1, m - 1);
    } else if n > 0 {
      var t1 :| Step(values, s, t1) && Reaches(values, t1, t, n - 1);
      SettledNoStep(values, s, t1);
      assert false;
    } else if m > 0 {
      var u1 :| Step(values, s, u1) && Reaches(values, u1, u, m - 1);
      SettledNoStep(values, s, u1);
      assert false;
    }
  }

  /** With clean values an expanded line is what replacing the first closed reference over and over ends with. */
  lemma {:induction false} ExpandRewrites(values: Values, line: string, max: int)
    requires Clean(values) && Expand(values, line, max).AtEnd?
    ensures var text := Expand(values, line, max).text;
      && (exists n :: Reaches(values, line, text, n))
      && (forall t, n: nat :: Reaches(values, line, t, n) && Settled(t) ==> t == text)
  {
    hide ScanFrom, Settled, Clean, Reaches;
    var text := Expand(values, line, max).text;
    NothingBefore(line);
    ScanSettles(values, "", line, false, MAX_TOKENS - 1, 0, max);
    var n := ScanRewrites(values, "", "", line, false, MAX_TOKENS - 1, 0, max);
    assert "" + "" + line == line && "" + text == text;
    forall t, m: nat | Reaches(values, line, t, m) && Settled(t)
      ensures t == text
    {
      NormalFormUnique(values, line, t, text, m, n);
    }
  }

  // ----- Which values the table ends with

  ghost predicate Distinct(order: seq<string>) {
    forall a, b :: 0 <= a < b < |order| ==> order[a] != order[b]
  }

  /** Value b of key a of the order. */
  ghost predicate HasValue(values: Values, order: seq<string>, a: nat, b: nat) {
    a < |order| && order[a] in values && b < |values[order[a]]|
  }

  ghost predicate SameShape(u: Values, w: Values) {
    u.Keys == w.Keys && forall k :: k in u ==> |u[k]| == |w[k]|
  }

  /** The table before, in which the values in front of value b of key a of the order are those of after. */
  ghost function Passed(before: Values, after: Values, order: seq<string>, a: nat, b: nat): (u: Values)
    requires SameShape(before, after) && a <= |order|
    requires a < |order| && order[a] in before ==> b <= |before[order[a]]|
    ensures SameShape(u, before)
  {
    map k | k in before ::
      if k in order[..a] then after[k]
      else if a < |order| && k == order[a] then after[k][..b] + before[k][b..]
      else before[k]
  }

  /** That value ends as the text to which the table as far as it was passed expands it. */
  ghost predicate EndsAs(before: Values, after: Values, order: seq<string>, a: nat, b: nat, max: int)
    requires SameShape(before, after) && HasValue(before, order, a, b)
  {
    var r := Expand(Passed(before, after, order, a, b), before[order[a]][b], max);
    r.AtEnd? && r.text == after[order[a]][b]
  }

  /** The shape and the keys that are not in the order stay; every other value is expanded by a table
      that differs from before only in the values already passed. */
  ghost predicate Replaces(before: Values, after: Values, order: seq<string>, max: int) {
    && SameShape(before, after)
    && (forall k :: k in before && k !in order ==> after[k] == before[k])
    && forall a: nat, b: nat :: HasValue(before, order, a, b) ==> EndsAs(before, after, order, a, b, max)
  }

  lemma PassedIs(before: Values, after: Values, order: seq<string>, a: nat, b: nat, k: string)
    requires SameShape(before, after) && a <= |order| && k in before
    requires a < |order| && order[a] in before ==> b <= |before[order[a]]|
    ensures Passed(before, after, order, a, b)[k]
         == if k in order[..a] then after[k]
            else if a < |order| && k == order[a] then after[k][..b] + before[k][b..]
            else before[k]
  {}

  lemma PassedNone(before: Values, after: Values, order: seq<string>)
    requires SameShape(before, after)
    ensures Passed(before, after, order, 0, 0) == before
  {
    assert forall k :: k in before ==> after[k][..0] + before[k][0..] == before[k];
  }

  lemma PassedAll(before: Values, after: Values, order: seq<string>)
    requires SameShape(before, after) && forall k :: k in before && k !in order ==> after[k] == before[k]
    ensures Passed(before, after, order, |order|, 0) == after
  {
    assert order[..|order|] == order;
  }

  lemma PassedKey(before: Values, after: Values, order: seq<string>, a: nat)
    requires SameShape(before, after) && a < |order| && order[a] in before && Distinct(order)
    ensures Passed(before, after, order, a, |before[order[a]]|) == Passed(before, after, order, a + 1, 0)
  {
    hide Distinct, Passed;
    var n := |before[order[a]]|;
    assert order[..a + 1] == order[..a] + [order[a]];
    forall k | k in before
      ensures Passed(before, after, order, a, n)[k] == Passed(before, after, order, a + 1, 0)[k]
    {
      PassedIs(before, after, order, a, n, k);
      PassedIs(before, after, order, a + 1, 0, k);
      TakeAll(before[k], after[k]);
    }
  }

  lemma TakeAll(x: seq<string>, y: seq<string>)
    requires |x| == |y|
    ensures y[..|x|] + x[|x|..] == y && y[..0] + x[0..] == x
  {}

  lemma PassedValue(before: Values, after: Values, order: seq<string>, a: nat, b: nat)
    requires SameShape(before, after) && HasValue(before, order, a, b) && Distinct(order)
    ensures var u := Passed(before, after, order, a, b);
      && u[order[a]][b] == before[order[a]][b]
      && Put(u, order[a], b, after[order[a]][b]) == Passed(before, after, order, a, b + 1)
  {
    var k := order[a];
    assert k !in order[..a];
    assert (after[k][..b] + before[k][b..])[b := after[k][b]] == after[k][..b + 1] + before[k][b + 1..];
  }

  lemma {:induction false} ReplacesGives(before: Values, after: Values, order: seq<string>, j: nat, i: nat, max: int)
    requires (forall k :: k in order ==> k in before) && Distinct(order) && Replaces(before, after, order, max)
    requires j <= |order| && (if j < |order| then i <= |before[order[j]]| else i == 0)
    ensures ExpandFrom(Passed(before, after, order, j, i), order, j, i, max) == Some(after)
    decreases |order| - j, if j < |order| then |before[order[j]]| - i else 0
  {
    hide Expand, Passed, Put;
    if j == |order| {
      PassedAll(before, after, order);
    } else if i == |before[order[j]]| {
      PassedKey(before, after, order, j);
      ReplacesGives(before, after, order, j + 1, 0, max);
    } else {
      assert HasValue(before, order, j, i) && EndsAs(before, after, order, j, i, max);
      PassedValue(before, after, order, j, i);
      ReplacesGives(before, after, order, j, i + 1, max);
    }
  }

  lemma PassedFrom(u: Values, r: Values, order: seq<string>, j: nat, i: nat, text: string, a: nat, b: nat)
    requires HasValue(u, order, j, i) && HasValue(u, order, a, b) && Distinct(order)
    requires SameShape(Put(u, order[j], i, text), r) && r[order[j]][i] == text
    requires j < a || (j == a && i < b)
    ensures SameShape(u, r) && Put(u, order[j], i, text)[order[a]][b] == u[order[a]][b]
    ensures Passed(Put(u, order[j], i, text), r, order, a, b) == Passed(u, r, order, a, b)
  {
    hide Passed;
    var k := order[j];
    var w := Put(u, k, i, text);
    ShapePut(u, k, i, text, r);
    assert j < a ==> k == order[..a][j];
    forall q | q in u
      ensures Passed(w, r, order, a, b)[q] == Passed(u, r, order, a, b)[q]
    {
      PassedIs(w, r, order, a, b, q);
      PassedIs(u, r, order, a, b, q);
      if q == k && j == a {
        assert r[k][..b] + w[k][b..] == r[k][..b] + u[k][b..];
      }
    }
  }

  lemma ShapePut(u: Values, k: string, i: nat, text: string, r: Values)
    requires k in u && i < |u[k]| && SameShape(Put(u, k, i, text), r)
    ensures SameShape(u, r)
  {
    var w := Put(u, k, i, text);
    assert forall q :: q in w ==> q in u && |w[q]| == |u[q]|;
  }

  lemma {:induction false} GivesReplaced(u: Values, order: seq<string>, j: nat, i: nat, max: int)
    requires (forall k :: k in order ==> k in u) && Distinct(order)
    requires j <= |order| && (if j < |order| then i <= |u[order[j]]| else i == 0)
    requires ExpandFrom(u, order, j, i, max).Some?
    ensures var r := ExpandFrom(u, order, j, i, max).value;
      && SameShape(u, r) && (forall k :: k in u && k !in order ==> r[k] == u[k])
      && Passed(u, r, order, j, i) == u
      && forall a: nat, b: nat :: HasValue(u, order, a, b) && (j < a || (j == a && i <= b)) ==>
           EndsAs(u, r, order, a, b, max)
    decreases |order| - j, if j < |order| then |u[order[j]]| - i else 0
  {
    hide Expand, Passed;
    var r := ExpandFrom(u, order, j, i, max).value;
    if j == |order| {
      PassedAll(u, u, order);
    } else if i == |u[order[j]]| {
      GivesReplaced(u, order, j + 1, 0, max);
      PassedKey(u, r, order, j);
    } else {
      var text := Expand(u, u[order[j]][i], max).text;
      var w := Put(u, order[j], i, text);
      GivesReplaced(w, order, j, i + 1, max);
      ValuePassed(u, w, r, order, j, i, text);
      forall a: nat, b: nat | HasValue(u, order, a, b) && (j < a || (j == a && i <= b))
        ensures EndsAs(u, r, order, a, b, max)
      {
        if a != j || b != i {
          PassedFrom(u, r, order, j, i, text, a, b);
          assert HasValue(w, order, a, b);
        }
      }
    }
  }

  /** When the table as far as value i of key j is the current one, so was the table before the value was put. */
  lemma ValuePassed(u: Values, w: Values, r: Values, order: seq<string>, j: nat, i: nat, text: string)
    requires HasValue(u, order, j, i) && w == Put(u, order[j], i, text) && SameShape(w, r) && Distinct(order)
    requires Passed(w, r, order, j, i + 1) == w
    ensures SameShape(u, r) && Passed(u, r, order, j, i) == u && r[order[j]][i] == text
  {
    hide Passed, Distinct;
    var k := order[j];
    ShapePut(u, k, i, text, r);
    NotBefore(order, j);
    PassedIs(w, r, order, j, i + 1, k);
    assert r[k][i] == w[k][i] == text;
    forall q | q in u
      ensures Passed(u, r, order, j, i)[q] == u[q]
    {
      PassedIs(w, r, order, j, i + 1, q);
      PassedIs(u, r, order, j, i, q);
      if q == k {
        assert forall b :: 0 <= b < i ==> r[k][b] == w[k][b] == u[k][b];
      }
    }
  }

  lemma NotBefore(order: seq<string>, j: nat)
    requires Distinct(order) && j < |order|
    ensures order[j] !in order[..j]
  {}

  /** The result is the one table that solves these equations, and without such a table replace_var fails. */
  lemma {:induction false} TableReplaced(values: Values, after: Values, order: seq<string>, max: int)
    requires (forall k :: k in order ==> k in values) && Distinct(order)
    ensures ExpandFrom(values, order, 0, 0, max) == Some(after) <==> Replaces(values, after, order, max)
  {
    hide Expand, ExpandFrom, Passed;
    if Replaces(values, after, order, max) {
      PassedNone(values, after, order);
      ReplacesGives(values, after, order, 0, 0, max);
    } else if ExpandFrom(values, order, 0, 0, max) == Some(after) {
      GivesReplaced(values, order, 0, 0, max);
    }
  }

  /** Text without references stays as it is. */
  lemma {:induction false} PlainLine(values: Values, line: string, max: int)
    requires NoOpenBefore(line, |line|)
    ensures Expand(values, line, max) == AtEnd(line, MAX_TOKENS - 1)
  {
    hide ScanFrom;
    assert line + "" == line && "" + line == line;
    ScanOver(values, "", line, "", false, MAX_TOKENS - 1, 0, max);
    ScanEnds(values, line, false, MAX_TOKENS - 1, 0, max);
  }

  /** A line with one reference: unknown name, no room, or the value in the place of the reference. */
  lemma {:induction false} OneReference(values: Values, pre: string, key: string, post: string, max: int)
    requires ')' !in key && NoOpenBefore(key, |key|) && NoOpenBefore(pre, |pre|)
    requires key in values && |values[key]| == 1 ==> NoOpenBefore(values[key][0] + post, |values[key][0] + post|)
    ensures Expand(values, pre + "$(" + key + ")" + post, max)
         == if key !in values || |values[key]| != 1 then Failed(NoKey)
            else if |pre| + |values[key][0]| + |post| >= max then Failed(Overflow)
            else AtEnd(pre + values[key][0] + post, MAX_TOKENS - 2)
  {
    hide ScanFrom, NoOpenBefore;
    var ref := "$(" + key + ")" + post;
    assert pre + "$(" + key + ")" + post == pre + ref && "" + pre == pre;
    NoOpenAcross(pre, ref);
    ScanOver(values, "", pre, ref, false, MAX_TOKENS - 1, 0, max);
    ReplaceOne(values, pre, key, post, MAX_TOKENS - 1, 0, max);
    if key in values && |values[key]| == 1 {
      var text := values[key][0] + post;
      OpensNowhere(text);
      assert text + "" == text && pre + text == pre + values[key][0] + post;
      ScanOver(values, pre, text, "", false, MAX_TOKENS - 2, 0, max);
      ScanEnds(values, pre + text, false, MAX_TOKENS - 2, 0, max);
    }
  }

  lemma OpensNowhere(text: string)
    requires NoOpenBefore(text, |text|)
    ensures forall i :: 0 <= i < |text| ==> !Opens((text + "")[i..])
  {
    assert text + "" == text;
  }

  lemma PassedKeeps(before: Values, after: Values, order: seq<string>, a: nat, b: nat, key: string)
    requires SameShape(before, after) && HasValue(before, order, a, b) && key in before && after[key] == before[key]
    ensures Passed(before, after, order, a, b)[key] == before[key]
  {
    if key == order[a] {
      assert before[key] == before[key][..b] + before[key][b..];
    }
  }

  /** A table without references stays as it is. */
  lemma {:induction false} TableUnchanged(values: Values, order: seq<string>, max: int)
    requires (forall k :: k in order ==> k in values) && Distinct(order)
    requires forall a: nat, b: nat :: HasValue(values, order, a, b) ==>
        NoOpenBefore(values[order[a]][b], |values[order[a]][b]|)
    ensures ExpandFrom(values, order, 0, 0, max) == Some(values)
  {
    hide Expand, ExpandFrom, NoOpenBefore, Passed;
    forall a: nat, b: nat | HasValue(values, order, a, b)
      ensures EndsAs(values, values, order, a, b, max)
    {
      PlainLine(Passed(values, values, order, a, b), values[order[a]][b], max);
    }
    TableReplaced(values, values, order, max);
  }

  lemma KeyKept(values: Values, r: Values, order: seq<string>, key: string, max: int)
    requires Replaces(values, r, order, max) && key in values && |values[key]| == 1
    requires key in order ==> NoOpenBefore(values[key][0], |values[key][0]|)
    ensures r[key] == values[key]
  {
    hide Expand, NoOpenBefore, Passed;
    if key in order {
      var c: nat :| c < |order| && order[c] == key;
      assert HasValue(values, order, c, 0) && EndsAs(values, r, order, c, 0, max);
      PlainLine(Passed(values, r, order, c, 0), values[key][0], max);
    }
  }

  /** With one reference in the table, to a key bound once to a value without references, that reference becomes
      the value and everything else stays. */
  lemma {:induction false} TableOneReference(values: Values, order: seq<string>, a: nat, b: nat, pre: string,
                                             key: string, post: string, max: int)
    requires (forall k :: k in order ==> k in values) && Distinct(order) && HasValue(values, order, a, b)
    requires forall c: nat, d: nat :: HasValue(values, order, c, d) && (c, d) != (a, b) ==>
        NoOpenBefore(values[order[c]][d], |values[order[c]][d]|)
    requires values[order[a]][b] == pre + "$(" + key + ")" + post
    requires ')' !in key && NoOpenBefore(key, |key|) && NoOpenBefore(pre, |pre|)
    requires key in values && |values[key]| == 1 && key != order[a]
    requires NoOpenBefore(values[key][0] + post, |values[key][0] + post|)
    ensures ExpandFrom(values, order, 0, 0, max)
         == if |pre| + |values[key][0]| + |post| >= max then None
            else Some(values[order[a] := values[order[a]][b := pre + values[key][0] + post]])
  {
    hide Expand, ExpandFrom, NoOpenBefore, Passed;
    var after := values[order[a] := values[order[a]][b := pre + values[key][0] + post]];
    assert SameShape(values, after);
    forall c: nat, d: nat | HasValue(values, order, c, d) && (c, d) != (a, b)
      ensures EndsAs(values, after, order, c, d, max)
    {
      assert after[order[c]][d] == values[order[c]][d] by { assert c != a ==> order[c] != order[a]; }
      PlainLine(Passed(values, after, order, c, d), values[order[c]][d], max);
    }
    PassedKeeps(values, after, order, a, b, key);
    OneReference(Passed(values, after, order, a, b), pre, key, post, max);
    TableReplaced(values, after, order, max);
    if ExpandFrom(values, order, 0, 0, max).Some? {
      var r := ExpandFrom(values, order, 0, 0, max).value;
      TableReplaced(values, r, order, max);
      if key in order {
        var c: nat :| c < |order| && order[c] == key;
        assert HasValue(values, order, c, 0);
      }
      KeyKept(values, r, order, key, max);
      PassedKeeps(values, r, order, a, b, key);
      OneReference(Passed(values, r, order, a, b), pre, key, post, max);
    }
  }
}
