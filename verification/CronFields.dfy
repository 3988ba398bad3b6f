/**
 Cron expressions (rszero/src/scheduler/cron.rs, lines 28 to 145): five fields of numbers, ranges,
 steps and lists.
 */
module CronFields {
  import opened Wrappers
  import opened Decimals

  datatype CronExpr = CronExpr(minutes: seq<int>, hours: seq<int>, days: seq<int>, months: seq<int>, weekdays: seq<int>)

  // ------------------------------------------------------------------- strings

  /** The White_Space property of Unicode. */
  predicate IsSpace(c: char) {
    var n := c as int;
    9 <= n <= 13 || n == 32 || n == 0x85 || n == 0xA0 || n == 0x1680 || 0x2000 <= n <= 0x200A
    || n == 0x2028 || n == 0x2029 || n == 0x202F || n == 0x205F || n == 0x3000
  }

  function WordLength(s: string): (n: nat)
    ensures n <= |s| && (s != [] && !IsSpace(s[0]) ==> n > 0)
  {
    if s == [] || IsSpace(s[0]) then 0 else 1 + WordLength(s[1..])
  }

  function Words(s: string): seq<string>
    decreases |s|
  {
    if s == [] then []
    else if IsSpace(s[0]) then Words(s[1..])
    else [s[..WordLength(s)]] + Words(s[WordLength(s)..])
  }

  function TrimStart(s: string): string {
    if s != [] && IsSpace(s[0]) then TrimStart(s[1..]) else s
  }

  function TrimEnd(s: string): string {
    if s != [] && IsSpace(s[|s| - 1]) then TrimEnd(s[..|s| - 1]) else s
  }

  function Trim(s: string): string {
    TrimEnd(TrimStart(s))
  }

  function IndexOf(s: string, c: char): (i: nat)
    ensures i <= |s| && (i < |s| ==> s[i] == c) && c !in s[..i]
  {
    if s == [] || s[0] == c then 0
    else
      var i := IndexOf(s[1..], c);
      assert s[..1 + i] == [s[0]] + s[1..][..i];
      1 + i
  }

  function Split(s: string, c: char): (parts: seq<string>)
    ensures |parts| >= 1
    decreases |s|
  {
    var i := IndexOf(s, c);
    if i == |s| then [s] else [s[..i]] + Split(s[i + 1..], c)
  }

  function Join(parts: seq<string>, c: char): string {
    if parts == [] then [] else if |parts| == 1 then parts[0] else parts[0] + [c] + Join(parts[1..], c)
  }

  lemma IndexIs(s: string, c: char, i: nat)
    requires i < |s| && s[i] == c && c !in s[..i]
    ensures IndexOf(s, c) == i
  {
    var j := IndexOf(s, c);
    assert forall k :: 0 <= k < i ==> s[k] == s[..i][k];
    assert forall k :: 0 <= k < j ==> s[k] == s[..j][k];
  }

  /** Splitting undoes joining, if no part holds the separator. */
  lemma {:induction false} SplitUndoesJoin(parts: seq<string>, c: char)
    requires parts != [] && forall p :: p in parts ==> c !in p
    ensures Split(Join(parts, c), c) == parts
    decreases |parts|
  {
    var s := Join(parts, c);
    assert parts[0] in parts;
    if |parts| == 1 {
      assert forall k :: 0 <= k < |s| ==> s[k] in s;
    } else {
      var i := |parts[0]|;
      assert s[..i] == parts[0] && s[i] == c && s[i + 1..] == Join(parts[1..], c);
      IndexIs(s, c, i);
      SplitUndoesJoin(parts[1..], c);
    }
  }

  // ------------------------------------------------------- what a field denotes

  /** The numbers from the first to the last of a part: a range, or a single number; None if it is refused. */
  function PartBounds(part: string, min: int, max: int): Option<(int, int)> {
    if '-' in part then
      var pieces := Split(part, '-');
      var start := Parse(Trim(pieces[0]), 255);
      var end := if |pieces| > 1 then Parse(Trim(pieces[1]), 255) else None;
      if start.None? || end.None? || start.value > end.value || start.value < min || end.value > max then None
      else Some((start.value, end.value))
    else
      var val := Parse(part, 255);
      if val.None? || val.value < min || val.value > max then None else Some((val.value, val.value))
  }

  predicate IsStep(field: string) {
    |field| >= 2 && field[0] == '*' && field[1] == '/'
  }

  function StepOf(field: string): Option<nat>
    requires IsStep(field)
  {
    Parse(field[2..], 255)
  }

  predicate Accepted(field: string, min: int, max: int) {
    if field == "*" then true
    else if IsStep(field) then StepOf(field).Some? && StepOf(field).value != 0
    else forall part :: part in Split(field, ',') ==> PartBounds(part, min, max).Some?
  }

  predicate PartHas(part: string, min: int, max: int, v: int) {
    var b := PartBounds(part, min, max);
    b.Some? && b.value.0 <= v <= b.value.1
  }

  /** `v` is `lo` or some whole steps further. */
  predicate Reached(lo: int, step: nat, v: int)
    requires step > 0
  {
    lo <= v && (v - lo) % step == 0
  }

  /** Is the number one that the field stands for? */
  predicate Denotes(field: string, min: int, max: int, v: int)
    requires Accepted(field, min, max)
  {
    if field == "*" then min <= v <= max
    else if IsStep(field) then v <= max && Reached(min, StepOf(field).value, v)
    else exists part :: part in Split(field, ',') && PartHas(part, min, max, v)
  }

  // ----------------------------------------------------------- sorted sequences

  predicate Ascending(s: seq<int>) {
    forall i, j :: 0 <= i < j < |s| ==> s[i] < s[j]
  }

  lemma Prepend(x: int, s: seq<int>)
    requires Ascending(s) && forall v :: v in s ==> x < v
    ensures Ascending([x] + s)
  {
    forall i, j | 0 <= i < j < |s| + 1 ensures ([x] + s)[i] < ([x] + s)[j] {
      assert s[j - 1] in s;
    }
  }

  lemma Append(s: seq<int>, x: int)
    requires Ascending(s) && forall v :: v in s ==> v < x
    ensures Ascending(s + [x])
  {
    forall i, j | 0 <= i < j < |s| + 1 ensures (s + [x])[i] < (s + [x])[j] {
      assert s[i] in s;
    }
  }

  /** Every `step`-th number from `lo` to `hi`. */
  function Stepped(lo: int, hi: int, step: nat): (s: seq<int>)
    requires step > 0
    ensures forall v :: v in s ==> lo <= v <= hi
    ensures Ascending(s)
    decreases hi - lo + 1
  {
    if lo > hi then []
    else
      var rest := Stepped(lo + step, hi, step);
      Prepend(lo, rest);
      [lo] + rest
  }

  lemma Multiple(step: int, k: int)
    requires step > 0 && -step < step * k < step
    ensures k == 0
  {
  }

  lemma ModShift(x: int, step: nat)
    requires step > 0
    ensures (x - step) % step == x % step
  {
    var y := x - step;
    var k := x / step - 1 - y / step;
    assert step * k == y % step - x % step;
    Multiple(step, k);
  }

  /** A number is reached in steps if it is the first or reached from one step further. */
  lemma ReachedNext(lo: int, step: nat, v: int)
    requires step > 0
    ensures Reached(lo, step, v) <==> v == lo || Reached(lo + step, step, v)
  {
    ModShift(v - lo, step);
    assert v - (lo + step) == v - lo - step;
  }

  lemma {:induction false} SteppedHas(lo: int, hi: int, step: nat, v: int)
    requires step > 0
    ensures v in Stepped(lo, hi, step) <==> v <= hi && Reached(lo, step, v)
    decreases hi - lo + 1
  {
    if lo <= hi {
      SteppedHas(lo + step, hi, step, v);
      ReachedNext(lo, step, v);
    }
  }

  /** One number more in an ascending sequence, unless it is there already. */
  function Insert(s: seq<int>, v: int): (r: seq<int>)
    requires Ascending(s)
    ensures Ascending(r) && r != []
    ensures forall w :: w in r <==> w in s || w == v
  {
    if s == [] || v < s[0] then
      Prepend(v, s);
      [v] + s
    else if v == s[0] then s
    else
      var rest := Insert(s[1..], v);
      assert s == [s[0]] + s[1..];
      Prepend(s[0], rest);
      [s[0]] + rest
  }

  /** `sort_unstable` and `dedup` together. */
  function SortDedup(s: seq<int>): (r: seq<int>)
    ensures Ascending(r) && (s != [] ==> r != [])
    ensures forall w :: w in r <==> w in s
  {
    if s == [] then []
    else
      assert s == s[..|s| - 1] + [s[|s| - 1]];
      Insert(SortDedup(s[..|s| - 1]), s[|s| - 1])
  }

  // ------------------------------------------------------------------- parsing

  function Range(lo: int, hi: int): (s: seq<int>)
    ensures Ascending(s) && (lo <= hi ==> s != [])
    ensures forall v :: v in s <==> lo <= v <= hi
    decreases hi - lo + 1
  {
    if lo > hi then []
    else
      var rest := Range(lo + 1, hi);
      Prepend(lo, rest);
      [lo] + rest
  }

  method ParsePart(part: string, min: int, max: int) returns (r: Option<seq<int>>)
    ensures r.None? <==> PartBounds(part, min, max).None?
    ensures r.Some? ==> Ascending(r.value) && r.value != [] && forall v :: v in r.value <==> PartHas(part, min, max, v)
  {
    if '-' in part {
      var pieces := Split(part, '-');
      var start := Parse(Trim(pieces[0]), 255);
      if start.None? {
        return None;
      }
      var end := Parse(Trim(if |pieces| > 1 then pieces[1] else ""), 255);
      if end.None? || start.value > end.value || start.value < min || end.value > max {
        return None;
      }
      return Some(Range(start.value, end.value));
    } else {
      var val := Parse(part, 255);
      if val.None? || val.value < min || val.value > max {
        return None;
      }
      return Some([val.value]);
    }
  }

  /** A list of parts; a field without a comma is a list of one. */
  method ParseList(parts: seq<string>, min: int, max: int) returns (r: Option<seq<int>>)
    requires parts != []
    ensures r.Some? <==> forall part :: part in parts ==> PartBounds(part, min, max).Some?
    ensures r.Some? ==> Ascending(r.value) && r.value != []
    ensures r.Some? ==> forall v :: v in r.value <==> exists part :: part in parts && PartHas(part, min, max, v)
  {
    var values: seq<int> := [];
    for i := 0 to |parts|
      invariant i > 0 ==> values != []
      invariant forall part :: part in parts[..i] ==> PartBounds(part, min, max).Some?
      invariant forall v :: v in values <==> exists part :: part in parts[..i] && PartHas(part, min, max, v)
    {
      var more := ParsePart(parts[i], min, max);
      assert parts[i] in parts;
      if more.None? {
        return None;
      }
      assert parts[..i + 1] == parts[..i] + [parts[i]];
      values := values + more.value;
    }
    assert parts[..|parts|] == parts;
    return Some(SortDedup(values));
  }

  lemma SingleSplit(field: string)
    requires ',' !in field
    ensures Split(field, ',') == [field]
  {
  }

  method ParseField(field: string, min: int, max: int) returns (r: Option<seq<int>>)
    requires min <= max
    ensures r.Some? <==> Accepted(field, min, max)
    ensures r.Some? ==> Ascending(r.value) && r.value != [] && forall v :: v in r.value <==> Denotes(field, min, max, v)
  {
    if field == "*" {
      return Some(Range(min, max));
    }
    if IsStep(field) {
      var step := Parse(field[2..], 255);
      if step.None? || step.value == 0 {
        return None;
      }
      var values := Stepped(min, max, step.value);
      forall v ensures v in values <==> Denotes(field, min, max, v) {
        SteppedHas(min, max, step.value, v);
      }
      return Some(values);
    }
    if ',' in field {
      r := ParseList(Split(field, ','), min, max);
      return;
    }
    SingleSplit(field);
    r := ParsePart(field, min, max);
  }

  predicate InBounds(s: seq<int>, min: int, max: int) {
    s != [] && Ascending(s) && forall i :: 0 <= i < |s| ==> min <= s[i] <= max
  }

  /** What every parsed expression satisfies. */
  predicate Wellformed(e: CronExpr) {
    InBounds(e.minutes, 0, 59) && InBounds(e.hours, 0, 23) && InBounds(e.days, 1, 31)
    && InBounds(e.months, 1, 12) && InBounds(e.weekdays, 0, 6)
  }

  predicate AcceptedExpr(fields: seq<string>) {
    |fields| == 5 && Accepted(fields[0], 0, 59) && Accepted(fields[1], 0, 23) && Accepted(fields[2], 1, 31)
    && Accepted(fields[3], 1, 12) && Accepted(fields[4], 0, 6)
  }

  ghost predicate Stands(values: seq<int>, field: string, min: int, max: int)
    requires Accepted(field, min, max)
  {
    forall v :: v in values <==> Denotes(field, min, max, v)
  }

  lemma DenotesInBounds(field: string, min: int, max: int, v: int)
    requires Accepted(field, min, max) && Denotes(field, min, max, v)
    ensures min <= v <= max
  {
  }

  method ParseBounded(field: string, min: int, max: int) returns (r: Option<seq<int>>)
    requires min <= max
    ensures r.Some? <==> Accepted(field, min, max)
    ensures r.Some? ==> InBounds(r.value, min, max) && Stands(r.value, field, min, max)
  {
    r := ParseField(field, min, max);
    if r.Some? {
      forall i | 0 <= i < |r.value| ensures min <= r.value[i] <= max {
        assert r.value[i] in r.value;
        DenotesInBounds(field, min, max, r.value[i]);
      }
    }
  }

  /**
   What reading a text gives: an expression exactly when there are five fields and each is accepted;
   each holds what it denotes.
   */
  ghost predicate IsParse(text: string, r: Option<CronExpr>) {
    var fields := Words(text);
    match r
    case None => !AcceptedExpr(fields)
    case Some(e) =>
      && AcceptedExpr(fields) && Wellformed(e)
      && Stands(e.minutes, fields[0], 0, 59) && Stands(e.hours, fields[1], 0, 23) && Stands(e.days, fields[2], 1, 31)
      && Stands(e.months, fields[3], 1, 12) && Stands(e.weekdays, fields[4], 0, 6)
  }

  /** `CronExpr::parse`. */
  method ParseExpr(text: string) returns (r: Option<CronExpr>)
    ensures IsParse(text, r)
  {
    var fields := Words(text);
    if |fields| != 5 {
      return None;
    }
    var minutes := ParseBounded(fields[0], 0, 59);
    if minutes.None? {
      return None;
    }
    var hours := ParseBounded(fields[1], 0, 23);
    if hours.None? {
      return None;
    }
    var days := ParseBounded(fields[2], 1, 31);
    if days.None? {
      return None;
    }
    var months := ParseBounded(fields[3], 1, 12);
    if months.None? {
      return None;
    }
    var weekdays := ParseBounded(fields[4], 0, 6);
    if weekdays.None? {
      return None;
    }
    return Some(CronExpr(minutes.value, hours.value, days.value, months.value, weekdays.value));
  }

  // ---------------------------------------------------------------- round trip

  /** A list of numbers as a field: the numbers with commas between them. */
  function FieldText(values: seq<int>): string
    requires Naturals(values)
  {
    Join(Printed(values), ',')
  }

  predicate Naturals(values: seq<int>) {
    forall i :: 0 <= i < |values| ==> values[i] >= 0
  }

  function Printed(values: seq<int>): (parts: seq<string>)
    requires Naturals(values)
    ensures |parts| == |values| && forall i :: 0 <= i < |values| ==> parts[i] == Digits(values[i])
  {
    seq(|values|, i requires 0 <= i < |values| => Digits(values[i]))
  }

  /** A printed number is a part that stands for itself. */
  lemma PrintedPart(v: nat, min: int, max: int, w: int)
    requires min <= v <= max <= 255
    ensures ',' !in Digits(v) && PartBounds(Digits(v), min, max) == Some((v, v))
    ensures PartHas(Digits(v), min, max, w) <==> w == v
  {
    assert '-' !in Digits(v);
    ParseUndoesPrint(v, 255);
  }

  /** `first-last`, with nothing else in it. */
  function RangeText(first: nat, last: nat): string {
    Digits(first) + ['-'] + Digits(last)
  }

  lemma RangeSplits(first: nat, last: nat)
    ensures '-' in RangeText(first, last) && ',' !in RangeText(first, last)
    ensures Split(RangeText(first, last), '-') == [Digits(first), Digits(last)]
  {
    var parts := [Digits(first), Digits(last)];
    SplitUndoesJoin(parts, '-');
    assert Join(parts[1..], '-') == Digits(last);
    assert RangeText(first, last)[|Digits(first)|] == '-';
  }

  lemma TrimDigits(s: string)
    requires s != [] && AllDigits(s)
    ensures Trim(s) == s
  {
    assert !IsSpace(s[0]) && !IsSpace(s[|s| - 1]);
  }

  /** A written range is accepted exactly if it is one and lies within the bounds; it stands for all its numbers. */
  lemma RangeMeans(first: nat, last: nat, min: int, max: int)
    requires 0 <= min && max <= 255
    ensures PartBounds(RangeText(first, last), min, max)
            == if min <= first <= last <= max then Some((first, last)) else None
  {
    RangeSplits(first, last);
    TrimDigits(Digits(first));
    TrimDigits(Digits(last));
    ParseUndoesPrint(first, 255);
    ParseUndoesPrint(last, 255);
  }

  lemma RangeFieldMeans(first: nat, last: nat, min: int, max: int)
    requires 0 <= min && max <= 255
    ensures var field := RangeText(first, last);
            && (Accepted(field, min, max) <==> min <= first <= last <= max)
            && (Accepted(field, min, max) ==> forall v :: Denotes(field, min, max, v) <==> first <= v <= last)
  {
    var field := RangeText(first, last);
    assert Decimals.IsDigit(field[0]);
    RangeSplits(first, last);
    SingleSplit(field);
    RangeMeans(first, last, min, max);
    assert field in Split(field, ',');
  }

  /** A written step is accepted exactly if it is a number from 1 to 255; it stands for every step from `min` on. */
  lemma StepFieldMeans(step: nat, min: int, max: int)
    ensures var field := "*/" + Digits(step);
            && (Accepted(field, min, max) <==> 1 <= step <= 255)
            && (Accepted(field, min, max) ==>
                  forall v :: Denotes(field, min, max, v) <==> min <= v <= max && (v - min) % step == 0)
  {
    var field := "*/" + Digits(step);
    assert |field| > 2 && field[2..] == Digits(step);
    ParseUndoesPrint(step, 255);
  }

  /** A star stands for everything within the bounds. */
  lemma StarMeans(min: int, max: int, v: int)
    ensures Accepted("*", min, max) && (Denotes("*", min, max, v) <==> min <= v <= max)
  {
  }

  predicate IsList(s: string) {
    forall i :: 0 <= i < |s| ==> Decimals.IsDigit(s[i]) || s[i] == ','
  }

  lemma {:induction false} JoinIsList(parts: seq<string>)
    requires parts != [] && forall p :: p in parts ==> p != [] && AllDigits(p)
    ensures var s := Join(parts, ','); s != [] && IsList(s) && Decimals.IsDigit(s[0])
    decreases |parts|
  {
    assert parts[0] in parts;
    if |parts| > 1 {
      forall p | p in parts[1..] ensures p != [] && AllDigits(p) {
        assert p in parts;
      }
      JoinIsList(parts[1..]);
    }
  }

  lemma PrintedAt(values: seq<int>, min: int, max: int, i: nat, w: int)
    requires 0 <= min && max <= 255 && InBounds(values, min, max) && i < |values|
    ensures var p := Printed(values)[i];
            && p != [] && AllDigits(p) && ',' !in p && PartBounds(p, min, max).Some?
            && (PartHas(p, min, max, w) <==> w == values[i])
  {
    PrintedPart(values[i], min, max, w);
  }

  lemma PrintedParts(values: seq<int>, min: int, max: int)
    requires 0 <= min && max <= 255 && InBounds(values, min, max)
    ensures forall p :: p in Printed(values) ==> p != [] && AllDigits(p) && ',' !in p && PartBounds(p, min, max).Some?
  {
    forall p | p in Printed(values) ensures p != [] && AllDigits(p) && ',' !in p && PartBounds(p, min, max).Some? {
      var i :| 0 <= i < |values| && Printed(values)[i] == p;
      PrintedAt(values, min, max, i, 0);
    }
  }

  lemma PrintedDenote(values: seq<int>, min: int, max: int, w: int)
    requires 0 <= min && max <= 255 && InBounds(values, min, max)
    ensures w in values <==> exists part :: part in Printed(values) && PartHas(part, min, max, w)
  {
    if w in values {
      var i :| 0 <= i < |values| && values[i] == w;
      PrintedAt(values, min, max, i, w);
      assert Printed(values)[i] in Printed(values);
    }
    if part :| part in Printed(values) && PartHas(part, min, max, w) {
      var i :| 0 <= i < |values| && Printed(values)[i] == part;
      PrintedAt(values, min, max, i, w);
    }
  }

  /** The field written for some numbers is accepted and stands for exactly these numbers. */
  lemma FieldRoundTrip(values: seq<int>, min: int, max: int)
    requires 0 <= min && max <= 255 && InBounds(values, min, max)
    ensures IsList(FieldText(values)) && FieldText(values) != []
    ensures Accepted(FieldText(values), min, max) && Stands(values, FieldText(values), min, max)
  {
    PrintedParts(values, min, max);
    JoinIsList(Printed(values));
    SplitUndoesJoin(Printed(values), ',');
    forall w ensures w in values <==> exists part :: part in Printed(values) && PartHas(part, min, max, w) {
      PrintedDenote(values, min, max, w);
    }
  }

  lemma {:induction false} WordLengthIs(word: string, rest: string)
    requires IsList(word) && (rest == [] || IsSpace(rest[0]))
    ensures WordLength(word + rest) == |word|
  {
    if word == [] {
      assert word + rest == rest;
    } else {
      assert (word + rest)[1..] == word[1..] + rest;
      WordLengthIs(word[1..], rest);
    }
  }

  /** A word, and what follows it after a blank. */
  lemma WordsFirst(word: string, rest: string)
    requires IsList(word) && word != [] && (rest == [] || IsSpace(rest[0]))
    ensures Words(word + rest) == [word] + Words(rest)
  {
    var s := word + rest;
    WordLengthIs(word, rest);
    assert !IsSpace(s[0]);
    assert s[..|word|] == word && s[|word|..] == rest;
  }

  /** How much white space there is, at either end or between two words, does not matter. */
  lemma {:induction false} GapsAreSkipped(gap: string, rest: string)
    requires forall i :: 0 <= i < |gap| ==> IsSpace(gap[i])
    ensures Words(gap + rest) == Words(rest)
  {
    if gap == [] {
      assert gap + rest == rest;
    } else {
      assert (gap + rest)[1..] == gap[1..] + rest;
      GapsAreSkipped(gap[1..], rest);
    }
  }

  lemma WordThenGap(word: string, gap: string, rest: string)
    requires IsList(word) && word != [] && gap != [] && forall i :: 0 <= i < |gap| ==> IsSpace(gap[i])
    ensures Words(word + (gap + rest)) == [word] + Words(rest)
  {
    WordsFirst(word, gap + rest);
    GapsAreSkipped(gap, rest);
  }

  function Spaced(word: string, rest: string): string {
    word + [' '] + rest
  }

  /** A text that starts with a word. */
  predicate StartsWord(s: string) {
    s != [] && !IsSpace(s[0])
  }

  lemma WordsSpaced(word: string, rest: string)
    requires IsList(word) && word != [] && StartsWord(rest)
    ensures StartsWord(Spaced(word, rest)) && Words(Spaced(word, rest)) == [word] + Words(rest)
  {
    WordsFirst(word, [' '] + rest);
    assert word + ([' '] + rest) == Spaced(word, rest);
    assert ([' '] + rest)[1..] == rest;
  }

  /** An expression written out: five lists with blanks between them. */
  function ExprText(e: CronExpr): string
    requires Wellformed(e)
  {
    Spaced(FieldText(e.minutes), Spaced(FieldText(e.hours), Spaced(FieldText(e.days),
      Spaced(FieldText(e.months), FieldText(e.weekdays)))))
  }

  lemma WordsOfOne(word: string)
    requires IsList(word) && word != []
    ensures StartsWord(word) && Words(word) == [word]
  {
    WordsFirst(word, []);
    assert word + [] == word;
  }

  lemma WordsOfFive(a: string, b: string, c: string, d: string, e: string)
    requires IsList(a) && a != [] && IsList(b) && b != [] && IsList(c) && c != []
    requires IsList(d) && d != [] && IsList(e) && e != []
    ensures Words(Spaced(a, Spaced(b, Spaced(c, Spaced(d, e))))) == [a] + ([b] + ([c] + ([d] + [e])))
  {
    WordsOfOne(e);
    WordsSpaced(d, e);
    WordsSpaced(c, Spaced(d, e));
    WordsSpaced(b, Spaced(c, Spaced(d, e)));
    WordsSpaced(a, Spaced(b, Spaced(c, Spaced(d, e))));
  }

  lemma TailElements(a: seq<int>)
    requires Ascending(a) && a != []
    ensures forall v :: v in a[1..] <==> v in a && v != a[0]
  {
    assert a == [a[0]] + a[1..];
  }

  lemma {:induction false} SameElements(a: seq<int>, b: seq<int>)
    requires Ascending(a) && Ascending(b) && forall v :: v in a <==> v in b
    ensures a == b
  {
    if a == [] {
      assert forall k :: 0 <= k < |b| ==> b[k] in b;
    } else {
      assert a[0] in b && b != [] && b[0] in a;
      assert a[0] == b[0];
      TailElements(a);
      TailElements(b);
      SameElements(a[1..], b[1..]);
    }
  }

  lemma SameField(values: seq<int>, read: seq<int>, field: string, min: int, max: int)
    requires Accepted(field, min, max) && Stands(values, field, min, max) && Stands(read, field, min, max)
    requires Ascending(values) && Ascending(read)
    ensures values == read
  {
    forall v ensures v in values <==> v in read {
      assert v in values <==> Denotes(field, min, max, v);
      assert v in read <==> Denotes(field, min, max, v);
    }
    SameElements(values, read);
  }

  /** Every expression within its bounds can be written, and the text is read back as that expression. */
  lemma ExprRoundTrip(e: CronExpr, r: Option<CronExpr>)
    requires Wellformed(e) && IsParse(ExprText(e), r)
    ensures r == Some(e)
  {
    FieldRoundTrip(e.minutes, 0, 59);
    FieldRoundTrip(e.hours, 0, 23);
    FieldRoundTrip(e.days, 1, 31);
    FieldRoundTrip(e.months, 1, 12);
    FieldRoundTrip(e.weekdays, 0, 6);
    WordsOfFive(FieldText(e.minutes), FieldText(e.hours), FieldText(e.days), FieldText(e.months),
                FieldText(e.weekdays));
    SameField(e.minutes, r.value.minutes, FieldText(e.minutes), 0, 59);
    SameField(e.hours, r.value.hours, FieldText(e.hours), 0, 23);
    SameField(e.days, r.value.days, FieldText(e.days), 1, 31);
    SameField(e.months, r.value.months, FieldText(e.months), 1, 12);
    SameField(e.weekdays, r.value.weekdays, FieldText(e.weekdays), 0, 6);
  }
}
