/** The bounded plain text of one message: its UTF-8 bytes are cut at a limit, never inside a character. */
module MessageText {
  import opened Types

  type Byte = n: nat | n < 256

  type Bytes = seq<Byte>

  const MAXIMUM_TEXT_BYTES := 65536
  const NEWLINE: Byte := 10

  // ----------------------------------------------------------------- UTF-8

  predicate Follows(b: Byte) { 0x80 <= b <= 0xBF }

  /** The second byte a leading byte of a three- or four-byte character allows. */
  predicate Second(lead: Byte, b: Byte) {
    if lead == 0xE0 then 0xA0 <= b <= 0xBF
    else if lead == 0xED then 0x80 <= b <= 0x9F
    else if lead == 0xF0 then 0x90 <= b <= 0xBF
    else if lead == 0xF4 then 0x80 <= b <= 0x8F
    else Follows(b)
  }

  /** The length of the character `s` starts with, 0 if it starts with none. */
  function RuneLength(s: Bytes): (n: nat)
    ensures n <= |s| && n <= 4
  {
    if s == [] then 0
    else if s[0] < 0x80 then 1
    else if 0xC2 <= s[0] <= 0xDF then (if |s| >= 2 && Follows(s[1]) then 2 else 0)
    else if 0xE0 <= s[0] <= 0xEF then (if |s| >= 3 && Second(s[0], s[1]) && Follows(s[2]) then 3 else 0)
    else if 0xF0 <= s[0] <= 0xF4 then
      (if |s| >= 4 && Second(s[0], s[1]) && Follows(s[2]) && Follows(s[3]) then 4 else 0)
    else 0
  }

  predicate ValidUtf8(s: Bytes) {
    s == [] || (RuneLength(s) > 0 && ValidUtf8(s[RuneLength(s)..]))
  }

  /** strings.ToValidUTF8 with an empty replacement: drops every byte that starts no character. */
  function ToValidUtf8(s: Bytes): Bytes {
    if s == [] then []
    else if RuneLength(s) > 0 then s[..RuneLength(s)] + ToValidUtf8(s[RuneLength(s)..])
    else ToValidUtf8(s[1..])
  }

  predicate IsPrefix(a: Bytes, b: Bytes) { |a| <= |b| && a == b[..|a|] }

  lemma RuneIsLocal(s: Bytes, n: nat)
    requires n <= |s| && RuneLength(s) > 0
    ensures RuneLength(s[..n]) == if n < RuneLength(s) then 0 else RuneLength(s)
    ensures forall i :: 1 <= i < RuneLength(s) ==> Follows(s[i])
  {
  }

  lemma {:induction false} StrayBytesDrop(s: Bytes)
    requires forall i :: 0 <= i < |s| ==> Follows(s[i])
    ensures ToValidUtf8(s) == []
  {
    if s != [] {
      StrayBytesDrop(s[1..]);
    }
  }

  /** A cut inside the first character leaves nothing; a later one leaves that character and the rest. */
  lemma CutFirst(s: Bytes, n: nat)
    requires RuneLength(s) > 0 && 0 < n <= |s|
    ensures n < RuneLength(s) ==> ToValidUtf8(s[..n]) == []
    ensures var k := RuneLength(s);
            n >= k ==> ToValidUtf8(s[..n]) == s[..k] + ToValidUtf8(s[k..][..n - k])
  {
    hide RuneLength;
    var k, cut := RuneLength(s), s[..n];
    RuneIsLocal(s, n);
    if n < k {
      StrayBytesDrop(cut[1..]);
    } else {
      assert cut[..k] == s[..k] && cut[k..] == s[k..][..n - k];
    }
  }

  /** Cutting valid text and repairing it gives a valid prefix, at most three bytes short of the cut. */
  lemma {:induction false} CutIsPrefix(s: Bytes, n: nat)
    requires ValidUtf8(s) && n <= |s|
    ensures IsPrefix(ToValidUtf8(s[..n]), s) && ValidUtf8(ToValidUtf8(s[..n]))
    ensures |ToValidUtf8(s[..n])| <= n < |ToValidUtf8(s[..n])| + 4
  {
    hide RuneLength;
    if n > 0 {
      var k := RuneLength(s);
      CutFirst(s, n);
      hide ToValidUtf8;
      if n >= k {
        CutIsPrefix(s[k..], n - k);
        RuneIsLocal(s, k);
        RuneThen(s[..k], ToValidUtf8(s[k..][..n - k]));
      }
    }
  }

  /** No valid prefix within the cut is longer. */
  lemma {:induction false} CutIsLongest(s: Bytes, n: nat, m: nat)
    requires ValidUtf8(s) && m <= n <= |s| && ValidUtf8(s[..m])
    ensures m <= |ToValidUtf8(s[..n])|
  {
    hide RuneLength;
    if m > 0 {
      var k := RuneLength(s);
      CutFirst(s, n);
      RuneIsLocal(s, m);
      hide ToValidUtf8;
      assert s[..m][k..] == s[k..][..m - k];
      CutIsLongest(s[k..], n - k, m - k);
    }
  }

  lemma RuneThen(rune: Bytes, rest: Bytes)
    requires rune != [] && RuneLength(rune) == |rune| && ValidUtf8(rest)
    ensures ValidUtf8(rune + rest)
  {
    assert (rune + rest)[..|rune|] == rune && (rune + rest)[|rune|..] == rest;
    assert RuneLength(rune + rest) == |rune|;
  }

  lemma {:induction false} ValidJoins(a: Bytes, b: Bytes)
    requires ValidUtf8(a) && ValidUtf8(b)
    ensures ValidUtf8(a + b)
  {
    hide RuneLength;
    if a == [] {
      assert a + b == b;
    } else {
      var k := RuneLength(a);
      ValidJoins(a[k..], b);
      RuneIsLocal(a, k);
      RuneThen(a[..k], a[k..] + b);
      assert a + b == a[..k] + (a[k..] + b);
    }
  }

  // ----------------------------------------------------------------- the whole text

  datatype BodyValue = BodyValue(value: Bytes, truncated: bool)

  /** The text so far, ready for the next part. */
  function Separated(text: Bytes): Bytes { if text == [] then [] else text + [NEWLINE] }

  /** All parts, one below the other. */
  function Join(values: seq<BodyValue>): Bytes {
    if values == [] then []
    else Separated(Join(values[..|values| - 1])) + values[|values| - 1].value
  }

  /** The whole text is kept: it is within the limit, and an empty last part does not sit at the limit. */
  predicate Fits(values: seq<BodyValue>) {
    || |Join(values)| < MAXIMUM_TEXT_BYTES
    || (|Join(values)| == MAXIMUM_TEXT_BYTES && values[|values| - 1].value != [])
  }

  predicate NoneTruncated(values: seq<BodyValue>) { forall i :: 0 <= i < |values| ==> !values[i].truncated }

  predicate AllValid(values: seq<BodyValue>) { forall i :: 0 <= i < |values| ==> ValidUtf8(values[i].value) }

  lemma {:induction false} JoinValid(values: seq<BodyValue>)
    requires AllValid(values)
    ensures ValidUtf8(Join(values)) && ValidUtf8(Separated(Join(values)))
  {
    if values != [] {
      var n := |values| - 1;
      JoinValid(values[..n]);
      ValidJoins(Separated(Join(values[..n])), values[n].value);
    }
    assert ValidUtf8([NEWLINE]) by { assert [NEWLINE][1..] == []; }
    ValidJoins(Join(values), [NEWLINE]);
  }

  /** The text of fewer parts is a prefix of the text of more. */
  lemma {:induction false} JoinGrows(values: seq<BodyValue>, k: nat)
    requires k <= |values|
    ensures IsPrefix(Join(values[..k]), Join(values))
    ensures k < |values| ==> IsPrefix(Separated(Join(values[..k])), Join(values))
    ensures k < |values| ==> IsPrefix(Separated(Join(values[..k])) + values[k].value, Join(values))
  {
    var n := |values| - 1;
    if k == |values| {
      assert values[..k] == values;
    } else if k == n {
      JoinSteps(values);
    } else {
      JoinGrows(values[..n], k);
      JoinSteps(values);
      hide Join, Separated;
      assert values[..n][..k] == values[..k];
      var middle := Join(values[..n]);
      PrefixOf(Join(values[..k]), middle, Join(values));
      PrefixOf(Separated(Join(values[..k])), middle, Join(values));
      PrefixOf(Separated(Join(values[..k])) + values[k].value, middle, Join(values));
    }
  }

  lemma JoinSteps(values: seq<BodyValue>)
    requires values != []
    ensures var n := |values| - 1;
            && IsPrefix(Join(values[..n]), Join(values)) && IsPrefix(Separated(Join(values[..n])), Join(values))
            && Join(values) == Separated(Join(values[..n])) + values[n].value
  {
    var n := |values| - 1;
    assert Join(values) == Separated(Join(values[..n])) + values[n].value;
    hide Join;
    SeparatedFront(Join(values[..n]), values[n].value);
  }

  lemma SeparatedFront(text: Bytes, value: Bytes)
    ensures IsPrefix(text, Separated(text) + value) && IsPrefix(Separated(text), Separated(text) + value)
  {
  }

  lemma PrefixOf(a: Bytes, b: Bytes, d: Bytes)
    requires IsPrefix(a, b) && IsPrefix(b, d)
    ensures IsPrefix(a, d)
  {
  }

  /** Once the text stops fitting it never fits again. */
  lemma {:induction false} FitsShrinks(values: seq<BodyValue>, k: nat)
    requires k <= |values| && Fits(values)
    ensures Fits(values[..k])
  {
    JoinGrows(values, k);
    if k < |values| {
      assert |Join(values[..k])| < MAXIMUM_TEXT_BYTES;
    } else {
      assert values[..k] == values;
    }
  }

  lemma LongStaysLong(values: seq<BodyValue>, k: nat)
    requires k <= |values| && !Fits(values[..k])
    ensures !Fits(values)
  {
    hide Fits;
    if Fits(values) {
      FitsShrinks(values, k);
    }
  }

  // ----------------------------------------------------------------- the bounded text

  datatype Text = Text(bytes: Bytes, truncated: bool)

  predicate Present(parts: seq<string>, bodyValues: map<string, BodyValue>) {
    forall i :: 0 <= i < |parts| ==> parts[i] != "" && parts[i] in bodyValues
  }

  function Values(parts: seq<string>, bodyValues: map<string, BodyValue>): seq<BodyValue>
    requires Present(parts, bodyValues)
  {
    seq(|parts|, i requires 0 <= i < |parts| => bodyValues[parts[i]])
  }

  /** Nothing of the text is lost: it fits, or it is full and only an empty last part follows. */
  predicate Whole(values: seq<BodyValue>) {
    || Fits(values)
    || (values != [] && values[|values| - 1].value == [] && Fits(values[..|values| - 1]))
  }

  /** What the reader gets for a text: a valid prefix of it within the limit and one separator byte,
      everything exactly if nothing is lost, and otherwise all but the last character that would cross
      the limit; marked exactly if the text does not fit or a part came truncated. */
  ghost predicate Bounded(values: seq<BodyValue>, r: Text) {
    && IsPrefix(r.bytes, Join(values)) && ValidUtf8(r.bytes)
    && |r.bytes| <= MAXIMUM_TEXT_BYTES + 1
    && (r.bytes == Join(values) <==> Whole(values))
    && (!Fits(values) ==> |r.bytes| > MAXIMUM_TEXT_BYTES - 4)
    && (r.truncated <==> !(Fits(values) && NoneTruncated(values)))
  }

  lemma PrefixThen(text: Bytes, part: Bytes, value: Bytes, whole: Bytes)
    requires IsPrefix(part, value) && IsPrefix(text + value, whole)
    ensures IsPrefix(text + part, whole)
  {
    assert whole[..|text| + |value|] == text + value;
    assert whole[..|text| + |part|] == (text + value)[..|text| + |part|] == text + part;
  }

  lemma TurnFits(values: seq<BodyValue>)
    requires values != [] && Fits(values[..|values| - 1])
    ensures var text := Separated(Join(values[..|values| - 1]));
            Fits(values) <==> |text| < MAXIMUM_TEXT_BYTES
                              && |text| + |values[|values| - 1].value| <= MAXIMUM_TEXT_BYTES
  {
  }

  lemma OverflowsThere(values: seq<BodyValue>, k: nat)
    requires k < |values| && Fits(values[..k])
    requires var text := Separated(Join(values[..k]));
             |text| >= MAXIMUM_TEXT_BYTES || |text| + |values[k].value| > MAXIMUM_TEXT_BYTES
    ensures !Fits(values[..k + 1])
  {
    assert values[..k + 1][..k] == values[..k];
    TurnFits(values[..k + 1]);
  }

  /** A part that does not fit makes the whole text too long. */
  lemma Overflows(values: seq<BodyValue>, k: nat)
    requires k < |values| && Fits(values[..k])
    requires var text := Separated(Join(values[..k]));
             |text| >= MAXIMUM_TEXT_BYTES || |text| + |values[k].value| > MAXIMUM_TEXT_BYTES
    ensures !Fits(values)
  {
    var upTo := values[..k + 1];
    assert upTo[..k] == values[..k];
    TurnFits(upTo);
    hide Fits, Join;
    LongStaysLong(values, k + 1);
  }

  /** Parts after the one that overflows make the text longer still. */
  lemma LaterIsLost(values: seq<BodyValue>, k: nat)
    requires k + 1 < |values| && !Fits(values[..k + 1])
    ensures !Whole(values)
    ensures |Join(values[..k + 1])| < |Join(values)|
  {
    hide Join;
    JoinGrows(values, k + 1);
    assert |Join(values[..k + 1])| >= MAXIMUM_TEXT_BYTES;
    hide Fits;
    var n := |values| - 1;
    assert values[..n][..k + 1] == values[..k + 1];
    LongStaysLong(values, k + 1);
    LongStaysLong(values[..n], k + 1);
  }

  /** A text that stops after the separator is whole exactly if an empty last part follows. */
  lemma WholeAtFull(values: seq<BodyValue>, k: nat)
    requires k < |values| && Fits(values[..k]) && !Fits(values[..k + 1])
    ensures Separated(Join(values[..k])) == Join(values) <==> Whole(values)
  {
    var upTo := values[..k + 1];
    assert upTo[..k] == values[..k];
    assert Join(upTo) == Separated(Join(values[..k])) + values[k].value;
    if k + 1 < |values| {
      LaterIsLost(values, k);
    } else {
      assert upTo == values;
    }
  }

  /** A text cut inside a part is never whole. */
  lemma CutIsLost(values: seq<BodyValue>, k: nat, part: Bytes)
    requires k < |values| && !Fits(values[..k + 1]) && |part| < |values[k].value|
    ensures Separated(Join(values[..k])) + part != Join(values) && !Whole(values)
  {
    var upTo := values[..k + 1];
    assert upTo[..k] == values[..k];
    assert Join(upTo) == Separated(Join(values[..k])) + values[k].value;
    if k + 1 < |values| {
      LaterIsLost(values, k);
    } else {
      assert upTo == values;
    }
  }

  /** The loop's last turn when the text is full. */
  lemma StopsFull(values: seq<BodyValue>, k: nat)
    requires AllValid(values) && k < |values| && Fits(values[..k])
    requires |Separated(Join(values[..k]))| >= MAXIMUM_TEXT_BYTES
    ensures Bounded(values, Text(Separated(Join(values[..k])), true))
  {
    assert |Join(values[..k])| <= MAXIMUM_TEXT_BYTES;
    hide Join, Fits, ValidUtf8, Whole;
    JoinGrows(values, k);
    JoinValid(values[..k]);
    Overflows(values, k);
    OverflowsThere(values, k);
    WholeAtFull(values, k);
  }

  /** The loop's last turn when the part does not fit. */
  lemma StopsInside(values: seq<BodyValue>, k: nat)
    requires AllValid(values) && k < |values| && Fits(values[..k])
    requires var text := Separated(Join(values[..k]));
             |text| < MAXIMUM_TEXT_BYTES && |values[k].value| > MAXIMUM_TEXT_BYTES - |text|
    ensures var text := Separated(Join(values[..k]));
            Bounded(values, Text(text + ToValidUtf8(values[k].value[..MAXIMUM_TEXT_BYTES - |text|]), true))
  {
    hide Join, ToValidUtf8, ValidUtf8, Separated, Fits, Whole;
    var text, value := Separated(Join(values[..k])), values[k].value;
    var part := ToValidUtf8(value[..MAXIMUM_TEXT_BYTES - |text|]);
    JoinGrows(values, k);
    JoinValid(values[..k]);
    CutIsPrefix(value, MAXIMUM_TEXT_BYTES - |text|);
    ValidJoins(text, part);
    PrefixThen(text, part, value, Join(values));
    Overflows(values, k);
    OverflowsThere(values, k);
    CutIsLost(values, k, part);
  }

  /** Part `k` is missing, and the text of the parts before it still fits. */
  predicate MissingAt(parts: seq<string>, bodyValues: map<string, BodyValue>, k: nat) {
    && k < |parts| && Present(parts[..k], bodyValues) && Fits(Values(parts[..k], bodyValues))
    && (parts[k] == "" || parts[k] !in bodyValues)
  }

  lemma ValuesGrow(parts: seq<string>, bodyValues: map<string, BodyValue>, j: nat, k: nat)
    requires j <= k <= |parts| && Present(parts[..k], bodyValues)
    ensures Present(parts[..j], bodyValues)
    ensures Values(parts[..k], bodyValues)[..j] == Values(parts[..j], bodyValues)
  {
    assert forall i :: 0 <= i < j ==> parts[..j][i] == parts[..k][i];
  }

  /** Once the text is full, no later part is looked at. */
  lemma NothingMissing(parts: seq<string>, bodyValues: map<string, BodyValue>, k: nat, j: nat)
    requires k < |parts| && Present(parts[..k + 1], bodyValues) && !Fits(Values(parts[..k + 1], bodyValues))
    ensures !MissingAt(parts, bodyValues, j)
  {
    if j <= k {
      assert parts[..k + 1][j] == parts[j];
    } else if j < |parts| && Present(parts[..j], bodyValues) {
      ValuesGrow(parts, bodyValues, k + 1, j);
      LongStaysLong(Values(parts[..j], bodyValues), k + 1);
    }
  }

  /** A full text at part `k` is the bounded text of all parts. */
  lemma StopsBounded(parts: seq<string>, bodyValues: map<string, BodyValue>, k: nat)
    requires forall id :: id in bodyValues ==> ValidUtf8(bodyValues[id].value)
    requires k < |parts| && Present(parts, bodyValues) && Present(parts[..k], bodyValues)
    requires Fits(Values(parts[..k], bodyValues))
    ensures var text := Separated(Join(Values(parts[..k], bodyValues)));
            var value := bodyValues[parts[k]].value;
            && (|text| >= MAXIMUM_TEXT_BYTES ==> Bounded(Values(parts, bodyValues), Text(text, true)))
            && (|text| < MAXIMUM_TEXT_BYTES < |text| + |value| ==>
                  Bounded(Values(parts, bodyValues),
                          Text(text + ToValidUtf8(value[..MAXIMUM_TEXT_BYTES - |text|]), true)))
  {
    var values := Values(parts, bodyValues);
    assert parts[..|parts|] == parts;
    ValuesGrow(parts, bodyValues, k, |parts|);
    var text := Separated(Join(values[..k]));
    hide Bounded, Join, ToValidUtf8, ValidUtf8;
    if |text| >= MAXIMUM_TEXT_BYTES {
      StopsFull(values, k);
    } else if MAXIMUM_TEXT_BYTES < |text| + |values[k].value| {
      StopsInside(values, k);
    }
  }

  lemma WholeIsBounded(values: seq<BodyValue>)
    requires AllValid(values) && Fits(values)
    ensures Bounded(values, Text(Join(values), !NoneTruncated(values)))
  {
    JoinValid(values);
  }

  /** The loop has taken the first `k` parts in whole. */
  predicate Gathered(parts: seq<string>, bodyValues: map<string, BodyValue>, k: nat, text: Bytes, truncated: bool) {
    && k <= |parts| && Present(parts[..k], bodyValues)
    && var values := Values(parts[..k], bodyValues);
       text == Join(values) && Fits(values) && (truncated <==> !NoneTruncated(values))
  }

  lemma GatherOne(parts: seq<string>, bodyValues: map<string, BodyValue>, k: nat, text: Bytes, truncated: bool)
    requires Gathered(parts, bodyValues, k, text, truncated) && k < |parts| && parts[k] != "" && parts[k] in bodyValues
    ensures Present(parts[..k + 1], bodyValues)
    ensures var t, v := Separated(text), bodyValues[parts[k]];
            if |t| < MAXIMUM_TEXT_BYTES && |t| + |v.value| <= MAXIMUM_TEXT_BYTES
            then Gathered(parts, bodyValues, k + 1, t + v.value, truncated || v.truncated)
            else !Fits(Values(parts[..k + 1], bodyValues))
  {
    assert forall i :: 0 <= i < k ==> parts[..k + 1][i] == parts[..k][i];
    ValuesGrow(parts, bodyValues, k, k + 1);
    var values := Values(parts[..k + 1], bodyValues);
    TurnFits(values);
    hide Fits;
    assert NoneTruncated(values) <==> NoneTruncated(values[..k]) && !values[k].truncated;
  }

  /** Where the loop stops early, the text is the bounded text of all parts and no missing part counts. */
  lemma StopsEarly(parts: seq<string>, bodyValues: map<string, BodyValue>, k: nat, text: Bytes, truncated: bool)
    requires forall id :: id in bodyValues ==> ValidUtf8(bodyValues[id].value)
    requires Gathered(parts, bodyValues, k, text, truncated) && k < |parts| && parts[k] != "" && parts[k] in bodyValues
    requires var t := Separated(text);
             |t| >= MAXIMUM_TEXT_BYTES || |t| + |bodyValues[parts[k]].value| > MAXIMUM_TEXT_BYTES
    ensures forall j :: !MissingAt(parts, bodyValues, j)
    ensures Present(parts, bodyValues) ==>
              var t, v := Separated(text), bodyValues[parts[k]].value;
              Bounded(Values(parts, bodyValues),
                      Text(if |t| >= MAXIMUM_TEXT_BYTES then t
                           else t + ToValidUtf8(v[..MAXIMUM_TEXT_BYTES - |t|]), true))
  {
    hide Bounded, ToValidUtf8, ValidUtf8, Fits, MissingAt;
    GatherOne(parts, bodyValues, k, text, truncated);
    forall j ensures !MissingAt(parts, bodyValues, j) { NothingMissing(parts, bodyValues, k, j); }
    if Present(parts, bodyValues) {
      StopsBounded(parts, bodyValues, k);
    }
  }

  lemma GatheredAll(parts: seq<string>, bodyValues: map<string, BodyValue>, text: Bytes, truncated: bool)
    requires forall id :: id in bodyValues ==> ValidUtf8(bodyValues[id].value)
    requires Gathered(parts, bodyValues, |parts|, text, truncated)
    ensures Present(parts, bodyValues) && Bounded(Values(parts, bodyValues), Text(text, truncated))
    ensures BoundedThere(parts, bodyValues, Text(text, truncated))
    ensures forall j :: !MissingAt(parts, bodyValues, j)
  {
    assert parts[..|parts|] == parts;
    WholeIsBounded(Values(parts, bodyValues));
    hide Bounded, Join;
    if |parts| > 0 {
      ValuesGrow(parts, bodyValues, |parts| - 1, |parts|);
      FitsShrinks(Values(parts, bodyValues), |parts| - 1);
    }
    hide Fits;
    assert ReachedAt(parts, bodyValues, |parts|);
  }

  /** The parts the loop looks at: all of them, or those up to the first that does not fit. */
  predicate ReachedAt(parts: seq<string>, bodyValues: map<string, BodyValue>, m: nat) {
    && m <= |parts| && Present(parts[..m], bodyValues)
    && (m > 0 ==> Present(parts[..m - 1], bodyValues) && Fits(Values(parts[..m - 1], bodyValues)))
    && (m == |parts| || !Fits(Values(parts[..m], bodyValues)))
  }

  /** The text is the bounded text of the parts the loop looked at. */
  ghost predicate BoundedThere(parts: seq<string>, bodyValues: map<string, BodyValue>, r: Text) {
    exists m: nat :: ReachedAt(parts, bodyValues, m) && Bounded(Values(parts[..m], bodyValues), r)
  }

  lemma StopsThere(parts: seq<string>, bodyValues: map<string, BodyValue>, k: nat, text: Bytes, truncated: bool)
    requires forall id :: id in bodyValues ==> ValidUtf8(bodyValues[id].value)
    requires Gathered(parts, bodyValues, k, text, truncated) && k < |parts| && parts[k] != "" && parts[k] in bodyValues
    requires var t := Separated(text);
             |t| >= MAXIMUM_TEXT_BYTES || |t| + |bodyValues[parts[k]].value| > MAXIMUM_TEXT_BYTES
    ensures var t, v := Separated(text), bodyValues[parts[k]].value;
            BoundedThere(parts, bodyValues,
                         Text(if |t| >= MAXIMUM_TEXT_BYTES then t
                              else t + ToValidUtf8(v[..MAXIMUM_TEXT_BYTES - |t|]), true))
  {
    hide Bounded, ToValidUtf8, ValidUtf8, Fits, Join;
    GatherOne(parts, bodyValues, k, text, truncated);
    var reached := parts[..k + 1];
    assert reached[..k] == parts[..k] && reached[k] == parts[k];
    StopsBounded(reached, bodyValues, k);
    assert ReachedAt(parts, bodyValues, k + 1);
  }

  lemma NothingGathered(parts: seq<string>, bodyValues: map<string, BodyValue>)
    ensures Gathered(parts, bodyValues, 0, [], false)
  {
  }

  lemma MissingPart(parts: seq<string>, bodyValues: map<string, BodyValue>, k: nat, text: Bytes, truncated: bool)
    requires Gathered(parts, bodyValues, k, text, truncated) && k < |parts|
    requires parts[k] == "" || parts[k] !in bodyValues
    ensures MissingAt(parts, bodyValues, k)
  {
  }

  /** The body-part loop of GetMessage.  It fails exactly on a missing part it reaches before the
      text is full, and otherwise returns the bounded text of the parts it looked at, which is the
      bounded text of all parts when none is missing. */
  method AssembleText(parts: seq<string>, bodyValues: map<string, BodyValue>) returns (r: Option<Text>)
    requires forall id :: id in bodyValues ==> ValidUtf8(bodyValues[id].value)
    ensures r.None? <==> exists k :: MissingAt(parts, bodyValues, k)
    ensures r.Some? ==> BoundedThere(parts, bodyValues, r.value)
    ensures r.Some? && Present(parts, bodyValues) ==> Bounded(Values(parts, bodyValues), r.value)
  {
    hide BoundedThere, Bounded, ValidUtf8, ToValidUtf8, Fits, MissingAt, Gathered, Present, Values;
    var text, truncated := [], false;
    NothingGathered(parts, bodyValues);
    for k := 0 to |parts|
      invariant Gathered(parts, bodyValues, k, text, truncated)
    {
      if parts[k] == "" || parts[k] !in bodyValues {
        MissingPart(parts, bodyValues, k, text, truncated);
        return None;
      }
      var value := bodyValues[parts[k]];
      GatherOne(parts, bodyValues, k, text, truncated);
      ghost var before := text;
      if text != [] {
        text := text + [NEWLINE];
      }
      var remaining := MAXIMUM_TEXT_BYTES - |text|;
      if remaining <= 0 {
        StopsEarly(parts, bodyValues, k, before, truncated);
        StopsThere(parts, bodyValues, k, before, truncated);
        return Some(Text(text, true));
      }
      if |value.value| > remaining {
        StopsEarly(parts, bodyValues, k, before, truncated);
        StopsThere(parts, bodyValues, k, before, truncated);
        return Some(Text(text + ToValidUtf8(value.value[..remaining]), true));
      }
      text := text + value.value;
      truncated := truncated || value.truncated;
    }
    GatheredAll(parts, bodyValues, text, truncated);
    return Some(Text(text, truncated));
  }

  // ----------------------------------------------------------------- marked with nothing missing

  /** A text is marked although nothing is missing exactly when no part came truncated, the last part is empty,
      and the text with its last separator has reached the limit. */
  lemma MarkedThoughWhole(values: seq<BodyValue>, r: Text)
    requires Bounded(values, r)
    ensures r.truncated && r.bytes == Join(values) && NoneTruncated(values) <==>
              && NoneTruncated(values) && values != [] && values[|values| - 1].value == []
              && Fits(values[..|values| - 1]) && |Join(values)| >= MAXIMUM_TEXT_BYTES
  {
    hide Join, ValidUtf8;
  }

  lemma {:induction false} LettersAreValid(n: nat)
    ensures ValidUtf8(seq(n, i => 97))
  {
    var s: Bytes := seq(n, i => 97);
    if n > 0 {
      LettersAreValid(n - 1);
      assert s[1..] == seq(n - 1, i => 97);
    }
  }

  lemma JoinTwo(first: BodyValue, second: BodyValue)
    requires first.value != []
    ensures Join([first]) == first.value && Join([first, second]) == first.value + [NEWLINE] + second.value
  {
    assert [first, second][..1] == [first] && [first][..0] == [];
    assert Join([first]) == Separated(Join([])) + first.value;
  }

  /** One full part and an empty one: the text is whole, and marked, whatever the loop returns within its contract. */
  lemma FullThenEmpty() returns (values: seq<BodyValue>, r: Text)
    ensures |values| == 2 && |values[0].value| == 65536 && values[1].value == []
    ensures AllValid(values) && NoneTruncated(values)
    ensures Bounded(values, r) && r.truncated && r.bytes == Join(values) == values[0].value + [10]
    ensures forall other :: Bounded(values, other) ==> other == r
  {
    var letters: Bytes := seq(MAXIMUM_TEXT_BYTES, i => 97);
    LettersAreValid(MAXIMUM_TEXT_BYTES);
    assert ValidUtf8(letters) && |letters| == MAXIMUM_TEXT_BYTES;
    hide Join, ValidUtf8;
    values, r := FullTextThenEmpty(letters);
  }

  lemma FullTextThenEmpty(letters: Bytes) returns (values: seq<BodyValue>, r: Text)
    requires |letters| == MAXIMUM_TEXT_BYTES && ValidUtf8(letters)
    ensures values == [BodyValue(letters, false), BodyValue([], false)] && AllValid(values) && NoneTruncated(values)
    ensures Bounded(values, r) && r.truncated && r.bytes == Join(values) == letters + [10]
    ensures forall other :: Bounded(values, other) ==> other == r
  {
    hide Join, ValidUtf8, Bounded, AllValid, NoneTruncated, Fits, Separated;
    values := TwoParts(letters);
    StopsFull(values, 1);
    r := Text(Separated(Join(values[..1])), true);
    forall other | Bounded(values, other) ensures other == r {
      WholeIsUnique(values, r, other);
    }
  }

  lemma TwoParts(letters: Bytes) returns (values: seq<BodyValue>)
    requires |letters| == MAXIMUM_TEXT_BYTES && ValidUtf8(letters)
    ensures values == [BodyValue(letters, false), BodyValue([], false)] && AllValid(values) && NoneTruncated(values)
    ensures Fits(values[..1]) && |Separated(Join(values[..1]))| >= MAXIMUM_TEXT_BYTES
    ensures Separated(Join(values[..1])) == Join(values) == letters + [10]
  {
    var first, second := BodyValue(letters, false), BodyValue([], false);
    values := [first, second];
    JoinTwo(first, second);
    assert ValidUtf8([]);
    hide Join, ValidUtf8;
    assert values[..1] == [first];
  }

  lemma WholeIsUnique(values: seq<BodyValue>, r: Text, other: Text)
    requires Bounded(values, r) && Bounded(values, other) && r.bytes == Join(values)
    ensures other == r
  {
    hide Join, ValidUtf8, Fits, Whole, IsPrefix, NoneTruncated;
  }
}
