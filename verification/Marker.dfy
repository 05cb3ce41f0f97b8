/**
 The control-plane marker written into a mail-core account's description: its printer, its strict
 parser, and the round trip between them.
 */
module Marker {
  import opened Types

  datatype Metadata = Metadata(mailbox: Uuid, domain: Uuid, operation: Uuid, revision: int, hash: Hash)

  const PREFIX := "mail-suite:v1"
  const MAX_INT64: int := 0x7fff_ffff_ffff_ffff

  // ----------------------------------------------------------------- digits

  function DigitChar(d: nat): char
    requires d < 16
  {
    "0123456789abcdef"[d]
  }

  /** Hexadecimal digits of either case, as Go's decoders accept them. */
  function HexValue(c: char): Option<nat> {
    if '0' <= c <= '9' then Some(c as nat - '0' as nat)
    else if 'a' <= c <= 'f' then Some(c as nat - 'a' as nat + 10)
    else if 'A' <= c <= 'F' then Some(c as nat - 'A' as nat + 10)
    else None
  }

  lemma DigitReads(d: nat)
    requires d < 16
    ensures HexValue(DigitChar(d)) == Some(d) && DigitChar(d) != ':'
  {
  }

  /** The low `width` hexadecimal digits of `n`, most significant first. */
  function Hex(n: nat, width: nat): (s: string)
    ensures |s| == width
  {
    if width == 0 then "" else Hex(n / 16, width - 1) + [DigitChar(n % 16)]
  }

  /** Reads a string in the given base; None if a character is not one of its digits. */
  function Read(base: nat, s: string): Option<nat> {
    if s == "" then Some(0)
    else
      var front := Read(base, s[..|s| - 1]);
      var last := HexValue(s[|s| - 1]);
      if front.Some? && last.Some? && last.value < base then Some(front.value * base + last.value) else None
  }

  function Pow16(e: nat): nat {
    if e == 0 then 1 else 16 * Pow16(e - 1)
  }

  predicate Plain(s: string) { forall i :: 0 <= i < |s| ==> s[i] != ':' }

  lemma {:induction false} HexReads(n: nat, width: nat)
    requires n < Pow16(width)
    ensures Read(16, Hex(n, width)) == Some(n) && Plain(Hex(n, width))
  {
    if width > 0 {
      HexReads(n / 16, width - 1);
      DigitReads(n % 16);
      var s := Hex(n, width);
      assert s[..|s| - 1] == Hex(n / 16, width - 1);
    }
  }

  // ----------------------------------------------------------------- UUIDs

  function Dash(h: string): (s: string)
    requires |h| == 32
    ensures |s| == 36
  {
    h[..8] + "-" + h[8..12] + "-" + h[12..16] + "-" + h[16..20] + "-" + h[20..]
  }

  function PrintUuid(u: Uuid): (s: string)
    ensures |s| == 36
  {
    Dash(Hex(u, 32))
  }

  function ReadUuidDigits(s: string): Option<Uuid>
    requires |s| == 32
  {
    var n := Read(16, s);
    if n.Some? && n.value < 0x1_0000_0000_0000_0000_0000_0000_0000_0000 then Some(n.value) else None
  }

  function ReadDashed(s: string): Option<Uuid>
    requires |s| >= 36
  {
    if s[8] == '-' && s[13] == '-' && s[18] == '-' && s[23] == '-' then
      ReadUuidDigits(Undash(s))
    else None
  }

  function Undash(s: string): (h: string)
    requires |s| >= 36
    ensures |h| == 32
  {
    s[..8] + s[9..13] + s[14..18] + s[19..23] + s[24..36]
  }

  lemma DashUndash(h: string)
    requires |h| == 32
    ensures Undash(Dash(h)) == h
    ensures Dash(h)[8] == '-' && Dash(h)[13] == '-' && Dash(h)[18] == '-' && Dash(h)[23] == '-'
    ensures Plain(h) ==> Plain(Dash(h))
  {
    var s := Dash(h);
    assert s[..8] == h[..8] && s[9..13] == h[8..12] && s[14..18] == h[12..16];
    assert s[19..23] == h[16..20] && s[24..36] == h[20..];
    assert h == h[..8] + h[8..12] + h[12..16] + h[16..20] + h[20..];
  }

  /** uuid.Parse on a string without colons: dashed, in brackets, or 32 bare digits. */
  function ParseUuid(s: string): Option<Uuid> {
    if |s| == 36 then ReadDashed(s)
    else if |s| == 38 then ReadDashed(s[1..])
    else if |s| == 32 then ReadUuidDigits(s)
    else None
  }

  lemma UuidReads(u: Uuid)
    ensures ParseUuid(PrintUuid(u)) == Some(u) && Plain(PrintUuid(u))
  {
    assert Pow16(8) == 0x1_0000_0000;
    assert Pow16(16) == 0x1_0000_0000_0000_0000 by { Pow16Splits(8, 8); }
    assert Pow16(32) == 0x1_0000_0000_0000_0000_0000_0000_0000_0000 by { Pow16Splits(16, 16); }
    HexReads(u, 32);
    hide Dash, Undash, Plain, Hex, Pow16;
    DashUndash(Hex(u, 32));
  }

  lemma {:induction false} Pow16Splits(a: nat, b: nat)
    ensures Pow16(a + b) == Pow16(a) * Pow16(b)
  {
    if b > 0 {
      Pow16Splits(a, b - 1);
      var x, y := Pow16(a), Pow16(b - 1);
      assert x * (16 * y) == 16 * (x * y);
    } else {
      assert Pow16(0) == 1;
    }
  }

  // ----------------------------------------------------------------- revisions

  function PrintDecimal(n: nat): (s: string)
    ensures |s| > 0
  {
    if n < 10 then [DigitChar(n)] else PrintDecimal(n / 10) + [DigitChar(n % 10)]
  }

  /** strconv.ParseInt(s, 10, 64): an optional sign, at least one digit, 64-bit range. */
  function ParseInt64(s: string): Option<int> {
    if s == "" then None
    else
      var signed := s[0] == '+' || s[0] == '-';
      var digits := if signed then s[1..] else s;
      var n := Read(10, digits);
      if digits == "" || n.None? then None
      else
        var value: int := if s[0] == '-' then 0 - n.value else n.value;
        if -MAX_INT64 - 1 <= value <= MAX_INT64 then Some(value) else None
  }

  lemma {:induction false} DecimalReads(n: nat)
    ensures Read(10, PrintDecimal(n)) == Some(n) && Plain(PrintDecimal(n))
    ensures PrintDecimal(n)[0] != '+' && PrintDecimal(n)[0] != '-'
  {
    DigitReads(n % 10);
    var s := PrintDecimal(n);
    if n < 10 {
      assert s[..|s| - 1] == "";
    } else {
      DecimalReads(n / 10);
      assert s[..|s| - 1] == PrintDecimal(n / 10);
    }
  }

  // ----------------------------------------------------------------- hashes

  /** hex.DecodeString into exactly 32 bytes. */
  function ParseHash(s: string): Option<Hash> {
    if |s| != 64 then None
    else
      var n := Read(16, s);
      if n.Some?
         && n.value < 0x1_0000_0000_0000_0000_0000_0000_0000_0000_0000_0000_0000_0000_0000_0000_0000_0000
      then Some(n.value) else None
  }

  lemma HashReads(h: Hash)
    ensures ParseHash(Hex(h, 64)) == Some(h) && Plain(Hex(h, 64))
  {
    assert Pow16(8) == 0x1_0000_0000;
    assert Pow16(16) == 0x1_0000_0000_0000_0000 by { Pow16Splits(8, 8); }
    assert Pow16(32) == 0x1_0000_0000_0000_0000_0000_0000_0000_0000 by { Pow16Splits(16, 16); }
    assert Pow16(64) == 0x1_0000_0000_0000_0000_0000_0000_0000_0000_0000_0000_0000_0000_0000_0000_0000_0000
      by { Pow16Splits(32, 32); }
    HexReads(h, 64);
  }

  // ----------------------------------------------------------------- the whole marker

  /** strings.Split(s, ":") */
  function Split(s: string): (parts: seq<string>)
    ensures |parts| > 0
  {
    if s == "" then [""]
    else if s[0] == ':' then [""] + Split(s[1..])
    else var rest := Split(s[1..]); [[s[0]] + rest[0]] + rest[1..]
  }

  lemma {:induction false} SplitLast(p: string)
    requires Plain(p)
    ensures Split(p) == [p]
  {
    if p != "" {
      SplitLast(p[1..]);
      assert [p[0]] + p[1..] == p;
    }
  }

  lemma {:induction false} SplitFirst(p: string, rest: string)
    requires Plain(p)
    ensures Split(p + ":" + rest) == [p] + Split(rest)
  {
    var s := p + ":" + rest;
    if p == "" {
      assert s[1..] == rest;
    } else {
      SplitFirst(p[1..], rest);
      assert s[1..] == p[1..] + ":" + rest;
      assert [p[0]] + p[1..] == p;
    }
  }

  /** The parts in order, separated by colons. */
  function Linked(parts: seq<string>): string
    requires |parts| > 0
  {
    if |parts| == 1 then parts[0] else parts[0] + ":" + Linked(parts[1..])
  }

  lemma {:induction false} SplitLinked(parts: seq<string>)
    requires |parts| > 0 && forall i :: 0 <= i < |parts| ==> Plain(parts[i])
    ensures Split(Linked(parts)) == parts
  {
    if |parts| == 1 {
      SplitLast(parts[0]);
    } else {
      SplitLinked(parts[1..]);
      SplitFirst(parts[0], Linked(parts[1..]));
    }
  }

  function Format(m: Metadata): string
    requires m.revision > 0
  {
    PREFIX + ":" + Linked([PrintUuid(m.mailbox), PrintUuid(m.domain), PrintUuid(m.operation),
                           PrintDecimal(m.revision), Hex(m.hash, 64)])
  }

  function Parse(raw: string): (r: Option<Metadata>)
    ensures r.Some? ==> 0 < r.value.revision <= MAX_INT64
  {
    var parts := Split(raw);
    if |parts| != 7 || parts[0] + ":" + parts[1] != PREFIX then None
    else
      var mailbox, domain, operation := ParseUuid(parts[2]), ParseUuid(parts[3]), ParseUuid(parts[4]);
      var revision, hash := ParseInt64(parts[5]), ParseHash(parts[6]);
      if mailbox.None? || domain.None? || operation.None? || revision.None? || revision.value <= 0 || hash.None?
      then None
      else Some(Metadata(mailbox.value, domain.value, operation.value, revision.value, hash.value))
  }

  lemma LinkFront(parts: seq<string>)
    requires |parts| > 0
    ensures Linked(["mail-suite", "v1"] + parts) == PREFIX + ":" + Linked(parts)
  {
    LinkOne("v1", parts);
    LinkOne("mail-suite", ["v1"] + parts);
    assert ["mail-suite"] + (["v1"] + parts) == ["mail-suite", "v1"] + parts;
    assert "mail-suite" + ":" + "v1" == PREFIX;
    hide Linked;
    Regroup("mail-suite", "v1", Linked(parts));
  }

  lemma LinkOne(first: string, parts: seq<string>)
    requires |parts| > 0
    ensures Linked([first] + parts) == first + ":" + Linked(parts)
  {
    assert ([first] + parts)[1..] == parts;
  }

  lemma Regroup(a: string, b: string, rest: string)
    ensures a + ":" + (b + ":" + rest) == (a + ":" + b) + ":" + rest
  {
  }

  /** The colon split of a printed marker yields exactly the seven printed parts. */
  lemma FormatSplits(m: Metadata)
    requires m.revision > 0
    ensures Split(Format(m)) == ["mail-suite", "v1", PrintUuid(m.mailbox), PrintUuid(m.domain),
                                 PrintUuid(m.operation), PrintDecimal(m.revision), Hex(m.hash, 64)]
  {
    assert Plain("mail-suite") && Plain("v1");
    hide Plain, PrintUuid, PrintDecimal, Hex, Split, Linked;
    var parts := [PrintUuid(m.mailbox), PrintUuid(m.domain), PrintUuid(m.operation), PrintDecimal(m.revision),
                  Hex(m.hash, 64)];
    PrintedIsPlain(m);
    LinkFront(parts);
    SplitLinked(["mail-suite", "v1"] + parts);
  }

  lemma PrintedIsPlain(m: Metadata)
    requires m.revision > 0
    ensures Plain(PrintUuid(m.mailbox)) && Plain(PrintUuid(m.domain)) && Plain(PrintUuid(m.operation))
    ensures Plain(PrintDecimal(m.revision)) && Plain(Hex(m.hash, 64))
  {
    hide Plain, PrintUuid, PrintDecimal, Hex, ParseUuid, ParseHash, Read;
    UuidReads(m.mailbox);
    UuidReads(m.domain);
    UuidReads(m.operation);
    DecimalReads(m.revision);
    HashReads(m.hash);
  }

  /** Reading back a written marker gives exactly what was written. */
  lemma RoundTrip(m: Metadata)
    requires 0 < m.revision <= MAX_INT64
    ensures Parse(Format(m)) == Some(m)
  {
    FormatSplits(m);
    assert "mail-suite" + ":" + "v1" == PREFIX;
    UuidReads(m.mailbox);
    UuidReads(m.domain);
    UuidReads(m.operation);
    DecimalReads(m.revision);
    HashReads(m.hash);
  }

  /** Hence two different markers are never written the same way. */
  lemma FormatInjective(a: Metadata, b: Metadata)
    requires 0 < a.revision <= MAX_INT64 && 0 < b.revision <= MAX_INT64 && Format(a) == Format(b)
    ensures a == b
  {
    RoundTrip(a);
    RoundTrip(b);
  }

  /** Whatever spelling was accepted, rewriting it in canonical form means the same. */
  lemma Canonical(raw: string)
    requires Parse(raw).Some?
    ensures Parse(Format(Parse(raw).value)) == Parse(raw)
  {
    RoundTrip(Parse(raw).value);
  }
}
