/**
 UTC instants and their stored text: `to_iso8601` and `parse_timestamp`.

 A Python `datetime` in UTC is its calendar components; two of them compare component by
 component, so no calendar arithmetic is needed to speak about order.
 */
module Timestamps {
  import opened Text

  // ---------------------------------------------------------------- instants

  datatype Components = Components(
    year: nat, month: nat, day: nat, hour: nat, minute: nat, second: nat, microsecond: nat)

  function DaysInMonth(year: nat, month: nat): nat {
    if month == 2 then
      if year % 4 == 0 && (year % 100 != 0 || year % 400 == 0) then 29 else 28
    else if month in {4, 6, 9, 11} then 30
    else 31
  }

  /** February counts leap days by the century rule; the others alternate, and start over in August. */
  lemma DaysByRule(year: nat, month: nat)
    requires 1 <= month <= 12
    ensures DaysInMonth(year, month) ==
            if month == 2 then (if year % (if year % 100 == 0 then 400 else 4) == 0 then 29 else 28)
            else 30 + (month + month / 8) % 2
  {
    assert year % 400 == 0 ==> year % 4 == 0;
  }

  /** The values Python's `datetime` constructor accepts. */
  predicate IsInstant(c: Components) {
    && 1 <= c.year <= 9999
    && 1 <= c.month <= 12
    && 1 <= c.day <= DaysInMonth(c.year, c.month)
    && c.hour < 24 && c.minute < 60 && c.second < 60
    && c.microsecond < 1_000_000
  }

  type Instant = c: Components | IsInstant(c) witness Components(1970, 1, 1, 0, 0, 0, 0)

  /** The components down to whole seconds. */
  function Seconds(c: Components): (s: seq<nat>)
    ensures |s| == 6
  {
    [c.year, c.month, c.day, c.hour, c.minute, c.second]
  }

  predicate LexLess(a: seq<nat>, b: seq<nat>)
    requires |a| == |b|
  {
    a != [] && (a[0] < b[0] || (a[0] == b[0] && LexLess(a[1..], b[1..])))
  }

  /** `a < b` on UTC datetimes. */
  predicate Earlier(a: Instant, b: Instant) {
    LexLess(Seconds(a), Seconds(b)) || (Seconds(a) == Seconds(b) && a.microsecond < b.microsecond)
  }

  predicate SameSecond(a: Instant, b: Instant) {
    Seconds(a) == Seconds(b)
  }

  // ---------------------------------------------------------------- fixed-width layouts

  /** A decimal field of a given width and the text that follows it. */
  datatype Field = Field(width: nat, tail: string)

  const DATE_TIME := [Field(4, "-"), Field(2, "-"), Field(2, "T"), Field(2, ":"), Field(2, ":"), Field(2, "")]

  predicate Fits(values: seq<nat>, layout: seq<Field>) {
    |values| == |layout| && forall i | 0 <= i < |values| :: values[i] < Pow10(layout[i].width)
  }

  function Print(values: seq<nat>, layout: seq<Field>): string
    requires Fits(values, layout)
  {
    if values == [] then []
    else Digits(values[0], layout[0].width) + layout[0].tail + Print(values[1..], layout[1..])
  }

  /** Reads the whole of `s` against a layout. */
  function Scan(s: string, layout: seq<Field>): Option<seq<nat>> {
    if layout == [] then if s == [] then Some([]) else None
    else
      var w, tail := layout[0].width, layout[0].tail;
      if |s| < w + |tail| || s[w..w + |tail|] != tail then None
      else
        match (ParseDigits(s[..w]), Scan(s[w + |tail|..], layout[1..]))
        case (Some(n), Some(rest)) => Some([n] + rest)
        case _ => None
  }

  lemma {:induction false} ScanPrint(values: seq<nat>, layout: seq<Field>)
    requires Fits(values, layout)
    ensures Scan(Print(values, layout), layout) == Some(values)
  {
    if values != [] {
      var d, tail := Digits(values[0], layout[0].width), layout[0].tail;
      var rest := Print(values[1..], layout[1..]);
      var s := Print(values, layout);
      assert s == d + tail + rest;
      assert s[..|d|] == d && s[|d|..|d| + |tail|] == tail && s[|d| + |tail|..] == rest;
      DigitsRoundTrip(values[0], layout[0].width);
      ScanPrint(values[1..], layout[1..]);
      assert values == [values[0]] + values[1..];
    }
  }

  lemma PrintInjective(a: seq<nat>, b: seq<nat>, layout: seq<Field>)
    requires Fits(a, layout) && Fits(b, layout)
    ensures Print(a, layout) == Print(b, layout) <==> a == b
  {
    ScanPrint(a, layout);
    ScanPrint(b, layout);
    hide Print, Scan;
  }

  lemma FieldOrder(n: nat, m: nat, w: nat, tail: string, x: string, y: string)
    requires n < Pow10(w) && m < Pow10(w) && |x| == |y|
    ensures TextLess(Digits(n, w) + tail + x, Digits(m, w) + tail + y) <==> n < m || (n == m && TextLess(x, y))
  {
    hide TextLess, Digits, Pow10;
    DigitsOrder(n, m, w);
    DigitsInjective(n, m, w);
    HeadDecides(Digits(n, w), tail + x, Digits(m, w), tail + y);
    HeadDecides(tail, x, tail, y);
    TextLessIsStrict(tail, tail);
    assert Digits(n, w) + tail + x == Digits(n, w) + (tail + x);
    assert Digits(m, w) + tail + y == Digits(m, w) + (tail + y);
  }

  /** Printed values of one layout compare as text exactly as the values do. */
  lemma {:induction false} PrintOrder(a: seq<nat>, b: seq<nat>, layout: seq<Field>)
    requires Fits(a, layout) && Fits(b, layout)
    ensures |Print(a, layout)| == |Print(b, layout)|
    ensures TextLess(Print(a, layout), Print(b, layout)) <==> LexLess(a, b)
  {
    if a != [] {
      hide TextLess, Digits, Pow10;
      PrintOrder(a[1..], b[1..], layout[1..]);
      FieldOrder(a[0], b[0], layout[0].width, layout[0].tail,
                 Print(a[1..], layout[1..]), Print(b[1..], layout[1..]));
    }
  }

  /** The characters of a printed layout. */
  lemma {:induction false} PrintAlphabet(values: seq<nat>, layout: seq<Field>, c: char)
    requires Fits(values, layout)
    requires !('0' <= c <= '9') && forall f <- layout :: c !in f.tail
    ensures c !in Print(values, layout)
  {
    if values != [] {
      assert layout[0] in layout;
      PrintAlphabet(values[1..], layout[1..], c);
    }
  }

  // ---------------------------------------------------------------- to_iso8601 and parse_timestamp

  const UTC_OFFSET := "+00:00"

  function SecondsText(t: Instant): string {
    Pow10Values();
    Print(Seconds(t), DATE_TIME)
  }

  /** `isoformat` leaves the fraction out when it is zero. */
  function Fraction(t: Instant): string {
    Pow10Values();
    if t.microsecond == 0 then "" else "." + Digits(t.microsecond, 6)
  }

  lemma Pow10Values()
    ensures Pow10(2) == 100 && Pow10(4) == 10_000 && Pow10(6) == 1_000_000
  {
    assert Pow10(2) == 10 * Pow10(1) && Pow10(1) == 10 * Pow10(0);
    assert Pow10(4) == 10 * Pow10(3) && Pow10(3) == 10 * Pow10(2);
    assert Pow10(6) == 10 * Pow10(5) && Pow10(5) == 10 * Pow10(4);
  }

  function IsoFormat(t: Instant): string {
    SecondsText(t) + Fraction(t) + UTC_OFFSET
  }

  function ToIso8601(t: Instant): string {
    Replace(IsoFormat(t), UTC_OFFSET, "Z")
  }

  /** `datetime.fromisoformat` on the two shapes `isoformat` writes; `None` stands for ValueError. */
  function FromIsoFormat(s: string): Option<Instant> {
    if |s| == 25 && s[19..] == UTC_OFFSET then
      Assemble(Scan(s[..19], DATE_TIME), Some(0))
    else if |s| == 32 && s[19] == '.' && s[26..] == UTC_OFFSET then
      Assemble(Scan(s[..19], DATE_TIME), ParseDigits(s[20..26]))
    else None
  }

  function Assemble(fields: Option<seq<nat>>, microsecond: Option<nat>): Option<Instant> {
    match (fields, microsecond)
    case (Some(v), Some(us)) =>
      if |v| != 6 then None
      else
        var c := Components(v[0], v[1], v[2], v[3], v[4], v[5], us);
        if IsInstant(c) then Some(c) else None
    case _ => None
  }

  function ParseTimestamp(raw: string): Option<Instant> {
    FromIsoFormat(Replace(raw, "Z", UTC_OFFSET))
  }

  // ---------------------------------------------------------------- what the text promises

  lemma TextShape(t: Instant)
    ensures |SecondsText(t)| == 19
    ensures '+' !in SecondsText(t) + Fraction(t) && 'Z' !in SecondsText(t) + Fraction(t)
  {
    Pow10Values();
    var v := Seconds(t);
    PrintAlphabet(v, DATE_TIME, '+');
    PrintAlphabet(v, DATE_TIME, 'Z');
    PrintLength(v);
  }

  lemma PrintLength(v: seq<nat>)
    requires Fits(v, DATE_TIME)
    ensures |Print(v, DATE_TIME)| == 19
  {
    var L := DATE_TIME;
    assert |Print(v[6..], L[6..])| == 0;
    assert |Print(v[5..], L[5..])| == 2 by { assert v[5..][1..] == v[6..] && L[5..][1..] == L[6..]; }
    assert |Print(v[4..], L[4..])| == 5 by { assert v[4..][1..] == v[5..] && L[4..][1..] == L[5..]; }
    assert |Print(v[3..], L[3..])| == 8 by { assert v[3..][1..] == v[4..] && L[3..][1..] == L[4..]; }
    assert |Print(v[2..], L[2..])| == 11 by { assert v[2..][1..] == v[3..] && L[2..][1..] == L[3..]; }
    assert |Print(v[1..], L[1..])| == 14 by { assert v[1..][1..] == v[2..] && L[1..][1..] == L[2..]; }
  }

  /** The stored text: seconds, the fraction if any, and `Z`. */
  lemma StoredText(t: Instant)
    ensures ToIso8601(t) == SecondsText(t) + (Fraction(t) + "Z")
  {
    var head := SecondsText(t) + Fraction(t);
    TextShape(t);
    ReplaceSkips(head, UTC_OFFSET, UTC_OFFSET, "Z");
    assert UTC_OFFSET[..6] == UTC_OFFSET && UTC_OFFSET[6..] == [];
    assert Replace(UTC_OFFSET, UTC_OFFSET, "Z") == "Z" + Replace([], UTC_OFFSET, "Z");
  }

  lemma PrintStep(v: seq<nat>, k: nat)
    requires Fits(v, DATE_TIME) && k < 6
    ensures Print(v[k..], DATE_TIME[k..]) ==
            Digits(v[k], DATE_TIME[k].width) + DATE_TIME[k].tail + Print(v[k + 1..], DATE_TIME[k + 1..])
  {
    assert v[k..][1..] == v[k + 1..] && DATE_TIME[k..][1..] == DATE_TIME[k + 1..];
  }

  lemma DateText(v: seq<nat>)
    requires Fits(v, DATE_TIME)
    ensures Print(v, DATE_TIME) ==
            Digits(v[0], 4) + "-" + (Digits(v[1], 2) + "-" + (Digits(v[2], 2) + "T" + Print(v[3..], DATE_TIME[3..])))
  {
    PrintStep(v, 0);
    PrintStep(v, 1);
    PrintStep(v, 2);
    assert v[0..] == v && DATE_TIME[0..] == DATE_TIME;
    hide Print, Digits;
  }

  lemma TimeText(v: seq<nat>)
    requires Fits(v, DATE_TIME)
    ensures Print(v[3..], DATE_TIME[3..]) == Digits(v[3], 2) + ":" + (Digits(v[4], 2) + ":" + Digits(v[5], 2))
  {
    PrintStep(v, 3);
    PrintStep(v, 4);
    PrintStep(v, 5);
    assert Print(v[6..], DATE_TIME[6..]) == [];
    hide Print, Digits;
  }

  /** The character positions of a stored timestamp, and the numbers written between them. */
  predicate WrittenAs(s: string, t: Instant) {
    && |s| == (if t.microsecond == 0 then 20 else 27)
    && s[4] == '-' && s[7] == '-' && s[10] == 'T' && s[13] == ':' && s[16] == ':'
    && (s[19] == '.' <==> t.microsecond != 0) && s[|s| - 1] == 'Z'
    && ParseDigits(s[0..4]) == Some(t.year) && ParseDigits(s[5..7]) == Some(t.month)
    && ParseDigits(s[8..10]) == Some(t.day) && ParseDigits(s[11..13]) == Some(t.hour)
    && ParseDigits(s[14..16]) == Some(t.minute) && ParseDigits(s[17..19]) == Some(t.second)
    && (t.microsecond != 0 ==> ParseDigits(s[20..26]) == Some(t.microsecond))
  }

  lemma DateSlices(y: string, mo: string, d: string, rest: string)
    requires |y| == 4 && |mo| == |d| == 2
    ensures var s := y + "-" + (mo + "-" + (d + "T" + rest));
            && s[0..4] == y && s[4] == '-' && s[5..7] == mo && s[7] == '-' && s[8..10] == d && s[10] == 'T'
            && s[11..] == rest
  {
  }

  lemma TimeSlices(h: string, mi: string, sec: string, rest: string)
    requires |h| == |mi| == |sec| == 2
    ensures var s := h + ":" + (mi + ":" + sec) + rest;
            && s[0..2] == h && s[2] == ':' && s[3..5] == mi && s[5] == ':' && s[6..8] == sec && s[8..] == rest
  {
  }

  lemma SecondsFields(t: Instant)
    ensures Pow10(2) == 100 && Pow10(4) == 10_000
    ensures SecondsText(t) ==
            Digits(t.year, 4) + "-" + (Digits(t.month, 2) + "-" + (Digits(t.day, 2) + "T" +
            (Digits(t.hour, 2) + ":" + (Digits(t.minute, 2) + ":" + Digits(t.second, 2)))))
  {
    hide Print, Digits;
    Pow10Values();
    DateText(Seconds(t));
    TimeText(Seconds(t));
    hide Pow10;
  }

  /** A stored timestamp, field by field. */
  lemma StoredFields(t: Instant)
    ensures Pow10(2) == 100 && Pow10(4) == 10_000
    ensures ToIso8601(t) ==
            Digits(t.year, 4) + "-" + (Digits(t.month, 2) + "-" + (Digits(t.day, 2) + "T" +
            (Digits(t.hour, 2) + ":" + (Digits(t.minute, 2) + ":" + Digits(t.second, 2)) + (Fraction(t) + "Z"))))
  {
    hide Print, Digits, ToIso8601, Fraction, IsInstant;
    Pow10Values();
    StoredText(t);
    SecondsFields(t);
    hide Pow10, SecondsText;
  }

  lemma FractionText(t: Instant)
    ensures var f := Fraction(t) + "Z";
            && |f| == (if t.microsecond == 0 then 1 else 8) && f[|f| - 1] == 'Z'
            && (f[0] == '.' <==> t.microsecond != 0)
            && (t.microsecond != 0 ==> ParseDigits(f[1..7]) == Some(t.microsecond))
  {
    Pow10Values();
    if t.microsecond != 0 {
      DigitsRoundTrip(t.microsecond, 6);
      hide Digits, ParseDigits, Pow10;
      assert (Fraction(t) + "Z")[1..7] == Digits(t.microsecond, 6);
    }
  }

  /** Four, two and two digits with dashes, `T`, two, two and two with colons, six after a point, `Z`. */
  lemma StoredLayout(t: Instant)
    ensures WrittenAs(ToIso8601(t), t)
  {
    StoredFields(t);
    FractionText(t);
    hide ToIso8601, Pow10, Fraction, Digits, ParseDigits;
    var f := Fraction(t) + "Z";
    var h, mi, sec := Digits(t.hour, 2), Digits(t.minute, 2), Digits(t.second, 2);
    var time := h + ":" + (mi + ":" + sec) + f;
    DateSlices(Digits(t.year, 4), Digits(t.month, 2), Digits(t.day, 2), time);
    TimeSlices(h, mi, sec, f);
    DigitsRoundTrip(t.year, 4);
    DigitsRoundTrip(t.month, 2);
    DigitsRoundTrip(t.day, 2);
    DigitsRoundTrip(t.hour, 2);
    DigitsRoundTrip(t.minute, 2);
    DigitsRoundTrip(t.second, 2);
    LaterSlices(ToIso8601(t), time, f);
  }

  /** The places of the time of day and of the fraction, counted from the start of the text. */
  lemma LaterSlices(s: string, time: string, f: string)
    requires |s| >= 19 && s[11..] == time && time[8..] == f && f != []
    ensures |s| == 19 + |f| && s[11..13] == time[0..2] && s[13] == time[2] && s[14..16] == time[3..5]
    ensures s[16] == time[5] && s[17..19] == time[6..8] && s[19] == f[0] && s[|s| - 1] == f[|f| - 1]
    ensures |f| >= 7 ==> s[20..26] == f[1..7]
  {
    assert s[19..] == f by {
      assert s[11..][8..] == s[19..];
    }
    assert time[2] == s[11 + 2] && time[5] == s[11 + 5];
    assert f[0] == s[19 + 0] && f[|f| - 1] == s[19 + |f| - 1];
  }

  // ---------------------------------------------------------------- what the parser accepts

  lemma {:induction false} ParsedDigits(s: string)
    ensures ParseDigits(s).Some? ==> ParseDigits(s).value < Pow10(|s|) && s == Digits(ParseDigits(s).value, |s|)
  {
    if s != [] && ParseDigits(s).Some? {
      var front, last := s[..|s| - 1], s[|s| - 1];
      ParsedDigits(front);
      var n := ParseDigits(front).value;
      assert ParseDigits(s).value == 10 * n + (last - '0') as nat;
      assert ParseDigits(s).value / 10 == n && DIGITS[ParseDigits(s).value % 10] == last;
      assert s == front + [last];
    }
  }

  lemma {:induction false} ScannedText(s: string, layout: seq<Field>)
    ensures Scan(s, layout).Some? ==>
      Fits(Scan(s, layout).value, layout) && s == Print(Scan(s, layout).value, layout)
  {
    if layout != [] && Scan(s, layout).Some? {
      var w, tail := layout[0].width, layout[0].tail;
      var d, rest := s[..w], s[w + |tail|..];
      ParsedDigits(d);
      ScannedText(rest, layout[1..]);
      var n, more := ParseDigits(d).value, Scan(rest, layout[1..]).value;
      var v := Scan(s, layout).value;
      hide Digits, ParseDigits, Scan, Pow10;
      assert v == [n] + more && v[1..] == more;
      assert s == d + tail + rest;
    }
  }

  lemma SixZeros()
    ensures Pow10(6) == 1_000_000 && Digits(0, 6) == "000000"
  {
    Pow10Values();
    assert Digits(0, 3) == "000";
  }

  lemma ParsedSeconds(s: string, t: Instant)
    requires Scan(s, DATE_TIME) == Some(Seconds(t))
    ensures s == SecondsText(t)
  {
    Pow10Values();
    ScannedText(s, DATE_TIME);
  }

  lemma AssembledSeconds(fields: Option<seq<nat>>, microsecond: Option<nat>)
    ensures Assemble(fields, microsecond).Some? ==>
              var t := Assemble(fields, microsecond).value;
              fields == Some(Seconds(t)) && microsecond == Some(t.microsecond)
  {
    if Assemble(fields, microsecond).Some? {
      assert fields.value == Seconds(Assemble(fields, microsecond).value);
    }
  }

  lemma ParsedFraction(s: string, t: Instant)
    requires |s| == 6 && ParseDigits(s) == Some(t.microsecond)
    ensures "." + s == if t.microsecond == 0 then ".000000" else Fraction(t)
  {
    SixZeros();
    ParsedDigits(s);
    assert "." + "000000" == ".000000";
  }

  /** The parser reads what `isoformat` writes, or the same with a fraction of six zeros, and nothing else. */
  lemma ParsesOnlyIsoFormat(s: string)
    ensures FromIsoFormat(s).Some? ==>
      var t := FromIsoFormat(s).value;
      s == IsoFormat(t) || (t.microsecond == 0 && s == SecondsText(t) + ".000000" + UTC_OFFSET)
  {
    hide Assemble, Scan, ParseDigits, SecondsText;
    if FromIsoFormat(s).Some? {
      var t := FromIsoFormat(s).value;
      var fields := Scan(s[..19], DATE_TIME);
      if |s| == 25 {
        AssembledSeconds(fields, Some(0));
        ParsedSeconds(s[..19], t);
        assert s == s[..19] + s[19..];
      } else {
        AssembledSeconds(fields, ParseDigits(s[20..26]));
        ParsedSeconds(s[..19], t);
        hide Fraction;
        ParsedFraction(s[20..26], t);
        assert s == s[..19] + ("." + s[20..26]) + s[26..];
      }
    }
  }

  /** `fromisoformat` undoes `isoformat`. */
  lemma IsoFormatRoundTrip(t: Instant)
    ensures FromIsoFormat(IsoFormat(t)) == Some(t)
  {
    var s := IsoFormat(t);
    TextShape(t);
    Pow10Values();
    ScanPrint(Seconds(t), DATE_TIME);
    assert s[..19] == SecondsText(t);
    if t.microsecond == 0 {
      assert s[19..] == UTC_OFFSET;
    } else {
      var d := Digits(t.microsecond, 6);
      DigitsRoundTrip(t.microsecond, 6);
      assert s == SecondsText(t) + "." + d + UTC_OFFSET;
      assert s[20..26] == d && s[26..] == UTC_OFFSET && s[19] == '.';
    }
  }

  /** The parser puts back the offset that `to_iso8601` abbreviated. */
  lemma OffsetRoundTrip(t: Instant)
    ensures Replace(ToIso8601(t), "Z", UTC_OFFSET) == IsoFormat(t)
  {
    var head := SecondsText(t) + Fraction(t);
    StoredText(t);
    TextShape(t);
    assert ToIso8601(t) == head + "Z";
    ReplaceSkips(head, "Z", "Z", UTC_OFFSET);
    assert "Z"[..1] == "Z" && "Z"[1..] == [];
    assert Replace("Z", "Z", UTC_OFFSET) == UTC_OFFSET + Replace([], "Z", UTC_OFFSET);
  }

  /** Reading a stored timestamp gives the instant back, for every UTC microsecond instant. */
  lemma RoundTrip(t: Instant)
    ensures ParseTimestamp(ToIso8601(t)) == Some(t)
  {
    OffsetRoundTrip(t);
    IsoFormatRoundTrip(t);
  }

  /** The order every `ORDER BY created_at` sees. */
  predicate Precedes(a: Instant, b: Instant) {
    TextLess(ToIso8601(a), ToIso8601(b))
  }

  lemma FractionOrder(a: Instant, b: Instant)
    ensures TextLess(Fraction(a) + "Z", Fraction(b) + "Z") <==>
            (b.microsecond == 0 && a.microsecond > 0) || (0 < a.microsecond < b.microsecond)
  {
    Pow10Values();
    var x, y := Fraction(a) + "Z", Fraction(b) + "Z";
    if a.microsecond > 0 && b.microsecond > 0 {
      var da, db := Digits(a.microsecond, 6), Digits(b.microsecond, 6);
      DigitsOrder(a.microsecond, b.microsecond, 6);
      HeadDecides(da, "Z", db, "Z");
      TextLessIsStrict("Z", "Z");
      assert x == "." + (da + "Z") && y == "." + (db + "Z");
      HeadDecides(".", da + "Z", ".", db + "Z");
      TextLessIsStrict(".", ".");
    } else {
      TextLessIsStrict(x, y);
    }
  }

  /** The earlier instant loses its fraction and the later one falls into the same second. */
  predicate FractionDropped(a: Instant, b: Instant) {
    SameSecond(a, b) && a.microsecond == 0
  }

  /**
   Text order is time order, except exactly when the two instants share a second and the
   earlier has no microseconds: its fraction is dropped, and `Z` sorts after `.`.
   */
  lemma TextOrderIsTimeOrder(a: Instant, b: Instant)
    requires Earlier(a, b)
    ensures Precedes(a, b) <==> !FractionDropped(a, b)
    ensures Precedes(b, a) <==> FractionDropped(a, b)
  {
    StoredText(a);
    StoredText(b);
    Pow10Values();
    PrintOrder(Seconds(a), Seconds(b), DATE_TIME);
    PrintOrder(Seconds(b), Seconds(a), DATE_TIME);
    PrintInjective(Seconds(a), Seconds(b), DATE_TIME);
    HeadDecides(SecondsText(a), Fraction(a) + "Z", SecondsText(b), Fraction(b) + "Z");
    HeadDecides(SecondsText(b), Fraction(b) + "Z", SecondsText(a), Fraction(a) + "Z");
    FractionOrder(a, b);
    FractionOrder(b, a);
    TextLessIsStrict(SecondsText(a), SecondsText(b));
  }

  lemma {:induction false} LexLessIsTotal(a: seq<nat>, b: seq<nat>)
    requires |a| == |b|
    ensures a == b || LexLess(a, b) || LexLess(b, a)
    ensures !(LexLess(a, b) && LexLess(b, a)) && !LexLess(a, a)
  {
    if a != [] {
      LexLessIsTotal(a[1..], b[1..]);
      assert a == [a[0]] + a[1..] && b == [b[0]] + b[1..];
    }
  }

  lemma EarlierIsTotal(a: Instant, b: Instant)
    ensures a == b || Earlier(a, b) || Earlier(b, a)
    ensures !(Earlier(a, b) && Earlier(b, a))
  {
    var x, y := Seconds(a), Seconds(b);
    LexLessIsTotal(x, y);
    assert x == y ==> x[0] == y[0] && x[1] == y[1] && x[2] == y[2] && x[3] == y[3] && x[4] == y[4] && x[5] == y[5];
  }

  /** The order of stored texts, for any two instants. */
  lemma TextOrder(a: Instant, b: Instant)
    ensures Precedes(a, b) <==>
            (Earlier(a, b) && !FractionDropped(a, b)) || (Earlier(b, a) && FractionDropped(b, a))
  {
    EarlierIsTotal(a, b);
    if Earlier(a, b) {
      TextOrderIsTimeOrder(a, b);
    } else if Earlier(b, a) {
      TextOrderIsTimeOrder(b, a);
    } else {
      TextLessIsStrict(ToIso8601(a), ToIso8601(b));
    }
  }

  /** Between two instants of one second there are only instants of that second. */
  lemma BetweenIsSameSecond(a: Instant, b: Instant, c: Instant)
    requires Earlier(a, b) && (b == c || Earlier(b, c)) && SameSecond(a, c)
    ensures SameSecond(a, b)
  {
    LexLessIsTotal(Seconds(a), Seconds(b));
  }

  /** Different instants are never stored as the same text. */
  lemma TextIsUnique(a: Instant, b: Instant)
    ensures ToIso8601(a) == ToIso8601(b) <==> a == b
  {
    RoundTrip(a);
    RoundTrip(b);
  }
}
