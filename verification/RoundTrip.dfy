/** The redacting and truncating marshaller of databricks/sdk/logger/round_trip_logger.py. */
module RoundTrip {
  import opened Common

  /** A decoded JSON value. Numbers stand for themselves. The entries of an object come in the order of
      the text. */
  datatype Json =
    | Null
    | Bool(value: bool)
    | Number(digits: string)
    | Str(text: string)
    | List(items: seq<Json>)
    | Obj(entries: seq<Entry>)

  datatype Entry = Entry(key: string, value: Json)

  predicate IsMasked(key: string) {
    key in {"bytes_value", "string_value", "token_value", "value", "content"}
  }

  function Marker(): string {
    "**REDACTED**"
  }

  /** The number of bytes that strings keep, and the length of the printed form of a value, which is what
      the budget is charged with. All results hold for any such measure. */
  datatype Format = Format(debugTruncateBytes: int, printedLength: Json -> nat) {
    function Limit(): nat {
      Max(debugTruncateBytes, 96)
    }
  }

  // ---------- Strings ----------

  function Utf8Size(c: char): nat {
    var code := c as int;
    if code < 0x80 then 1 else if code < 0x800 then 2 else if code < 0x1_0000 then 3 else 4
  }

  function Utf8Length(s: string): (n: nat)
    ensures n >= |s|
  {
    if s == [] then 0 else Utf8Size(s[0]) + Utf8Length(s[1..])
  }

  function Decimal(n: nat): string {
    if n < 10 then [('0' as int + n) as char] else Decimal(n / 10) + Decimal(n % 10)
  }

  /** Python's slice s[:n]. */
  function Prefix(s: string, n: nat): string {
    s[..Min(n, |s|)]
  }

  function OnlyNBytes(s: string, numBytes: nat): string {
    var diff := Utf8Length(s) - numBytes;
    if diff > 0 then Prefix(s, numBytes) + "... (" + Decimal(diff) + " more bytes)" else s
  }

  /** The bits of a code point fit into those that so many bytes of UTF-8 carry, and not into those that one
      byte less carries (section 3 of RFC 3629). */
  lemma Utf8SizeIsLeast(c: char)
    ensures 1 <= Utf8Size(c) <= 4 && c as int < Capacity(Utf8Size(c))
    ensures Utf8Size(c) > 1 ==> c as int >= Capacity(Utf8Size(c) - 1)
  {
  }

  /** Code points below this fit into n bytes: 7 bits, or 6 for each byte after the first and the rest of that. */
  ghost function Capacity(n: int): int
    requires 1 <= n <= 4
  {
    if n == 1 then 128 else if n == 2 then 32 * 64 else if n == 3 then 16 * 64 * 64 else 8 * 64 * 64 * 64
  }

  lemma {:induction false} Utf8LengthAdds(s: string, t: string)
    ensures Utf8Length(s + t) == Utf8Length(s) + Utf8Length(t)
    ensures forall c: char :: Utf8Length([c]) == Utf8Size(c)
  {
    if s == [] {
      assert s + t == t;
    } else {
      assert (s + t)[1..] == s[1..] + t;
      Utf8LengthAdds(s[1..], t);
    }
  }

  // ---------- Numerals ----------

  predicate IsDigit(c: char) {
    '0' <= c <= '9'
  }

  /** The number that is read from digits, from the left. */
  ghost function Value(digits: string): nat
    requires forall i :: 0 <= i < |digits| ==> IsDigit(digits[i])
  {
    if digits == [] then 0 else 10 * Value(digits[..|digits| - 1]) + DigitValue(digits[|digits| - 1])
  }

  ghost function DigitValue(c: char): nat
    requires IsDigit(c)
  {
    c as int - '0' as int
  }

  /** The digits write the number, without leading zeros. */
  ghost predicate Numeral(digits: string, n: nat) {
    && digits != [] && (forall i :: 0 <= i < |digits| ==> IsDigit(digits[i]))
    && Value(digits) == n
    && (digits[0] == '0' ==> |digits| == 1)
  }

  lemma {:induction false} DecimalIsNumeral(n: nat)
    ensures Numeral(Decimal(n), n)
    ensures n > 0 ==> Decimal(n)[0] != '0'
  {
    if n >= 10 {
      DecimalIsNumeral(n / 10);
      DecimalIsNumeral(n % 10);
      var high, low := Decimal(n / 10), Decimal(n % 10);
      assert Decimal(n) == high + low && |low| == 1;
      assert (high + low)[..|high|] == high;
    } else {
      assert Decimal(n)[..0] == [];
    }
  }

  /** The text says that there are n more of something. */
  ghost predicate Announces(text: string, ending: string, n: nat) {
    && |text| > 5 + |ending|
    && text[..5] == "... (" && text[|text| - |ending|..] == ending
    && Numeral(text[5..|text| - |ending|], n)
  }

  lemma NumberIsAnnounced(n: nat, ending: string)
    ensures Announces("... (" + Decimal(n) + ending, ending, n)
  {
    DecimalIsNumeral(n);
    var digits := Decimal(n);
    var text := "... (" + digits + ending;
    assert text[..5] == "... (" && text[5..|text| - |ending|] == digits && text[|text| - |ending|..] == ending;
  }

  // ---------- Cut strings ----------

  /** A string whose UTF-8 form is within the limit is printed whole. Of any other one as many characters are
      shown as the limit has bytes, if there are, and it is announced how many bytes the form has beyond the
      limit. */
  lemma CutStringSays(s: string, numBytes: nat)
    ensures var out := OnlyNBytes(s, numBytes);
            if Utf8Length(s) <= numBytes then out == s
            else
              var shown := if numBytes < |s| then numBytes else |s|;
              |out| >= shown && out[..shown] == s[..shown]
              && Announces(out[shown..], " more bytes)", Utf8Length(s) - numBytes)
  {
    if Utf8Length(s) > numBytes {
      var beyond: nat := Utf8Length(s) - numBytes;
      OnlyNBytesCuts(s, numBytes, beyond);
      hide *;
      NumberIsAnnounced(beyond, " more bytes)");
      FirstPart(s[..if numBytes < |s| then numBytes else |s|], "... (" + Decimal(beyond) + " more bytes)");
    }
  }

  lemma OnlyNBytesCuts(s: string, numBytes: nat, beyond: nat)
    requires Utf8Length(s) == numBytes + beyond && beyond > 0
    ensures OnlyNBytes(s, numBytes)
            == s[..if numBytes < |s| then numBytes else |s|] + ("... (" + Decimal(beyond) + " more bytes)")
  {
    var shown := s[..if numBytes < |s| then numBytes else |s|];
    assert Prefix(s, numBytes) == shown;
    hide Utf8Length, Decimal, Prefix;
    AppendedInTurn(shown, "... (", Decimal(beyond), " more bytes)");
  }

  lemma AppendedInTurn(a: string, b: string, c: string, d: string)
    ensures a + b + c + d == a + (b + c + d)
  {
  }

  lemma FirstPart(s: string, t: string)
    ensures (s + t)[..|s|] == s && (s + t)[|s|..] == t
  {
  }

  /** What is shown of a cut string adds up with what is announced to the whole exactly if the limit falls
      within the string and all that is shown is ASCII, for the cut counts characters. */
  lemma CutStringAddsUp(s: string, numBytes: nat, shown: nat, announced: nat)
    requires Utf8Length(s) > numBytes
    requires shown == if numBytes < |s| then numBytes else |s|
    requires |OnlyNBytes(s, numBytes)| >= shown
    requires Announces(OnlyNBytes(s, numBytes)[shown..], " more bytes)", announced)
    ensures Utf8Length(s[..shown]) + announced == Utf8Length(s)
            <==> |s| >= numBytes && forall i :: 0 <= i < numBytes ==> s[i] as int < 128
  {
    CutStringSays(s, numBytes);
    AsciiLength(s[..shown]);
    if |s| < numBytes {
      assert s[..shown] == s;
    } else {
      assert forall i :: 0 <= i < numBytes ==> s[..shown][i] == s[i];
    }
  }

  /** As many letters of two bytes each as the limit has bytes: all of them are shown, and as many bytes more
      are announced. The least limit is 96. */
  lemma CutStringCanOverstate(f: Format)
    ensures f.Limit() == if f.debugTruncateBytes > 96 then f.debugTruncateBytes else 96
    ensures var s, out := Accents(f.Limit()), OnlyNBytes(Accents(f.Limit()), f.Limit());
            |out| >= |s| && out[..|s|] == s && Announces(out[|s|..], " more bytes)", f.Limit())
  {
    AccentsLength(f.Limit());
    CutStringSays(Accents(f.Limit()), f.Limit());
  }

  function Accents(n: nat): (s: string)
    ensures |s| == n
  {
    if n == 0 then [] else "\U{00e9}" + Accents(n - 1)
  }

  lemma {:induction false} AccentsLength(n: nat)
    ensures Utf8Length(Accents(n)) == 2 * n
  {
    if n > 0 {
      AccentsLength(n - 1);
      assert Accents(n)[1..] == Accents(n - 1);
    }
  }

  lemma {:induction false} AsciiLength(s: string)
    ensures Utf8Length(s) == |s| <==> forall i :: 0 <= i < |s| ==> Utf8Size(s[i]) == 1
  {
    if s != [] {
      AsciiLength(s[1..]);
      if Utf8Length(s) == |s| {
        forall i | 0 <= i < |s|
          ensures Utf8Size(s[i]) == 1
        {
          assert i > 0 ==> s[i] == s[1..][i - 1];
        }
      }
    }
  }

  // ---------- Objects: masking and sorting ----------

  /** Lexicographic order of code points: a is a prefix of b, or smaller where they first differ. */
  ghost predicate NotAfter(a: string, b: string) {
    a <= b || exists i :: Differ(a, b, i) && a[i] < b[i]
  }

  ghost predicate Differ(a: string, b: string, i: int) {
    0 <= i < |a| && i < |b| && a[..i] == b[..i] && a[i] != b[i]
  }

  function MaskEntry(e: Entry): Entry {
    if IsMasked(e.key) then Entry(e.key, Str(Marker())) else e
  }

  function Mask(entries: seq<Entry>): (masked: seq<Entry>)
    ensures |masked| == |entries| && forall i :: 0 <= i < |entries| ==> masked[i] == MaskEntry(entries[i])
  {
    seq(|entries|, i requires 0 <= i < |entries| => MaskEntry(entries[i]))
  }

  /** Lexicographic order of code points. */
  predicate AtMost(a: string, b: string) {
    a == [] || (b != [] && (a[0] < b[0] || (a[0] == b[0] && AtMost(a[1..], b[1..]))))
  }

  lemma {:induction false} AtMostIsLexicographic(a: string, b: string)
    ensures AtMost(a, b) <==> NotAfter(a, b)
  {
    if a != [] && b != [] {
      if a[0] != b[0] {
        DifferAtOnce(a, b);
      } else {
        AtMostIsLexicographic(a[1..], b[1..]);
        NotAfterStep(a, b);
      }
    }
  }

  lemma DifferAtOnce(a: string, b: string)
    requires a != [] && b != [] && a[0] != b[0]
    ensures NotAfter(a, b) <==> a[0] < b[0]
  {
    assert Differ(a, b, 0);
    forall i | Differ(a, b, i)
      ensures i == 0
    {
    }
  }

  lemma NotAfterStep(a: string, b: string)
    requires a != [] && b != [] && a[0] == b[0]
    ensures NotAfter(a, b) <==> NotAfter(a[1..], b[1..])
  {
    var a', b' := a[1..], b[1..];
    assert a == [a[0]] + a' && b == [b[0]] + b';
    forall i | 0 <= i < |a'| && i < |b'|
      ensures Differ(a, b, i + 1) <==> Differ(a', b', i)
    {
      assert a[..i + 1] == [a[0]] + a'[..i] && b[..i + 1] == [b[0]] + b'[..i];
      assert a[..i + 1][1..] == a'[..i] && b[..i + 1][1..] == b'[..i];
    }
    if i :| Differ(a', b', i) && a'[i] < b'[i] {
      assert Differ(a, b, i + 1);
    }
    if i :| Differ(a, b, i) && a[i] < b[i] {
      assert Differ(a', b', i - 1);
    }
    assert a <= b <==> a' <= b';
  }

  lemma {:induction false} AtMostIsTotal(a: string, b: string)
    ensures AtMost(a, b) || AtMost(b, a)
  {
    if a != [] && b != [] && a[0] == b[0] {
      AtMostIsTotal(a[1..], b[1..]);
    }
  }

  function Insert(e: Entry, entries: seq<Entry>): (r: seq<Entry>)
    ensures |r| == |entries| + 1
  {
    if entries == [] || AtMost(e.key, entries[0].key) then [e] + entries
    else [entries[0]] + Insert(e, entries[1..])
  }

  function SortByKey(entries: seq<Entry>): (r: seq<Entry>)
    ensures |r| == |entries|
  {
    if entries == [] then [] else Insert(entries[0], SortByKey(entries[1..]))
  }

  lemma {:induction false} InsertPermutes(e: Entry, entries: seq<Entry>)
    ensures multiset(Insert(e, entries)) == multiset{e} + multiset(entries)
  {
    if entries != [] && !AtMost(e.key, entries[0].key) {
      InsertPermutes(e, entries[1..]);
      assert entries == [entries[0]] + entries[1..];
    }
  }

  lemma {:induction false} SortPermutes(entries: seq<Entry>)
    ensures multiset(SortByKey(entries)) == multiset(entries)
  {
    if entries != [] {
      SortPermutes(entries[1..]);
      InsertPermutes(entries[0], SortByKey(entries[1..]));
      assert entries == [entries[0]] + entries[1..];
    }
  }

  ghost predicate Ordered(entries: seq<Entry>) {
    forall i :: 0 < i < |entries| ==> AtMost(entries[i - 1].key, entries[i].key)
  }

  lemma {:induction false} InsertKeepsOrder(e: Entry, entries: seq<Entry>)
    requires Ordered(entries)
    ensures Ordered(Insert(e, entries))
  {
    if entries != [] && !AtMost(e.key, entries[0].key) {
      AtMostIsTotal(e.key, entries[0].key);
      assert forall i :: 0 < i < |entries[1..]| ==> entries[1..][i] == entries[i + 1];
      InsertKeepsOrder(e, entries[1..]);
    }
  }

  lemma {:induction false} SortOrders(entries: seq<Entry>)
    ensures Ordered(SortByKey(entries))
  {
    if entries != [] {
      SortOrders(entries[1..]);
      InsertKeepsOrder(entries[0], SortByKey(entries[1..]));
    }
  }

  lemma SortKeepsEntries(entries: seq<Entry>)
    ensures forall e :: e in SortByKey(entries) <==> e in entries
  {
    SortPermutes(entries);
    forall e
      ensures e in SortByKey(entries) <==> e in entries
    {
      assert e in SortByKey(entries) <==> e in multiset(SortByKey(entries));
    }
  }

  // ---------- Marshalling ----------

  function Height(v: Json): nat {
    match v
    case List(items) => 1 + HeightOfItems(items)
    case Obj(entries) => 1 + HeightOfEntries(entries)
    case _ => 0
  }

  function HeightOfItems(items: seq<Json>): nat {
    if items == [] then 0 else Max(Height(items[0]), HeightOfItems(items[1..]))
  }

  function HeightOfEntries(entries: seq<Entry>): nat {
    if entries == [] then 0 else Max(Height(entries[0].value), HeightOfEntries(entries[1..]))
  }

  lemma {:induction false} HeightBounds(entries: seq<Entry>, i: nat)
    requires i < |entries|
    ensures Height(entries[i].value) <= HeightOfEntries(entries)
  {
    if i > 0 {
      HeightBounds(entries[1..], i - 1);
    }
  }

  lemma {:induction false} HeightIsReached(entries: seq<Entry>, h: nat)
    requires forall e <- entries :: Height(e.value) <= h
    ensures HeightOfEntries(entries) <= h
  {
    if entries != [] {
      assert forall e <- entries[1..] :: e in entries;
      HeightIsReached(entries[1..], h);
    }
  }

  /** What the marshaller goes through in an object is no higher than the object's values. */
  lemma PreparedHeight(entries: seq<Entry>)
    ensures HeightOfEntries(SortByKey(Mask(entries))) <= HeightOfEntries(entries)
  {
    SortKeepsEntries(Mask(entries));
    forall e <- SortByKey(Mask(entries))
      ensures Height(e.value) <= HeightOfEntries(entries)
    {
      var i :| 0 <= i < |entries| && e == MaskEntry(entries[i]);
      HeightBounds(entries, i);
    }
    HeightIsReached(SortByKey(Mask(entries)), HeightOfEntries(entries));
  }

  function Additional(n: nat): Json {
    Str("... (" + Decimal(n) + " additional elements)")
  }

  /** The value that is printed for v within a budget. */
  function Marshal(f: Format, v: Json, budget: int): Json
    decreases Height(v), 0
  {
    match v
    case Obj(entries) =>
      PreparedHeight(entries);
      Obj(MarshalEntries(f, SortByKey(Mask(entries)), budget))
    case List(items) => List(MarshalItems(f, items, false, budget))
    case Str(text) => Str(OnlyNBytes(text, f.Limit()))
    case _ => v
  }

  function MarshalEntries(f: Format, entries: seq<Entry>, budget: int): seq<Entry>
    decreases HeightOfEntries(entries), 1, |entries|
  {
    if entries == [] then []
    else
      var raw := Marshal(f, entries[0].value, budget);
      [Entry(entries[0].key, raw)] + MarshalEntries(f, entries[1..], budget - f.printedLength(raw))
  }

  /** `started` says that these are not the first elements of their list. */
  function MarshalItems(f: Format, items: seq<Json>, started: bool, budget: int): seq<Json>
    decreases HeightOfItems(items), 1, |items|
  {
    if items == [] then []
    else if started && budget <= 0 then [Additional(|items|)]
    else
      var raw := Marshal(f, items[0], budget);
      [raw] + MarshalItems(f, items[1..], true, budget - f.printedLength(raw))
  }

  lemma EntriesStep(f: Format, entries: seq<Entry>, budget: int)
    requires entries != []
    ensures Height(entries[0].value) <= HeightOfEntries(entries)
    ensures HeightOfEntries(entries[1..]) <= HeightOfEntries(entries)
    ensures var raw := Marshal(f, entries[0].value, budget);
            MarshalEntries(f, entries, budget)
            == [Entry(entries[0].key, raw)] + MarshalEntries(f, entries[1..], budget - f.printedLength(raw))
  {
    hide Marshal, Height;
  }

  lemma ItemsStep(f: Format, items: seq<Json>, started: bool, budget: int)
    requires items != []
    ensures Height(items[0]) <= HeightOfItems(items) && HeightOfItems(items[1..]) <= HeightOfItems(items)
    ensures MarshalItems(f, items, started, budget)
            == if started && budget <= 0 then [Additional(|items|)]
               else
                 var raw := Marshal(f, items[0], budget);
                 [raw] + MarshalItems(f, items[1..], true, budget - f.printedLength(raw))
  {
    hide Marshal, Height, Additional;
  }

  // ---------- Nothing secret is printed ----------

  /** The keys whose values are not to be seen. */
  ghost predicate Secret(key: string) {
    || key == "bytes_value" || key == "string_value" || key == "token_value"
    || key == "value" || key == "content"
  }

  /** Every entry under a secret key, at any depth, is the marker. */
  ghost predicate Redacted(v: Json) {
    match v
    case List(items) => forall x <- items :: Redacted(x)
    case Obj(entries) => forall e <- entries :: (Secret(e.key) ==> e.value == Str("**REDACTED**")) && Redacted(e.value)
    case _ => true
  }

  lemma SecretIsMasked(key: string)
    ensures Secret(key) <==> IsMasked(key)
    ensures Marker() == "**REDACTED**"
  {
  }

  /** No limit is so low as to cut the marker. */
  lemma MarkerIsKept(f: Format, budget: int)
    ensures Marshal(f, Str("**REDACTED**"), budget) == Str("**REDACTED**")
  {
    AsciiLength("**REDACTED**");
  }

  lemma MaskedAreMarkers(entries: seq<Entry>)
    ensures AreMarkers(SortByKey(Mask(entries)))
  {
    hide IsMasked, Marker, SortByKey, Secret;
    SortKeepsEntries(Mask(entries));
    forall i | 0 <= i < |entries|
      ensures var e := SortByKey(Mask(entries))[i]; Secret(e.key) ==> e.value == Str("**REDACTED**")
    {
      SecretIsMasked(SortByKey(Mask(entries))[i].key);
      assert SortByKey(Mask(entries))[i] in Mask(entries);
    }
  }

  ghost predicate AreMarkers(entries: seq<Entry>) {
    forall i :: 0 <= i < |entries| ==> Secret(entries[i].key) ==> entries[i].value == Str("**REDACTED**")
  }

  lemma {:induction false} MarshalRedacts(f: Format, v: Json, budget: int)
    ensures Redacted(Marshal(f, v, budget))
    decreases Height(v), 0
  {
    match v
    case Obj(entries) =>
      var prepared := SortByKey(Mask(entries));
      PreparedHeight(entries);
      MaskedAreMarkers(entries);
      hide SortByKey, Mask, Secret, MarshalEntries, Redacted, HeightOfEntries;
      EntriesAreRedacted(f, prepared, budget);
    case List(items) => ItemsAreRedacted(f, items, false, budget);
    case _ =>
  }

  lemma RedactedCons(e: Entry, entries: seq<Entry>)
    requires (Secret(e.key) ==> e.value == Str("**REDACTED**")) && Redacted(e.value) && Redacted(Obj(entries))
    ensures Redacted(Obj([e] + entries))
  {
    hide Secret;
  }

  lemma {:induction false} EntriesAreRedacted(f: Format, entries: seq<Entry>, budget: int)
    requires AreMarkers(entries)
    ensures Redacted(Obj(MarshalEntries(f, entries, budget)))
    decreases HeightOfEntries(entries), 1, |entries|
  {
    hide Secret, Marshal, MarshalEntries, Height, HeightOfEntries, Redacted;
    if entries != [] {
      var raw := Marshal(f, entries[0].value, budget);
      var rest := budget - f.printedLength(raw);
      MarkerIsKept(f, budget);
      EntriesStep(f, entries, budget);
      assert AreMarkers(entries[1..]);
      MarshalRedacts(f, entries[0].value, budget);
      EntriesAreRedacted(f, entries[1..], rest);
      RedactedCons(Entry(entries[0].key, raw), MarshalEntries(f, entries[1..], rest));
    } else {
      NoEntries(f, budget);
    }
  }

  lemma {:induction false} ItemsAreRedacted(f: Format, items: seq<Json>, started: bool, budget: int)
    ensures Redacted(List(MarshalItems(f, items, started, budget)))
    decreases HeightOfItems(items), 1, |items|
  {
    hide Marshal, Height, OnlyNBytes;
    if items != [] && !(started && budget <= 0) {
      var raw := Marshal(f, items[0], budget);
      MarshalRedacts(f, items[0], budget);
      ItemsAreRedacted(f, items[1..], true, budget - f.printedLength(raw));
    }
  }

  /** The value without what its masked entries hold. */
  function Erase(v: Json): Json {
    match v
    case List(items) => List(EraseItems(items))
    case Obj(entries) => Obj(EraseEntries(entries))
    case _ => v
  }

  function EraseItems(items: seq<Json>): seq<Json> {
    if items == [] then [] else [Erase(items[0])] + EraseItems(items[1..])
  }

  function EraseEntries(entries: seq<Entry>): (r: seq<Entry>)
    ensures |r| == |entries|
  {
    if entries == [] then []
    else
      var e := entries[0];
      [Entry(e.key, if IsMasked(e.key) then Null else Erase(e.value))] + EraseEntries(entries[1..])
  }

  /** EraseEntries once the masked entries are markers, which it leaves alone. */
  function EraseOthers(entries: seq<Entry>): (r: seq<Entry>)
    ensures |r| == |entries|
  {
    if entries == [] then [] else [EraseOther(entries[0])] + EraseOthers(entries[1..])
  }

  function EraseOther(e: Entry): Entry {
    if IsMasked(e.key) then e else Entry(e.key, Erase(e.value))
  }

  lemma MaskCons(e: Entry, entries: seq<Entry>)
    ensures Mask([e] + entries) == [MaskEntry(e)] + Mask(entries)
  {
    hide MaskEntry;
  }

  lemma {:induction false} MaskErased(entries: seq<Entry>)
    ensures Mask(EraseEntries(entries)) == EraseOthers(Mask(entries))
  {
    hide IsMasked, Marker, Mask, Erase;
    if entries != [] {
      MaskErased(entries[1..]);
      assert entries == [entries[0]] + entries[1..];
      MaskCons(entries[0], entries[1..]);
      MaskCons(EraseEntries(entries)[0], EraseEntries(entries[1..]));
      assert ([MaskEntry(entries[0])] + Mask(entries[1..]))[1..] == Mask(entries[1..]);
    }
  }

  lemma {:induction false} InsertErased(e: Entry, entries: seq<Entry>)
    ensures Insert(EraseOther(e), EraseOthers(entries)) == EraseOthers(Insert(e, entries))
  {
    if entries != [] {
      assert EraseOthers(entries)[1..] == EraseOthers(entries[1..]);
      if AtMost(e.key, entries[0].key) {
        assert ([e] + entries)[1..] == entries;
      } else {
        InsertErased(e, entries[1..]);
        assert Insert(e, entries)[1..] == Insert(e, entries[1..]);
      }
    }
  }

  lemma {:induction false} SortErased(entries: seq<Entry>)
    ensures SortByKey(EraseOthers(entries)) == EraseOthers(SortByKey(entries))
  {
    if entries != [] {
      SortErased(entries[1..]);
      assert EraseOthers(entries)[1..] == EraseOthers(entries[1..]);
      InsertErased(entries[0], SortByKey(entries[1..]));
    }
  }

  lemma {:induction false} MarshalErased(f: Format, v: Json, budget: int)
    ensures Marshal(f, Erase(v), budget) == Marshal(f, v, budget)
    decreases Height(v), 0
  {
    match v
    case Obj(entries) =>
      PreparedHeight(entries);
      MaskErased(entries);
      SortErased(Mask(entries));
      MarshalErasedEntries(f, SortByKey(Mask(entries)), budget);
    case List(items) => MarshalErasedItems(f, items, false, budget);
    case _ =>
  }

  lemma {:induction false} MarshalErasedEntries(f: Format, entries: seq<Entry>, budget: int)
    ensures MarshalEntries(f, EraseOthers(entries), budget) == MarshalEntries(f, entries, budget)
    decreases HeightOfEntries(entries), 1, |entries|
  {
    if entries != [] {
      hide IsMasked, SortByKey, OnlyNBytes;
      var raw := Marshal(f, entries[0].value, budget);
      MarshalErased(f, entries[0].value, budget);
      MarshalErasedEntries(f, entries[1..], budget - f.printedLength(raw));
      assert EraseOthers(entries)[1..] == EraseOthers(entries[1..]);
    }
  }

  lemma {:induction false} MarshalErasedItems(f: Format, items: seq<Json>, started: bool, budget: int)
    ensures MarshalItems(f, EraseItems(items), started, budget) == MarshalItems(f, items, started, budget)
    decreases HeightOfItems(items), 1, |items|
  {
    EraseItemsLength(items);
    if items != [] && !(started && budget <= 0) {
      var raw := Marshal(f, items[0], budget);
      MarshalErased(f, items[0], budget);
      MarshalErasedItems(f, items[1..], true, budget - f.printedLength(raw));
      assert EraseItems(items)[1..] == EraseItems(items[1..]);
    }
  }

  lemma {:induction false} EraseItemsLength(items: seq<Json>)
    ensures |EraseItems(items)| == |items|
  {
    if items != [] {
      EraseItemsLength(items[1..]);
    }
  }

  /** Nothing of the output depends on a masked entry: values that differ in such entries only, at any
      depth, are printed alike, down to where they are cut. */
  lemma OutputIgnoresMasked(f: Format, v: Json, w: Json, budget: int)
    requires Erase(v) == Erase(w)
    ensures Marshal(f, v, budget) == Marshal(f, w, budget)
  {
    MarshalErased(f, v, budget);
    MarshalErased(f, w, budget);
  }

  // ---------- Nothing is dropped in silence ----------

  /** An object is printed with all its keys, in order. */
  lemma ObjectKeepsKeys(f: Format, entries: seq<Entry>, budget: int)
    ensures var out := Marshal(f, Obj(entries), budget);
            && out.Obj?
            && (forall i :: 0 < i < |out.entries| ==> NotAfter(out.entries[i - 1].key, out.entries[i].key))
            && multiset(Keys(out.entries)) == multiset(Keys(entries))
  {
    var masked := Mask(entries);
    SortOrders(masked);
    MarshalKeepsKeys(f, SortByKey(masked), budget);
    PreparedHeight(entries);
    MarshalOfObject(f, entries, budget);
    var out := MarshalEntries(f, SortByKey(masked), budget);
    OrderIsOfKeys(SortByKey(masked), out);
    forall i | 0 < i < |out|
      ensures NotAfter(out[i - 1].key, out[i].key)
    {
      AtMostIsLexicographic(out[i - 1].key, out[i].key);
    }
    hide SortByKey, Mask, IsMasked, Marshal, MarshalEntries, Ordered, HeightOfEntries, Height, AtMost, NotAfter;
    MaskKeepsKeys(entries);
    SortPermutesKeys(masked);
  }

  lemma MarshalOfObject(f: Format, entries: seq<Entry>, budget: int)
    ensures Marshal(f, Obj(entries), budget) == Obj(MarshalEntries(f, SortByKey(Mask(entries)), budget))
  {
  }

  lemma MaskKeepsKeys(entries: seq<Entry>)
    ensures Keys(Mask(entries)) == Keys(entries)
  {
  }

  lemma {:induction false} MarshalKeepsKeys(f: Format, entries: seq<Entry>, budget: int)
    ensures Keys(MarshalEntries(f, entries, budget)) == Keys(entries)
    decreases |entries|
  {
    hide Marshal, MarshalEntries, Height, HeightOfEntries, Keys;
    if entries == [] {
      NoEntries(f, budget);
    } else {
      var raw := Marshal(f, entries[0].value, budget);
      var rest := budget - f.printedLength(raw);
      EntriesStep(f, entries, budget);
      MarshalKeepsKeys(f, entries[1..], rest);
      assert entries == [entries[0]] + entries[1..];
      KeysCons(entries[0], entries[1..]);
      KeysCons(Entry(entries[0].key, raw), MarshalEntries(f, entries[1..], rest));
    }
  }

  lemma KeysCons(e: Entry, entries: seq<Entry>)
    ensures Keys([e] + entries) == [e.key] + Keys(entries)
  {
  }

  lemma OrderIsOfKeys(entries: seq<Entry>, entries': seq<Entry>)
    requires Ordered(entries) && Keys(entries) == Keys(entries')
    ensures Ordered(entries')
  {
    forall i | 0 < i < |entries'|
      ensures AtMost(entries'[i - 1].key, entries'[i].key)
    {
      assert Keys(entries)[i - 1] == Keys(entries')[i - 1] && Keys(entries)[i] == Keys(entries')[i];
    }
  }

  ghost function Keys(entries: seq<Entry>): (keys: seq<string>)
    ensures |keys| == |entries| && forall i :: 0 <= i < |keys| ==> keys[i] == entries[i].key
  {
    seq(|entries|, i requires 0 <= i < |entries| => entries[i].key)
  }

  lemma {:induction false} InsertPermutesKeys(e: Entry, entries: seq<Entry>)
    ensures multiset(Keys(Insert(e, entries))) == multiset{e.key} + multiset(Keys(entries))
  {
    if entries == [] || AtMost(e.key, entries[0].key) {
      assert Keys(Insert(e, entries)) == [e.key] + Keys(entries);
    } else {
      InsertPermutesKeys(e, entries[1..]);
      assert entries == [entries[0]] + entries[1..];
      KeysCons(entries[0], Insert(e, entries[1..]));
      KeysCons(entries[0], entries[1..]);
    }
  }

  lemma {:induction false} SortPermutesKeys(entries: seq<Entry>)
    ensures multiset(Keys(SortByKey(entries))) == multiset(Keys(entries))
  {
    if entries != [] {
      SortPermutesKeys(entries[1..]);
      InsertPermutesKeys(entries[0], SortByKey(entries[1..]));
      assert Keys(entries) == [entries[0].key] + Keys(entries[1..]);
    } else {
      assert Keys(SortByKey(entries)) == Keys(entries);
    }
  }

  /** The total printed length of the values. */
  function Spent(f: Format, values: seq<Json>): nat {
    if values == [] then 0 else f.printedLength(values[0]) + Spent(f, values[1..])
  }

  /** An element of a list is printed with what the ones before it have left of the budget. */
  ghost predicate Shows(f: Format, items: seq<Json>, started: bool, budget: int, out: seq<Json>, i: nat)
    requires i < |items| && i < |out|
  {
    && out[i] == Marshal(f, items[i], budget - Spent(f, out[..i]))
    && (started || i > 0 ==> Spent(f, out[..i]) < budget)
  }

  /** What is printed in place of a list: a prefix is shown, the first element at least and as many as the
      budget allows, followed by how many more there are; the elements shown and the announced ones are all
      there were. */
  ghost predicate Accounts(f: Format, items: seq<Json>, started: bool, budget: int, out: seq<Json>, shown: nat) {
    && shown <= |items|
    && |out| == shown + (if shown < |items| then 1 else 0)
    && (forall i :: 0 <= i < shown ==> Shows(f, items, started, budget, out, i))
    && (shown < |items| ==>
          && (started || shown > 0)
          && out[shown].Str? && Announces(out[shown].text, " additional elements)", |items| - shown)
          && Spent(f, out[..shown]) >= budget)
  }

  lemma {:induction false} ItemsAddUp(f: Format, items: seq<Json>, started: bool, budget: int) returns (shown: nat)
    ensures Accounts(f, items, started, budget, MarshalItems(f, items, started, budget), shown)
    decreases |items|
  {
    hide Marshal, Height, HeightOfItems, Additional, MarshalItems, Announces;
    if items == [] {
      NoItems(f, started, budget);
      shown := 0;
    } else {
      ItemsStep(f, items, started, budget);
      if started && budget <= 0 {
        shown := 0;
        AdditionalIsAnnounced(|items|);
      } else {
        var raw := Marshal(f, items[0], budget);
        var rest := budget - f.printedLength(raw);
        var more := ItemsAddUp(f, items[1..], true, rest);
        shown := more + 1;
        ShownAfter(f, items, started, budget, raw, MarshalItems(f, items[1..], true, rest), more);
      }
    }
  }

  lemma AdditionalIsAnnounced(n: nat)
    ensures Additional(n).Str? && Announces(Additional(n).text, " additional elements)", n)
  {
    NumberIsAnnounced(n, " additional elements)");
  }

  /** The elements shown of a list and those announced are all there are; the list starts with the whole
      budget, which its elements use up. */
  lemma ListAddsUp(f: Format, items: seq<Json>, budget: int) returns (shown: nat)
    ensures var out := Marshal(f, List(items), budget);
            out.List? && Accounts(f, items, false, budget, out.items, shown)
  {
    shown := ItemsAddUp(f, items, false, budget);
    hide MarshalItems, Accounts;
  }

  /** Null, truth values and numbers are printed as they are, and strings as OnlyNBytes says. */
  lemma PlainIsShown(f: Format, v: Json, budget: int)
    ensures v.Null? || v.Bool? || v.Number? ==> Marshal(f, v, budget) == v
    ensures v.Str? ==> Marshal(f, v, budget) == Str(OnlyNBytes(v.text, f.Limit()))
  {
  }

  lemma ShownAfter(f: Format, items: seq<Json>, started: bool, budget: int, raw: Json, later: seq<Json>, more: nat)
    requires items != [] && raw == Marshal(f, items[0], budget) && (started ==> budget > 0)
    requires Accounts(f, items[1..], true, budget - f.printedLength(raw), later, more)
    ensures Accounts(f, items, started, budget, [raw] + later, more + 1)
  {
    hide Marshal, Announces;
    var out := [raw] + later;
    forall i | 0 < i <= |out|
      ensures Spent(f, out[..i]) == f.printedLength(raw) + Spent(f, later[..i - 1])
    {
      assert out[..i][1..] == later[..i - 1];
    }
    forall i | 0 <= i < more + 1
      ensures Shows(f, items, started, budget, out, i)
    {
      if i > 0 {
        assert Shows(f, items[1..], true, budget - f.printedLength(raw), later, i - 1);
      }
    }
  }

  function Values(entries: seq<Entry>): (values: seq<Json>)
    ensures |values| == |entries| && forall i :: 0 <= i < |entries| ==> values[i] == entries[i].value
  {
    seq(|entries|, i requires 0 <= i < |entries| => entries[i].value)
  }

  /** An entry of an object is printed as the marker or with what the entries before it have left of the
      budget. */
  ghost predicate ShowsEntry(f: Format, e: Entry, budget: int, out: seq<Entry>, i: nat)
    requires i < |out|
  {
    && out[i].key == e.key
    && out[i].value == if Secret(e.key) then Str("**REDACTED**")
                       else Marshal(f, e.value, budget - Spent(f, Values(out[..i])))
  }

  lemma {:induction false} EntriesAddUp(f: Format, entries: seq<Entry>, budget: int)
    ensures var out := MarshalEntries(f, entries, budget);
            && |out| == |entries|
            && forall i :: 0 <= i < |entries| ==>
                 && out[i].key == entries[i].key
                 && out[i].value == Marshal(f, entries[i].value, budget - Spent(f, Values(out[..i])))
    decreases |entries|
  {
    hide Marshal, Height, HeightOfEntries, MarshalEntries;
    if entries == [] {
      NoEntries(f, budget);
    } else {
      EntriesStep(f, entries, budget);
      var raw := Marshal(f, entries[0].value, budget);
      var rest := budget - f.printedLength(raw);
      var later := MarshalEntries(f, entries[1..], rest);
      EntriesAddUp(f, entries[1..], rest);
      var out := [Entry(entries[0].key, raw)] + later;
      forall i | 0 <= i < |entries|
        ensures out[i].key == entries[i].key
        ensures out[i].value == Marshal(f, entries[i].value, budget - Spent(f, Values(out[..i])))
      {
        if i > 0 {
          assert Values(out[..i])[1..] == Values(later[..i - 1]);
          assert out[i] == later[i - 1] && entries[i] == entries[1..][i - 1];
        }
      }
    }
  }

  lemma PreparedEntry(entries: seq<Entry>, i: nat) returns (e: Entry)
    requires i < |entries|
    ensures e in entries && SortByKey(Mask(entries))[i].key == e.key
    ensures SortByKey(Mask(entries))[i].value == if Secret(e.key) then Str("**REDACTED**") else e.value
  {
    var prepared := SortByKey(Mask(entries));
    SortKeepsEntries(Mask(entries));
    assert prepared[i] in Mask(entries);
    hide SortByKey;
    var k :| 0 <= k < |entries| && prepared[i] == MaskEntry(entries[k]);
    e := entries[k];
    SecretIsMasked(e.key);
    hide Secret, IsMasked;
  }

  /** Every entry of the printed object is an entry of the object, shown or redacted. */
  lemma ObjectShowsEntries(f: Format, entries: seq<Entry>, budget: int, i: nat) returns (e: Entry)
    requires i < |entries|
    ensures var out := Marshal(f, Obj(entries), budget);
            && out.Obj? && |out.entries| == |entries|
            && e in entries && ShowsEntry(f, e, budget, out.entries, i)
  {
    hide Marshal, SortByKey, Secret, MarshalEntries, Mask, Spent;
    var prepared := SortByKey(Mask(entries));
    MarshalOfObject(f, entries, budget);
    EntriesAddUp(f, prepared, budget);
    e := PreparedEntry(entries, i);
    MarkerIsKept(f, budget - Spent(f, Values(MarshalEntries(f, prepared, budget)[..i])));
  }

  // ---------- The methods ----------

  /** Overwrites the masked values of a dictionary. */
  method MaskInPlace(m: array<Entry>)
    modifies m
    ensures m[..] == Mask(old(m[..]))
  {
    for i := 0 to m.Length
      invariant forall k :: 0 <= k < i ==> m[k] == MaskEntry(old(m[k]))
      invariant forall k :: i <= k < m.Length ==> m[k] == old(m[k])
    {
      if IsMasked(m[i].key) {
        m[i] := Entry(m[i].key, Str(Marker()));
      }
    }
  }

  method RecursiveMarshal(f: Format, v: Json, budget: int) returns (r: Json)
    ensures r == Marshal(f, v, budget)
    decreases Height(v), 0
  {
    match v {
      case Obj(entries) =>
        var out := RecursiveMarshalDict(f, entries, budget);
        r := Obj(out);
      case List(items) =>
        var out := RecursiveMarshalList(f, items, budget);
        r := List(out);
      case Str(text) => r := Str(OnlyNBytes(text, f.Limit()));
      case _ => r := v;
    }
  }

  /** The entries of a dictionary, masked in place and sorted. */
  method Prepare(entries: seq<Entry>) returns (prepared: seq<Entry>)
    ensures prepared == SortByKey(Mask(entries))
  {
    var m := new Entry[|entries|](i requires 0 <= i < |entries| => entries[i]);
    assert m[..] == entries;
    MaskInPlace(m);
    prepared := SortByKey(m[..]);
  }

  method RecursiveMarshalDict(f: Format, entries: seq<Entry>, budget: int) returns (out: seq<Entry>)
    ensures out == MarshalEntries(f, SortByKey(Mask(entries)), budget)
    decreases HeightOfEntries(entries), 2
  {
    hide SortByKey, Mask, IsMasked, Marshal, MarshalEntries, Height, HeightOfEntries;
    var prepared := Prepare(entries);
    PreparedHeight(entries);
    out := [];
    var left := budget;
    assert prepared[0..] == prepared;
    for i := 0 to |prepared|
      invariant HeightOfEntries(prepared[i..]) <= HeightOfEntries(entries)
      invariant out + MarshalEntries(f, prepared[i..], left) == MarshalEntries(f, prepared, budget)
    {
      assert prepared[i..][0] == prepared[i] && prepared[i..][1..] == prepared[i + 1..];
      EntriesStep(f, prepared[i..], left);
      var raw := RecursiveMarshal(f, prepared[i].value, left);
      out := out + [Entry(prepared[i].key, raw)];
      left := left - f.printedLength(raw);
    }
    assert prepared[|prepared|..] == [];
    NoEntries(f, left);
  }

  lemma NoEntries(f: Format, budget: int)
    ensures MarshalEntries(f, [], budget) == [] && Redacted(Obj([]))
  {
  }

  method RecursiveMarshalList(f: Format, items: seq<Json>, budget: int) returns (out: seq<Json>)
    ensures out == MarshalItems(f, items, false, budget)
    decreases HeightOfItems(items), 2
  {
    hide Marshal, MarshalItems, Height, HeightOfItems, Additional;
    out := [];
    var left := budget;
    assert items[0..] == items;
    for i := 0 to |items|
      invariant |out| == i && HeightOfItems(items[i..]) <= HeightOfItems(items)
      invariant out + MarshalItems(f, items[i..], i > 0, left) == MarshalItems(f, items, false, budget)
    {
      assert items[i..][0] == items[i] && items[i..][1..] == items[i + 1..];
      ItemsStep(f, items[i..], i > 0, left);
      if i > 0 && 0 >= left {
        out := out + [Additional(|items| - |out|)];
        return;
      }
      var raw := RecursiveMarshal(f, items[i], left);
      out := out + [raw];
      left := left - f.printedLength(raw);
    }
    assert items[|items|..] == [];
    NoItems(f, |items| > 0, left);
  }

  lemma NoItems(f: Format, started: bool, budget: int)
    ensures MarshalItems(f, [], started, budget) == []
  {
  }

  /** A whole body is marshalled with the limit of strings as its budget. */
  method RedactedDump(f: Format, v: Json) returns (raw: Json)
    ensures raw == Marshal(f, v, if f.debugTruncateBytes > 96 then f.debugTruncateBytes else 96)
  {
    var maxBytes := 96;
    if f.debugTruncateBytes > maxBytes {
      maxBytes := f.debugTruncateBytes;
    }
    raw := RecursiveMarshal(f, v, maxBytes);
  }
}
