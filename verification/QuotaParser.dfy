/** Tenant quota specifications `name=slots:N[,memory:BYTES][,pids:N]` (src/runtime.rs:1747-1811). */
module QuotaParser {
  import opened Types

  // ---- text

  /** The Unicode White_Space characters. */
  predicate IsSpace(c: char) {
    var n := c as int;
    9 <= n <= 13 || n == 0x20 || n == 0x85 || n == 0xA0 || n == 0x1680 || 0x2000 <= n <= 0x200A
    || n == 0x2028 || n == 0x2029 || n == 0x202F || n == 0x205F || n == 0x3000
  }

  predicate AllSpace(s: string) {
    forall i :: 0 <= i < |s| ==> IsSpace(s[i])
  }

  function TrimStart(s: string): string {
    if s != [] && IsSpace(s[0]) then TrimStart(s[1..]) else s
  }

  function TrimEnd(s: string): string {
    if s != [] && IsSpace(s[|s| - 1]) then TrimEnd(s[..|s| - 1]) else s
  }

  function Trim(s: string): string { TrimEnd(TrimStart(s)) }

  /** Position of the first `c`, or the length when there is none. */
  function Find(s: string, c: char): (i: nat)
    ensures i <= |s| && (i < |s| ==> s[i] == c) && forall j :: 0 <= j < i ==> s[j] != c
  {
    if s == [] || s[0] == c then 0 else 1 + Find(s[1..], c)
  }

  function Split(s: string, c: char): (parts: seq<string>)
    ensures parts != []
    decreases |s|
  {
    var i := Find(s, c);
    if i == |s| then [s] else [s[..i]] + Split(s[i + 1..], c)
  }

  predicate IsDigit(c: char) { '0' <= c <= '9' }

  predicate AllDigits(s: string) {
    forall i :: 0 <= i < |s| ==> IsDigit(s[i])
  }

  function Value(s: string): nat
    requires AllDigits(s)
  {
    if s == [] then 0 else 10 * Value(s[..|s| - 1]) + (s[|s| - 1] as int - '0' as int)
  }

  /** The library's u64 parser: an optional plus sign, then digits of a value below 2^64. */
  function ParseU64(s: string): Option<U64> {
    var digits := if |s| > 1 && s[0] == '+' then s[1..] else s;
    if digits != [] && AllDigits(digits) && Value(digits) <= U64_MAX then Some(Value(digits)) else None
  }

  // ---- one segment

  datatype QuotaError = NoEquals | EmptyName | Malformed | BadValue(key: Dim) | UnknownKey | MissingSlots

  datatype Segment = Blank | Setting(key: Dim, value: U64) | Broken(error: QuotaError)

  function KeyName(d: Dim): string {
    match d
    case Slots => "slots"
    case Memory => "memory"
    case Pids => "pids"
  }

  function KeyOf(name: string): Option<Dim> {
    if name == "slots" then Some(Slots)
    else if name == "memory" then Some(Memory)
    else if name == "pids" then Some(Pids)
    else None
  }

  function Meaning(part: string): Segment {
    var kv := Trim(part);
    if kv == [] then Blank
    else
      var colon := Find(kv, ':');
      if colon == |kv| then Broken(Malformed)
      else
        var key := KeyOf(Trim(kv[..colon]));
        if key.None? then Broken(UnknownKey)
        else
          var value := ParseU64(Trim(kv[colon + 1..]));
          if value.None? then Broken(BadValue(key.value)) else Setting(key.value, value.value)
  }

  function Meanings(parts: seq<string>): (ms: seq<Segment>)
    ensures |ms| == |parts| && forall i :: 0 <= i < |parts| ==> ms[i] == Meaning(parts[i])
  {
    seq(|parts|, i requires 0 <= i < |parts| => Meaning(parts[i]))
  }

  // ---- the grammar

  predicate Sets(m: Segment, d: Dim) { m.Setting? && m.key == d }

  /** The setting of `d` that stands: the last duplicate wins. */
  function Last(ms: seq<Segment>, d: Dim): Option<U64> {
    if ms == [] then None
    else if Sets(ms[|ms| - 1], d) then Some(ms[|ms| - 1].value)
    else Last(ms[..|ms| - 1], d)
  }

  /** A setting stands exactly when some segment makes it and no later one touches that key. */
  lemma {:induction false} LastMeans(ms: seq<Segment>, d: Dim, v: U64)
    ensures Last(ms, d) == Some(v) <==>
      exists k :: 0 <= k < |ms| && ms[k] == Setting(d, v) && forall j :: k < j < |ms| ==> !Sets(ms[j], d)
  {
    if ms != [] {
      var n := |ms| - 1;
      LastMeans(ms[..n], d, v);
      if Sets(ms[n], d) {
        if ms[n].value == v { assert ms[n] == Setting(d, v); }
        if k :| 0 <= k < |ms| && ms[k] == Setting(d, v) && forall j :: k < j < |ms| ==> !Sets(ms[j], d) {
          assert k == n;
        }
      } else {
        if Last(ms, d) == Some(v) {
          var k :| 0 <= k < n && ms[..n][k] == Setting(d, v) && forall j :: k < j < n ==> !Sets(ms[..n][j], d);
          assert ms[k] == Setting(d, v);
          assert forall j :: k < j < n ==> ms[..n][j] == ms[j];
        }
        if k :| 0 <= k < |ms| && ms[k] == Setting(d, v) && forall j :: k < j < |ms| ==> !Sets(ms[j], d) {
          assert k < n && ms[..n][k] == Setting(d, v);
          assert forall j :: k < j < n ==> ms[..n][j] == ms[j];
        }
      }
    }
  }

  predicate WellFormed(ms: seq<Segment>) {
    forall j :: 0 <= j < |ms| ==> !ms[j].Broken?
  }

  /** The meanings of the comma-separated parts after the first '='. */
  function Body(raw: string): seq<Segment> {
    var eq := Find(raw, '=');
    if eq == |raw| then [] else Meanings(Split(raw[eq + 1..], ','))
  }

  /** The specification `raw` says that tenant `name` has quota `quota`: a non-empty trimmed name
      before the first '=', only blank parts and well-formed settings after it, and a setting for
      each dimension the quota caps, slots among them. */
  predicate Denotes(raw: string, name: string, quota: Capacity) {
    && Find(raw, '=') < |raw|
    && name == Trim(raw[..Find(raw, '=')]) && name != []
    && Says(Body(raw), quota)
  }

  predicate FirstBroken(ms: seq<Segment>, e: QuotaError) {
    exists i :: 0 <= i < |ms| && ms[i] == Broken(e) && WellFormed(ms[..i])
  }

  /** What an error says of the parts: no slots among well-formed ones, or the first broken one. */
  predicate Explains(ms: seq<Segment>, e: QuotaError) {
    if e.MissingSlots? then WellFormed(ms) && Last(ms, Slots).None? else FirstBroken(ms, e)
  }

  predicate Says(ms: seq<Segment>, quota: Capacity) {
    WellFormed(ms) && Last(ms, Slots) == Some(quota.taskSlots)
    && Last(ms, Memory) == quota.memoryBytes && Last(ms, Pids) == quota.pids
  }

  lemma ErrorSaysNothing(ms: seq<Segment>, e: QuotaError, quota: Capacity)
    requires Explains(ms, e)
    ensures !Says(ms, quota)
  {
  }

  // ---- the parser

  lemma LastNext(ms: seq<Segment>, i: nat, d: Dim)
    requires i < |ms|
    ensures Last(ms[..i + 1], d) == if Sets(ms[i], d) then Some(ms[i].value) else Last(ms[..i], d)
  {
    assert ms[..i + 1][..i] == ms[..i];
  }

  /** Parsing succeeds exactly on the grammar and returns what the specification denotes; an
      error is a missing '=', an empty name, the first broken segment, or missing slots. */
  method ParseTenantQuota(raw: string) returns (r: Result<(string, Capacity), QuotaError>)
    ensures forall name, quota :: r == Ok((name, quota)) <==> Denotes(raw, name, quota)
    ensures r.Err? ==>
      if Find(raw, '=') == |raw| then r.error == NoEquals
      else if Trim(raw[..Find(raw, '=')]) == [] then r.error == EmptyName
      else Explains(Body(raw), r.error)
  {
    var eq := Find(raw, '=');
    if eq == |raw| {
      return Err(NoEquals);
    }
    var name := Trim(raw[..eq]);
    if name == [] {
      return Err(EmptyName);
    }
    var result := ParseParts(Split(raw[eq + 1..], ','));
    match result {
      case Err(error) =>
        r := Err(error);
        forall quota ensures !Says(Body(raw), quota) { ErrorSaysNothing(Body(raw), error, quota); }
      case Ok(quota) =>
        r := Ok((name, quota));
    }
  }

  /** The parsing loop over the comma-separated parts and the final check for slots. */
  method ParseParts(parts: seq<string>) returns (r: Result<Capacity, QuotaError>)
    ensures r.Ok? ==> Says(Meanings(parts), r.value)
    ensures r.Err? ==> Explains(Meanings(parts), r.error)
  {
    ghost var ms := Meanings(parts);
    var slots: Option<U64> := None;
    var memory: Option<U64> := None;
    var pids: Option<U64> := None;
    for i := 0 to |parts|
      invariant WellFormed(ms[..i])
      invariant slots == Last(ms[..i], Slots) && memory == Last(ms[..i], Memory) && pids == Last(ms[..i], Pids)
    {
      LastNext(ms, i, Slots);
      LastNext(ms, i, Memory);
      LastNext(ms, i, Pids);
      var error;
      slots, memory, pids, error := ParseSegment(parts[i], slots, memory, pids);
      if error.Some? {
        assert ms[i] == Broken(error.value);
        return Err(error.value);
      }
      assert ms[..i + 1] == ms[..i] + [ms[i]];
    }
    assert ms[..|parts|] == ms;
    if slots.None? {
      return Err(MissingSlots);
    }
    r := Ok(Capacity(slots.value, memory, pids));
  }

  /** The body of the parsing loop: one comma-separated part. */
  method ParseSegment(part: string, slots: Option<U64>, memory: Option<U64>, pids: Option<U64>)
    returns (slots': Option<U64>, memory': Option<U64>, pids': Option<U64>, error: Option<QuotaError>)
    ensures error == if Meaning(part).Broken? then Some(Meaning(part).error) else None
    ensures error.Some? ==> error.value.Malformed? || error.value.UnknownKey? || error.value.BadValue?
    ensures slots' == if Sets(Meaning(part), Slots) then Some(Meaning(part).value) else slots
    ensures memory' == if Sets(Meaning(part), Memory) then Some(Meaning(part).value) else memory
    ensures pids' == if Sets(Meaning(part), Pids) then Some(Meaning(part).value) else pids
  {
    slots', memory', pids', error := slots, memory, pids, None;
    var kv := Trim(part);
    if kv == [] {
      return;
    }
    var colon := Find(kv, ':');
    if colon == |kv| {
      error := Some(Malformed);
      return;
    }
    var key, val := Trim(kv[..colon]), Trim(kv[colon + 1..]);
    var number := ParseU64(val);
    if key == "slots" {
      if number.None? { error := Some(BadValue(Slots)); } else { slots' := number; }
    } else if key == "memory" {
      if number.None? { error := Some(BadValue(Memory)); } else { memory' := number; }
    } else if key == "pids" {
      if number.None? { error := Some(BadValue(Pids)); } else { pids' := number; }
    } else {
      error := Some(UnknownKey);
    }
  }

  // ---- printing

  function Digits(n: nat): (s: string)
    ensures s != [] && AllDigits(s)
  {
    var d := [('0' as int + n % 10) as char];
    if n < 10 then d else Digits(n / 10) + d
  }

  lemma {:induction false} DigitsRoundTrip(n: nat)
    ensures Value(Digits(n)) == n
  {
    if n < 10 {
      assert Digits(n)[..|Digits(n)| - 1] == [];
    } else {
      DigitsRoundTrip(n / 10);
      assert Digits(n)[..|Digits(n)| - 1] == Digits(n / 10);
    }
  }

  /** A printed number parses back exactly up to 2^64 - 1. */
  lemma NumberRoundTrip(n: nat)
    ensures ParseU64(Digits(n)) == if n <= U64_MAX then Some(n) else None
  {
    DigitsRoundTrip(n);
    assert IsDigit(Digits(n)[0]);
  }

  /** One setting with white space around its key and its value. */
  datatype Entry = Entry(key: Dim, number: nat, pad1: string, pad2: string, pad3: string, pad4: string)

  predicate Padded(e: Entry) {
    AllSpace(e.pad1) && AllSpace(e.pad2) && AllSpace(e.pad3) && AllSpace(e.pad4)
  }

  function Core(e: Entry): string { KeyName(e.key) + e.pad2 + ":" + e.pad3 + Digits(e.number) }

  function Text(e: Entry): string { e.pad1 + Core(e) + e.pad4 }

  function Join(texts: seq<string>): string {
    if texts == [] then [] else if |texts| == 1 then texts[0] else texts[0] + "," + Join(texts[1..])
  }

  function Texts(entries: seq<Entry>): (ts: seq<string>)
    ensures |ts| == |entries| && forall i :: 0 <= i < |entries| ==> ts[i] == Text(entries[i])
  {
    seq(|entries|, i requires 0 <= i < |entries| => Text(entries[i]))
  }

  function Print(name: string, pad1: string, pad2: string, entries: seq<Entry>): string {
    pad1 + name + pad2 + "=" + Join(Texts(entries))
  }

  lemma {:induction false} TrimStartPad(pad: string, s: string)
    requires AllSpace(pad) && (s != [] ==> !IsSpace(s[0]))
    ensures TrimStart(pad + s) == s
  {
    if pad == [] {
      assert pad + s == s;
    } else {
      assert (pad + s)[1..] == pad[1..] + s;
      TrimStartPad(pad[1..], s);
    }
  }

  lemma {:induction false} TrimEndPad(s: string, pad: string)
    requires AllSpace(pad) && (s != [] ==> !IsSpace(s[|s| - 1]))
    ensures TrimEnd(s + pad) == s
  {
    if pad == [] {
      assert s + pad == s;
    } else {
      assert (s + pad)[..|s + pad| - 1] == s + pad[..|pad| - 1];
      TrimEndPad(s, pad[..|pad| - 1]);
    }
  }

  lemma TrimPadded(pad1: string, s: string, pad2: string)
    requires AllSpace(pad1) && AllSpace(pad2)
    requires s != [] && !IsSpace(s[0]) && !IsSpace(s[|s| - 1])
    ensures Trim(pad1 + s + pad2) == s
  {
    assert pad1 + s + pad2 == pad1 + (s + pad2);
    TrimStartPad(pad1, s + pad2);
    TrimEndPad(s, pad2);
  }

  lemma {:induction false} FindAfter(prefix: string, rest: string, c: char)
    requires forall i :: 0 <= i < |prefix| ==> prefix[i] != c
    ensures Find(prefix + [c] + rest, c) == |prefix|
  {
    var s := prefix + [c] + rest;
    assert s[|prefix|] == c;
    assert forall i :: 0 <= i < |prefix| ==> s[i] == prefix[i];
  }

  lemma FindNone(s: string, c: char)
    requires forall i :: 0 <= i < |s| ==> s[i] != c
    ensures Find(s, c) == |s|
  {
  }

  predicate Without(s: string, c: char) {
    forall i :: 0 <= i < |s| ==> s[i] != c
  }

  lemma {:induction false} SplitJoin(texts: seq<string>)
    requires texts != [] && forall i :: 0 <= i < |texts| ==> Without(texts[i], ',')
    ensures Split(Join(texts), ',') == texts
  {
    if |texts| == 1 {
      FindNone(texts[0], ',');
    } else {
      var rest := Join(texts[1..]);
      SplitJoin(texts[1..]);
      FindAfter(texts[0], rest, ',');
      assert Join(texts) == texts[0] + [','] + rest;
      assert Join(texts)[..|texts[0]|] == texts[0] && Join(texts)[|texts[0]| + 1..] == rest;
    }
  }

  lemma KeyNameFacts(d: Dim)
    ensures KeyOf(KeyName(d)) == Some(d) && KeyName(d) != []
    ensures !IsSpace(KeyName(d)[0]) && !IsSpace(KeyName(d)[|KeyName(d)| - 1])
    ensures Without(KeyName(d), ':') && Without(KeyName(d), ',')
  {
  }

  lemma DigitsFacts(n: nat)
    ensures Without(Digits(n), ',') && !IsSpace(Digits(n)[0]) && !IsSpace(Digits(n)[|Digits(n)| - 1])
  {
  }

  lemma CoreShape(e: Entry)
    requires Padded(e)
    ensures Core(e) != [] && !IsSpace(Core(e)[0]) && !IsSpace(Core(e)[|Core(e)| - 1])
    ensures Find(Core(e), ':') == |KeyName(e.key) + e.pad2|
    ensures Core(e)[..Find(Core(e), ':')] == KeyName(e.key) + e.pad2
    ensures Core(e)[Find(Core(e), ':') + 1..] == e.pad3 + Digits(e.number)
  {
    KeyNameFacts(e.key);
    DigitsFacts(e.number);
    var left, right := KeyName(e.key) + e.pad2, e.pad3 + Digits(e.number);
    assert Core(e) == left + [':'] + right;
    FindAfter(left, right, ':');
    assert Core(e)[0] == KeyName(e.key)[0];
    assert Core(e)[|Core(e)| - 1] == Digits(e.number)[|Digits(e.number)| - 1];
  }

  lemma EntryParts(e: Entry)
    requires Padded(e)
    ensures Trim(Text(e)) == Core(e)
    ensures Trim(KeyName(e.key) + e.pad2) == KeyName(e.key)
    ensures Trim(e.pad3 + Digits(e.number)) == Digits(e.number)
  {
    CoreShape(e);
    TrimPadded(e.pad1, Core(e), e.pad4);
    KeyNameFacts(e.key);
    DigitsFacts(e.number);
    TrimPadded([], KeyName(e.key), e.pad2);
    assert [] + KeyName(e.key) + e.pad2 == KeyName(e.key) + e.pad2;
    TrimPadded(e.pad3, Digits(e.number), []);
    assert e.pad3 + Digits(e.number) + [] == e.pad3 + Digits(e.number);
  }

  /** The meaning of a part whose trimmed text splits at its colon as given. */
  lemma MeaningOf(part: string, d: Dim, text: string)
    requires var kv := Trim(part);
             var colon := Find(kv, ':');
             colon < |kv| && Trim(kv[..colon]) == KeyName(d) && Trim(kv[colon + 1..]) == text
    ensures Meaning(part) == if ParseU64(text).Some? then Setting(d, ParseU64(text).value) else Broken(BadValue(d))
  {
  }

  lemma EntryShape(e: Entry)
    requires Padded(e)
    ensures var kv := Trim(Text(e));
            var colon := Find(kv, ':');
            colon < |kv| && Trim(kv[..colon]) == KeyName(e.key) && Trim(kv[colon + 1..]) == Digits(e.number)
  {
    EntryParts(e);
    CoreShape(e);
  }

  /** A printed entry means its setting, or a bad value when the number does not fit a u64. */
  lemma EntryRoundTrip(e: Entry)
    requires Padded(e)
    ensures Meaning(Text(e)) ==
      if e.number <= U64_MAX then Setting(e.key, e.number) else Broken(BadValue(e.key))
  {
    EntryShape(e);
    NumberRoundTrip(e.number);
    MeaningOf(Text(e), e.key, Digits(e.number));
  }

  lemma TextHasNoComma(e: Entry)
    requires Padded(e)
    ensures Without(Text(e), ',')
  {
  }

  /** The last entry for `d`, if any. */
  function LastEntry(entries: seq<Entry>, d: Dim): Option<U64>
    requires forall i :: 0 <= i < |entries| ==> entries[i].number <= U64_MAX
  {
    if entries == [] then None
    else if entries[|entries| - 1].key == d then Some(entries[|entries| - 1].number)
    else LastEntry(entries[..|entries| - 1], d)
  }

  lemma {:induction false} EntriesStand(entries: seq<Entry>, d: Dim)
    requires forall i :: 0 <= i < |entries| ==> Padded(entries[i]) && entries[i].number <= U64_MAX
    ensures Last(Meanings(Texts(entries)), d) == LastEntry(entries, d)
  {
    if entries != [] {
      var n := |entries| - 1;
      EntriesStand(entries[..n], d);
      assert Meanings(Texts(entries))[..n] == Meanings(Texts(entries[..n]));
      EntryRoundTrip(entries[n]);
    }
  }

  predicate PlainName(name: string) {
    name != [] && !IsSpace(name[0]) && !IsSpace(name[|name| - 1]) && Without(name, '=')
  }

  /** What the parser sees of a printed specification. */
  lemma PrintedParts(name: string, pad1: string, pad2: string, entries: seq<Entry>)
    requires PlainName(name) && AllSpace(pad1) && AllSpace(pad2) && entries != []
    requires forall i :: 0 <= i < |entries| ==> Padded(entries[i])
    ensures var raw := Print(name, pad1, pad2, entries);
            && Find(raw, '=') < |raw|
            && Trim(raw[..Find(raw, '=')]) == name
            && Body(raw) == Meanings(Texts(entries))
  {
    var raw := Print(name, pad1, pad2, entries);
    var left, right := pad1 + name + pad2, Join(Texts(entries));
    assert raw == left + ['='] + right;
    assert Without(left, '=') by {
      assert Without(pad1, '=') && Without(pad2, '=');
    }
    FindAfter(left, right, '=');
    assert raw[..|left|] == left && raw[|left| + 1..] == right;
    TrimPadded(pad1, name, pad2);
    forall i | 0 <= i < |entries| ensures Without(Texts(entries)[i], ',') {
      TextHasNoComma(entries[i]);
    }
    SplitJoin(Texts(entries));
  }

  /** Printing any settings in any order with any padding, at least one of them slots, gives a
      specification that denotes exactly the last setting of each dimension. */
  lemma {:induction false} PrintRoundTrip(name: string, pad1: string, pad2: string, entries: seq<Entry>)
    requires PlainName(name) && AllSpace(pad1) && AllSpace(pad2)
    requires forall i :: 0 <= i < |entries| ==> Padded(entries[i]) && entries[i].number <= U64_MAX
    requires LastEntry(entries, Slots).Some?
    ensures Denotes(Print(name, pad1, pad2, entries), name,
                    Capacity(LastEntry(entries, Slots).value, LastEntry(entries, Memory), LastEntry(entries, Pids)))
  {
    PrintedParts(name, pad1, pad2, entries);
    forall i | 0 <= i < |entries| ensures !Meaning(Texts(entries)[i]).Broken? {
      EntryRoundTrip(entries[i]);
    }
    EntriesStand(entries, Slots);
    EntriesStand(entries, Memory);
    EntriesStand(entries, Pids);
  }

  /** ... and one number of 2^64 or more anywhere spoils the whole specification. */
  lemma {:induction false} OversizeIsRefused(name: string, pad1: string, pad2: string, entries: seq<Entry>, k: nat,
                          other: string, quota: Capacity)
    requires PlainName(name) && AllSpace(pad1) && AllSpace(pad2)
    requires forall i :: 0 <= i < |entries| ==> Padded(entries[i])
    requires k < |entries| && entries[k].number > U64_MAX
    ensures !Denotes(Print(name, pad1, pad2, entries), other, quota)
  {
    PrintedParts(name, pad1, pad2, entries);
    EntryRoundTrip(entries[k]);
    assert Meanings(Texts(entries))[k].Broken?;
  }
}
