/** The quota grammar said of the text itself, and what it refuses. */
module QuotaText {
  import opened Types
  import opened QuotaParser

  // ---- the pieces of text

  /** White space is tab to carriage return, space, and the other blanks and separators of Unicode. */
  lemma SpacesAre(c: char)
    ensures IsSpace(c) <==> c as int in {
      0x09, 0x0A, 0x0B, 0x0C, 0x0D, 0x20, 0x85, 0xA0, 0x1680, 0x2000, 0x2001, 0x2002, 0x2003, 0x2004, 0x2005,
      0x2006, 0x2007, 0x2008, 0x2009, 0x200A, 0x2028, 0x2029, 0x202F, 0x205F, 0x3000}
  {
  }

  /** Trimming takes white space off both ends and nothing else. */
  lemma {:induction false} TrimIsExact(s: string) returns (i: nat, j: nat)
    ensures i <= j <= |s| && Trim(s) == s[i..j] && AllSpace(s[..i]) && AllSpace(s[j..])
    ensures i < j ==> !IsSpace(s[i]) && !IsSpace(s[j - 1])
  {
    i := TrimStartIsExact(s);
    var k := TrimEndIsExact(s[i..]);
    j := i + k;
    assert s[i..][..k] == s[i..j] && s[i..][k..] == s[j..];
  }

  lemma {:induction false} TrimStartIsExact(s: string) returns (i: nat)
    ensures i <= |s| && TrimStart(s) == s[i..] && AllSpace(s[..i]) && (i < |s| ==> !IsSpace(s[i]))
  {
    if s != [] && IsSpace(s[0]) {
      var k := TrimStartIsExact(s[1..]);
      i := k + 1;
      assert s[1..][k..] == s[i..];
      forall n | 0 <= n < i ensures IsSpace(s[..i][n]) {
        if n > 0 { assert s[..i][n] == s[1..][..k][n - 1]; }
      }
    } else {
      i := 0;
      assert s[0..] == s;
    }
  }

  lemma {:induction false} TrimEndIsExact(s: string) returns (j: nat)
    ensures j <= |s| && TrimEnd(s) == s[..j] && AllSpace(s[j..]) && (j > 0 ==> !IsSpace(s[j - 1]))
  {
    if s != [] && IsSpace(s[|s| - 1]) {
      var n := |s| - 1;
      j := TrimEndIsExact(s[..n]);
      assert s[..n][..j] == s[..j];
      forall m | 0 <= m < |s[j..]| ensures IsSpace(s[j..][m]) {
        if j + m < n { assert s[j..][m] == s[..n][j..][m]; }
      }
    } else {
      j := |s|;
      assert s[..j] == s;
    }
  }

  /** Splitting cuts at every separator and nowhere else. */
  lemma {:induction false} SplitIsExact(s: string)
    ensures Join(Split(s, ',')) == s
    ensures forall k :: 0 <= k < |Split(s, ',')| ==> Without(Split(s, ',')[k], ',')
    decreases |s|
  {
    var i := Find(s, ',');
    if i < |s| {
      SplitIsExact(s[i + 1..]);
      assert s == s[..i] + "," + s[i + 1..];
    }
  }

  // ---- the grammar

  /** Digits of a number below 2^64, with an optional plus sign. */
  predicate NumberText(s: string) {
    var digits := if |s| > 1 && s[0] == '+' then s[1..] else s;
    digits != "" && AllDigits(digits) && Value(digits) < 0x1_0000_0000_0000_0000
  }

  function NumberOf(s: string): nat
    requires NumberText(s)
  {
    Value(if |s| > 1 && s[0] == '+' then s[1..] else s)
  }

  predicate Known(key: string) { key == "slots" || key == "memory" || key == "pids" }

  /** The trimmed text before and after the first colon of a part that has one. */
  predicate HasColon(part: string) { Find(Trim(part), ':') < |Trim(part)| }

  function KeyText(part: string): string
    requires HasColon(part)
  {
    Trim(Trim(part)[..Find(Trim(part), ':')])
  }

  function ValueText(part: string): string
    requires HasColon(part)
  {
    Trim(Trim(part)[Find(Trim(part), ':') + 1..])
  }

  /** A blank part, or a known key and a number on either side of a colon. */
  predicate Legal(part: string) {
    Trim(part) == "" || (HasColon(part) && Known(KeyText(part)) && NumberText(ValueText(part)))
  }

  predicate ForKey(part: string, key: string) {
    Trim(part) != "" && HasColon(part) && KeyText(part) == key
  }

  /** Part `i` gives the amount and no later part is for the same key. */
  predicate GivenAt(parts: seq<string>, key: string, v: U64, i: nat) {
    && i < |parts| && ForKey(parts[i], key)
    && NumberText(ValueText(parts[i])) && NumberOf(ValueText(parts[i])) == v
    && forall j :: i < j < |parts| ==> !ForKey(parts[j], key)
  }

  /** The last part for the key gives the amount; there is none without such a part. */
  predicate Gives(parts: seq<string>, key: string, amount: Option<U64>) {
    match amount
    case None => forall i :: 0 <= i < |parts| ==> !ForKey(parts[i], key)
    case Some(v) => exists i :: 0 <= i < |parts| && GivenAt(parts, key, v, i)
  }

  /** The text assigns the quota to the name. */
  predicate Reads(raw: string, name: string, quota: Capacity) {
    && Find(raw, '=') < |raw| && name != "" && name == Trim(raw[..Find(raw, '=')])
    && var parts := Split(raw[Find(raw, '=') + 1..], ',');
       && AllLegal(parts)
       && Gives(parts, "slots", Some(quota.taskSlots))
       && Gives(parts, "memory", quota.memoryBytes)
       && Gives(parts, "pids", quota.pids)
  }

  lemma NumberIsParsed(s: string)
    ensures ParseU64(s).Some? <==> NumberText(s)
    ensures NumberText(s) ==> ParseU64(s).value == NumberOf(s)
  {
  }

  lemma KeysAreNamed(d: Dim, key: string)
    ensures KeyOf(key) == Some(d) <==> key == KeyName(d)
    ensures KeyOf(key).Some? <==> Known(key)
  {
  }

  lemma PartMeans(part: string)
    ensures !Meaning(part).Broken? <==> Legal(part)
    ensures Meaning(part).Blank? <==> Trim(part) == ""
  {
    if Trim(part) != "" && HasColon(part) { NumberIsParsed(ValueText(part)); }
  }

  /** Which error a part is: no colon, an unknown key, or a bad value for a known one. */
  lemma BrokenMeans(part: string, e: QuotaError)
    requires !Legal(part)
    ensures Meaning(part) == Broken(e) <==>
      match e
      case Malformed => !HasColon(part)
      case UnknownKey => HasColon(part) && !Known(KeyText(part))
      case BadValue(d) => HasColon(part) && KeyText(part) == KeyName(d)
      case _ => false
  {
    PartMeans(part);
    if HasColon(part) {
      NumberIsParsed(ValueText(part));
      KeysAreNamed(Slots, KeyText(part));
      KeysAreNamed(Memory, KeyText(part));
      KeysAreNamed(Pids, KeyText(part));
    }
  }

  lemma PartSets(part: string, d: Dim)
    requires Legal(part)
    ensures Sets(Meaning(part), d) <==> ForKey(part, KeyName(d))
    ensures ForKey(part, KeyName(d)) ==> Meaning(part) == Setting(d, NumberOf(ValueText(part)))
  {
    if Trim(part) != "" {
      NumberIsParsed(ValueText(part));
      KeysAreNamed(d, KeyText(part));
    }
  }

  lemma {:induction false} NoneSet(ms: seq<Segment>, d: Dim)
    ensures Last(ms, d).None? <==> forall i :: 0 <= i < |ms| ==> !Sets(ms[i], d)
  {
    if ms != [] {
      NoneSet(ms[..|ms| - 1], d);
      assert forall i :: 0 <= i < |ms| - 1 ==> ms[..|ms| - 1][i] == ms[i];
    }
  }

  /** The meanings of the parts, as far as one key goes. */
  predicate Mirrors(parts: seq<string>, ms: seq<Segment>, d: Dim) {
    && |ms| == |parts|
    && forall i :: 0 <= i < |parts| ==>
         && (Sets(ms[i], d) <==> ForKey(parts[i], KeyName(d)))
         && (ForKey(parts[i], KeyName(d)) ==>
               NumberText(ValueText(parts[i])) && ms[i] == Setting(d, NumberOf(ValueText(parts[i]))))
  }

  lemma LegalMirrors(parts: seq<string>, d: Dim)
    requires forall i :: 0 <= i < |parts| ==> Legal(parts[i])
    ensures Mirrors(parts, Meanings(parts), d)
  {
    forall i | 0 <= i < |parts|
      ensures Sets(Meanings(parts)[i], d) <==> ForKey(parts[i], KeyName(d))
      ensures ForKey(parts[i], KeyName(d)) ==>
                NumberText(ValueText(parts[i])) && Meanings(parts)[i] == Setting(d, NumberOf(ValueText(parts[i])))
    {
      PartSets(parts[i], d);
    }
  }

  lemma LastIsGiven(parts: seq<string>, ms: seq<Segment>, d: Dim, v: U64)
    requires Mirrors(parts, ms, d)
    ensures Last(ms, d) == Some(v) <==> Gives(parts, KeyName(d), Some(v))
  {
    LastMeans(ms, d, v);
    if i :| 0 <= i < |ms| && ms[i] == Setting(d, v) && forall j :: i < j < |ms| ==> !Sets(ms[j], d) {
      assert Sets(ms[i], d);
      assert GivenAt(parts, KeyName(d), v, i);
    }
    if i :| 0 <= i < |parts| && GivenAt(parts, KeyName(d), v, i) {
      assert ms[i] == Setting(d, v);
    }
  }

  lemma GivesIsLast(parts: seq<string>, d: Dim, amount: Option<U64>)
    requires forall i :: 0 <= i < |parts| ==> Legal(parts[i])
    ensures Last(Meanings(parts), d) == amount <==> Gives(parts, KeyName(d), amount)
  {
    LegalMirrors(parts, d);
    match amount
    case None => NoneSet(Meanings(parts), d);
    case Some(v) => LastIsGiven(parts, Meanings(parts), d, v);
  }

  predicate AllLegal(parts: seq<string>) {
    forall i :: 0 <= i < |parts| ==> Legal(parts[i])
  }

  lemma WellFormedIsLegal(parts: seq<string>)
    ensures WellFormed(Meanings(parts)) <==> AllLegal(parts)
  {
    forall i | 0 <= i < |parts| ensures Meanings(parts)[i].Broken? <==> !Legal(parts[i]) { PartMeans(parts[i]); }
  }

  lemma {:induction false} SaysIsGives(parts: seq<string>, quota: Capacity)
    requires AllLegal(parts)
    ensures Says(Meanings(parts), quota) <==>
      && Gives(parts, "slots", Some(quota.taskSlots))
      && Gives(parts, "memory", quota.memoryBytes)
      && Gives(parts, "pids", quota.pids)
  {
    WellFormedIsLegal(parts);
    GivesIsLast(parts, Slots, Some(quota.taskSlots));
    GivesIsLast(parts, Memory, quota.memoryBytes);
    GivesIsLast(parts, Pids, quota.pids);
  }

  /** A specification denotes a quota exactly when its text reads so: a name before the first '=',
      then only blank parts and known keys with numbers, the last of each key giving its amount,
      and slots among them. */
  lemma {:induction false} DenotesIsReads(raw: string, name: string, quota: Capacity)
    ensures Denotes(raw, name, quota) <==> Reads(raw, name, quota)
  {
    if Find(raw, '=') < |raw| {
      var parts := Split(raw[Find(raw, '=') + 1..], ',');
      WellFormedIsLegal(parts);
      if AllLegal(parts) { SaysIsGives(parts, quota); }
    }
  }

  // ---- refusals

  /** A printed specification with arbitrary texts for its parts. */
  function Written(name: string, pad1: string, pad2: string, texts: seq<string>): string {
    pad1 + name + pad2 + "=" + Join(texts)
  }

  lemma WrittenParts(name: string, pad1: string, pad2: string, texts: seq<string>)
    requires PlainName(name) && AllSpace(pad1) && AllSpace(pad2)
    requires texts != [] && forall i :: 0 <= i < |texts| ==> Without(texts[i], ',')
    ensures var raw := Written(name, pad1, pad2, texts);
            Find(raw, '=') < |raw| && Split(raw[Find(raw, '=') + 1..], ',') == texts
  {
    var raw := Written(name, pad1, pad2, texts);
    var left, right := pad1 + name + pad2, Join(texts);
    assert raw == left + ['='] + right;
    assert Without(left, '=') by {
      assert Without(pad1, '=') && Without(pad2, '=');
    }
    FindAfter(left, right, '=');
    assert raw[|left| + 1..] == right;
    SplitJoin(texts);
  }

  lemma {:induction false} IllegalIsRefused(raw: string, k: nat, name: string, quota: Capacity)
    requires Find(raw, '=') < |raw| && k < |Split(raw[Find(raw, '=') + 1..], ',')|
    requires !Legal(Split(raw[Find(raw, '=') + 1..], ',')[k])
    ensures !Denotes(raw, name, quota)
  {
    var parts := Split(raw[Find(raw, '=') + 1..], ',');
    PartMeans(parts[k]);
    assert Meanings(parts)[k].Broken?;
    assert Body(raw) == Meanings(parts);
  }

  /** One part that is not legal, wherever it stands, spoils the whole specification. */
  lemma {:induction false} IllegalPartIsRefused(name: string, pad1: string, pad2: string, texts: seq<string>, k: nat,
                             other: string, quota: Capacity)
    requires PlainName(name) && AllSpace(pad1) && AllSpace(pad2)
    requires k < |texts| && !Legal(texts[k]) && forall i :: 0 <= i < |texts| ==> Without(texts[i], ',')
    ensures !Denotes(Written(name, pad1, pad2, texts), other, quota)
  {
    var raw := Written(name, pad1, pad2, texts);
    WrittenParts(name, pad1, pad2, texts);
    IllegalIsRefused(raw, k, other, quota);
  }

  /** Text without white space at its ends. */
  predicate Tight(s: string) {
    s != "" && !IsSpace(s[0]) && !IsSpace(s[|s| - 1])
  }

  lemma NoColonIsIllegal(pad1: string, text: string, pad2: string)
    requires AllSpace(pad1) && AllSpace(pad2) && Tight(text) && Without(text, ':')
    ensures !Legal(pad1 + text + pad2)
  {
    TrimPadded(pad1, text, pad2);
  }

  /** `key:value` with white space around both. */
  function Pair(pad1: string, key: string, pad2: string, pad3: string, value: string, pad4: string): string {
    pad1 + (key + pad2 + ":" + pad3 + value) + pad4
  }

  lemma PairText(pad1: string, key: string, pad2: string, pad3: string, value: string, pad4: string)
    requires AllSpace(pad1) && AllSpace(pad2) && AllSpace(pad3) && AllSpace(pad4)
    requires Tight(key) && Without(key, ':') && Tight(value)
    ensures var part := Pair(pad1, key, pad2, pad3, value, pad4);
            Trim(part) != "" && HasColon(part) && KeyText(part) == key && ValueText(part) == value
  {
    var core := key + pad2 + ":" + pad3 + value;
    assert core[0] == key[0] && core[|core| - 1] == value[|value| - 1];
    TrimPadded(pad1, core, pad4);
    var left, right := key + pad2, pad3 + value;
    assert core == left + [':'] + right;
    assert Without(left, ':') by { assert Without(pad2, ':'); }
    FindAfter(left, right, ':');
    assert core[..|left|] == left && core[|left| + 1..] == right;
    TrimPadded([], key, pad2);
    assert [] + key + pad2 == left;
    TrimPadded(pad3, value, []);
    assert pad3 + value + [] == right;
  }

  /** Legal is exactly: one of the three keys and a number. */
  lemma PairIsLegal(pad1: string, key: string, pad2: string, pad3: string, value: string, pad4: string)
    requires AllSpace(pad1) && AllSpace(pad2) && AllSpace(pad3) && AllSpace(pad4)
    requires Tight(key) && Without(key, ':') && Tight(value)
    ensures Legal(Pair(pad1, key, pad2, pad3, value, pad4)) <==> Known(key) && NumberText(value)
  {
    PairText(pad1, key, pad2, pad3, value, pad4);
  }

  /** Another key, or a value that is no number, anywhere in a printed specification is an error. */
  lemma {:induction false} BadPairIsRefused(name: string, pads: seq<string>, texts: seq<string>, k: nat, key: string,
                                            value: string, other: string, quota: Capacity)
    requires |pads| == 6 && forall i :: 0 <= i < 6 ==> AllSpace(pads[i])
    requires PlainName(name) && forall i :: 0 <= i < |texts| ==> Without(texts[i], ',')
    requires Tight(key) && Without(key, ':') && Tight(value) && (!Known(key) || !NumberText(value))
    requires k < |texts| && texts[k] == Pair(pads[0], key, pads[1], pads[2], value, pads[3])
    ensures !Denotes(Written(name, pads[4], pads[5], texts), other, quota)
  {
    PairIsLegal(pads[0], key, pads[1], pads[2], value, pads[3]);
    IllegalPartIsRefused(name, pads[4], pads[5], texts, k, other, quota);
  }

  /** A part without a colon anywhere in a printed specification is an error. */
  lemma {:induction false} MissingColonIsRefused(name: string, pads: seq<string>, texts: seq<string>, k: nat,
                                                 text: string, other: string, quota: Capacity)
    requires |pads| == 4 && forall i :: 0 <= i < 4 ==> AllSpace(pads[i])
    requires PlainName(name) && forall i :: 0 <= i < |texts| ==> Without(texts[i], ',')
    requires Tight(text) && Without(text, ':')
    requires k < |texts| && texts[k] == pads[0] + text + pads[1]
    ensures !Denotes(Written(name, pads[2], pads[3], texts), other, quota)
  {
    NoColonIsIllegal(pads[0], text, pads[1]);
    IllegalPartIsRefused(name, pads[2], pads[3], texts, k, other, quota);
  }
}
